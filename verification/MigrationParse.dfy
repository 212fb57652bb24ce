/** data/migration.go, parseMigrationContent: which files it accepts and what it makes of them, in terms of
    where the separators stand in the text. */
module MigrationParses {
  import opened Common
  import opened Decimals
  import opened Migrations
  import opened MigrationFiles

  // ------------------------------------------------------------------ trimming

  predicate BlankFrom(s: string, i: nat, j: nat)
    requires i <= j <= |s|
  {
    forall k :: i <= k < j ==> IsSpace(s[k])
  }

  /** The text of s without the blanks around it stands from i to j. */
  predicate TextAt(s: string, i: nat, j: nat)
  {
    && i <= j <= |s| && BlankFrom(s, 0, i) && BlankFrom(s, j, |s|)
    && (i < j ==> !IsSpace(s[i]) && !IsSpace(s[j - 1]))
  }

  /** r is s without the blanks around it. */
  ghost predicate Trimmed(s: string, r: string)
  {
    exists i: nat, j: nat :: TextAt(s, i, j) && r == s[i..j]
  }

  lemma {:induction false} TrimLeftDrops(s: string) returns (i: nat)
    ensures i <= |s| && TrimLeft(s) == s[i..] && BlankFrom(s, 0, i) && (i < |s| ==> !IsSpace(s[i]))
    decreases |s|
  {
    i := 0;
    if s != "" && IsSpace(s[0]) {
      var n := TrimLeftDrops(s[1..]);
      i := n + 1;
      forall k | 0 <= k < i ensures IsSpace(s[k]) {
        assert k > 0 ==> s[k] == s[1..][k - 1];
      }
    }
  }

  lemma {:induction false} TrimRightDrops(s: string) returns (j: nat)
    ensures j <= |s| && TrimRight(s) == s[..j] && BlankFrom(s, j, |s|) && (j > 0 ==> !IsSpace(s[j - 1]))
    decreases |s|
  {
    j := |s|;
    if s != "" && IsSpace(s[|s| - 1]) {
      var init := s[..|s| - 1];
      j := TrimRightDrops(init);
      assert init[..j] == s[..j];
      forall k | j <= k < |s| ensures IsSpace(s[k]) {
        assert k < |init| ==> s[k] == init[k];
      }
    }
  }

  lemma TrimSpaceTrims(s: string)
    ensures Trimmed(s, TrimSpace(s))
  {
    var i := TrimLeftDrops(s);
    var t := s[i..];
    var n := TrimRightDrops(t);
    assert t[..n] == s[i..i + n];
    forall k | i + n <= k < |s| ensures IsSpace(s[k]) {
      assert s[k] == t[k - i];
    }
    assert n > 0 ==> s[i + n - 1] == t[n - 1];
    assert TextAt(s, i, i + n);
  }

  lemma TextIsThere(s: string, i: nat, j: nat, k: nat, l: nat)
    requires TextAt(s, i, j) && TextAt(s, k, l) && i < j
    ensures k <= i && j <= l
  {
    assert !IsSpace(s[i]) && !IsSpace(s[j - 1]);
  }

  lemma TrimmedIsUnique(s: string, r: string, q: string)
    requires Trimmed(s, r) && Trimmed(s, q)
    ensures r == q
  {
    var i: nat, j: nat :| TextAt(s, i, j) && r == s[i..j];
    var k: nat, l: nat :| TextAt(s, k, l) && q == s[k..l];
    if i < j {
      TextIsThere(s, i, j, k, l);
    }
    if k < l {
      TextIsThere(s, k, l, i, j);
    }
  }

  // ------------------------------------------------------------------ numbers

  predicate Blanks(s: string) { forall i :: 0 <= i < |s| ==> s[i] == ' ' || s[i] == '\t' }

  predicate InRange(v: int) { -MAX_INT64 - 1 <= v <= MAX_INT64 }

  /** The number has a sign or none and ends before the first character that is not a digit. */
  predicate IsNumber(text: string, sign: string, digits: string, rest: string)
  {
    && text == sign + (digits + rest)
    && (sign == "" || sign == "+" || sign == "-") && digits != "" && AllDigits(digits)
    && (rest != "" ==> !IsDigit(rest[0]))
  }

  function Signed(sign: string, digits: string): int
    requires AllDigits(digits)
  {
    if sign == "-" then 0 - Value(digits) else Value(digits)
  }

  lemma {:induction false} LeadingDigitsStop(digits: string, rest: string)
    requires AllDigits(digits) && (rest != "" ==> !IsDigit(rest[0]))
    ensures LeadingDigits(digits + rest) == digits
    decreases |digits|
  {
    if digits != "" {
      var tail := digits[1..];
      assert (digits + rest)[1..] == tail + rest;
      assert AllDigits(tail);
      LeadingDigitsStop(tail, rest);
      assert digits == [digits[0]] + tail;
    } else {
      assert digits + rest == rest;
    }
  }

  lemma {:induction false} ScanSkipsBlanks(blanks: string, text: string)
    requires Blanks(blanks)
    ensures ScanInt(blanks + text) == ScanInt(text)
    decreases |blanks|
  {
    if blanks == "" {
      assert "" + text == text;
    } else {
      assert (blanks + text)[0] == blanks[0] && (blanks + text)[1..] == blanks[1..] + text;
      assert Blanks(blanks[1..]);
      ScanSkipsBlanks(blanks[1..], text);
    }
  }

  lemma ScanDigitsReads(negative: bool, digits: string, rest: string)
    requires digits != "" && AllDigits(digits) && (rest != "" ==> !IsDigit(rest[0]))
    ensures var v: int := if negative then 0 - Value(digits) else Value(digits);
            ScanDigits(negative, digits + rest) == if InRange(v) then Some(v) else None
  {
    LeadingDigitsStop(digits, rest);
  }

  lemma ScanUnsigned(tail: string)
    requires tail != "" && IsDigit(tail[0])
    ensures ScanInt(tail) == ScanDigits(false, tail)
  {
  }

  lemma ScanSign(sign: char, tail: string)
    requires sign == '-' || sign == '+'
    ensures ScanInt([sign] + tail) == ScanDigits(sign == '-', tail)
  {
    assert ([sign] + tail)[1..] == tail;
  }

  lemma ScanAfterBlanks(sign: string, digits: string, rest: string)
    requires IsNumber(sign + (digits + rest), sign, digits, rest)
    ensures ScanInt(sign + (digits + rest))
         == if InRange(Signed(sign, digits)) then Some(Signed(sign, digits)) else None
  {
    var tail := digits + rest;
    ScanDigitsReads(sign == "-", digits, rest);
    if sign == "" {
      assert tail[0] == digits[0];
      ScanUnsigned(tail);
      assert sign + tail == tail;
    } else {
      ScanSign(sign[0], tail);
    }
  }

  /** Sscanf skips blanks, reads the number and ignores what follows it; a number outside int64 is an error. */
  lemma ScanReadsTheNumber(blanks: string, text: string, sign: string, digits: string, rest: string)
    requires Blanks(blanks) && IsNumber(text, sign, digits, rest)
    ensures ScanInt(blanks + text) == if InRange(Signed(sign, digits)) then Some(Signed(sign, digits)) else None
  {
    ScanSkipsBlanks(blanks, text);
    ScanAfterBlanks(sign, digits, rest);
  }

  lemma {:induction false} LeadingDigitsAreAll(s: string)
    ensures var n := |LeadingDigits(s)|; n < |s| ==> !IsDigit(s[n])
    decreases |s|
  {
    if s != "" && IsDigit(s[0]) {
      LeadingDigitsAreAll(s[1..]);
    }
  }

  lemma DigitsAndRest(tail: string) returns (digits: string, rest: string)
    requires LeadingDigits(tail) != ""
    ensures tail == digits + rest && digits != "" && AllDigits(digits) && (rest != "" ==> !IsDigit(rest[0]))
  {
    digits := LeadingDigits(tail);
    rest := tail[|digits|..];
    LeadingDigitsAreAll(tail);
    assert tail == digits + rest;
  }

  lemma ScanStartsAtANumber(text: string) returns (sign: string, digits: string, rest: string)
    requires ScanInt(text).Some? && text != "" && text[0] != ' ' && text[0] != '\t'
    ensures IsNumber(text, sign, digits, rest)
  {
    if text[0] == '-' || text[0] == '+' {
      digits, rest := DigitsAndRest(text[1..]);
      sign := [text[0]];
      assert text == sign + text[1..];
    } else {
      digits, rest := DigitsAndRest(text);
      sign := "";
      assert text == sign + text;
    }
  }

  /** Sscanf reads nothing but numbers after blanks. */
  lemma {:induction false} ScanNeedsANumber(s: string)
      returns (blanks: string, text: string, sign: string, digits: string, rest: string)
    requires ScanInt(s).Some?
    ensures s == blanks + text && Blanks(blanks) && IsNumber(text, sign, digits, rest)
    decreases |s|
  {
    if s != "" && (s[0] == ' ' || s[0] == '\t') {
      blanks, text, sign, digits, rest := ScanNeedsANumber(s[1..]);
      assert s == [s[0]] + s[1..];
      blanks := [s[0]] + blanks;
    } else {
      blanks, text := "", s;
      sign, digits, rest := ScanStartsAtANumber(s);
      assert s == "" + s;
    }
  }

  // ------------------------------------------------------------------ separators

  /** The first occurrence of sep is at i. */
  predicate FirstAt(s: string, sep: string, i: nat)
  {
    At(s, sep, i) && forall j :: 0 <= j < i ==> !At(s, sep, j)
  }

  /** The separator occurs at i, and neither before nor after that occurrence. */
  predicate OnlyAt(s: string, sep: string, i: nat)
  {
    FirstAt(s, sep, i) && forall j :: i + |sep| <= j <= |s| ==> !At(s, sep, j)
  }

  predicate Absent(s: string, sep: string) { forall j :: 0 <= j <= |s| ==> !At(s, sep, j) }

  lemma FindsTheFirst(s: string, sep: string, i: nat)
    requires FirstAt(s, sep, i)
    ensures Find(s, sep, 0) == i
  {
  }

  lemma AtShifts(s: string, sep: string, from: nat, j: nat)
    requires from <= |s|
    ensures At(s[from..], sep, j) <==> At(s, sep, from + j)
  {
    if from + j + |sep| <= |s| {
      assert s[from..][j..j + |sep|] == s[from + j..from + j + |sep|];
    }
  }

  lemma AbsentFrom(s: string, sep: string, from: nat)
    requires from <= |s|
    ensures Absent(s[from..], sep) <==> forall j :: from <= j <= |s| ==> !At(s, sep, j)
  {
    if Absent(s[from..], sep) {
      forall j | from <= j <= |s| ensures !At(s, sep, j) {
        AtShifts(s, sep, from, j - from);
      }
    }
    if forall j :: from <= j <= |s| ==> !At(s, sep, j) {
      forall j | 0 <= j <= |s[from..]| ensures !At(s[from..], sep, j) {
        AtShifts(s, sep, from, j);
      }
    }
  }

  lemma AbsentIsNotFound(s: string, sep: string)
    ensures Absent(s, sep) <==> Find(s, sep, 0) > |s|
  {
  }

  lemma OnePieceExactly(s: string, sep: string)
    requires sep != ""
    ensures |Split(s, sep)| == 1 <==> Find(s, sep, 0) > |s|
    ensures |Split(s, sep)| == 1 ==> Split(s, sep) == [s]
  {
    var i := Find(s, sep, 0);
    if i <= |s| {
      var rest := Split(s[i + |sep|..], sep);
      assert |rest| >= 1 && |[s[..i]] + rest| == 1 + |rest|;
    }
  }

  lemma NoneFrom(s: string, sep: string, from: nat)
    requires from <= |s|
    ensures Find(s[from..], sep, 0) > |s[from..]| <==> forall j :: from <= j <= |s| ==> !At(s, sep, j)
  {
    AbsentFrom(s, sep, from);
    AbsentIsNotFound(s[from..], sep);
  }

  lemma TwoPieces(s: string, sep: string, i: nat)
    requires sep != "" && i <= |s| && Find(s, sep, 0) == i
    requires Find(s[i + |sep|..], sep, 0) > |s[i + |sep|..]|
    ensures Split(s, sep) == [s[..i], s[i + |sep|..]]
  {
  }

  lemma SplitsAtTheOnly(s: string, sep: string, i: nat)
    requires sep != "" && i <= |s| && OnlyAt(s, sep, i)
    ensures Split(s, sep) == [s[..i], s[i + |sep|..]]
  {
    assert Find(s[i + |sep|..], sep, 0) > |s[i + |sep|..]| by {
      NoneFrom(s, sep, i + |sep|);
    }
    assert Find(s, sep, 0) == i by {
      FindsTheFirst(s, sep, i);
    }
    TwoPieces(s, sep, i);
  }

  lemma SecondPieceIsWhole(s: string, sep: string)
    requires sep != "" && |Split(s, sep)| == 2
    ensures var i := Find(s, sep, 0); i <= |s| && Find(s[i + |sep|..], sep, 0) > |s[i + |sep|..]|
  {
    OnePieceExactly(s, sep);
    OnePieceExactly(s[Find(s, sep, 0) + |sep|..], sep);
  }

  lemma TwoPiecesHaveAnOnly(s: string, sep: string)
    requires sep != "" && |Split(s, sep)| == 2
    ensures Find(s, sep, 0) <= |s| && OnlyAt(s, sep, Find(s, sep, 0))
  {
    SecondPieceIsWhole(s, sep);
    NoneFrom(s, sep, Find(s, sep, 0) + |sep|);
  }

  /** Two pieces exactly when the separator occurs once. */
  lemma SplitsInTwoExactly(s: string, sep: string)
    requires sep != ""
    ensures |Split(s, sep)| == 2 <==> exists i :: 0 <= i <= |s| && OnlyAt(s, sep, i)
  {
    if |Split(s, sep)| == 2 {
      TwoPiecesHaveAnOnly(s, sep);
    }
    if i :| 0 <= i <= |s| && OnlyAt(s, sep, i) {
      SplitsAtTheOnly(s, sep, i);
    }
  }

  // ------------------------------------------------------------------ the parser

  /** r is s without the prefix, if it has it. */
  predicate WithoutPrefix(s: string, prefix: string, r: string) { s == prefix + r || (s == r && !(prefix <= s)) }

  /** r is s without the suffix, if it has it. */
  predicate WithoutSuffix(s: string, suffix: string, r: string)
  {
    s == r + suffix || (s == r && !(|suffix| <= |s| && s[|s| - |suffix|..] == suffix))
  }

  lemma TrimSuffixIs(s: string, suffix: string, r: string)
    ensures WithoutSuffix(s, suffix, r) <==> r == TrimSuffix(s, suffix)
  {
    if |suffix| <= |s| && s[|s| - |suffix|..] == suffix {
      assert s == s[..|s| - |suffix|] + suffix;
    }
    if s == r + suffix {
      assert s[|s| - |suffix|..] == suffix && s[..|s| - |suffix|] == r;
    }
  }

  lemma TrimPrefixIs(s: string, prefix: string, r: string)
    ensures WithoutPrefix(s, prefix, r) <==> r == TrimPrefix(s, prefix)
  {
    if prefix <= s {
      assert s == prefix + s[|prefix|..];
    }
    if s == prefix + r {
      assert s[|prefix|..] == r;
    }
  }

  /** The migration of a file whose name is cut at i and whose content is cut at j. */
  ghost predicate Reads(filename: string, i: nat, content: string, j: nat, m: Migration)
    requires i + 2 <= |filename| && j + |DOWN| <= |content|
  {
    && (exists v :: WithoutPrefix(filename[..i], "V", v) && ScanInt(v) == Some(m.version))
    && WithoutSuffix(filename[i + 2..], ".sql", m.description)
    && Trimmed(content[..j], m.upSQL) && Trimmed(content[j + |DOWN|..], m.downSQL)
  }

  /** What a file parses to: its name is cut at the first double underscore and its content at the one DOWN
      line. */
  lemma ParsedIsRead(filename: string, content: string, i: nat, j: nat, m: Migration)
    requires FirstAt(filename, "__", i) && OnlyAt(content, DOWN, j)
    ensures ParseFile(filename, content) == Ok(m) <==> Reads(filename, i, content, j, m)
  {
    FindsTheFirst(filename, "__", i);
    SplitsAtTheOnly(content, DOWN, j);
    var v := TrimPrefix(filename[..i], "V");
    forall r ensures WithoutPrefix(filename[..i], "V", r) <==> r == v {
      TrimPrefixIs(filename[..i], "V", r);
    }
    TrimSuffixIs(filename[i + 2..], ".sql", m.description);
    forall s, r ensures Trimmed(s, r) <==> r == TrimSpace(s) {
      TrimSpaceTrims(s);
      if Trimmed(s, r) {
        TrimmedIsUnique(s, r, TrimSpace(s));
      }
    }
  }

  /** Which files are refused, and why; the first reason counts. */
  lemma RefusedExactly(filename: string, content: string)
    ensures ParseFile(filename, content) == Err(BadFilename) <==> Absent(filename, "__")
    ensures ParseFile(filename, content) == Err(BadVersion) <==>
              exists i :: 0 <= i <= |filename| && FirstAt(filename, "__", i)
                          && ScanInt(TrimPrefix(filename[..i], "V")).None?
    ensures ParseFile(filename, content) == Err(BadSections) <==>
              && (exists i :: 0 <= i <= |filename| && FirstAt(filename, "__", i)
                              && ScanInt(TrimPrefix(filename[..i], "V")).Some?)
              && !exists j :: 0 <= j <= |content| && OnlyAt(content, DOWN, j)
  {
    var i := Find(filename, "__", 0);
    SplitsInTwoExactly(content, DOWN);
    if i <= |filename| {
      assert FirstAt(filename, "__", i);
      forall k | 0 <= k <= |filename| && FirstAt(filename, "__", k) ensures k == i {
        FindsTheFirst(filename, "__", k);
      }
    }
  }

  // ------------------------------------------------------------------ the printed file

  const UP_TEXT := "\n\n-- Write your UP migration SQL here"
  const DOWN_TEXT := "-- Write your DOWN migration SQL here"

  lemma TrimsTo(before: string, text: string, after: string)
    requires text != "" && !IsSpace(text[0]) && !IsSpace(text[|text| - 1])
    requires BlankFrom(before, 0, |before|) && BlankFrom(after, 0, |after|)
    ensures TrimSpace(before + text + after) == text
  {
    var s, i, j := before + text + after, |before|, |before| + |text|;
    assert s[i..j] == text;
    assert s[i] == text[0] && s[j - 1] == text[|text| - 1];
    forall k | j <= k < |s| ensures IsSpace(s[k]) {
      assert s[k] == after[k - j];
    }
    assert TextAt(s, i, j);
    TrimSpaceTrims(s);
    TrimmedIsUnique(s, text, TrimSpace(s));
  }

  lemma RestTrims()
    ensures TrimSpace(REST) == DOWN_TEXT
  {
    assert REST == "\n\n" + DOWN_TEXT + "\n";
    TrimsTo("\n\n", DOWN_TEXT, "\n");
  }

  lemma UpTrims(first: string)
    requires first != "" && !IsSpace(first[0])
    ensures TrimSpace(first + UP) == first + UP_TEXT
  {
    assert UP == UP_TEXT + "\n\n";
    var text := first + UP_TEXT;
    assert first + UP == "" + text + "\n\n";
    assert text[0] == first[0] && text[|text| - 1] == UP_TEXT[|UP_TEXT| - 1] == 'e';
    TrimsTo("", text, "\n\n");
  }

  /** Sanitising keeps ASCII letters and digits and makes an underscore of everything else. */
  lemma SanitizedCharacter(name: string, i: nat)
    requires i < |name|
    ensures var c := name[i];
            Sanitize(name)[i] == if IsDigit(c) || 'a' <= c <= 'z' || 'A' <= c <= 'Z' then c else '_'
  {
  }

  /** Both sections of a created file are the printed comments, without the blank lines around them. */
  lemma CreatedFileHasTheComments(version: nat, name: string, stamp: string)
    requires 0 < version <= MAX_INT64 && name != "" && IsStamp(stamp)
    ensures ParseFile(Filename(version, name), Content(name, stamp))
         == Ok(Migration(version, Sanitize(name), HEAD + Sanitize(name) + CREATED + stamp + UP_TEXT, DOWN_TEXT))
  {
    CreatedFileParsesBack(version, name, stamp);
    RestTrims();
    var first := HEAD + Sanitize(name) + CREATED + stamp;
    assert first[0] == HEAD[0] == '-';
    UpTrims(first);
  }
}
