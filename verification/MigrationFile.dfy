/** cli/migration.go, data/migration.go: the file that `migration create` prints and the parser that reads
    it back. Strings are sequences of characters. */
module MigrationFiles {
  import opened Common
  import opened Decimals
  import opened Migrations

  // ------------------------------------------------------------------ the strings package

  predicate At(s: string, sep: string, i: nat)
  {
    i + |sep| <= |s| && s[i..i + |sep|] == sep
  }

  /** The first index at or after `from` where sep occurs, or |s| + 1. */
  function Find(s: string, sep: string, from: nat): (i: nat)
    requires from <= |s|
    ensures i <= |s| + 1 && (i <= |s| ==> from <= i && At(s, sep, i))
    ensures forall j :: from <= j < i && j <= |s| ==> !At(s, sep, j)
    decreases |s| - from
  {
    if At(s, sep, from) then from
    else if from == |s| then |s| + 1
    else Find(s, sep, from + 1)
  }

  /** strings.Split for a non-empty separator: the pieces between its occurrences from left to right. */
  function Split(s: string, sep: string): (parts: seq<string>)
    requires sep != ""
    ensures |parts| >= 1
    decreases |s|
  {
    var i := Find(s, sep, 0);
    if i > |s| then [s] else [s[..i]] + Split(s[i + |sep|..], sep)
  }

  /** strings.SplitN(s, sep, 2) */
  function SplitOnce(s: string, sep: string): seq<string>
    requires sep != ""
  {
    var i := Find(s, sep, 0);
    if i > |s| then [s] else [s[..i], s[i + |sep|..]]
  }

  function TrimPrefix(s: string, p: string): string { if p <= s then s[|p|..] else s }

  function TrimSuffix(s: string, p: string): string
  {
    if |p| <= |s| && s[|s| - |p|..] == p then s[..|s| - |p|] else s
  }

  /** unicode.IsSpace */
  predicate IsSpace(c: char)
  {
    var n := c as int;
    || 9 <= n <= 13 || n == 32 || n == 0x85 || n == 0xA0 || n == 0x1680 || 0x2000 <= n <= 0x200a
    || n == 0x2028 || n == 0x2029 || n == 0x202f || n == 0x205f || n == 0x3000
  }

  function TrimLeft(s: string): string { if s != "" && IsSpace(s[0]) then TrimLeft(s[1..]) else s }

  function TrimRight(s: string): string { if s != "" && IsSpace(s[|s| - 1]) then TrimRight(s[..|s| - 1]) else s }

  function TrimSpace(s: string): string { TrimRight(TrimLeft(s)) }

  // ------------------------------------------------------------------ numbers

  function LeadingDigits(s: string): (r: string)
    ensures AllDigits(r) && r <= s
  {
    if s == "" || !IsDigit(s[0]) then "" else [s[0]] + LeadingDigits(s[1..])
  }

  lemma {:induction false} LeadingDigitsAll(s: string)
    requires AllDigits(s)
    ensures LeadingDigits(s) == s
    decreases |s|
  {
    if s != "" {
      assert AllDigits(s[1..]) by {
        forall i | 0 <= i < |s[1..]| ensures IsDigit(s[1..][i]) {
          assert s[1..][i] == s[i + 1];
        }
      }
      LeadingDigitsAll(s[1..]);
    }
  }

  const MAX_INT64 := 0x7fff_ffff_ffff_ffff

  /** The digits at the front as an int64; what follows them is ignored. */
  function ScanDigits(negative: bool, s: string): Option<int>
  {
    var digits := LeadingDigits(s);
    if digits == "" then None
    else
      var v: int := if negative then 0 - Value(digits) else Value(digits);
      if -MAX_INT64 - 1 <= v <= MAX_INT64 then Some(v) else None
  }

  /** fmt.Sscanf(s, "%d", &version) into an int64: blanks, an optional sign, then digits. */
  function ScanInt(s: string): Option<int>
  {
    if s == "" then None
    else if s[0] == ' ' || s[0] == '\t' then ScanInt(s[1..])
    else if s[0] == '-' || s[0] == '+' then ScanDigits(s[0] == '-', s[1..])
    else ScanDigits(false, s)
  }

  // ------------------------------------------------------------------ the parser

  datatype FileError = BadFilename | BadVersion | BadSections

  const DOWN := "-- DOWN"

  /** parseMigrationContent, up to the final AddMigration. */
  function ParseFile(filename: string, content: string): Result<Migration, FileError>
  {
    var parts := SplitOnce(filename, "__");
    if |parts| != 2 then Err(BadFilename)
    else
      var version := ScanInt(TrimPrefix(parts[0], "V"));
      if version.None? then Err(BadVersion)
      else
        var sections := Split(content, DOWN);
        if |sections| != 2 then Err(BadSections)
        else Ok(Migration(version.value, TrimSuffix(parts[1], ".sql"), TrimSpace(sections[0]), TrimSpace(sections[1])))
  }

  // ------------------------------------------------------------------ the printer

  function SanitizeChar(c: char): char
  {
    if 'a' <= c <= 'z' || 'A' <= c <= 'Z' || '0' <= c <= '9' then c else '_'
  }

  function Sanitize(name: string): (r: string)
    ensures |r| == |name| && forall i :: 0 <= i < |r| ==> r[i] == SanitizeChar(name[i])
  {
    if name == "" then "" else [SanitizeChar(name[0])] + Sanitize(name[1..])
  }

  function Filename(version: nat, name: string): string
  {
    "V" + Decimal(version) + "__" + Sanitize(name) + ".sql"
  }

  const HEAD := "-- Migration: "
  const CREATED := "\n-- Created at: "
  const UP := "\n\n-- Write your UP migration SQL here\n\n"
  const REST := "\n\n-- Write your DOWN migration SQL here\n"

  function UpPart(name: string, stamp: string): string { HEAD + Sanitize(name) + CREATED + stamp + UP }

  /** The file; `stamp` is the creation time in RFC 3339 form. */
  function Content(name: string, stamp: string): string { UpPart(name, stamp) + DOWN + REST }

  /** The characters of RFC 3339 timestamps. */
  predicate IsStamp(stamp: string)
  {
    forall i :: 0 <= i < |stamp| ==> IsDigit(stamp[i]) || stamp[i] in "-:TZ+."
  }

  // ------------------------------------------------------------------ the file name round trip

  lemma FilenameSplits(version: nat, name: string)
    ensures SplitOnce(Filename(version, name), "__") == ["V" + Decimal(version), Sanitize(name) + ".sql"]
  {
    var first, last := "V" + Decimal(version), Sanitize(name) + ".sql";
    var s := first + "__" + last;
    assert s == Filename(version, name);
    assert At(s, "__", |first|);
    forall j | 0 <= j < |first| ensures !At(s, "__", j) {
      assert s[j] == first[j] && first[j] != '_';
      assert j + 2 <= |s| ==> s[j..j + 2][0] == s[j];
    }
    assert Find(s, "__", 0) == |first|;
    assert s[..|first|] == first && s[|first| + 2..] == last;
  }

  lemma VersionScans(version: nat)
    requires version <= MAX_INT64
    ensures ScanInt(TrimPrefix("V" + Decimal(version), "V")) == Some(version)
  {
    var d := Decimal(version);
    assert ("V" + d)[1..] == d;
    assert IsDigit(d[0]);
    LeadingDigitsAll(d);
    ValueOfDecimal(version);
  }

  lemma NameTrims(name: string)
    ensures TrimSuffix(Sanitize(name) + ".sql", ".sql") == Sanitize(name)
  {
    var s := Sanitize(name) + ".sql";
    assert s[|s| - 4..] == ".sql" && s[..|s| - 4] == Sanitize(name);
  }

  // ------------------------------------------------------------------ the content round trip

  /** Where the separator stands there are two dashes, a space and a D. */
  lemma Marks(s: string, i: nat)
    requires At(s, DOWN, i)
    ensures i + 4 <= |s| && s[i] == '-' && s[i + 1] == '-' && s[i + 2] == ' ' && s[i + 3] == 'D'
  {
    var w := s[i..i + 7];
    assert w[0] == s[i] && w[1] == s[i + 1] && w[2] == s[i + 2] && w[3] == s[i + 3];
  }

  /** No separator starts inside a piece of text in which every dash pair and space is followed by a letter
      other than D, or is interrupted by what follows. */
  predicate NoMark(s: string, i: nat)
  {
    !(i + 4 <= |s| && s[i] == '-' && s[i + 1] == '-' && s[i + 2] == ' ' && s[i + 3] == 'D')
  }

  lemma MarkNeeded(s: string, i: nat)
    requires NoMark(s, i)
    ensures !At(s, DOWN, i)
  {
    if At(s, DOWN, i) {
      Marks(s, i);
    }
  }

  lemma HeadHasNoMark(rest: string, i: nat)
    requires i < |HEAD|
    ensures NoMark(HEAD + rest, i)
  {
    var s := HEAD + rest;
    assert s[i] == HEAD[i];
    assert HEAD[i] == '-' ==> i < 2;
    assert s[3] == 'M' && s[2] == ' ';
  }

  lemma NameHasNoMark(before: string, name: string, rest: string, i: nat)
    requires |before| <= i < |before| + |name|
    ensures NoMark(before + Sanitize(name) + rest, i)
  {
    var k := i - |before|;
    assert Sanitize(name)[k] == SanitizeChar(name[k]) && SanitizeChar(name[k]) != '-';
    assert (before + Sanitize(name) + rest)[i] == Sanitize(name)[k];
  }

  lemma CreatedHasNoMark(before: string, rest: string, i: nat)
    requires |before| <= i < |before| + |CREATED|
    ensures NoMark(before + CREATED + rest, i)
  {
    var s, k := before + CREATED + rest, i - |before|;
    assert s[i] == CREATED[k];
    assert CREATED[k] == '-' ==> k == 1 || k == 2;
    assert s[|before| + 3] == ' ' && s[|before| + 4] == 'C';
  }

  lemma StampHasNoMark(before: string, stamp: string, rest: string, i: nat)
    requires IsStamp(stamp) && |before| <= i < |before| + |stamp| && rest != "" && rest[0] == '\n'
    ensures NoMark(before + stamp + rest, i)
  {
    var s := before + stamp + rest;
    var e := |before| + |stamp|;
    assert s[e] == '\n';
    assert i + 1 < e ==> s[i + 1] == stamp[i + 1 - |before|];
    assert i + 2 < e ==> s[i + 2] == stamp[i + 2 - |before|];
  }

  lemma UpHasNoMark(before: string, rest: string, i: nat)
    requires |before| <= i < |before| + |UP|
    ensures NoMark(before + UP + rest, i)
  {
    var s, k := before + UP + rest, i - |before|;
    assert s[i] == UP[k];
    assert UP[k] == '-' ==> k == 2 || k == 3;
    assert s[|before| + 4] == ' ' && s[|before| + 5] == 'W';
  }

  /** Every piece of the file as the middle of three. */
  lemma Regroup(h: string, n: string, c: string, t: string, u: string, r: string)
    ensures h + n + c + t + u + r == h + (n + c + t + u + r)
    ensures h + n + c + t + u + r == h + n + (c + t + u + r)
    ensures h + n + c + t + u + r == (h + n) + c + (t + u + r)
    ensures h + n + c + t + u + r == (h + n + c) + t + (u + r)
  {
  }

  /** The only separator of the printed file is the printed one, whatever the name. */
  lemma UpPartHasNoMark(name: string, stamp: string, rest: string, i: nat)
    requires IsStamp(stamp) && i < |UpPart(name, stamp)|
    ensures NoMark(UpPart(name, stamp) + rest, i)
  {
    PiecesHaveNoMark(HEAD, name, CREATED, stamp, UP, rest, i);
  }

  lemma PiecesHaveNoMark(h: string, name: string, c: string, stamp: string, u: string, rest: string, i: nat)
    requires h == HEAD && c == CREATED && u == UP && u != "" && u[0] == '\n'
    requires IsStamp(stamp) && i < |h + Sanitize(name) + c + stamp + u|
    ensures NoMark(h + Sanitize(name) + c + stamp + u + rest, i)
  {
    var n := Sanitize(name);
    Regroup(h, n, c, stamp, u, rest);
    if i < |h| {
      HeadHasNoMark(n + c + stamp + u + rest, i);
    } else if i < |h| + |n| {
      NameHasNoMark(h, name, c + stamp + u + rest, i);
    } else if i < |h| + |n| + |c| {
      CreatedHasNoMark(h + n, stamp + u + rest, i);
    } else if i < |h| + |n| + |c| + |stamp| {
      StampHasNoMark(h + n + c, stamp, u + rest, i);
    } else {
      UpHasNoMark(h + n + c + stamp, rest, i);
    }
  }

  lemma RestHasNoMark(i: nat)
    requires i <= |REST|
    ensures !At(REST, DOWN, i)
  {
    if i < |REST| {
      assert REST[i] == '-' ==> i == 2 || i == 3;
      assert REST[3] == '-' && REST[4] == ' ' && REST[5] == 'W';
      MarkNeeded(REST, i);
    }
  }

  /** A separator that occurs once splits a text into the two parts around it. */
  lemma SplitAround(first: string, sep: string, second: string)
    requires sep != ""
    requires forall j :: 0 <= j < |first| ==> !At(first + sep + second, sep, j)
    requires forall j :: 0 <= j <= |second| ==> !At(second, sep, j)
    ensures Split(first + sep + second, sep) == [first, second]
  {
    var s := first + sep + second;
    assert s[|first|..|first| + |sep|] == sep;
    assert At(s, sep, |first|);
    assert Find(s, sep, 0) == |first|;
    assert s[..|first|] == first && s[|first| + |sep|..] == second;
    assert Find(second, sep, 0) > |second|;
    assert Split(second, sep) == [second];
  }

  /** The printed file has exactly one up and one down section. */
  lemma ContentSplits(name: string, stamp: string)
    requires IsStamp(stamp)
    ensures Split(Content(name, stamp), DOWN) == [UpPart(name, stamp), REST]
  {
    var up := UpPart(name, stamp);
    forall j | 0 <= j < |up| ensures !At(up + DOWN + REST, DOWN, j) {
      assert up + DOWN + REST == up + (DOWN + REST);
      UpPartHasNoMark(name, stamp, DOWN + REST, j);
      MarkNeeded(up + DOWN + REST, j);
    }
    forall j | 0 <= j <= |REST| ensures !At(REST, DOWN, j) {
      RestHasNoMark(j);
    }
    SplitAround(up, DOWN, REST);
  }

  lemma {:induction false} TrimKeepsText(s: string, i: nat)
    requires i < |s| && !IsSpace(s[i])
    ensures TrimSpace(s) != ""
  {
    TrimLeftKeepsText(s, i);
    var t := TrimLeft(s);
    var j :| 0 <= j < |t| && !IsSpace(t[j]);
    TrimRightKeepsText(t, j);
  }

  lemma {:induction false} TrimLeftKeepsText(s: string, i: nat)
    requires i < |s| && !IsSpace(s[i])
    ensures exists j :: 0 <= j < |TrimLeft(s)| && !IsSpace(TrimLeft(s)[j])
    decreases |s|
  {
    if IsSpace(s[0]) {
      TrimLeftKeepsText(s[1..], i - 1);
      assert TrimLeft(s) == TrimLeft(s[1..]);
    } else {
      assert !IsSpace(TrimLeft(s)[i]);
    }
  }

  lemma {:induction false} TrimRightKeepsText(s: string, i: nat)
    requires i < |s| && !IsSpace(s[i])
    ensures TrimRight(s) != ""
    decreases |s|
  {
    if IsSpace(s[|s| - 1]) {
      TrimRightKeepsText(s[..|s| - 1], i);
    }
  }

  /** The file that `migration create` prints parses back to exactly the printed version and the sanitised
      name, with one non-empty up and one non-empty down section. */
  lemma CreatedFileParsesBack(version: nat, name: string, stamp: string)
    requires 0 < version <= MAX_INT64 && name != "" && IsStamp(stamp)
    ensures ParseFile(Filename(version, name), Content(name, stamp))
         == Ok(Migration(version, Sanitize(name), TrimSpace(UpPart(name, stamp)), TrimSpace(REST)))
    ensures Sanitize(name) != "" && TrimSpace(UpPart(name, stamp)) != "" && TrimSpace(REST) != ""
  {
    FilenameSplits(version, name);
    VersionScans(version);
    NameTrims(name);
    ContentSplits(name, stamp);
    assert UpPart(name, stamp)[0] == HEAD[0];
    TrimKeepsText(UpPart(name, stamp), 0);
    assert REST[2] == '-';
    TrimKeepsText(REST, 2);
  }

  /** Two created files name the same version and description only when version and sanitised name agree. */
  lemma FilenameInjective(v: nat, name: string, w: nat, other: string)
    requires Filename(v, name) == Filename(w, other)
    ensures v == w && Sanitize(name) == Sanitize(other)
  {
    FilenameSplits(v, name);
    FilenameSplits(w, other);
    assert ("V" + Decimal(v))[1..] == Decimal(v) && ("V" + Decimal(w))[1..] == Decimal(w);
    ValueOfDecimal(v);
    ValueOfDecimal(w);
    NameTrims(name);
    NameTrims(other);
  }
}
