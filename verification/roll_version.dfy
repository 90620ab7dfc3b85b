/** The release script: bump one level of a `major.minor.patch.dev`
    version, format the tag, and rewrite the version line of
    `pyproject.toml`.

    The version file, the tag file and `pyproject.toml` are read and
    written by the script; here the version record, the argument vector
    and the list of lines are parameters and the results are returned.
 */
module RollVersion {
  import opened Errors
  import opened Text

  /** The contents of the version file. */
  datatype Version = Version(major: int, minor: int, patch: int, dev: int)

  /** The keys of the version file. */
  predicate IsLevel(key: string) {
    key == "major" || key == "minor" || key == "patch" || key == "dev"
  }

  /** The field under a key of the version file. */
  function Get(v: Version, key: string): Option<int> {
    if key == "major" then Some(v.major)
    else if key == "minor" then Some(v.minor)
    else if key == "patch" then Some(v.patch)
    else if key == "dev" then Some(v.dev)
    else None
  }

  /** The level is the first argument whose lower-case form names a level,
      kept as it was typed; with none, `dev`. */
  function SelectLevel(argv: seq<string>): (level: string)
    ensures IsLevel(Lower(level))
    ensures level == "dev" || exists i :: 0 <= i < |argv| && argv[i] == level
    ensures forall i :: 0 <= i < |argv| && IsLevel(Lower(argv[i])) ==>
      exists j :: 0 <= j <= i && argv[j] == level
    ensures (forall i :: 0 <= i < |argv| ==> !IsLevel(Lower(argv[i]))) ==> level == "dev"
  {
    LowerOfLowercase("dev");
    if |argv| == 0 then "dev"
    else if IsLevel(Lower(argv[0])) then argv[0]
    else
      var level := SelectLevel(argv[1..]);
      assert forall i :: 1 <= i < |argv| ==> argv[i] == argv[1..][i - 1];
      level
  }

  /** The rank of a level: 0 for `major` up to 3 for `dev`. */
  function Rank(key: string): nat
    requires IsLevel(key)
  {
    if key == "major" then 0 else if key == "minor" then 1 else if key == "patch" then 2 else 3
  }

  /** `version[level] += 1` and the resets: a level that is not one of the
      four keys raises KeyError. */
  function Bump(v: Version, level: string): (r: Result<Version>)
    ensures r.Ok? <==> IsLevel(level)
    ensures r.Err? ==> r.FailsWith(KeyMissing)
    ensures r.Ok? ==> Get(r.value, level).value == Get(v, level).value + 1
    ensures r.Ok? ==> forall k :: IsLevel(k) && Rank(k) < Rank(level) ==> Get(r.value, k) == Get(v, k)
    ensures r.Ok? ==> forall k :: IsLevel(k) && Rank(k) > Rank(level) ==> Get(r.value, k) == Some(0)
  {
    if !IsLevel(level) then Err(KeyMissing)
    else
      var bumped :=
        if level == "major" then v.(major := v.major + 1)
        else if level == "minor" then v.(minor := v.minor + 1)
        else if level == "patch" then v.(patch := v.patch + 1)
        else v.(dev := v.dev + 1);
      var w := if level in ["major", "minor", "patch"] then bumped.(dev := 0) else bumped;
      var x := if level in ["major", "minor"] then w.(patch := 0) else w;
      var y := if level == "major" then x.(minor := 0) else x;
      Ok(y)
  }

  // ---------------------------------------------------------------- tags

  function Digit(d: nat): char
    requires d < 10
  {
    "0123456789"[d]
  }

  predicate IsDigit(c: char) {
    '0' <= c <= '9'
  }

  function DigitValue(c: char): nat
    requires IsDigit(c)
  {
    c as int - '0' as int
  }

  predicate AllDigits(s: string) {
    forall i :: 0 <= i < |s| ==> IsDigit(s[i])
  }

  /** The decimal digits of a natural number, as `str` writes them. */
  function NatString(n: nat): (s: string)
    ensures |s| > 0 && AllDigits(s)
  {
    if n < 10 then [Digit(n)] else NatString(n / 10) + [Digit(n % 10)]
  }

  /** `str(n)` for an int. */
  function IntString(n: int): (s: string)
    ensures '.' !in s
  {
    if n < 0 then "-" + NatString(-n) else NatString(n)
  }

  /** The number a string of decimal digits denotes. */
  function ParseNat(s: string): nat
    requires AllDigits(s)
  {
    if |s| == 0 then 0 else 10 * ParseNat(s[..|s| - 1]) + DigitValue(s[|s| - 1])
  }

  /** `int(s)` for what `str` writes. */
  function ParseInt(s: string): Option<int> {
    if |s| > 0 && s[0] == '-' && AllDigits(s[1..]) then
      var n: int := ParseNat(s[1..]);
      Some(-n)
    else if AllDigits(s) then Some(ParseNat(s))
    else None
  }

  lemma {:induction false} NatStringRoundTrip(n: nat)
    ensures ParseNat(NatString(n)) == n
  {
    if n >= 10 {
      NatStringRoundTrip(n / 10);
      var s := NatString(n);
      assert s[..|s| - 1] == NatString(n / 10);
    }
  }

  /** Reading back what `str` writes gives the number. */
  lemma IntStringRoundTrip(n: int)
    ensures ParseInt(IntString(n)) == Some(n)
  {
    if n < 0 {
      NegativeRoundTrip(n);
    } else {
      var d := NatString(n);
      assert IsDigit(d[0]);
      NatStringRoundTrip(n);
      assert ParseInt(d) == Some(ParseNat(d));
    }
  }

  lemma NegativeRoundTrip(n: int)
    requires n < 0
    ensures ParseInt(IntString(n)) == Some(n)
  {
    var m: nat := -n;
    var d := NatString(m);
    assert IntString(n) == "-" + d;
    NatStringRoundTrip(m);
    ParseNegative(d);
  }

  /** A minus sign before digits reads as the negated number. */
  lemma ParseNegative(d: string)
    requires AllDigits(d)
    ensures ParseInt("-" + d) == Some(-(ParseNat(d) as int))
  {
    var s := "-" + d;
    assert s[1..] == d;
  }

  /** `major.minor.patch`, with `.devN` appended for a dev bump. */
  function Tag(v: Version, level: string): string {
    var release := IntString(v.major) + "." + IntString(v.minor) + "." + IntString(v.patch);
    if level == "dev" then release + ".dev" + IntString(v.dev) else release
  }

  /** `str.split(sep)`. */
  function Split(s: string, sep: char): (parts: seq<string>)
    ensures |parts| > 0
    decreases |s|
  {
    if |s| == 0 then [""]
    else if s[0] == sep then [""] + Split(s[1..], sep)
    else var rest := Split(s[1..], sep); [[s[0]] + rest[0]] + rest[1..]
  }

  lemma {:induction false} SplitAtFirst(a: string, b: string, sep: char)
    requires sep !in a
    ensures Split(a + [sep] + b, sep) == [a] + Split(b, sep)
    decreases |a|
  {
    if |a| > 0 {
      assert (a + [sep] + b)[1..] == a[1..] + [sep] + b;
      SplitAtFirst(a[1..], b, sep);
      assert [a[0]] + a[1..] == a;
    } else {
      assert a + [sep] + b == [sep] + b;
    }
  }

  lemma {:induction false} SplitWhole(a: string, sep: char)
    requires sep !in a
    ensures Split(a, sep) == [a]
    decreases |a|
  {
    if |a| > 0 {
      SplitWhole(a[1..], sep);
      assert [a[0]] + a[1..] == a;
    }
  }

  /** `sep.join(parts)`. */
  function Join(parts: seq<string>, sep: char): string
    requires |parts| > 0
  {
    if |parts| == 1 then parts[0] else parts[0] + [sep] + Join(parts[1..], sep)
  }

  /** Splitting a join of separator-free parts gives the parts back. */
  lemma {:induction false} SplitJoin(parts: seq<string>, sep: char)
    requires |parts| > 0
    requires forall i :: 0 <= i < |parts| ==> sep !in parts[i]
    ensures Split(Join(parts, sep), sep) == parts
  {
    if |parts| == 1 {
      SplitWhole(parts[0], sep);
    } else {
      SplitJoin(parts[1..], sep);
      SplitAtFirst(parts[0], Join(parts[1..], sep), sep);
    }
  }

  /** The dot-separated fields of a tag. */
  function TagParts(v: Version, level: string): seq<string> {
    [IntString(v.major), IntString(v.minor), IntString(v.patch)]
    + (if level == "dev" then ["dev" + IntString(v.dev)] else [])
  }

  lemma TagIsJoin(v: Version, level: string)
    ensures Tag(v, level) == Join(TagParts(v, level), '.')
  {
    var parts := TagParts(v, level);
    var M, m, p := IntString(v.major), IntString(v.minor), IntString(v.patch);
    if level == "dev" {
      var d := "dev" + IntString(v.dev);
      assert Join(parts[3..], '.') == d;
      assert Join(parts[2..], '.') == p + "." + d;
      assert Join(parts[1..], '.') == m + "." + (p + "." + d);
    } else {
      assert Join(parts[2..], '.') == p;
      assert Join(parts[1..], '.') == m + "." + p;
    }
  }

  /** The tag splits at its dots into the three release numbers, then
      `devN` for a dev bump; each number reads back as written. */
  lemma TagFields(v: Version, level: string)
    ensures Split(Tag(v, level), '.') == TagParts(v, level)
    ensures |TagParts(v, level)| == (if level == "dev" then 4 else 3)
    ensures ParseInt(TagParts(v, level)[0]) == Some(v.major)
    ensures ParseInt(TagParts(v, level)[1]) == Some(v.minor)
    ensures ParseInt(TagParts(v, level)[2]) == Some(v.patch)
    ensures level == "dev" ==> TagParts(v, level)[3] == "dev" + IntString(v.dev)
    ensures ParseInt(IntString(v.dev)) == Some(v.dev)
  {
    var parts := TagParts(v, level);
    assert '.' !in "dev" + IntString(v.dev);
    TagIsJoin(v, level);
    SplitJoin(parts, '.');
    IntStringRoundTrip(v.major);
    IntStringRoundTrip(v.minor);
    IntStringRoundTrip(v.patch);
    IntStringRoundTrip(v.dev);
  }

  // ------------------------------------------------------ pyproject lines

  /** The line that replaces the version line. */
  function VersionLine(tag: string): string {
    "version = \"" + tag + "\"\n"
  }

  predicate MentionsVersion(line: string) {
    HasSubstring(line, "version")
  }

  /** The first line that mentions `version`, if any. */
  function FirstVersionLine(lines: seq<string>): (k: Option<nat>)
    ensures k.None? <==> forall i :: 0 <= i < |lines| ==> !MentionsVersion(lines[i])
    ensures k.Some? ==> k.value < |lines| && MentionsVersion(lines[k.value])
    ensures k.Some? ==> forall i :: 0 <= i < k.value ==> !MentionsVersion(lines[i])
  {
    if |lines| == 0 then None
    else if MentionsVersion(lines[0]) then Some(0)
    else
      var rest := FirstVersionLine(lines[1..]);
      assert forall i :: 1 <= i < |lines| ==> lines[i] == lines[1..][i - 1];
      match rest
      case None => None
      case Some(j) => Some(j + 1)
  }

  /** A line that mentions `version` with none before it is the first. */
  lemma FirstVersionLineAt(lines: seq<string>, k: nat)
    requires k < |lines| && MentionsVersion(lines[k])
    requires forall i :: 0 <= i < k ==> !MentionsVersion(lines[i])
    ensures FirstVersionLine(lines) == Some(k)
  {
  }

  /** The `pyproject.toml` rewrite: lines are taken from the front until
      one mentions `version`; that one is replaced and the rest are kept.
      Running out of lines raises KeyError. */
  method RewriteVersionLine(lines: seq<string>, tag: string) returns (r: Result<seq<string>>)
    ensures r.Ok? <==> FirstVersionLine(lines).Some?
    ensures r.Err? ==> r.FailsWith(KeyMissing)
    ensures r.Ok? ==> |r.value| == |lines|
    ensures r.Ok? ==> r.value == lines[..FirstVersionLine(lines).value] + [VersionLine(tag)]
                                 + lines[FirstVersionLine(lines).value + 1..]
  {
    var rest := lines;
    var newLines: seq<string> := [];
    while |rest| > 0
      invariant |newLines| + |rest| == |lines|
      invariant rest == lines[|newLines|..]
      invariant newLines == lines[..|newLines|]
      invariant forall i :: 0 <= i < |newLines| ==> !MentionsVersion(lines[i])
      decreases |rest|
    {
      var line := rest[0];
      rest := rest[1..];
      if MentionsVersion(line) {
        var k := |newLines|;
        newLines := newLines + [VersionLine(tag)];
        newLines := newLines + rest;
        FirstVersionLineAt(lines, k);
        return Ok(newLines);
      }
      newLines := newLines + [line];
    }
    assert newLines == lines;
    return Err(KeyMissing);
  }

  /** Every line but the version line is kept, in order. */
  lemma RewriteKeepsOtherLines(lines: seq<string>, tag: string, result: seq<string>, k: nat)
    requires FirstVersionLine(lines) == Some(k)
    requires result == lines[..k] + [VersionLine(tag)] + lines[k + 1..]
    ensures |result| == |lines| && result[k] == VersionLine(tag)
    ensures forall i :: 0 <= i < |lines| && i != k ==> result[i] == lines[i]
  {
    SpliceKeepsOthers(lines, VersionLine(tag), k);
  }

  /** Replacing the element at `k` keeps every other position. */
  lemma SpliceKeepsOthers(xs: seq<string>, x: string, k: nat)
    requires k < |xs|
    ensures |xs[..k] + [x] + xs[k + 1..]| == |xs| && (xs[..k] + [x] + xs[k + 1..])[k] == x
    ensures forall i :: 0 <= i < |xs| && i != k ==> (xs[..k] + [x] + xs[k + 1..])[i] == xs[i]
  {
    var pre, post := xs[..k], xs[k + 1..];
    var ys := pre + [x] + post;
    assert |ys| == |xs|;
    forall i | 0 <= i < |xs| && i != k
      ensures ys[i] == xs[i]
    {
      if i < k {
        assert ys[i] == pre[i];
      } else {
        assert ys[i] == post[i - k - 1];
      }
    }
  }

  // ---------------------------------------------------------- the script

  /** What one run computes: the new version, its tag, and the new lines
      of `pyproject.toml`. */
  datatype Release = Release(version: Version, tag: string, lines: seq<string>)

  /** What the script has written to `current_version.json` and
      `current-tag.txt`: both are written before `pyproject.toml` is read,
      so they stay written when the version line is then missing. */
  datatype Stamp = Stamp(version: Version, tag: string)

  /** `incrementVersion` as written: the level is used as it was typed. */
  method Increment(v: Version, argv: seq<string>, lines: seq<string>) returns (stamp: Option<Stamp>, r: Result<Release>)
    ensures !IsLevel(SelectLevel(argv)) ==> r.FailsWith(KeyMissing) && stamp.None?
    ensures stamp.Some? <==> Bump(v, SelectLevel(argv)).Ok?
    ensures stamp.Some? ==> stamp.value.version == Bump(v, SelectLevel(argv)).value
    ensures stamp.Some? ==> stamp.value.tag == Tag(stamp.value.version, SelectLevel(argv))
    ensures r.Ok? <==> IsLevel(SelectLevel(argv)) && FirstVersionLine(lines).Some?
    ensures r.Err? ==> r.FailsWith(KeyMissing)
    ensures r.Ok? ==> stamp == Some(Stamp(r.value.version, r.value.tag))
    ensures r.Ok? ==> var k := FirstVersionLine(lines).value;
      r.value.lines == lines[..k] + [VersionLine(r.value.tag)] + lines[k + 1..]
  {
    var level := SelectLevel(argv);
    var bumped := Bump(v, level);
    if bumped.Err? {
      return None, Err(bumped.error);
    }
    var tag := Tag(bumped.value, level);
    stamp := Some(Stamp(bumped.value, tag));
    var rewritten := RewriteVersionLine(lines, tag);
    if rewritten.Err? {
      return stamp, Err(rewritten.error);
    }
    return stamp, Ok(Release(bumped.value, tag, rewritten.value));
  }

  /** An argument typed in capitals is accepted as a level but then used
      as a key of the version file, which has only lower-case keys. */
  lemma TypedLevelFails(v: Version)
    ensures SelectLevel(["roll_version.py", "Major"]) == "Major"
    ensures Bump(v, SelectLevel(["roll_version.py", "Major"])).FailsWith(KeyMissing)
  {
    var argv := ["roll_version.py", "Major"];
    ScriptNameIsNoLevel();
    LowerMajor();
    assert argv[1..] == ["Major"];
    assert SelectLevel(argv) == SelectLevel(["Major"]);
    CapitalIsNoKey();
  }

  lemma CapitalIsNoKey()
    ensures !IsLevel("Major")
  {
    assert "Major"[0] != "major"[0];
  }

  lemma LowerMajor()
    ensures Lower("Major") == "major"
  {
    var m := Lower("Major");
    assert m[0] == 'm' && m[1] == 'a' && m[2] == 'j' && m[3] == 'o' && m[4] == 'r';
  }

  lemma ScriptNameIsNoLevel()
    ensures !IsLevel(Lower("roll_version.py"))
  {
    var name := "roll_version.py";
    assert |name| == 15;
    var t := Lower(name);
    assert |t| == 15;
    assert t != "major" && t != "minor" && t != "patch" && t != "dev";
  }

  /** `incrementVersion` with the lower-cased level: the bump always
      succeeds, so the version and tag files are always written and only a
      missing version line can fail. */
  method IncrementIntended(v: Version, argv: seq<string>, lines: seq<string>) returns (stamp: Stamp, r: Result<Release>)
    ensures stamp.version == Bump(v, Lower(SelectLevel(argv))).value
    ensures stamp.tag == Tag(stamp.version, Lower(SelectLevel(argv)))
    ensures r.Ok? <==> FirstVersionLine(lines).Some?
    ensures r.Err? ==> r.FailsWith(KeyMissing)
    ensures r.Ok? ==> r.value.version == stamp.version && r.value.tag == stamp.tag
    ensures r.Ok? ==> var k := FirstVersionLine(lines).value;
      r.value.lines == lines[..k] + [VersionLine(r.value.tag)] + lines[k + 1..]
  {
    var level := Lower(SelectLevel(argv));
    var bumped := Bump(v, level);
    var tag := Tag(bumped.value, level);
    stamp := Stamp(bumped.value, tag);
    var rewritten := RewriteVersionLine(lines, tag);
    if rewritten.Err? {
      return stamp, Err(rewritten.error);
    }
    return stamp, Ok(Release(bumped.value, tag, rewritten.value));
  }
}
