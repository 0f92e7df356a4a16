/**
 The next version to publish (scripts/next_version.py), proved against the order the updater uses
 (installer/changelog.py).
 */
module NextVersion {
  import opened Prelude
  import opened Decimal
  import opened VersionOrder
  import opened Commits

  predicate IsPreChar(c: char) {
    IsDigit(c) || 'a' <= c <= 'z' || 'A' <= c <= 'Z' || c == '.'
  }

  predicate IsPre(s: string) {
    forall i | 0 <= i < |s| :: IsPreChar(s[i])
  }

  datatype Version = Version(major: nat, minor: nat, patch: nat, pre: string)

  /** `^v?(\d+)\.(\d+)\.(\d+)(?:-([0-9A-Za-z.]+))?$` on the stripped text. */
  function Parse(v: string): Option<Version> {
    var s := Strip(v);
    ParseText(if |s| > 0 && s[0] == 'v' then s[1..] else s)
  }

  function ParseText(t: string): Option<Version> {
    var parts := SplitDots(Head(t, '-'));
    var pre := Rest(t, '-');
    if |parts| == 3 && parts[0] != "" && parts[1] != "" && parts[2] != ""
       && AllDigits(parts[0]) && AllDigits(parts[1]) && AllDigits(parts[2])
       && ('-' in t ==> pre != "") && IsPre(pre)
    then Some(Version(Value(parts[0]), Value(parts[1]), Value(parts[2]), pre))
    else None
  }

  function Core(major: nat, minor: nat, patch: nat): (s: string) {
    Numeral(major) + ['.'] + (Numeral(minor) + ['.'] + Numeral(patch))
  }

  function Print(v: Version): string {
    var core := Core(v.major, v.minor, v.patch);
    if v.pre == "" then core else core + ['-'] + v.pre
  }

  datatype Error = InvalidVersion | InvalidLevel | NothingToRelease

  function BumpCore(v: Version, level: Level): Version {
    match level
    case Major => Version(v.major + 1, 0, 0, "")
    case Minor => Version(v.major, v.minor + 1, 0, "")
    case Patch => Version(v.major, v.minor, v.patch + 1, "")
  }

  function LevelNamed(name: string): Option<Level> {
    if name == "major" then Some(Major) else if name == "minor" then Some(Minor)
    else if name == "patch" then Some(Patch) else None
  }

  /** re.sub(r"\d+$", "", s) */
  function Stem(s: string): (r: string)
    ensures |r| <= |s| && r == s[..|r|] && !EndsInDigit(r) && AllDigits(s[|r|..])
  {
    if EndsInDigit(s) then
      var r := Stem(s[..|s| - 1]);
      assert s[|r|..] == s[..|s| - 1][|r|..] + [s[|s| - 1]];
      r
    else
      s
  }

  /** re.search(r"(\d+)$", s) */
  function TrailingNumber(s: string): Option<nat> {
    if EndsInDigit(s) then Some(Value(s[|Stem(s)|..])) else None
  }

  /** t.lstrip("v") */
  function StripV(t: string): string {
    if |t| > 0 && t[0] == 'v' then StripV(t[1..]) else t
  }

  /** The number of a tag `<core>-<pre><number>`; `$` also matches before a final newline. */
  function TagNumber(prefix: string, tag: string): Option<nat> {
    if !(prefix <= tag) then None
    else
      var r := tag[|prefix|..];
      var d := if |r| > 0 && r[|r| - 1] == '\n' then r[..|r| - 1] else r;
      if d != "" && AllDigits(d) then Some(Value(d)) else None
  }

  function TagNumbers(prefix: string, tags: seq<string>): (ns: seq<nat>) {
    if |tags| == 0 then []
    else
      var n := TagNumber(prefix, StripV(tags[0]));
      (if n.Some? then [n.value] else []) + TagNumbers(prefix, tags[1..])
  }

  function Max(ns: seq<nat>): (m: nat)
    requires |ns| > 0
    ensures m in ns && forall n :: n in ns ==> n <= m
  {
    if |ns| == 1 then ns[0]
    else
      var m := Max(ns[1..]);
      assert ns == [ns[0]] + ns[1..];
      if ns[0] > m then ns[0] else m
  }

  function NextPreNumber(prefix: string, tags: seq<string>, currentPre: string): (n: nat) {
    var cur := TrailingNumber(currentPre);
    var nums := TagNumbers(prefix, tags) + if cur.Some? then [cur.value] else [];
    if |nums| > 0 then Max(nums) + 1 else 1
  }

  /** `pre` is "" when no prerelease is asked for. */
  function NextVersion(current: string, commits: seq<string>, bump: string, pre: string, tags: seq<string>)
      : Result<string, Error>
  {
    if Parse(current).None? then Err(InvalidVersion) else NextOf(Parse(current).value, commits, bump, pre, tags)
  }

  function NextOf(v: Version, commits: seq<string>, bump: string, pre: string, tags: seq<string>): Result<string, Error> {
    if v.pre != "" && pre == "" then Ok(Core(v.major, v.minor, v.patch))
    else if v.pre != "" && Stem(v.pre) == pre then Ok(WithPre(Core(v.major, v.minor, v.patch), pre, tags, v.pre))
    else
      var level := if bump == "auto" then HighestLevel(commits) else LevelNamed(bump);
      if level.None? then Err(if bump == "auto" then NothingToRelease else InvalidLevel)
      else
        var w := BumpCore(v, level.value);
        var core := Core(w.major, w.minor, w.patch);
        Ok(if pre == "" then core else WithPre(core, pre, tags, ""))
  }

  function WithPre(core: string, pre: string, tags: seq<string>, currentPre: string): string {
    core + ['-'] + (pre + Numeral(NextPreNumber(core + ['-'] + pre, tags, currentPre)))
  }

  // ---------------------------------------------------------------- reading versions

  lemma {:induction false} OnlyDigitsAll(s: string)
    requires AllDigits(s)
    ensures OnlyDigits(s) == s
  {
    if |s| > 0 {
      OnlyDigitsAll(s[1..]);
    }
  }

  lemma {:induction false} SplitDotsChars(s: string)
    requires forall p :: p in SplitDots(s) ==> AllDigits(p)
    ensures forall i :: 0 <= i < |s| ==> IsDigit(s[i]) || s[i] == '.'
  {
    if '.' !in s {
      assert s in SplitDots(s);
    } else {
      var h, r := Head(s, '.'), Rest(s, '.');
      assert h in SplitDots(s);
      assert forall p :: p in SplitDots(r) ==> p in SplitDots(s);
      SplitDotsChars(r);
      HeadFull(s, '.');
      assert s == h + ['.'] + r;
    }
  }

  lemma {:induction false} HeadFull(s: string, c: char)
    ensures |Head(s, c)| < |s| <==> c in s
    ensures c in s ==> s == Head(s, c) + [c] + Rest(s, c)
  {
    if |s| > 0 && s[0] != c {
      HeadFull(s[1..], c);
    }
  }

  predicate CoreChars(s: string) {
    forall i | 0 <= i < |s| :: IsDigit(s[i]) || s[i] == '.'
  }

  lemma NoPlus(t: string)
    requires CoreChars(Head(t, '-')) && IsPre(Rest(t, '-'))
    ensures Head(t, '+') == t
  {
    HeadFull(t, '-');
    HeadFull(t, '+');
    assert '+' !in Head(t, '-') && '+' !in Rest(t, '-');
    assert '-' in t ==> t == Head(t, '-') + ['-'] + Rest(t, '-');
    assert '-' !in t ==> t == Head(t, '-');
  }

  /** The text of an accepted version starts with a digit, so no second `v` would be dropped. */
  lemma ParsedStart(t: string)
    requires ParseText(t).Some?
    ensures |t| > 0 && IsDigit(t[0]) && CoreChars(Head(t, '-'))
  {
    var h := Head(t, '-');
    var parts := SplitDots(h);
    assert parts == [parts[0], parts[1], parts[2]];
    SplitDotsChars(h);
    FirstPart(h);
    assert h[0] == t[0];
  }

  lemma FirstPart(h: string)
    requires SplitDots(h)[0] != "" && AllDigits(SplitDots(h)[0])
    ensures |h| > 0 && IsDigit(h[0])
  {
    assert SplitDots(h)[0] == Head(h, '.') || SplitDots(h)[0] == h;
    assert SplitDots(h)[0][0] == h[0];
  }

  lemma ParsedTuple(t: string)
    requires ParseText(t).Some?
    ensures var p := ParseText(t).value; TextTuple(t) == (p.major, p.minor, p.patch, if p.pre == "" then 1 else 0)
  {
    var parts := SplitDots(Head(t, '-'));
    OnlyDigitsAll(parts[0]);
    OnlyDigitsAll(parts[1]);
    OnlyDigitsAll(parts[2]);
  }

  function KeyOfVersion(v: Version): Key {
    Key(v.major, v.minor, v.patch, if v.pre == "" then 1 else 0, Chunks(v.pre))
  }

  /** What the publisher parses, the updater keys by the same numbers and the same suffix. */
  lemma ParsedKey(v: string)
    requires Parse(v).Some?
    ensures KeyOf(v) == KeyOfVersion(Parse(v).value)
  {
    var s := Strip(v);
    var t := if |s| > 0 && s[0] == 'v' then s[1..] else s;
    ParsedStart(t);
    ParsedTuple(t);
    NoPlus(t);
    assert DropV(s) == t;
  }

  lemma SplitJoin(h: string, r: string)
    requires AllDigits(h)
    ensures SplitDots(h + ['.'] + r) == [h] + SplitDots(r)
  {
    var s := h + ['.'] + r;
    HeadAppend(h, '.', r);
    assert s[|h|] == '.';
  }

  lemma CoreSplit(major: nat, minor: nat, patch: nat)
    ensures SplitDots(Core(major, minor, patch)) == [Numeral(major), Numeral(minor), Numeral(patch)]
  {
    var a, b, c := Numeral(major), Numeral(minor), Numeral(patch);
    SplitJoin(a, b + ['.'] + c);
    SplitJoin(b, c);
    DigitsOnePart(c);
  }

  lemma DigitsOnePart(c: string)
    requires AllDigits(c)
    ensures SplitDots(c) == [c]
  {
  }

  lemma JoinChars(a: string, r: string)
    requires |a| > 0 && AllDigits(a) && CoreChars(r) && EndsInDigit(r)
    ensures CoreChars(a + ['.'] + r) && IsDigit((a + ['.'] + r)[0]) && EndsInDigit(a + ['.'] + r)
  {
    var s := a + ['.'] + r;
    assert s[|s| - 1] == r[|r| - 1];
  }

  lemma CoreParts(major: nat, minor: nat, patch: nat)
    ensures SplitDots(Core(major, minor, patch)) == [Numeral(major), Numeral(minor), Numeral(patch)]
    ensures CoreChars(Core(major, minor, patch)) && IsDigit(Core(major, minor, patch)[0])
    ensures EndsInDigit(Core(major, minor, patch))
  {
    CoreSplit(major, minor, patch);
    JoinChars(Numeral(minor), Numeral(patch));
    JoinChars(Numeral(major), Numeral(minor) + ['.'] + Numeral(patch));
  }

  lemma Unstripped(s: string)
    requires |s| > 0 && IsDigit(s[0]) && !IsSpace(s[|s| - 1])
    ensures Strip(s) == s && DropV(s) == s
  {
  }

  lemma CoreTuple(major: nat, minor: nat, patch: nat, s: string)
    requires Head(s, '-') == Core(major, minor, patch)
    ensures TextTuple(s) == (major, minor, patch, if Rest(s, '-') != "" then 0 else 1)
  {
    CoreSplit(major, minor, patch);
    OnlyDigitsAll(Numeral(major));
    OnlyDigitsAll(Numeral(minor));
    OnlyDigitsAll(Numeral(patch));
    NumeralRoundTrip(major);
    NumeralRoundTrip(minor);
    NumeralRoundTrip(patch);
  }

  /** A core with any suffix that does not end in a space is keyed by the core, below its final version. */
  lemma CoreKey(major: nat, minor: nat, patch: nat, suffix: string)
    requires suffix != "" && !IsSpace(suffix[|suffix| - 1])
    ensures TupleOf(Core(major, minor, patch) + ['-'] + suffix) == (major, minor, patch, 0)
    ensures TupleOf(Core(major, minor, patch)) == (major, minor, patch, 1)
  {
    var core := Core(major, minor, patch);
    CoreParts(major, minor, patch);
    Unstripped(core);
    HeadAppend(core, '-', suffix);
    CoreTuple(major, minor, patch, core);
    SuffixUnstripped(core, suffix);
    CoreTuple(major, minor, patch, core + ['-'] + suffix);
  }

  lemma SuffixUnstripped(core: string, suffix: string)
    requires |core| > 0 && IsDigit(core[0]) && suffix != "" && !IsSpace(suffix[|suffix| - 1])
    ensures var s := core + ['-'] + suffix; Strip(s) == s && DropV(s) == s
  {
    var s := core + ['-'] + suffix;
    assert s[0] == core[0] && s[|s| - 1] == suffix[|suffix| - 1];
    Unstripped(s);
  }

  lemma PrintParts(v: Version)
    requires IsPre(v.pre)
    ensures var s, core := Print(v), Core(v.major, v.minor, v.patch);
            && Strip(s) == s && |s| > 0 && s[0] != 'v' && Head(s, '-') == core && Rest(s, '-') == v.pre
            && (v.pre == "" ==> '-' !in s)
  {
    CoreParts(v.major, v.minor, v.patch);
    JoinPre(Core(v.major, v.minor, v.patch), v.pre);
  }

  lemma JoinPre(core: string, pre: string)
    requires |core| > 0 && CoreChars(core) && IsDigit(core[0]) && EndsInDigit(core) && IsPre(pre)
    ensures var s := if pre == "" then core else core + ['-'] + pre;
            && Strip(s) == s && |s| > 0 && s[0] != 'v' && Head(s, '-') == core && Rest(s, '-') == pre
            && (pre == "" ==> '-' !in s)
  {
    var s := if pre == "" then core else core + ['-'] + pre;
    HeadAppend(core, '-', pre);
    assert s[0] == core[0];
    if pre != "" {
      assert s[|s| - 1] == pre[|pre| - 1];
      assert IsPreChar(pre[|pre| - 1]);
    }
    Unstripped(s);
  }

  /** Printing and parsing are inverse. */
  lemma PrintRoundTrip(v: Version)
    requires IsPre(v.pre)
    ensures Parse(Print(v)) == Some(v)
  {
    PrintParts(v);
    CoreParts(v.major, v.minor, v.patch);
    NumeralRoundTrip(v.major);
    NumeralRoundTrip(v.minor);
    NumeralRoundTrip(v.patch);
  }

  lemma PrintedKey(v: Version)
    requires IsPre(v.pre)
    ensures KeyOf(Print(v)) == KeyOfVersion(v)
  {
    PrintRoundTrip(v);
    ParsedKey(Print(v));
  }

  /** Every prerelease comes before its final version. */
  lemma PreBeforeFinal(v: Version)
    requires IsPre(v.pre) && v.pre != ""
    ensures IsNewer(Print(v.(pre := "")), Print(v))
  {
    PrintedKey(v);
    PrintedKey(v.(pre := ""));
  }

  /** rc10 after rc2: prereleases of one label are ordered by their number. */
  lemma PreNumbersOrder(v: Version, m: nat, n: nat)
    requires IsPre(v.pre) && !EndsInDigit(v.pre)
    ensures IsNewer(Print(v.(pre := v.pre + Numeral(n))), Print(v.(pre := v.pre + Numeral(m)))) <==> m < n
  {
    var a, b := v.(pre := v.pre + Numeral(m)), v.(pre := v.pre + Numeral(n));
    PrintedKey(a);
    PrintedKey(b);
    SameNumbersOrder(KeyOfVersion(a), KeyOfVersion(b));
    NumberedChunks(v.pre, m, n);
  }

  lemma NumberedChunks(pre: string, m: nat, n: nat)
    requires !EndsInDigit(pre)
    ensures ChunksLess(Chunks(pre + Numeral(m)), Chunks(pre + Numeral(n))) <==> m < n
  {
    NumericSuffix(pre, Numeral(m), Numeral(n));
    NumeralRoundTrip(m);
    NumeralRoundTrip(n);
  }

  lemma SameNumbersOrder(a: Key, b: Key)
    requires a.major == b.major && a.minor == b.minor && a.patch == b.patch && a.final == b.final
    ensures KeyLess(a, b) <==> ChunksLess(a.chunks, b.chunks)
  {
  }

  // ---------------------------------------------------------------- the next version

  lemma CounterAdvances(v: Version, n: nat)
    requires v.pre != "" && IsPre(v.pre) && (TrailingNumber(v.pre).Some? ==> TrailingNumber(v.pre).value < n)
    ensures ChunksLess(Chunks(v.pre), Chunks(Stem(v.pre) + Numeral(n)))
  {
    var stem := Stem(v.pre);
    NumeralRoundTrip(n);
    if EndsInDigit(v.pre) {
      assert v.pre == stem + v.pre[|stem|..];
      NumericSuffix(stem, v.pre[|stem|..], Numeral(n));
    } else {
      ChunksAppend(stem, Numeral(n));
      LongerIsLater(Chunks(stem), Number(n));
    }
  }

  lemma PrintedNewer(v: Version, current: string)
    requires Parse(current).Some? && IsPre(v.pre) && KeyLess(KeyOfVersion(Parse(current).value), KeyOfVersion(v))
    ensures IsNewer(Print(v), current)
  {
    PrintedKey(v);
    ParsedKey(current);
  }

  predicate CoreLess(a: Version, b: Version) {
    a.major < b.major || (a.major == b.major && (a.minor < b.minor || (a.minor == b.minor && a.patch < b.patch)))
  }

  lemma NextPreAdvances(prefix: string, tags: seq<string>, currentPre: string)
    ensures TrailingNumber(currentPre).Some? ==> TrailingNumber(currentPre).value < NextPreNumber(prefix, tags, currentPre)
  {
    var cur := TrailingNumber(currentPre);
    if cur.Some? {
      assert cur.value in TagNumbers(prefix, tags) + [cur.value];
    }
  }

  lemma CounterNewer(current: string, n: nat)
    requires Parse(current).Some? && Parse(current).value.pre != ""
    requires var pre := Parse(current).value.pre; TrailingNumber(pre).Some? ==> TrailingNumber(pre).value < n
    ensures var v := Parse(current).value; IsNewer(Print(v.(pre := Stem(v.pre) + Numeral(n))), current)
  {
    var v := Parse(current).value;
    CounterAdvances(v, n);
    StemIsPre(v.pre, n);
    PrintedNewer(v.(pre := Stem(v.pre) + Numeral(n)), current);
  }

  lemma StemIsPre(pre: string, n: nat)
    requires IsPre(pre)
    ensures IsPre(Stem(pre) + Numeral(n))
  {
  }

  lemma SameCoreNewer(current: string, tags: seq<string>)
    requires Parse(current).Some? && Parse(current).value.pre != ""
    ensures var v := Parse(current).value;
            Stem(v.pre) != "" ==> IsNewer(WithPre(Core(v.major, v.minor, v.patch), Stem(v.pre), tags, v.pre), current)
  {
    var v := Parse(current).value;
    var stem := Stem(v.pre);
    if stem != "" {
      NextPreAdvances(Core(v.major, v.minor, v.patch) + ['-'] + stem, tags, v.pre);
      CounterNewer(current, NextPreNumber(Core(v.major, v.minor, v.patch) + ['-'] + stem, tags, v.pre));
    }
  }

  /** A higher core is newer, whatever follows it. */
  lemma HigherCoreNewer(current: string, w: Version, suffix: string)
    requires Parse(current).Some? && CoreLess(Parse(current).value, w)
    ensures IsNewer(Core(w.major, w.minor, w.patch), current)
    ensures suffix != "" && !IsSpace(suffix[|suffix| - 1]) ==> IsNewer(Core(w.major, w.minor, w.patch) + ['-'] + suffix, current)
  {
    ParsedKey(current);
    CoreKey(w.major, w.minor, w.patch, "0");
    if suffix != "" && !IsSpace(suffix[|suffix| - 1]) {
      CoreKey(w.major, w.minor, w.patch, suffix);
    }
  }

  lemma BumpedNewer(current: string, level: Level, pre: string, tags: seq<string>)
    requires Parse(current).Some?
    ensures var w := BumpCore(Parse(current).value, level);
            var core := Core(w.major, w.minor, w.patch);
            IsNewer(if pre == "" then core else WithPre(core, pre, tags, ""), current)
  {
    var w := BumpCore(Parse(current).value, level);
    var core := Core(w.major, w.minor, w.patch);
    var n := Numeral(NextPreNumber(core + ['-'] + pre, tags, ""));
    var suffix := pre + n;
    assert suffix[|suffix| - 1] == n[|n| - 1] && IsDigit(n[|n| - 1]);
    HigherCoreNewer(current, w, suffix);
  }

  lemma PromotionNewer(current: string)
    requires Parse(current).Some? && Parse(current).value.pre != ""
    ensures var v := Parse(current).value; IsNewer(Core(v.major, v.minor, v.patch), current)
  {
    var v := Parse(current).value;
    PrintedNewer(v.(pre := ""), current);
    assert Print(v.(pre := "")) == Core(v.major, v.minor, v.patch);
  }

  /** Whatever the commits, the tags and the label asked for, the version printed is strictly newer
      than the current one, for the order the updater decides by. */
  lemma NextIsNewer(current: string, commits: seq<string>, bump: string, pre: string, tags: seq<string>)
    ensures var r := NextVersion(current, commits, bump, pre, tags);
            r.Ok? ==> IsNewer(r.value, current)
  {
    if NextVersion(current, commits, bump, pre, tags).Ok? {
      NextOfIsNewer(current, commits, bump, pre, tags, NextVersion(current, commits, bump, pre, tags).value);
    }
  }

  lemma NextOfIsNewer(current: string, commits: seq<string>, bump: string, pre: string, tags: seq<string>, next: string)
    requires Parse(current).Some? && NextOf(Parse(current).value, commits, bump, pre, tags) == Ok(next)
    ensures IsNewer(next, current)
  {
    var v := Parse(current).value;
    if v.pre != "" && pre == "" {
      PromotionNewer(current);
    } else if v.pre != "" && Stem(v.pre) == pre {
      SameCoreNewer(current, tags);
    } else {
      var level := if bump == "auto" then HighestLevel(commits) else LevelNamed(bump);
      BumpedNewer(current, level.value, pre, tags);
    }
  }

  lemma {:induction false} TagNumberCounted(prefix: string, tags: seq<string>, i: nat)
    requires i < |tags| && TagNumber(prefix, StripV(tags[i])).Some?
    ensures TagNumber(prefix, StripV(tags[i])).value in TagNumbers(prefix, tags)
  {
    if i > 0 {
      TagNumberCounted(prefix, tags[1..], i - 1);
    }
  }

  lemma NextPreAbove(prefix: string, tags: seq<string>, currentPre: string, n: nat)
    requires n in TagNumbers(prefix, tags)
    ensures n < NextPreNumber(prefix, tags, currentPre)
  {
    var cur := TrailingNumber(currentPre);
    var nums := TagNumbers(prefix, tags) + if cur.Some? then [cur.value] else [];
    assert n in nums;
  }

  lemma WithPreNumber(core: string, pre: string, tags: seq<string>, currentPre: string)
    ensures var prefix := core + ['-'] + pre;
            TagNumber(prefix, WithPre(core, pre, tags, currentPre)) == Some(NextPreNumber(prefix, tags, currentPre))
  {
    var prefix := core + ['-'] + pre;
    var d := Numeral(NextPreNumber(prefix, tags, currentPre));
    assert WithPre(core, pre, tags, currentPre) == prefix + d;
    assert (prefix + d)[|prefix|..] == d;
    assert IsDigit(d[|d| - 1]);
    NumeralRoundTrip(NextPreNumber(prefix, tags, currentPre));
  }

  lemma WithPreFresh(core: string, pre: string, tags: seq<string>, currentPre: string, i: nat)
    requires i < |tags|
    ensures StripV(tags[i]) != WithPre(core, pre, tags, currentPre)
  {
    var prefix := core + ['-'] + pre;
    var n := TagNumber(prefix, StripV(tags[i]));
    WithPreNumber(core, pre, tags, currentPre);
    if n.Some? {
      TagNumberCounted(prefix, tags, i);
      NextPreAbove(prefix, tags, currentPre, n.value);
    }
  }

  /** A prerelease that is printed is not one of the existing tags, with or without their `v`. */
  lemma NextPreIsFresh(current: string, commits: seq<string>, bump: string, pre: string, tags: seq<string>, tag: string)
    requires pre != "" && tag in tags
    ensures NextVersion(current, commits, bump, pre, tags) != Ok(StripV(tag))
  {
    var i :| 0 <= i < |tags| && tags[i] == tag;
    if Parse(current).Some? {
      var v := Parse(current).value;
      WithPreFresh(Core(v.major, v.minor, v.patch), pre, tags, v.pre, i);
      var level := if bump == "auto" then HighestLevel(commits) else LevelNamed(bump);
      if level.Some? {
        var w := BumpCore(v, level.value);
        WithPreFresh(Core(w.major, w.minor, w.patch), pre, tags, "", i);
      }
    }
  }


  // ---------------------------------------------------------------- and no later than asked

  /** The cores a level asks for at least. */
  predicate Bumps(v: Version, w: Version, level: Level) {
    match level
    case Major => w.major > v.major
    case Minor => w.major > v.major || (w.major == v.major && w.minor > v.minor)
    case Patch => CoreLess(v, w)
  }

  /** The lowest core that meets the level. */
  ghost predicate LeastBump(v: Version, w: Version, level: Level) {
    Bumps(v, w, level) && forall x :: Bumps(v, x, level) ==> !CoreLess(x, w)
  }

  lemma BumpIsLeast(v: Version, level: Level)
    ensures LeastBump(v, BumpCore(v, level), level) && BumpCore(v, level).pre == ""
  {
  }

  predicate SameCore(v: Version, w: Version) {
    v.major == w.major && v.minor == w.minor && v.patch == w.patch
  }

  /** The lowest core is one: it fixes all three numbers. */
  lemma LeastBumpUnique(v: Version, w: Version, x: Version, level: Level)
    requires LeastBump(v, w, level) && LeastBump(v, x, level)
    ensures SameCore(w, x)
  {
    assert !CoreLess(x, w) && !CoreLess(w, x);
  }

  predicate Tagged(prefix: string, t: string, n: nat) {
    TagNumber(prefix, StripV(t)) == Some(n)
  }

  /** A number used by a tag of the label, or by the current prerelease. */
  predicate Taken(prefix: string, tags: seq<string>, currentPre: string, n: nat) {
    (exists t | t in tags :: Tagged(prefix, t, n)) || TrailingNumber(currentPre) == Some(n)
  }

  lemma {:induction false} TagNumbersAre(prefix: string, tags: seq<string>, n: nat)
    ensures n in TagNumbers(prefix, tags) <==> exists t :: t in tags && Tagged(prefix, t, n)
  {
    if |tags| > 0 {
      var rest := TagNumbers(prefix, tags[1..]);
      TagNumbersAre(prefix, tags[1..], n);
      assert n in TagNumbers(prefix, tags) <==> Tagged(prefix, tags[0], n) || n in rest;
      assert forall t :: t in tags <==> t == tags[0] || t in tags[1..];
    }
  }

  /** One more than the highest number taken, 1 when none is. */
  ghost predicate IsNextNumber(prefix: string, tags: seq<string>, currentPre: string, n: nat) {
    && (forall m: nat :: Taken(prefix, tags, currentPre, m) ==> m < n)
    && ((n == 1 && forall m: nat :: !Taken(prefix, tags, currentPre, m)) || (n > 0 && Taken(prefix, tags, currentPre, n - 1)))
  }

  lemma NextNumberExact(prefix: string, tags: seq<string>, currentPre: string)
    ensures IsNextNumber(prefix, tags, currentPre, NextPreNumber(prefix, tags, currentPre))
  {
    var cur := TrailingNumber(currentPre);
    var nums := TagNumbers(prefix, tags) + if cur.Some? then [cur.value] else [];
    forall m: nat
      ensures m in nums <==> Taken(prefix, tags, currentPre, m)
    {
      TagNumbersAre(prefix, tags, m);
    }
    assert |nums| > 0 ==> Max(nums) in nums;
    assert |nums| > 0 ==> nums[0] in nums;
  }

  /** A prerelease `pre` of w's core, under the next number. */
  ghost predicate NextPreOf(w: Version, pre: string, tags: seq<string>, currentPre: string) {
    exists n: nat :: w.pre == pre + Numeral(n) && IsNextNumber(Core(w.major, w.minor, w.patch) + ['-'] + pre, tags, currentPre, n)
  }

  lemma WithPreReads(w: Version, pre: string, tags: seq<string>, currentPre: string) returns (x: Version)
    requires IsPre(pre)
    ensures Parse(WithPre(Core(w.major, w.minor, w.patch), pre, tags, currentPre)) == Some(x)
    ensures SameCore(x, w) && NextPreOf(x, pre, tags, currentPre)
  {
    var prefix := Core(w.major, w.minor, w.patch) + ['-'] + pre;
    var n := NextPreNumber(prefix, tags, currentPre);
    x := w.(pre := pre + Numeral(n));
    NextNumberExact(prefix, tags, currentPre);
    NumeralRoundTrip(n);
    assert Print(x) == WithPre(Core(w.major, w.minor, w.patch), pre, tags, currentPre);
    PrintRoundTrip(x);
  }

  /** What is printed reads back as what was asked for: the promotion of a prerelease changes nothing but
      its label, a further prerelease of the same label only its number, and every other version has the
      lowest core the level asks for. */
  lemma NextIsLeast(current: string, commits: seq<string>, bump: string, pre: string, tags: seq<string>, next: string)
    requires IsPre(pre) && NextVersion(current, commits, bump, pre, tags) == Ok(next)
    ensures Parse(current).Some? && Parse(next).Some?
    ensures var v, w := Parse(current).value, Parse(next).value;
            if v.pre != "" && pre == "" then w == v.(pre := "")
            else if v.pre != "" && Stem(v.pre) == pre then SameCore(w, v) && NextPreOf(w, pre, tags, v.pre)
            else
              var level := if bump == "auto" then HighestLevel(commits) else LevelNamed(bump);
              level.Some? && LeastBump(v, w, level.value) && if pre == "" then w.pre == "" else NextPreOf(w, pre, tags, "")
  {
    var v := Parse(current).value;
    if v.pre != "" && pre == "" {
      PrintRoundTrip(v.(pre := ""));
    } else if v.pre != "" && Stem(v.pre) == pre {
      var x := WithPreReads(v, pre, tags, v.pre);
    } else {
      var level := if bump == "auto" then HighestLevel(commits) else LevelNamed(bump);
      var b := BumpCore(v, level.value);
      BumpIsLeast(v, level.value);
      if pre == "" {
        PrintRoundTrip(b);
      } else {
        var x := WithPreReads(b, pre, tags, "");
        SameCoreLeast(v, b, x, level.value);
      }
    }
  }

  lemma SameCoreLeast(v: Version, w: Version, x: Version, level: Level)
    requires LeastBump(v, w, level) && SameCore(w, x)
    ensures LeastBump(v, x, level)
  {
  }
}
