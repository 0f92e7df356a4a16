/**
 The order of versions (installer/changelog.py: version_tuple, version_key, is_newer). Strings are
 ASCII: digits, letter case and spaces outside ASCII are not distinguished here.
 */
module VersionOrder {
  import opened Prelude
  import opened Decimal

  // ---------------------------------------------------------------- strings

  predicate IsSpace(c: char) {
    '\t' <= c <= '\r' || '\U{1C}' <= c <= ' '
  }

  function LeftStrip(s: string): string {
    if |s| > 0 && IsSpace(s[0]) then LeftStrip(s[1..]) else s
  }

  function RightStrip(s: string): string {
    if |s| > 0 && IsSpace(s[|s| - 1]) then RightStrip(s[..|s| - 1]) else s
  }

  function Strip(s: string): string {
    RightStrip(LeftStrip(s))
  }

  /** s.partition(c)[0]: what stands before the first c. */
  function Head(s: string, c: char): (h: string)
    ensures |h| <= |s| && h == s[..|h|] && c !in h
    ensures |h| < |s| ==> s[|h|] == c
  {
    if |s| == 0 || s[0] == c then "" else [s[0]] + Head(s[1..], c)
  }

  /** s.partition(c)[2]: what stands after the first c, "" when there is none. */
  function Rest(s: string, c: char): string {
    if |Head(s, c)| < |s| then s[|Head(s, c)| + 1..] else ""
  }

  function SplitDots(s: string): (parts: seq<string>)
    ensures |parts| > 0
  {
    if '.' !in s then [s] else [Head(s, '.')] + SplitDots(Rest(s, '.'))
  }

  function OnlyDigits(s: string): (d: string)
    ensures AllDigits(d)
  {
    if |s| == 0 then "" else if IsDigit(s[0]) then [s[0]] + OnlyDigits(s[1..]) else OnlyDigits(s[1..])
  }

  function DropV(s: string): string {
    if |s| > 0 && (s[0] == 'v' || s[0] == 'V') then s[1..] else s
  }

  // ---------------------------------------------------------------- keys

  /** A number precedes a word. */
  datatype Chunk = Number(n: nat) | Word(text: string)

  datatype Key = Key(major: nat, minor: nat, patch: nat, final: nat, chunks: seq<Chunk>)

  function PartOr0(parts: seq<string>, i: nat): nat {
    if i < |parts| then Value(OnlyDigits(parts[i])) else 0
  }

  /** version_tuple; `4.7.0+1` reads as patch 1 after 0, digit by digit, as in the code. */
  function TupleOf(v: string): (nat, nat, nat, nat) {
    TextTuple(DropV(Strip(v)))
  }

  function TextTuple(s: string): (nat, nat, nat, nat) {
    var parts := SplitDots(Head(s, '-'));
    (PartOr0(parts, 0), PartOr0(parts, 1), PartOr0(parts, 2), if Rest(s, '-') != "" then 0 else 1)
  }

  predicate IsSeparator(c: char) {
    c == '.' || c == '-'
  }

  predicate IsIdentifier(s: string) {
    forall i | 0 <= i < |s| :: !IsSeparator(s[i])
  }

  /** The identifier at the start of a suffix. */
  function FirstIdent(s: string): (h: string)
    ensures |h| <= |s| && h == s[..|h|] && IsIdentifier(h) && (|h| < |s| ==> IsSeparator(s[|h|]))
  {
    if |s| == 0 || IsSeparator(s[0]) then "" else [s[0]] + FirstIdent(s[1..])
  }

  /** re.split(r"[.-]", s) */
  function Identifiers(s: string): (ids: seq<string>)
    ensures |ids| > 0
  {
    var h := FirstIdent(s);
    if |h| == |s| then [s] else [h] + Identifiers(s[|h| + 1..])
  }

  /** The longest start of s whose characters are all digits, or all not, like the first. */
  function FirstRun(s: string): (h: string)
    requires |s| > 0
    ensures 0 < |h| <= |s| && h == s[..|h|]
    ensures forall i :: 0 <= i < |h| ==> (IsDigit(h[i]) <==> IsDigit(s[0]))
    ensures |h| < |s| ==> (IsDigit(s[|h|]) <==> !IsDigit(s[0]))
  {
    if |s| == 1 || IsDigit(s[1]) != IsDigit(s[0]) then [s[0]] else [s[0]] + FirstRun(s[1..])
  }

  function ChunkOf(run: string): Chunk {
    if |run| > 0 && AllDigits(run) then Number(Value(run)) else Word(Lower(run))
  }

  /** re.findall(r"\d+|\D+", ident), as chunks. */
  function Runs(ident: string): seq<Chunk> {
    if |ident| == 0 then [] else [ChunkOf(FirstRun(ident))] + Runs(ident[|FirstRun(ident)|..])
  }

  function AllRuns(ids: seq<string>): seq<Chunk> {
    if |ids| == 0 then [] else Runs(ids[0]) + AllRuns(ids[1..])
  }

  function Chunks(pre: string): seq<Chunk> {
    if pre == "" then [] else AllRuns(Identifiers(pre))
  }

  function KeyOf(v: string): Key {
    TextKey(DropV(Strip(v)))
  }

  function TextKey(s: string): Key {
    var t := TextTuple(s);
    Key(t.0, t.1, t.2, t.3, Chunks(Rest(Head(s, '+'), '-')))
  }

  // ---------------------------------------------------------------- order

  predicate TextLess(a: string, b: string) {
    |b| > 0 && (|a| == 0 || a[0] < b[0] || (a[0] == b[0] && TextLess(a[1..], b[1..])))
  }

  predicate ChunkLess(a: Chunk, b: Chunk) {
    match (a, b)
    case (Number(m), Number(n)) => m < n
    case (Number(_), Word(_)) => true
    case (Word(_), Number(_)) => false
    case (Word(s), Word(t)) => TextLess(s, t)
  }

  predicate ChunksLess(a: seq<Chunk>, b: seq<Chunk>) {
    |b| > 0 && (|a| == 0 || ChunkLess(a[0], b[0]) || (a[0] == b[0] && ChunksLess(a[1..], b[1..])))
  }

  predicate KeyLess(a: Key, b: Key) {
    if a.major != b.major then a.major < b.major
    else if a.minor != b.minor then a.minor < b.minor
    else if a.patch != b.patch then a.patch < b.patch
    else if a.final != b.final then a.final < b.final
    else ChunksLess(a.chunks, b.chunks)
  }

  predicate IsNewer(candidate: string, reference: string) {
    KeyLess(KeyOf(reference), KeyOf(candidate))
  }

  /** is_newer as a value. */
  function Newer(): (string, string) -> bool {
    (a, b) => IsNewer(a, b)
  }

  lemma {:induction false} TextOrder(a: string, b: string, c: string)
    ensures !TextLess(a, a) && (TextLess(a, b) || TextLess(b, a) || a == b)
    ensures TextLess(a, b) && TextLess(b, c) ==> TextLess(a, c)
  {
    if |a| > 0 && |b| > 0 && |c| > 0 {
      TextOrder(a[1..], b[1..], c[1..]);
      assert a == [a[0]] + a[1..] && b == [b[0]] + b[1..];
    } else if |a| > 0 && |b| > 0 {
      TextOrder(a[1..], b[1..], a[1..]);
      assert a == [a[0]] + a[1..] && b == [b[0]] + b[1..];
    } else if |a| > 0 {
      TextOrder(a[1..], a[1..], a[1..]);
    }
  }

  lemma ChunkOrder(a: Chunk, b: Chunk, c: Chunk)
    ensures !ChunkLess(a, a) && (ChunkLess(a, b) || ChunkLess(b, a) || a == b)
    ensures ChunkLess(a, b) && ChunkLess(b, c) ==> ChunkLess(a, c)
  {
    var x, y, z := if a.Word? then a.text else "", if b.Word? then b.text else "", if c.Word? then c.text else "";
    TextOrder(x, y, z);
  }

  lemma {:induction false} ChunksOrder(a: seq<Chunk>, b: seq<Chunk>, c: seq<Chunk>)
    ensures !ChunksLess(a, a) && (ChunksLess(a, b) || ChunksLess(b, a) || a == b)
    ensures ChunksLess(a, b) && ChunksLess(b, c) ==> ChunksLess(a, c)
  {
    if |a| > 0 && |b| > 0 && |c| > 0 {
      ChunkOrder(a[0], b[0], c[0]);
      ChunksOrder(a[1..], b[1..], c[1..]);
      assert a == [a[0]] + a[1..] && b == [b[0]] + b[1..];
    } else if |a| > 0 && |b| > 0 {
      ChunkOrder(a[0], b[0], a[0]);
      ChunksOrder(a[1..], b[1..], a[1..]);
      assert a == [a[0]] + a[1..] && b == [b[0]] + b[1..];
    } else if |a| > 0 {
      ChunkOrder(a[0], a[0], a[0]);
      ChunksOrder(a[1..], a[1..], a[1..]);
    }
  }

  /** is_newer is a strict weak order: irreflexive, transitive, and two versions are incomparable
      exactly when they have one key. */
  lemma NewerIsStrictWeakOrder(a: string, b: string, c: string)
    ensures !IsNewer(a, a)
    ensures IsNewer(a, b) && IsNewer(b, c) ==> IsNewer(a, c)
    ensures !IsNewer(a, b) && !IsNewer(b, a) <==> KeyOf(a) == KeyOf(b)
  {
    ChunksOrder(KeyOf(c).chunks, KeyOf(b).chunks, KeyOf(a).chunks);
    ChunksOrder(KeyOf(a).chunks, KeyOf(b).chunks, KeyOf(a).chunks);
  }

  // ---------------------------------------------------------------- the loops

  /** The parts of the core are read one by one, then missing ones are added. */
  method VersionTuple(v: string) returns (t: (nat, nat, nat, nat))
    ensures t == TupleOf(v)
  {
    var s := DropV(Strip(v));
    var pieces := SplitDots(Head(s, '-'));
    var parts: seq<nat> := [];
    var i := 0;
    while i < |pieces|
      invariant i <= |pieces| && |parts| == i
      invariant forall j :: 0 <= j < i ==> parts[j] == PartOr0(pieces, j)
    {
      parts := parts + [Value(OnlyDigits(pieces[i]))];
      i := i + 1;
    }
    while |parts| < 3
      invariant |parts| >= |pieces| && forall j :: 0 <= j < |parts| ==> parts[j] == PartOr0(pieces, j)
      decreases 3 - |parts|
    {
      parts := parts + [0];
    }
    t := (parts[0], parts[1], parts[2], if Rest(s, '-') != "" then 0 else 1);
  }

  method VersionKey(v: string) returns (k: Key)
    ensures k == KeyOf(v)
  {
    var t := VersionTuple(v);
    var chunks := ReadChunks(Rest(Head(DropV(Strip(v)), '+'), '-'));
    k := Key(t.0, t.1, t.2, t.3, chunks);
  }

  method ReadChunks(pre: string) returns (key: seq<Chunk>)
    ensures key == Chunks(pre)
  {
    key := [];
    if pre != "" {
      var ids := Identifiers(pre);
      var i := 0;
      while i < |ids|
        invariant i <= |ids| && key + AllRuns(ids[i..]) == AllRuns(ids)
      {
        var chunks := ReadRuns(ids[i]);
        AllRunsUnfold(ids, i);
        key := key + chunks;
        i := i + 1;
      }
    }
  }

  lemma AllRunsUnfold(ids: seq<string>, i: nat)
    requires i < |ids|
    ensures AllRuns(ids[i..]) == Runs(ids[i]) + AllRuns(ids[i + 1..])
  {
    assert ids[i..][1..] == ids[i + 1..];
  }

  method ReadRuns(ident: string) returns (chunks: seq<Chunk>)
    ensures chunks == Runs(ident)
  {
    chunks := [];
    var rest := ident;
    while |rest| > 0
      invariant chunks + Runs(rest) == Runs(ident)
      decreases |rest|
    {
      var run := FirstRun(rest);
      chunks := chunks + [ChunkOf(run)];
      rest := rest[|run|..];
    }
  }

  // ---------------------------------------------------------------- reading parts

  lemma {:induction false} HeadAppend(h: string, c: char, r: string)
    requires c !in h
    ensures Head(h + [c] + r, c) == h && Rest(h + [c] + r, c) == r
    ensures Head(h, c) == h && Rest(h, c) == ""
  {
    var s := h + [c] + r;
    if |h| > 0 {
      assert s[1..] == h[1..] + [c] + r;
      HeadAppend(h[1..], c, r);
    }
    assert s[|h| + 1..] == r;
  }

  // ---------------------------------------------------------------- suffixes

  predicate EndsInDigit(s: string) {
    |s| > 0 && IsDigit(s[|s| - 1])
  }

  lemma AllDigitsRun(d: string)
    requires |d| > 0 && AllDigits(d)
    ensures FirstRun(d) == d && Runs(d) == [Number(Value(d))]
  {
    var run := FirstRun(d);
    assert IsDigit(d[0]);
    assert |run| == |d|;
    assert d[|run|..] == "";
  }

  /** Digits after a text that does not end in one make a run of their own. */
  lemma {:induction false} RunsAppend(s: string, d: string)
    requires !EndsInDigit(s) && |d| > 0 && AllDigits(d)
    ensures Runs(s + d) == Runs(s) + [Number(Value(d))]
  {
    if |s| == 0 {
      assert s + d == d;
      AllDigitsRun(d);
    } else {
      var n := |FirstRun(s)|;
      RunsAppend(s[n..], d);
      RunsAppendFirst(s, d);
      var first, rest, last := [ChunkOf(FirstRun(s))], Runs(s[n..]), [Number(Value(d))];
      assert first + (rest + last) == (first + rest) + last;
    }
  }

  lemma RunsAppendFirst(s: string, d: string)
    requires |s| > 0 && !EndsInDigit(s) && |d| > 0 && AllDigits(d)
    ensures Runs(s + d) == [ChunkOf(FirstRun(s))] + Runs(s[|FirstRun(s)|..] + d)
  {
    RunAppend(s, d);
    RunsUnfold(s + d);
    SliceAppend(s, d, |FirstRun(s)|);
  }

  lemma SliceAppend(s: string, d: string, n: nat)
    requires n <= |s|
    ensures (s + d)[n..] == s[n..] + d
  {
  }

  lemma RunsUnfold(s: string)
    requires |s| > 0
    ensures Runs(s) == [ChunkOf(FirstRun(s))] + Runs(s[|FirstRun(s)|..])
  {
  }

  lemma {:induction false} RunAppend(s: string, d: string)
    requires |s| > 0 && !EndsInDigit(s) && |d| > 0 && AllDigits(d)
    ensures FirstRun(s + d) == FirstRun(s)
  {
    if |s| == 1 {
      assert (s + d)[1] == d[0];
    } else {
      assert (s + d)[1] == s[1] && (s + d)[1..] == s[1..] + d;
      RunAppend(s[1..], d);
    }
  }

  lemma {:induction false} IdentAppend(s: string, d: string)
    requires AllDigits(d)
    ensures FirstIdent(s + d) == if |FirstIdent(s)| < |s| then FirstIdent(s) else s + d
  {
    if |s| > 0 {
      if !IsSeparator(s[0]) {
        assert (s + d)[1..] == s[1..] + d;
        IdentAppend(s[1..], d);
      }
    } else {
      assert s + d == d;
      DigitsIdent(d);
    }
  }

  lemma {:induction false} DigitsIdent(d: string)
    requires AllDigits(d)
    ensures FirstIdent(d) == d
  {
    if |d| > 0 {
      assert IsDigit(d[0]);
      DigitsIdent(d[1..]);
    }
  }

  lemma AllRunsOne(ident: string)
    ensures AllRuns([ident]) == Runs(ident)
  {
    var ids := [ident];
    assert ids[1..] == [];
  }

  lemma {:induction false} AllRunsAppend(s: string, d: string)
    requires !EndsInDigit(s) && |d| > 0 && AllDigits(d)
    ensures AllRuns(Identifiers(s + d)) == AllRuns(Identifiers(s)) + [Number(Value(d))]
  {
    var n := |FirstIdent(s)|;
    if n == |s| {
      LastIdentAppend(s, d);
    } else {
      AllRunsAppend(s[n + 1..], d);
      FirstIdentAppend(s, d);
      var first, rest, last := Runs(FirstIdent(s)), AllRuns(Identifiers(s[n + 1..])), [Number(Value(d))];
      assert first + (rest + last) == (first + rest) + last;
    }
  }

  lemma LastIdentAppend(s: string, d: string)
    requires |FirstIdent(s)| == |s| && !EndsInDigit(s) && |d| > 0 && AllDigits(d)
    ensures AllRuns(Identifiers(s + d)) == AllRuns(Identifiers(s)) + [Number(Value(d))]
  {
    IdentAppend(s, d);
    assert Identifiers(s + d) == [s + d] && Identifiers(s) == [s];
    RunsAppend(s, d);
    AllRunsOne(s + d);
    AllRunsOne(s);
  }

  lemma FirstIdentAppend(s: string, d: string)
    requires |FirstIdent(s)| < |s| && AllDigits(d)
    ensures var n := |FirstIdent(s)|;
            && AllRuns(Identifiers(s)) == Runs(FirstIdent(s)) + AllRuns(Identifiers(s[n + 1..]))
            && AllRuns(Identifiers(s + d)) == Runs(FirstIdent(s)) + AllRuns(Identifiers(s[n + 1..] + d))
  {
    IdentAppend(s, d);
    SliceAppend(s, d, |FirstIdent(s)| + 1);
    AllRunsCons(FirstIdent(s), Identifiers(s[|FirstIdent(s)| + 1..]));
    AllRunsCons(FirstIdent(s), Identifiers(s[|FirstIdent(s)| + 1..] + d));
  }

  lemma AllRunsCons(ident: string, ids: seq<string>)
    ensures AllRuns([ident] + ids) == Runs(ident) + AllRuns(ids)
  {
    assert ([ident] + ids)[1..] == ids;
  }

  lemma ChunksAppend(s: string, d: string)
    requires !EndsInDigit(s) && |d| > 0 && AllDigits(d)
    ensures Chunks(s + d) == Chunks(s) + [Number(Value(d))]
  {
    AllRunsAppend(s, d);
    if s == "" {
      assert Identifiers(s) == [""];
      AllRunsOne("");
    }
  }

  lemma {:induction false} LongerIsLater(x: seq<Chunk>, y: Chunk)
    ensures ChunksLess(x, x + [y])
  {
    if |x| > 0 {
      assert (x + [y])[1..] == x[1..] + [y];
      LongerIsLater(x[1..], y);
    }
  }

  lemma {:induction false} LastDecides(x: seq<Chunk>, m: Chunk, n: Chunk)
    ensures ChunksLess(x + [m], x + [n]) <==> ChunkLess(m, n)
  {
    if |x| > 0 {
      assert (x + [m])[1..] == x[1..] + [m] && (x + [n])[1..] == x[1..] + [n];
      ChunkOrder(x[0], x[0], x[0]);
      LastDecides(x[1..], m, n);
    } else {
      assert ([m])[1..] == [] && ([n])[1..] == [];
      assert x + [m] == [m] && x + [n] == [n];
    }
  }

  /** Numeric suffixes of one label are compared as numbers. */
  lemma NumericSuffix(stem: string, d: string, e: string)
    requires !EndsInDigit(stem) && |d| > 0 && AllDigits(d) && |e| > 0 && AllDigits(e)
    ensures ChunksLess(Chunks(stem + d), Chunks(stem + e)) <==> Value(d) < Value(e)
  {
    ChunksAppend(stem, d);
    ChunksAppend(stem, e);
    LastDecides(Chunks(stem), Number(Value(d)), Number(Value(e)));
  }
}
