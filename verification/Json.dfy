/**
 Canonical JSON text (server/src/lib/audit-chain.ts): `stableStringify` sorts the keys of every object
 and escapes strings as JSON.stringify does (RFC 8259, section 7). Strings are sequences of UTF-16
 code units, so lone surrogates are covered. Numbers are represented by the text JSON.stringify gives
 them, which determines them.
 */
module Json {

  type Unit = x: int | 0 <= x < 0x1_0000

  type Text = seq<Unit>

  const QUOTE: Unit := 0x22
  const COMMA: Unit := 0x2C
  const COLON: Unit := 0x3A
  const BACKSLASH: Unit := 0x5C
  const OPEN_ARRAY: Unit := 0x5B
  const CLOSE_ARRAY: Unit := 0x5D
  const OPEN_OBJECT: Unit := 0x7B
  const CLOSE_OBJECT: Unit := 0x7D
  const NULL: Text := [0x6E, 0x75, 0x6C, 0x6C]
  const TRUE: Text := [0x74, 0x72, 0x75, 0x65]
  const FALSE: Text := [0x66, 0x61, 0x6C, 0x73, 0x65]

  datatype Json =
    | Null
    | Bool(value: bool)
    | Num(text: Text)
    | Str(chars: Text)
    | Arr(items: seq<Json>)
    | Obj(members: seq<Member>)

  datatype Member = Member(key: Text, value: Json)

  /** What a JSON value is once the order of keys is forgotten. */
  datatype Meaning =
    | Atom(json: Json)
    | Array(elements: seq<Meaning>)
    | Object(fields: map<Text, Meaning>)

  function Keys(members: seq<Member>): (ks: seq<Text>)
    ensures |ks| == |members| && forall i :: 0 <= i < |ks| ==> ks[i] == members[i].key
  {
    seq(|members|, i requires 0 <= i < |members| => members[i].key)
  }

  predicate Distinct(members: seq<Member>) {
    forall i, j | 0 <= i < j < |members| :: members[i].key != members[j].key
  }

  predicate IsDigitOrSign(c: Unit) {
    0x30 <= c <= 0x39 || c == 0x2D
  }

  /** Digits, sign, point and exponent: none of them a delimiter. */
  predicate IsNumberUnit(c: Unit) {
    IsDigitOrSign(c) || c in {0x2B, 0x2E, 0x45, 0x65}
  }

  predicate WellFormed(v: Json) {
    match v
    case Num(text) => |text| > 0 && IsDigitOrSign(text[0]) && forall i | 0 <= i < |text| :: IsNumberUnit(text[i])
    case Arr(items) => forall i | 0 <= i < |items| :: WellFormed(items[i])
    case Obj(members) => Distinct(members) && forall i | 0 <= i < |members| :: WellFormed(members[i].value)
    case _ => true
  }

  function IndexOf(members: seq<Member>, k: Text): (i: nat)
    requires k in Keys(members)
    ensures i < |members| && members[i].key == k
  {
    if members[0].key == k then 0
    else
      assert k in Keys(members[1..]) by { var j :| 0 <= j < |members| && Keys(members)[j] == k; assert Keys(members[1..])[j - 1] == k; }
      IndexOf(members[1..], k) + 1
  }

  function MeaningOf(v: Json): (m: Meaning)
    decreases v
  {
    match v
    case Arr(items) => Array(seq(|items|, i requires 0 <= i < |items| => MeaningOf(items[i])))
    case Obj(members) => Object(map k | k in Keys(members) :: MeaningOf(members[IndexOf(members, k)].value))
    case _ => Atom(v)
  }

  // ---------------------------------------------------------------- strings

  predicate IsLead(c: Unit) { 0xD800 <= c <= 0xDBFF }

  predicate IsTrail(c: Unit) { 0xDC00 <= c <= 0xDFFF }

  function HexDigit(n: int): (c: Unit)
    requires 0 <= n < 16
  {
    if n < 10 then 0x30 + n else 0x61 + n - 10
  }

  function HexValue(c: Unit): int {
    if 0x30 <= c <= 0x39 then c - 0x30 else c - 0x61 + 10
  }

  function EscapeUnit(c: Unit): (t: Text) {
    if c == QUOTE || c == BACKSLASH then [BACKSLASH, c]
    else if c == 0x08 then [BACKSLASH, 0x62]
    else if c == 0x09 then [BACKSLASH, 0x74]
    else if c == 0x0A then [BACKSLASH, 0x6E]
    else if c == 0x0C then [BACKSLASH, 0x66]
    else if c == 0x0D then [BACKSLASH, 0x72]
    else if c < 0x20 || IsLead(c) || IsTrail(c) then
      [BACKSLASH, 0x75, HexDigit(c / 0x1000), HexDigit(c / 0x100 % 16), HexDigit(c / 16 % 16), HexDigit(c % 16)]
    else [c]
  }

  /** Surrogate pairs stay as they are, a lone surrogate is escaped. */
  function Escape(s: Text): (t: Text) {
    if |s| == 0 then []
    else if |s| > 1 && IsLead(s[0]) && IsTrail(s[1]) then [s[0], s[1]] + Escape(s[2..])
    else EscapeUnit(s[0]) + Escape(s[1..])
  }

  function Quote(s: Text): (t: Text)
    ensures |t| >= 2 && t[0] == QUOTE
  {
    [QUOTE] + Escape(s) + [QUOTE]
  }

  /** A reader of string bodies: what stands before the closing quote, and what follows it. */
  function ReadString(t: Text): (r: (Text, Text)) {
    if |t| == 0 then ([], [])
    else if t[0] == QUOTE then ([], t[1..])
    else if t[0] != BACKSLASH || |t| == 1 then Push(t[0], ReadString(t[1..]))
    else if t[1] == 0x62 then Push(0x08, ReadString(t[2..]))
    else if t[1] == 0x74 then Push(0x09, ReadString(t[2..]))
    else if t[1] == 0x6E then Push(0x0A, ReadString(t[2..]))
    else if t[1] == 0x66 then Push(0x0C, ReadString(t[2..]))
    else if t[1] == 0x72 then Push(0x0D, ReadString(t[2..]))
    else if t[1] == 0x75 && |t| >= 6 then
      var c := HexValue(t[2]) * 0x1000 + HexValue(t[3]) * 0x100 + HexValue(t[4]) * 16 + HexValue(t[5]);
      Push(if 0 <= c < 0x1_0000 then c else 0, ReadString(t[6..]))
    else Push(t[1], ReadString(t[2..]))
  }

  function Push(c: Unit, r: (Text, Text)): (Text, Text) {
    ([c] + r.0, r.1)
  }

  lemma HexOne(n: int)
    requires 0 <= n < 16
    ensures HexValue(HexDigit(n)) == n
  {
  }

  lemma HexRoundTrip(c: Unit)
    ensures HexValue(HexDigit(c / 0x1000)) * 0x1000 + HexValue(HexDigit(c / 0x100 % 16)) * 0x100
            + HexValue(HexDigit(c / 16 % 16)) * 16 + HexValue(HexDigit(c % 16)) == c
  {
    HexOne(c / 0x1000);
    HexOne(c / 0x100 % 16);
    HexOne(c / 16 % 16);
    HexOne(c % 16);
    assert c / 0x100 / 16 == c / 0x1000 && c / 16 / 16 == c / 0x100;
  }

  lemma ReadUnit(c: Unit, t: Text)
    ensures ReadString(EscapeUnit(c) + t) == Push(c, ReadString(t))
  {
    var e := EscapeUnit(c);
    assert (e + t)[|e|..] == t;
    if |e| == 6 {
      HexRoundTrip(c);
    }
  }

  lemma ReadPlain(c: Unit, t: Text)
    requires c != QUOTE && c != BACKSLASH
    ensures ReadString([c] + t) == Push(c, ReadString(t))
  {
    assert ([c] + t)[1..] == t;
  }

  /** Reading back an escaped string gives the string and leaves exactly what followed it. */
  lemma {:induction false} EscapeRoundTrip(s: Text, rest: Text)
    ensures ReadString(Escape(s) + [QUOTE] + rest) == (s, rest)
    decreases s, 1
  {
    if |s| == 0 {
      var end := [QUOTE] + rest;
      assert Escape(s) + [QUOTE] + rest == end;
      assert end[1..] == rest;
    } else if |s| > 1 && IsLead(s[0]) && IsTrail(s[1]) {
      EscapePair(s, rest);
    } else {
      EscapeRoundTrip(s[1..], rest);
      Regroup3(EscapeUnit(s[0]), Escape(s[1..]), [QUOTE], rest);
      ReadUnit(s[0], Escape(s[1..]) + [QUOTE] + rest);
      assert s == [s[0]] + s[1..];
    }
  }

  lemma Regroup3(a: Text, b: Text, c: Text, d: Text)
    ensures a + b + c + d == a + (b + c + d)
  {
    Assoc(a, b, c);
    Assoc(a, b + c, d);
  }

  lemma {:induction false} EscapePair(s: Text, rest: Text)
    requires |s| > 1 && IsLead(s[0]) && IsTrail(s[1])
    ensures ReadString(Escape(s) + [QUOTE] + rest) == (s, rest)
    decreases s, 0
  {
    EscapeRoundTrip(s[2..], rest);
    var tail := Escape(s[2..]) + [QUOTE] + rest;
    var whole := Escape(s) + [QUOTE] + rest;
    assert [s[0], s[1]] == [s[0]] + [s[1]];
    Regroup([s[0]], [s[1]], Escape(s[2..]), [QUOTE], rest);
    assert whole == [s[0]] + ([s[1]] + tail);
    ReadPlain(s[1], tail);
    ReadPlain(s[0], [s[1]] + tail);
    assert s == [s[0]] + ([s[1]] + s[2..]);
  }

  lemma QuoteReadable(s: Text, t: Text, x: Text, y: Text)
    requires Quote(s) + x == Quote(t) + y
    ensures s == t && x == y
  {
    QuoteReads(s, x);
    QuoteReads(t, y);
  }

  lemma QuoteReads(s: Text, x: Text)
    ensures ReadString((Quote(s) + x)[1..]) == (s, x)
  {
    EscapeRoundTrip(s, x);
    assert (Quote(s) + x)[1..] == Escape(s) + [QUOTE] + x;
  }

  // ---------------------------------------------------------------- order of keys

  /** Array.prototype.sort without a comparator: by UTF-16 code units. */
  predicate Before(a: Text, b: Text) {
    |b| > 0 && (|a| == 0 || a[0] < b[0] || (a[0] == b[0] && Before(a[1..], b[1..])))
  }

  lemma {:induction false} BeforeTransitive(a: Text, b: Text, c: Text)
    requires Before(a, b) && Before(b, c)
    ensures Before(a, c)
  {
    if |a| > 0 && a[0] == b[0] && b[0] == c[0] {
      BeforeTransitive(a[1..], b[1..], c[1..]);
    }
  }

  lemma {:induction false} BeforeTotal(a: Text, b: Text)
    ensures Before(a, b) || Before(b, a) || a == b
    ensures !(Before(a, b) && Before(b, a)) && !Before(a, a)
  {
    if |a| > 0 {
      BeforeTotal(a[1..], a[1..]);
    }
    if |a| > 0 && |b| > 0 && a[0] == b[0] {
      BeforeTotal(a[1..], b[1..]);
      assert a == [a[0]] + a[1..] && b == [b[0]] + b[1..];
    }
  }

  predicate Sorted(ks: seq<Text>) {
    forall i, j | 0 <= i < j < |ks| :: Before(ks[i], ks[j])
  }

  function Insert(k: Text, ks: seq<Text>): (r: seq<Text>)
    ensures forall x :: x in r <==> x == k || x in ks
  {
    if |ks| == 0 then [k]
    else if Before(k, ks[0]) then [k] + ks
    else
      assert forall x :: x in ks <==> x == ks[0] || x in ks[1..];
      [ks[0]] + Insert(k, ks[1..])
  }

  function SortKeys(ks: seq<Text>): (r: seq<Text>)
    ensures forall x :: x in r <==> x in ks
  {
    if |ks| == 0 then []
    else
      assert forall x :: x in ks <==> x == ks[0] || x in ks[1..];
      Insert(ks[0], SortKeys(ks[1..]))
  }

  lemma {:induction false} InsertSorted(k: Text, ks: seq<Text>)
    requires Sorted(ks) && k !in ks
    ensures Sorted(Insert(k, ks))
  {
    if |ks| > 0 {
      BeforeTotal(k, ks[0]);
      if Before(k, ks[0]) {
        forall j | 0 <= j < |ks|
          ensures Before(k, ks[j])
        {
          if j > 0 { BeforeTransitive(k, ks[0], ks[j]); }
        }
      } else {
        var rest := Insert(k, ks[1..]);
        InsertSorted(k, ks[1..]);
        forall j | 0 <= j < |rest|
          ensures Before(ks[0], rest[j])
        {
          assert rest[j] in rest;
        }
      }
    }
  }

  lemma {:induction false} SortKeysSorted(ks: seq<Text>)
    requires forall i, j :: 0 <= i < j < |ks| ==> ks[i] != ks[j]
    ensures Sorted(SortKeys(ks))
  {
    if |ks| > 0 {
      SortKeysSorted(ks[1..]);
      InsertSorted(ks[0], SortKeys(ks[1..]));
    }
  }

  lemma HeadIn(ks: seq<Text>)
    ensures |ks| > 0 ==> ks[0] in ks
  {
  }

  /** A sorted listing is determined by what it lists. */
  lemma {:induction false} SortedUnique(a: seq<Text>, b: seq<Text>)
    requires Sorted(a) && Sorted(b) && forall x :: x in a <==> x in b
    ensures a == b
  {
    HeadIn(a);
    HeadIn(b);
    if |a| > 0 {
      BeforeTotal(a[0], b[0]);
      var i :| 0 <= i < |a| && a[i] == b[0];
      var j :| 0 <= j < |b| && b[j] == a[0];
      assert a[0] == b[0];
      forall x
        ensures x in a[1..] <==> x in b[1..]
      {
        assert x in a <==> x == a[0] || x in a[1..];
        assert x in b <==> x == b[0] || x in b[1..];
        BeforeTotal(a[0], a[0]);
      }
      SortedUnique(a[1..], b[1..]);
      assert a == [a[0]] + a[1..] && b == [b[0]] + b[1..];
    }
  }

  // ---------------------------------------------------------------- serialisation

  function Commas(parts: seq<Text>): Text {
    if |parts| == 0 then []
    else if |parts| == 1 then parts[0]
    else parts[0] + [COMMA] + Commas(parts[1..])
  }

  function Stable(v: Json): (t: Text)
    decreases v
  {
    match v
    case Null => NULL
    case Bool(b) => if b then TRUE else FALSE
    case Num(text) => text
    case Str(chars) => Quote(chars)
    case Arr(items) => [OPEN_ARRAY] + Commas(seq(|items|, i requires 0 <= i < |items| => Stable(items[i]))) + [CLOSE_ARRAY]
    case Obj(members) =>
      var ks := SortKeys(Keys(members));
      [OPEN_OBJECT] + Commas(seq(|ks|, i requires 0 <= i < |ks| =>
        Quote(ks[i]) + [COLON] + Stable(members[IndexOf(members, ks[i])].value))) + [CLOSE_OBJECT]
  }

  // ---------------------------------------------------------------- reading it back

  /** What may follow a value: nothing, or one of the delimiters. */
  predicate Delimited(x: Text) {
    |x| == 0 || x[0] in {COMMA, CLOSE_ARRAY, CLOSE_OBJECT}
  }

  /** Where p and q start the same text, both followed by a delimiter, they are the same. */
  ghost predicate Separable(p: Text, q: Text) {
    forall x, y :: Delimited(x) && Delimited(y) && p + x == q + y ==> p == q && x == y
  }

  ghost predicate Openers(ps: seq<Text>) {
    forall i :: 0 <= i < |ps| ==> |ps[i]| > 0 && ps[i][0] !in {CLOSE_ARRAY, CLOSE_OBJECT}
  }

  /** Where one list of parts has ended, another does not go on. */
  lemma EndDiffers(ps: seq<Text>, qs: seq<Text>, close: Unit, x: Text, y: Text)
    requires close in {CLOSE_ARRAY, CLOSE_OBJECT} && Openers(ps) && Openers(qs)
    ensures (|ps| == 0) != (|qs| == 0) ==> Commas(ps) + [close] + x != Commas(qs) + [close] + y
  {
    CommasSplit(ps, close, x);
    CommasSplit(qs, close, y);
    var a, b := Commas(ps) + [close] + x, Commas(qs) + [close] + y;
    assert |a| > 0 && |b| > 0;
    assert if |ps| == 0 then a[0] == close else a[0] == ps[0][0];
    assert if |qs| == 0 then b[0] == close else b[0] == qs[0][0];
  }

  /** Two lists of parts that start the same text, up to the closing bracket, are the same. */
  lemma {:induction false} CommasReadable(ps: seq<Text>, qs: seq<Text>, close: Unit, x: Text, y: Text)
    requires close in {CLOSE_ARRAY, CLOSE_OBJECT} && Openers(ps) && Openers(qs)
    requires forall i :: 0 <= i < |ps| && i < |qs| ==> Separable(ps[i], qs[i])
    requires Commas(ps) + [close] + x == Commas(qs) + [close] + y
    ensures ps == qs && x == y
  {
    EndDiffers(ps, qs, close, x, y);
    CommasSplit(ps, close, x);
    CommasSplit(qs, close, y);
    if |ps| == 0 {
      assert (Commas(ps) + [close] + x)[1..] == x && (Commas(qs) + [close] + y)[1..] == y;
    } else {
      var u, v := AfterFirst(ps, close, x), AfterFirst(qs, close, y);
      assert Separable(ps[0], qs[0]);
      assert ps[0] + u == qs[0] + v;
      assert ps[0] == qs[0] && u == v;
      assert u[0] == v[0];
      assert u[1..] == if |ps| == 1 then x else Commas(ps[1..]) + [close] + x;
      assert v[1..] == if |qs| == 1 then y else Commas(qs[1..]) + [close] + y;
      if |ps| > 1 {
        CommasReadable(ps[1..], qs[1..], close, x, y);
      }
      assert ps == [ps[0]] + ps[1..] && qs == [qs[0]] + qs[1..];
    }
  }

  function AfterFirst(ps: seq<Text>, close: Unit, x: Text): (r: Text)
    requires |ps| > 0 && close in {CLOSE_ARRAY, CLOSE_OBJECT}
    ensures Delimited(r)
  {
    if |ps| == 1 then [close] + x else [COMMA] + (Commas(ps[1..]) + [close] + x)
  }

  lemma CommasSplit(ps: seq<Text>, close: Unit, x: Text)
    requires close in {CLOSE_ARRAY, CLOSE_OBJECT}
    ensures Commas(ps) + [close] + x == if |ps| == 0 then [close] + x else ps[0] + AfterFirst(ps, close, x)
  {
    if |ps| > 1 {
      Regroup(ps[0], [COMMA], Commas(ps[1..]), [close], x);
    } else if |ps| == 1 {
      Assoc(ps[0], [close], x);
    }
  }

  lemma Assoc(a: Text, b: Text, c: Text)
    ensures (a + b) + c == a + (b + c)
  {
  }

  lemma Regroup(a: Text, b: Text, c: Text, d: Text, e: Text)
    ensures a + b + c + d + e == a + (b + (c + d + e))
  {
    Assoc(a + b, c, d);
    Assoc(a + b, c + d, e);
    Assoc(a, b, c + d + e);
  }

  /** The first unit of a value's text. */
  lemma FirstUnit(v: Json)
    requires WellFormed(v)
    ensures |Stable(v)| > 0
    ensures match v
            case Null => Stable(v)[0] == 0x6E
            case Bool(b) => Stable(v)[0] == if b then 0x74 else 0x66
            case Num(_) => IsDigitOrSign(Stable(v)[0])
            case Str(_) => Stable(v)[0] == QUOTE
            case Arr(_) => Stable(v)[0] == OPEN_ARRAY
            case Obj(_) => Stable(v)[0] == OPEN_OBJECT
  {
  }

  function ItemTexts(items: seq<Json>): (ps: seq<Text>)
    ensures |ps| == |items|
  {
    seq(|items|, i requires 0 <= i < |items| => Stable(items[i]))
  }

  function Field(members: seq<Member>, k: Text): Json
    requires k in Keys(members)
  {
    members[IndexOf(members, k)].value
  }

  function FieldText(members: seq<Member>, k: Text): Text
    requires k in Keys(members)
  {
    Quote(k) + [COLON] + Stable(Field(members, k))
  }

  function FieldTexts(members: seq<Member>): (ps: seq<Text>)
    ensures |ps| == |SortKeys(Keys(members))|
  {
    var ks := SortKeys(Keys(members));
    seq(|ks|, i requires 0 <= i < |ks| => FieldText(members, ks[i]))
  }

  lemma StableParts(v: Json)
    ensures v.Arr? ==> Stable(v) == [OPEN_ARRAY] + Commas(ItemTexts(v.items)) + [CLOSE_ARRAY]
    ensures v.Obj? ==> Stable(v) == [OPEN_OBJECT] + Commas(FieldTexts(v.members)) + [CLOSE_OBJECT]
  {
    if v.Arr? {
      assert ItemTexts(v.items) == seq(|v.items|, i requires 0 <= i < |v.items| => Stable(v.items[i]));
    }
    if v.Obj? {
      var ks := SortKeys(Keys(v.members));
      assert FieldTexts(v.members) == seq(|ks|, i requires 0 <= i < |ks| =>
        Quote(ks[i]) + [COLON] + Stable(v.members[IndexOf(v.members, ks[i])].value));
    }
  }

  lemma PrefixSeparable(p: Text, q: Text)
    requires |p| == |q|
    ensures Separable(p, q)
  {
    forall x, y | Delimited(x) && Delimited(y) && p + x == q + y
      ensures p == q && x == y
    {
      var whole := p + x;
      assert p == whole[..|p|] && q == whole[..|p|];
      assert x == whole[|p|..] && y == whole[|p|..];
    }
  }

  lemma HeadsDiffer(p: Text, q: Text)
    requires |p| > 0 && |q| > 0 && p[0] != q[0]
    ensures Separable(p, q)
  {
    forall x, y
      ensures p + x != q + y
    {
      assert (p + x)[0] == p[0] && (q + y)[0] == q[0];
    }
  }

  predicate AllNumberUnits(p: Text) {
    forall i | 0 <= i < |p| :: IsNumberUnit(p[i])
  }

  lemma ShorterNumber(p: Text, q: Text, x: Text, y: Text)
    requires AllNumberUnits(q) && |p| < |q| && Delimited(x)
    ensures p + x != q + y
  {
    assert |x| > 0 ==> (p + x)[|p|] == x[0];
    assert (q + y)[|p|] == q[|p|];
  }

  lemma NumbersSeparable(p: Text, q: Text)
    requires AllNumberUnits(p) && AllNumberUnits(q)
    ensures Separable(p, q)
  {
    if |p| == |q| {
      PrefixSeparable(p, q);
    } else {
      forall x, y | Delimited(x) && Delimited(y)
        ensures p + x != q + y
      {
        if |p| < |q| {
          ShorterNumber(p, q, x, y);
        } else {
          ShorterNumber(q, p, y, x);
        }
      }
    }
  }

  lemma QuotesSeparable(s: Text, t: Text)
    ensures Separable(Quote(s), Quote(t))
  {
    forall x, y | Delimited(x) && Delimited(y) && Quote(s) + x == Quote(t) + y
      ensures Quote(s) == Quote(t) && x == y
    {
      QuoteReadable(s, t, x, y);
    }
  }

  /** A key with its value: the key is read first, then the value. */
  lemma FieldsSeparable(k: Text, v: Text, l: Text, w: Text)
    requires Separable(v, w)
    ensures Separable(Quote(k) + [COLON] + v, Quote(l) + [COLON] + w)
  {
    var p, q := Quote(k) + [COLON] + v, Quote(l) + [COLON] + w;
    forall x, y | Delimited(x) && Delimited(y) && p + x == q + y
      ensures p == q && x == y
    {
      var a, b := [COLON] + v + x, [COLON] + w + y;
      assert p + x == Quote(k) + a && q + y == Quote(l) + b;
      QuoteReadable(k, l, a, b);
      assert a[1..] == v + x && b[1..] == w + y;
    }
  }

  lemma ArraysSeparable(v: Json, w: Json)
    requires v.Arr? && w.Arr? && WellFormed(v) && WellFormed(w)
    requires forall i :: 0 <= i < |v.items| && i < |w.items| ==> Separable(Stable(v.items[i]), Stable(w.items[i]))
    ensures Separable(Stable(v), Stable(w))
    ensures Stable(v) == Stable(w) ==> ItemTexts(v.items) == ItemTexts(w.items)
  {
    var ps, qs := ItemTexts(v.items), ItemTexts(w.items);
    StableParts(v);
    StableParts(w);
    forall i | 0 <= i < |ps| ensures |ps[i]| > 0 && ps[i][0] !in {CLOSE_ARRAY, CLOSE_OBJECT} { FirstUnit(v.items[i]); }
    forall i | 0 <= i < |qs| ensures |qs[i]| > 0 && qs[i][0] !in {CLOSE_ARRAY, CLOSE_OBJECT} { FirstUnit(w.items[i]); }
    BracketsSeparable(OPEN_ARRAY, ps, qs, CLOSE_ARRAY);
  }

  lemma AfterOpen(open: Unit, inner: Text, close: Unit, x: Text)
    ensures (([open] + inner + [close]) + x)[1..] == inner + [close] + x
  {
  }

  lemma BracketsReadable(open: Unit, ps: seq<Text>, qs: seq<Text>, close: Unit, x: Text, y: Text)
    requires close in {CLOSE_ARRAY, CLOSE_OBJECT} && Openers(ps) && Openers(qs)
    requires forall i :: 0 <= i < |ps| && i < |qs| ==> Separable(ps[i], qs[i])
    requires ([open] + Commas(ps) + [close]) + x == ([open] + Commas(qs) + [close]) + y
    ensures ps == qs && x == y
  {
    AfterOpen(open, Commas(ps), close, x);
    AfterOpen(open, Commas(qs), close, y);
    CommasReadable(ps, qs, close, x, y);
  }

  lemma BracketsSeparable(open: Unit, ps: seq<Text>, qs: seq<Text>, close: Unit)
    requires close in {CLOSE_ARRAY, CLOSE_OBJECT} && Openers(ps) && Openers(qs)
    requires forall i :: 0 <= i < |ps| && i < |qs| ==> Separable(ps[i], qs[i])
    ensures Separable([open] + Commas(ps) + [close], [open] + Commas(qs) + [close])
    ensures [open] + Commas(ps) + [close] == [open] + Commas(qs) + [close] ==> ps == qs
  {
    var p, q := [open] + Commas(ps) + [close], [open] + Commas(qs) + [close];
    forall x, y | Delimited(x) && Delimited(y) && p + x == q + y
      ensures p == q && x == y
    {
      BracketsReadable(open, ps, qs, close, x, y);
    }
    if p == q {
      BracketsReadable(open, ps, qs, close, [], []);
    }
  }

  lemma ObjectsSeparable(v: Json, w: Json)
    requires v.Obj? && w.Obj? && WellFormed(v) && WellFormed(w)
    requires forall i, j :: 0 <= i < |v.members| && 0 <= j < |w.members| ==>
      Separable(Stable(v.members[i].value), Stable(w.members[j].value))
    ensures Separable(Stable(v), Stable(w))
    ensures Stable(v) == Stable(w) ==> FieldTexts(v.members) == FieldTexts(w.members)
  {
    var ps, qs := FieldTexts(v.members), FieldTexts(w.members);
    StableParts(v);
    StableParts(w);
    var ks, ls := SortKeys(Keys(v.members)), SortKeys(Keys(w.members));
    forall i | 0 <= i < |ps| && i < |qs|
      ensures Separable(ps[i], qs[i])
    {
      assert ks[i] in ks && ls[i] in ls;
      FieldsSeparable(ks[i], Stable(Field(v.members, ks[i])), ls[i], Stable(Field(w.members, ls[i])));
    }
    BracketsSeparable(OPEN_OBJECT, ps, qs, CLOSE_OBJECT);
  }

  /** Unique readability: no text of a value, followed by a delimiter, is also the text of another. */
  lemma {:induction false} ValuesSeparable(v: Json, w: Json)
    requires WellFormed(v) && WellFormed(w)
    ensures Separable(Stable(v), Stable(w))
    decreases v
  {
    FirstUnit(v);
    FirstUnit(w);
    if Stable(v)[0] != Stable(w)[0] && !(v.Num? && w.Num?) {
      HeadsDiffer(Stable(v), Stable(w));
    } else {
      match v
      case Null => PrefixSeparable(Stable(v), Stable(w));
      case Bool(_) => PrefixSeparable(Stable(v), Stable(w));
      case Num(text) => NumbersSeparable(text, w.text);
      case Str(chars) => QuotesSeparable(chars, w.chars);
      case Arr(items) =>
        forall i | 0 <= i < |items| && i < |w.items| ensures Separable(Stable(items[i]), Stable(w.items[i])) {
          ValuesSeparable(items[i], w.items[i]);
        }
        ArraysSeparable(v, w);
      case Obj(members) =>
        forall i, j | 0 <= i < |members| && 0 <= j < |w.members|
          ensures Separable(Stable(members[i].value), Stable(w.members[j].value))
        {
          ValuesSeparable(members[i].value, w.members[j].value);
        }
        ObjectsSeparable(v, w);
    }
  }

  // ---------------------------------------------------------------- canonical

  function Fields(members: seq<Member>): map<Text, Meaning> {
    map k | k in Keys(members) :: MeaningOf(Field(members, k))
  }

  /** The texts of the fields say which keys there are and what text each value has. */
  lemma FieldTextsRead(m: seq<Member>, n: seq<Member>)
    requires FieldTexts(m) == FieldTexts(n)
    ensures SortKeys(Keys(m)) == SortKeys(Keys(n))
    ensures forall k :: k in Keys(m) <==> k in Keys(n)
    ensures forall k :: k in Keys(m) ==> Stable(Field(m, k)) == Stable(Field(n, k))
  {
    var ks, ls := SortKeys(Keys(m)), SortKeys(Keys(n));
    forall i | 0 <= i < |ks|
      ensures ks[i] == ls[i] && ks[i] in Keys(m) && ls[i] in Keys(n)
      ensures Stable(Field(m, ks[i])) == Stable(Field(n, ks[i]))
    {
      FieldTextAt(m, n, i);
    }
    assert ks == ls;
    forall k | k in Keys(m)
      ensures k in Keys(n) && Stable(Field(m, k)) == Stable(Field(n, k))
    {
      assert k in ks;
    }
    forall k | k in Keys(n)
      ensures k in Keys(m)
    {
      assert k in ls;
    }
  }

  lemma FieldTextAt(m: seq<Member>, n: seq<Member>, i: nat)
    requires FieldTexts(m) == FieldTexts(n) && i < |SortKeys(Keys(m))|
    ensures i < |SortKeys(Keys(n))|
    ensures var k, l := SortKeys(Keys(m))[i], SortKeys(Keys(n))[i];
            k == l && k in Keys(m) && l in Keys(n) && Stable(Field(m, k)) == Stable(Field(n, k))
  {
    var ks, ls := SortKeys(Keys(m)), SortKeys(Keys(n));
    assert |FieldTexts(m)| == |ks| && |FieldTexts(n)| == |ls|;
    assert ks[i] in ks && ls[i] in ls;
    assert FieldTexts(m)[i] == FieldText(m, ks[i]) && FieldTexts(n)[i] == FieldText(n, ls[i]);
    FieldTextReadable(ks[i], Stable(Field(m, ks[i])), ls[i], Stable(Field(n, ls[i])));
  }

  lemma FieldTextReadable(k: Text, v: Text, l: Text, w: Text)
    requires Quote(k) + [COLON] + v == Quote(l) + [COLON] + w
    ensures k == l && v == w
  {
    assert Quote(k) + [COLON] + v == Quote(k) + ([COLON] + v);
    assert Quote(l) + [COLON] + w == Quote(l) + ([COLON] + w);
    QuoteReadable(k, l, [COLON] + v, [COLON] + w);
    assert ([COLON] + v)[1..] == v && ([COLON] + w)[1..] == w;
  }

  lemma ArrayTexts(v: Json, w: Json)
    requires WellFormed(v) && WellFormed(w) && Stable(v) == Stable(w) && v.Arr? && w.Arr?
    ensures |v.items| == |w.items| && forall i :: 0 <= i < |v.items| ==> Stable(v.items[i]) == Stable(w.items[i])
  {
    forall i, j | 0 <= i < |v.items| && 0 <= j < |w.items| ensures Separable(Stable(v.items[i]), Stable(w.items[j])) {
      ValuesSeparable(v.items[i], w.items[j]);
    }
    ArraysSeparable(v, w);
    forall i | 0 <= i < |v.items|
      ensures Stable(v.items[i]) == Stable(w.items[i])
    {
      assert ItemTexts(v.items)[i] == ItemTexts(w.items)[i];
    }
  }

  lemma ObjectTexts(v: Json, w: Json)
    requires WellFormed(v) && WellFormed(w) && Stable(v) == Stable(w) && v.Obj? && w.Obj?
    ensures forall k :: k in Keys(v.members) <==> k in Keys(w.members)
    ensures forall k :: k in Keys(v.members) ==> Stable(Field(v.members, k)) == Stable(Field(w.members, k))
  {
    forall i, j | 0 <= i < |v.members| && 0 <= j < |w.members|
      ensures Separable(Stable(v.members[i].value), Stable(w.members[j].value))
    {
      ValuesSeparable(v.members[i].value, w.members[j].value);
    }
    ObjectsSeparable(v, w);
    FieldTextsRead(v.members, w.members);
  }

  lemma SameItems(v: Json, w: Json)
    requires v.Arr? && w.Arr? && |v.items| == |w.items|
    requires forall i :: 0 <= i < |v.items| ==> MeaningOf(v.items[i]) == MeaningOf(w.items[i])
    ensures MeaningOf(v) == MeaningOf(w)
  {
    assert MeaningOf(v).elements == MeaningOf(w).elements;
  }

  lemma SameFields(v: Json, w: Json)
    requires v.Obj? && w.Obj? && forall k :: k in Keys(v.members) <==> k in Keys(w.members)
    requires forall k :: k in Keys(v.members) ==> MeaningOf(Field(v.members, k)) == MeaningOf(Field(w.members, k))
    ensures MeaningOf(v) == MeaningOf(w)
  {
    FieldsOfMeaning(v);
    FieldsOfMeaning(w);
    var f, g := Fields(v.members), Fields(w.members);
    assert f.Keys == g.Keys;
    assert f == g;
  }

  lemma FieldsOfMeaning(v: Json)
    requires v.Obj?
    ensures MeaningOf(v) == Object(Fields(v.members))
  {
    assert MeaningOf(v).fields == Fields(v.members);
  }

  /** Same text, same value up to the order of keys. */
  lemma {:induction false} StableInjective(v: Json, w: Json)
    requires WellFormed(v) && WellFormed(w) && Stable(v) == Stable(w)
    ensures MeaningOf(v) == MeaningOf(w)
    decreases v
  {
    FirstUnit(v);
    FirstUnit(w);
    match v
    case Str(chars) => SameString(chars, w.chars);
    case Arr(items) =>
      ArrayTexts(v, w);
      forall i | 0 <= i < |items| ensures MeaningOf(items[i]) == MeaningOf(w.items[i]) { StableInjective(items[i], w.items[i]); }
      SameItems(v, w);
    case Obj(members) =>
      ObjectTexts(v, w);
      forall k | k in Keys(members) ensures MeaningOf(Field(members, k)) == MeaningOf(Field(w.members, k)) {
        StableInjective(Field(members, k), Field(w.members, k));
      }
      SameFields(v, w);
    case _ =>
  }

  lemma SameString(s: Text, t: Text)
    requires Quote(s) == Quote(t)
    ensures s == t
  {
    assert Quote(s) + [] == Quote(t) + [];
    QuoteReadable(s, t, [], []);
  }

  lemma ItemsMean(v: Json, w: Json)
    requires v.Arr? && MeaningOf(v) == MeaningOf(w)
    ensures w.Arr? && |v.items| == |w.items| && forall i :: 0 <= i < |v.items| ==> MeaningOf(v.items[i]) == MeaningOf(w.items[i])
  {
    assert |MeaningOf(v).elements| == |MeaningOf(w).elements|;
    forall i | 0 <= i < |v.items|
      ensures MeaningOf(v.items[i]) == MeaningOf(w.items[i])
    {
      assert MeaningOf(v).elements[i] == MeaningOf(w).elements[i];
    }
  }

  lemma FieldsMean(v: Json, w: Json)
    requires v.Obj? && MeaningOf(v) == MeaningOf(w)
    ensures w.Obj? && forall k :: k in Keys(v.members) <==> k in Keys(w.members)
    ensures forall k :: k in Keys(v.members) ==> MeaningOf(Field(v.members, k)) == MeaningOf(Field(w.members, k))
  {
    var f, g := Fields(v.members), Fields(w.members);
    FieldsOfMeaning(v);
    FieldsOfMeaning(w);
    forall k
      ensures k in Keys(v.members) <==> k in Keys(w.members)
      ensures k in Keys(v.members) ==> MeaningOf(Field(v.members, k)) == MeaningOf(Field(w.members, k))
    {
      assert (k in f <==> k in g) && (k in f ==> f[k] == g[k]);
    }
  }

  lemma SameFieldTexts(m: seq<Member>, n: seq<Member>)
    requires Distinct(m) && Distinct(n) && forall k :: k in Keys(m) <==> k in Keys(n)
    requires forall k :: k in Keys(m) ==> Stable(Field(m, k)) == Stable(Field(n, k))
    ensures FieldTexts(m) == FieldTexts(n)
  {
    var ks, ls := SortKeys(Keys(m)), SortKeys(Keys(n));
    SortKeysSorted(Keys(m));
    SortKeysSorted(Keys(n));
    SortedUnique(ks, ls);
    forall i | 0 <= i < |ks|
      ensures FieldTexts(m)[i] == FieldTexts(n)[i]
    {
      assert ks[i] in ks;
    }
  }

  /** Same value up to the order of keys, same text. */
  lemma {:induction false} StableCanonical(v: Json, w: Json)
    requires WellFormed(v) && WellFormed(w) && MeaningOf(v) == MeaningOf(w)
    ensures Stable(v) == Stable(w)
    decreases v
  {
    match v
    case Arr(items) =>
      ItemsMean(v, w);
      forall i | 0 <= i < |items| ensures ItemTexts(items)[i] == ItemTexts(w.items)[i] { StableCanonical(items[i], w.items[i]); }
      assert ItemTexts(items) == ItemTexts(w.items);
      StableParts(v);
      StableParts(w);
    case Obj(members) =>
      FieldsMean(v, w);
      forall k | k in Keys(members) ensures Stable(Field(members, k)) == Stable(Field(w.members, k)) {
        StableCanonical(Field(members, k), Field(w.members, k));
      }
      SameFieldTexts(members, w.members);
      StableParts(v);
      StableParts(w);
    case _ =>
  }

  /** stableStringify is canonical and injective: two JSON values get the same text exactly when they
      are the same value up to the order of object keys. */
  lemma StableIff(v: Json, w: Json)
    requires WellFormed(v) && WellFormed(w)
    ensures Stable(v) == Stable(w) <==> MeaningOf(v) == MeaningOf(w)
  {
    if Stable(v) == Stable(w) {
      StableInjective(v, w);
    }
    if MeaningOf(v) == MeaningOf(w) {
      StableCanonical(v, w);
    }
  }

  // ---------------------------------------------------------------- lists of strings

  function Quotes(fields: seq<Text>): (ps: seq<Text>)
    ensures |ps| == |fields|
  {
    seq(|fields|, i requires 0 <= i < |fields| => Quote(fields[i]))
  }

  /** JSON.stringify of an array of strings. */
  function StringifyStrings(fields: seq<Text>): Text {
    [OPEN_ARRAY] + Commas(Quotes(fields)) + [CLOSE_ARRAY]
  }

  lemma StringifyStringsInjective(a: seq<Text>, b: seq<Text>)
    requires StringifyStrings(a) == StringifyStrings(b)
    ensures a == b
  {
    forall i, j | 0 <= i < |a| && 0 <= j < |b|
      ensures Separable(Quotes(a)[i], Quotes(b)[j])
    {
      QuotesSeparable(a[i], b[j]);
    }
    BracketsSeparable(OPEN_ARRAY, Quotes(a), Quotes(b), CLOSE_ARRAY);
    forall i | 0 <= i < |a|
      ensures i < |b| && a[i] == b[i]
    {
      assert Quotes(a)[i] == Quotes(b)[i];
      assert Quote(a[i]) + [] == Quote(a[i]) && Quote(b[i]) + [] == Quote(b[i]);
      QuoteReadable(a[i], b[i], [], []);
    }
  }
}
