/**
 Base32 of the authenticator secrets (server/src/lib/totp.ts; RFC 4648, section 6, without padding).
 The accumulator is a JavaScript number used through 32-bit operators and never masked: what a shift
 pushes past 32 bits is lost. Only the pending low bits are ever read.
 */
module Base32 {
  import opened Prelude

  type Byte = x: int | 0 <= x < 256

  type Bits = seq<bool>

  function Pow2(n: nat): (p: nat)
    ensures p > 0
  {
    if n == 0 then 1 else 2 * Pow2(n - 1)
  }

  /** `value << k` before it is cut to 32 bits, and `value >>> k`. */
  function Up(value: nat, k: nat): nat {
    if k == 0 then value else 2 * Up(value, k - 1)
  }

  function Down(value: nat, k: nat): nat {
    if k == 0 then value else Down(value / 2, k - 1)
  }

  /** `(value << k) | low` on 32 bits, for low below 2^k: a shift leaves the low bits free. */
  function ShiftIn(value: nat, k: nat, low: nat): (v: nat)
    ensures v < 0x1_0000_0000
  {
    (Up(value, k) + low) % 0x1_0000_0000
  }

  /** `(value >>> k) & 31` and `(value << k) & 31`; `& 255` likewise. */
  function ReadDown(value: nat, k: nat, m: nat): (r: nat)
    requires m > 0
    ensures r < m
  {
    Down(value, k) % m
  }

  function ReadUp(value: nat, k: nat, m: nat): (r: nat)
    requires m > 0
    ensures r < m
  {
    Up(value, k) % 0x1_0000_0000 % m
  }

  /** The alphabet: A to Z, then 2 to 7. */
  function CharOf(i: nat): (c: char)
    requires i < 32
  {
    if i < 26 then 'A' + i as char else '2' + (i - 26) as char
  }

  /** The index of a character in the alphabet, None where indexOf gives -1. */
  function IndexOf(c: char): Option<nat> {
    if 'A' <= c <= 'Z' then Some((c - 'A') as nat) else if '2' <= c <= '7' then Some((c - '2') as nat + 26) else None
  }

  // ---------------------------------------------------------------- the two loops

  /** The inner loop: five bits at a time from the top of the pending ones. */
  function Drain(value: nat, bits: nat): string {
    if bits < 5 then "" else [CharOf(ReadDown(value, bits - 5, 32))] + Drain(value, bits - 5)
  }

  function EncodeFrom(bytes: seq<Byte>, value: nat, bits: nat): string
    requires bits < 5
  {
    if |bytes| == 0 then (if bits > 0 then [CharOf(ReadUp(value, 5 - bits, 32))] else "")
    else
      var v := ShiftIn(value, 8, bytes[0]);
      Drain(v, bits + 8) + EncodeFrom(bytes[1..], v, (bits + 8) % 5)
  }

  function Encode(bytes: seq<Byte>): string {
    EncodeFrom(bytes, 0, 0)
  }

  function DecodeFrom(text: string, value: nat, bits: nat): Option<seq<Byte>>
    requires bits < 8
  {
    if |text| == 0 then Some([])
    else if IndexOf(text[0]).None? then None
    else
      var v := ShiftIn(value, 5, IndexOf(text[0]).value);
      var rest := if bits + 5 >= 8 then DecodeFrom(text[1..], v, bits - 3) else DecodeFrom(text[1..], v, bits + 5);
      if rest.None? then None
      else Some((if bits + 5 >= 8 then [ReadDown(v, bits - 3, 256)] else []) + rest.value)
  }

  function Upper(s: string): string {
    seq(|s|, i requires 0 <= i < |s| => if 'a' <= s[i] <= 'z' then s[i] - 'a' + 'A' else s[i])
  }

  function DropPadding(s: string): string {
    if |s| > 0 && s[|s| - 1] == '=' then DropPadding(s[..|s| - 1]) else s
  }

  function DropSpaces(s: string): string {
    if |s| == 0 then ""
    else (if s[0] == ' ' || '\t' <= s[0] <= '\r' then "" else [s[0]]) + DropSpaces(s[1..])
  }

  function Decode(s: string): Option<seq<Byte>> {
    DecodeFrom(DropSpaces(DropPadding(Upper(s))), 0, 0)
  }

  method Base32Encode(bytes: seq<Byte>) returns (out: string)
    ensures out == Encode(bytes)
  {
    var bits: nat, value: nat := 0, 0;
    out := "";
    var i := 0;
    assert bytes[0..] == bytes;
    while i < |bytes|
      invariant i <= |bytes| && bits < 5
      invariant out + EncodeFrom(bytes[i..], value, bits) == Encode(bytes)
    {
      assert bytes[i..][1..] == bytes[i + 1..];
      value := ShiftIn(value, 8, bytes[i]);
      bits := bits + 8;
      var emitted := DrainBits(value, bits);
      out, bits := out + emitted, bits % 5;
      i := i + 1;
    }
    if bits > 0 {
      out := out + [CharOf(ReadUp(value, 5 - bits, 32))];
    }
  }

  method DrainBits(value: nat, bits: nat) returns (out: string)
    ensures out == Drain(value, bits)
  {
    out := "";
    var left := bits;
    while left >= 5
      invariant out + Drain(value, left) == Drain(value, bits)
    {
      out := out + [CharOf(ReadDown(value, left - 5, 32))];
      left := left - 5;
    }
  }

  function After(out: seq<Byte>, rest: Option<seq<Byte>>): Option<seq<Byte>> {
    if rest.None? then None else Some(out + rest.value)
  }

  lemma AfterStep(out: seq<Byte>, more: seq<Byte>, rest: Option<seq<Byte>>)
    ensures After(out + more, rest) == After(out, if rest.None? then None else Some(more + rest.value))
  {
    if rest.Some? {
      assert (out + more) + rest.value == out + (more + rest.value);
    }
  }

  method Base32Decode(s: string) returns (r: Option<seq<Byte>>)
    ensures r == Decode(s)
  {
    var clean := DropSpaces(DropPadding(Upper(s)));
    var bits: nat, value: nat := 0, 0;
    var out: seq<Byte> := [];
    var i := 0;
    assert clean[0..] == clean;
    assert DecodeFrom(clean, 0, 0).Some? ==> out + DecodeFrom(clean, 0, 0).value == DecodeFrom(clean, 0, 0).value;
    while i < |clean|
      invariant i <= |clean| && bits < 8
      invariant Decode(s) == After(out, DecodeFrom(clean[i..], value, bits))
    {
      var index := IndexOf(clean[i]);
      if index.None? {
        return None;
      }
      assert clean[i..][1..] == clean[i + 1..];
      value := ShiftIn(value, 5, index.value);
      bits := bits + 5;
      var ready: seq<Byte> := [];
      if bits >= 8 {
        ready := [ReadDown(value, bits - 8, 256)];
        bits := bits - 8;
      }
      AfterStep(out, ready, DecodeFrom(clean[i + 1..], value, bits));
      out := out + ready;
      i := i + 1;
    }
    assert clean[i..] == [];
    assert out + [] == out;
    return Some(out);
  }

  // ---------------------------------------------------------------- bits

  /** The n low bits of v, highest first. */
  function BitsOf(v: nat, n: nat): (b: Bits)
    ensures |b| == n
  {
    if n == 0 then [] else BitsOf(v / 2, n - 1) + [v % 2 == 1]
  }

  function ByteBits(bytes: seq<Byte>): (b: Bits)
    ensures |b| == 8 * |bytes|
  {
    if |bytes| == 0 then [] else BitsOf(bytes[0], 8) + ByteBits(bytes[1..])
  }

  function Zeros(n: nat): (b: Bits)
    ensures |b| == n
  {
    BitsOf(0, n)
  }

  /** Shifting bits in appends them. */
  lemma {:induction false} AppendBits(v: nat, n: nat, k: nat, low: nat)
    requires low < Pow2(k)
    ensures BitsOf(Up(v, k) + low, n + k) == BitsOf(v, n) + BitsOf(low, k)
    decreases k
  {
    if k > 0 {
      assert (Up(v, k) + low) / 2 == Up(v, k - 1) + low / 2 && (Up(v, k) + low) % 2 == low % 2;
      AppendBits(v, n, k - 1, low / 2);
    }
  }

  /** Reading down drops the bits below. */
  lemma {:induction false} DownBits(v: nat, n: nat, k: nat)
    ensures BitsOf(v, n + k) == BitsOf(Down(v, k), n) + BitsOf(v, k)
    decreases k
  {
    if k > 0 {
      DownBits(v / 2, n, k - 1);
      AssocBits(BitsOf(Down(v, k), n), BitsOf(v / 2, k - 1), [v % 2 == 1]);
    }
  }

  lemma {:induction false} Low(v: nat, m: nat) returns (q: nat, r: nat)
    ensures v == q * Pow2(m) + r && r < Pow2(m)
    ensures forall n :: 0 <= n <= m ==> BitsOf(r, n) == BitsOf(v, n)
    decreases m
  {
    if m == 0 {
      q, r := v, 0;
    } else {
      var h: nat;
      q, h := Low(v / 2, m - 1);
      r := 2 * h + v % 2;
      assert r / 2 == h && r % 2 == v % 2;
      forall n | 0 <= n <= m
        ensures BitsOf(r, n) == BitsOf(v, n)
      {
        if n > 0 {
          assert BitsOf(h, n - 1) == BitsOf(v / 2, n - 1);
        }
      }
      Twice(q, Pow2(m - 1));
    }
  }

  lemma Twice(q: nat, p: nat)
    ensures q * (2 * p) == 2 * (q * p)
  {
  }

  lemma Pow32()
    ensures Pow2(32) == 0x1_0000_0000 && Pow2(5) == 32 && Pow2(8) == 256
  {
    assert Pow2(8) == 256;
    assert Pow2(16) == 65536;
    assert Pow2(24) == 0x100_0000;
  }

  /** Wrapping at 32 bits changes none of the 32 low bits, nor masking to 5 or 8 bits those. */
  lemma WrapBits(v: nat, n: nat)
    ensures n <= 32 ==> BitsOf(v % 0x1_0000_0000, n) == BitsOf(v, n)
    ensures n <= 8 ==> BitsOf(v % 256, n) == BitsOf(v, n)
    ensures n <= 5 ==> BitsOf(v % 32, n) == BitsOf(v, n)
  {
    if n <= 32 {
      Wrap32(v, n);
    }
    if n <= 8 {
      Wrap8(v, n);
    }
    if n <= 5 {
      Wrap5(v, n);
    }
  }

  lemma Wrap32(v: nat, n: nat)
    requires n <= 32
    ensures BitsOf(v % 0x1_0000_0000, n) == BitsOf(v, n)
  {
    Pow32();
    var q, r := Low(v, 32);
    assert v == q * 0x1_0000_0000 + r && v % 0x1_0000_0000 == r;
  }

  lemma Wrap8(v: nat, n: nat)
    requires n <= 8
    ensures BitsOf(v % 256, n) == BitsOf(v, n)
  {
    Pow32();
    var q, r := Low(v, 8);
    assert v == q * 256 + r && v % 256 == r;
  }

  lemma Wrap5(v: nat, n: nat)
    requires n <= 5
    ensures BitsOf(v % 32, n) == BitsOf(v, n)
  {
    Pow32();
    var q, r := Low(v, 5);
    assert v == q * 32 + r && v % 32 == r;
  }

  /** So the 32-bit accumulator keeps up to 32 pending bits exactly. */
  lemma ShiftInBits(value: nat, n: nat, k: nat, low: nat)
    requires n + k <= 32 && low < Pow2(k)
    ensures BitsOf(ShiftIn(value, k, low), n + k) == BitsOf(value, n) + BitsOf(low, k)
  {
    WrapBits(Up(value, k) + low, n + k);
    AppendBits(value, n, k, low);
  }

  /** Reading the top bits of the pending ones takes them off the front. */
  lemma ReadDownBits(value: nat, k: nat)
    ensures BitsOf(value, 5 + k) == BitsOf(ReadDown(value, k, 32), 5) + BitsOf(value, k)
    ensures BitsOf(value, 8 + k) == BitsOf(ReadDown(value, k, 256), 8) + BitsOf(value, k)
  {
    DownBits(value, 5, k);
    DownBits(value, 8, k);
    WrapBits(Down(value, k), 5);
    WrapBits(Down(value, k), 8);
  }

  /** The last character is filled with zeros. */
  lemma ReadUpBits(value: nat, n: nat)
    requires 0 < n < 5
    ensures BitsOf(ReadUp(value, 5 - n, 32), 5) == BitsOf(value, n) + Zeros(5 - n)
  {
    WrapBits(Up(value, 5 - n) % 0x1_0000_0000, 5);
    ShiftInBits(value, n, 5 - n, 0);
  }

  // ---------------------------------------------------------------- round trip

  predicate InAlphabet(text: string) {
    forall i | 0 <= i < |text| :: IndexOf(text[i]).Some?
  }

  function TextBits(text: string): (b: Bits)
    requires InAlphabet(text)
    ensures |b| == 5 * |text|
  {
    if |text| == 0 then [] else BitsOf(IndexOf(text[0]).value, 5) + TextBits(text[1..])
  }

  lemma CharRoundTrip(i: nat)
    requires i < 32
    ensures IndexOf(CharOf(i)) == Some(i)
  {
  }

  lemma {:induction false} TextBitsAppend(a: string, b: string)
    requires InAlphabet(a) && InAlphabet(b)
    ensures InAlphabet(a + b) && TextBits(a + b) == TextBits(a) + TextBits(b)
  {
    if |a| > 0 {
      assert (a + b)[1..] == a[1..] + b;
      TextBitsAppend(a[1..], b);
    } else {
      assert a + b == b;
    }
  }

  lemma {:induction false} DrainTextBits(value: nat, bits: nat)
    ensures InAlphabet(Drain(value, bits)) && TextBits(Drain(value, bits)) + BitsOf(value, bits % 5) == BitsOf(value, bits)
    decreases bits
  {
    if bits >= 5 {
      DrainTextBits(value, bits - 5);
      var i := ReadDown(value, bits - 5, 32);
      CharRoundTrip(i);
      ReadDownBits(value, bits - 5);
      CharBits(i, Drain(value, bits - 5));
      AssocBits(BitsOf(i, 5), TextBits(Drain(value, bits - 5)), BitsOf(value, bits % 5));
      assert (bits - 5) % 5 == bits % 5;
    }
  }

  lemma AssocBits(a: Bits, b: Bits, c: Bits)
    ensures (a + b) + c == a + (b + c)
  {
  }

  lemma CharBits(i: nat, text: string)
    requires i < 32 && InAlphabet(text)
    ensures InAlphabet([CharOf(i)] + text) && TextBits([CharOf(i)] + text) == BitsOf(i, 5) + TextBits(text)
  {
    CharRoundTrip(i);
    assert ([CharOf(i)] + text)[1..] == text;
  }

  /** The text holds the pending bits, the bytes, and fewer than five zeros. */
  lemma {:induction false} EncodeBits(bytes: seq<Byte>, value: nat, bits: nat) returns (pad: nat)
    requires bits < 5
    ensures pad < 5 && InAlphabet(EncodeFrom(bytes, value, bits))
    ensures TextBits(EncodeFrom(bytes, value, bits)) == BitsOf(value, bits) + ByteBits(bytes) + Zeros(pad)
  {
    if |bytes| == 0 {
      if bits == 0 {
        pad := 0;
      } else {
        pad := 5 - bits;
        CharRoundTrip(ReadUp(value, 5 - bits, 32));
        ReadUpBits(value, bits);
        assert EncodeFrom(bytes, value, bits)[1..] == "";
      }
    } else {
      var v := ShiftIn(value, 8, bytes[0]);
      DrainedByte(value, bits, bytes[0]);
      pad := EncodeBits(bytes[1..], v, (bits + 8) % 5);
      TextBitsAppend(Drain(v, bits + 8), EncodeFrom(bytes[1..], v, (bits + 8) % 5));
      Regroup(TextBits(Drain(v, bits + 8)), BitsOf(v, (bits + 8) % 5), BitsOf(value, bits), BitsOf(bytes[0], 8),
              ByteBits(bytes[1..]), Zeros(pad));
    }
  }

  lemma DrainedByte(value: nat, bits: nat, b: Byte)
    requires bits < 5
    ensures var v := ShiftIn(value, 8, b);
            InAlphabet(Drain(v, bits + 8))
            && TextBits(Drain(v, bits + 8)) + BitsOf(v, (bits + 8) % 5) == BitsOf(value, bits) + BitsOf(b, 8)
  {
    Pow32();
    ShiftInBits(value, bits, 8, b);
    DrainTextBits(ShiftIn(value, 8, b), bits + 8);
  }

  lemma Regroup(a: Bits, b: Bits, c: Bits, d: Bits, e: Bits, f: Bits)
    requires a + b == c + d
    ensures a + (b + e + f) == c + (d + e) + f
  {
    assert a + (b + e + f) == (a + b) + (e + f);
    assert c + (d + e) + f == (c + d) + (e + f);
  }

  /** Decoding gives the bytes that the pending bits and the text hold, and drops what is left. */
  lemma {:induction false} DecodeBits(text: string, value: nat, bits: nat)
    requires bits < 8 && InAlphabet(text)
    ensures Decoded(DecodeFrom(text, value, bits), BitsOf(value, bits) + TextBits(text))
  {
    if |text| > 0 {
      var index := IndexOf(text[0]).value;
      var v := ShiftIn(value, 5, index);
      if bits + 5 >= 8 {
        DecodeBits(text[1..], v, bits - 3);
        DecodeByte(text, value, bits);
      } else {
        DecodeBits(text[1..], v, bits + 5);
        DecodeNoByte(text, value, bits);
      }
    }
  }

  predicate Decoded(out: Option<seq<Byte>>, bits: Bits) {
    out.Some? && ByteBits(out.value) <= bits && |ByteBits(out.value)| == |bits| / 8 * 8
  }

  lemma DecodeByte(text: string, value: nat, bits: nat)
    requires 3 <= bits < 8 && |text| > 0 && InAlphabet(text)
    requires var v := ShiftIn(value, 5, IndexOf(text[0]).value);
             Decoded(DecodeFrom(text[1..], v, bits - 3), BitsOf(v, bits - 3) + TextBits(text[1..]))
    ensures Decoded(DecodeFrom(text, value, bits), BitsOf(value, bits) + TextBits(text))
  {
    var index := IndexOf(text[0]).value;
    var v := ShiftIn(value, 5, index);
    ShiftedChar(value, bits, index);
    PrefixByte(BitsOf(value, bits), BitsOf(index, 5), TextBits(text[1..]), ReadDown(v, bits - 3, 256),
               BitsOf(v, bits - 3), DecodeFrom(text[1..], v, bits - 3).value);
  }

  lemma PrefixByte(a: Bits, b: Bits, c: Bits, d: Byte, e: Bits, rest: seq<Byte>)
    requires BitsOf(d, 8) + e == a + b && Decoded(Some(rest), e + c)
    ensures Decoded(Some([d] + rest), a + (b + c))
  {
    OneByte(d, rest);
    PrefixGroup(a, b, c, BitsOf(d, 8), e, ByteBits(rest));
    assert |a + (b + c)| == |e + c| + 8;
  }

  lemma DecodeNoByte(text: string, value: nat, bits: nat)
    requires bits < 3 && |text| > 0 && InAlphabet(text)
    requires var v := ShiftIn(value, 5, IndexOf(text[0]).value);
             Decoded(DecodeFrom(text[1..], v, bits + 5), BitsOf(v, bits + 5) + TextBits(text[1..]))
    ensures Decoded(DecodeFrom(text, value, bits), BitsOf(value, bits) + TextBits(text))
  {
    var index := IndexOf(text[0]).value;
    var v := ShiftIn(value, 5, index);
    var rest := DecodeFrom(text[1..], v, bits + 5).value;
    ShiftedChar(value, bits, index);
    assert [] + rest == rest && [] + ByteBits(rest) == ByteBits(rest);
    PrefixGroup(BitsOf(value, bits), BitsOf(index, 5), TextBits(text[1..]), [], BitsOf(v, bits + 5), ByteBits(rest));
  }

  lemma OneByte(b: Byte, rest: seq<Byte>)
    ensures ByteBits([b] + rest) == BitsOf(b, 8) + ByteBits(rest)
  {
    assert ([b] + rest)[1..] == rest;
  }

  lemma ShiftedChar(value: nat, bits: nat, index: nat)
    requires bits < 8 && index < 32
    ensures var v := ShiftIn(value, 5, index);
            && [] + BitsOf(v, bits + 5) == BitsOf(value, bits) + BitsOf(index, 5)
            && (bits >= 3 ==> BitsOf(ReadDown(v, bits - 3, 256), 8) + BitsOf(v, bits - 3) == BitsOf(value, bits) + BitsOf(index, 5))
  {
    Pow32();
    ShiftInBits(value, bits, 5, index);
    if bits >= 3 {
      ReadDownBits(ShiftIn(value, 5, index), bits - 3);
    }
  }

  lemma PrefixGroup(a: Bits, b: Bits, c: Bits, d: Bits, e: Bits, r: Bits)
    requires d + e == a + b && r <= e + c
    ensures d + r <= a + (b + c)
  {
    assert a + (b + c) == (a + b) + c;
    assert d + (e + c) == (d + e) + c;
  }

  lemma {:induction false} BitsInjective(a: nat, b: nat, n: nat)
    requires BitsOf(a, n) == BitsOf(b, n) && a < Pow2(n) && b < Pow2(n)
    ensures a == b
    decreases n
  {
    if n > 0 {
      var x, y := BitsOf(a, n), BitsOf(b, n);
      assert x[..n - 1] == BitsOf(a / 2, n - 1) && y[..n - 1] == BitsOf(b / 2, n - 1);
      assert x[n - 1] == y[n - 1];
      BitsInjective(a / 2, b / 2, n - 1);
    }
  }

  lemma {:induction false} ByteBitsInjective(a: seq<Byte>, b: seq<Byte>)
    requires ByteBits(a) == ByteBits(b)
    ensures a == b
  {
    if |a| > 0 {
      assert |ByteBits(a)| == |ByteBits(b)|;
      assert ByteBits(a)[..8] == BitsOf(a[0], 8) && ByteBits(b)[..8] == BitsOf(b[0], 8);
      assert ByteBits(a)[8..] == ByteBits(a[1..]) && ByteBits(b)[8..] == ByteBits(b[1..]);
      Pow32();
      BitsInjective(a[0], b[0], 8);
      ByteBitsInjective(a[1..], b[1..]);
      assert a == [a[0]] + a[1..] && b == [b[0]] + b[1..];
    }
  }

  lemma {:induction false} CleanKeeps(text: string)
    requires InAlphabet(text)
    ensures Upper(text) == text && DropPadding(text) == text && DropSpaces(text) == text
  {
    if |text| > 0 {
      assert IndexOf(text[0]).Some? && IndexOf(text[|text| - 1]).Some?;
      assert InAlphabet(text[1..]);
      CleanKeeps(text[1..]);
    }
  }

  lemma EncodedBits(bytes: seq<Byte>) returns (pad: nat)
    ensures pad < 5 && InAlphabet(Encode(bytes)) && TextBits(Encode(bytes)) == ByteBits(bytes) + Zeros(pad)
  {
    pad := EncodeBits(bytes, 0, 0);
    assert BitsOf(0, 0) + ByteBits(bytes) == ByteBits(bytes);
  }

  lemma DecodedBits(text: string)
    requires InAlphabet(text)
    ensures Decoded(Decode(text), TextBits(text))
  {
    CleanKeeps(text);
    DecodeBits(text, 0, 0);
    assert BitsOf(0, 0) + TextBits(text) == TextBits(text);
  }

  /** base32Decode(base32Encode(b)) = b for every byte string, however long. */
  lemma RoundTrip(bytes: seq<Byte>)
    ensures Decode(Encode(bytes)) == Some(bytes)
  {
    var pad := EncodedBits(bytes);
    DecodedBits(Encode(bytes));
    SameBytes(Decode(Encode(bytes)), bytes, pad);
  }

  lemma SameBytes(out: Option<seq<Byte>>, bytes: seq<Byte>, pad: nat)
    requires pad < 5 && Decoded(out, ByteBits(bytes) + Zeros(pad))
    ensures out == Some(bytes)
  {
    SamePrefix(ByteBits(out.value), ByteBits(bytes), Zeros(pad));
    ByteBitsInjective(out.value, bytes);
  }

  lemma SamePrefix(a: Bits, b: Bits, zeros: Bits)
    requires a <= b + zeros && |zeros| < 5 && |a| == |b + zeros| / 8 * 8 && |b| % 8 == 0
    ensures a == b
  {
    assert |a| == |b|;
    assert a == (b + zeros)[..|b|] == b;
  }

  // ---------------------------------------------------------------- what is read

  /** Characters and indices are those of the alphabet of the standard. */
  lemma AlphabetIs(i: nat, c: char)
    requires i < 32
    ensures CharOf(i) == "ABCDEFGHIJKLMNOPQRSTUVWXYZ234567"[i]
    ensures IndexOf(c) == Some(i) <==> c == "ABCDEFGHIJKLMNOPQRSTUVWXYZ234567"[i]
  {
  }

  lemma {:induction false} NoPadding(s: string)
    requires '=' !in s
    ensures DropPadding(s) == s
  {
  }

  lemma {:induction false} SpacesOut(a: string, b: string)
    ensures DropSpaces(a + b) == DropSpaces(a) + DropSpaces(b)
  {
    if |a| > 0 {
      assert (a + b)[1..] == a[1..] + b;
      SpacesOut(a[1..], b);
    } else {
      assert a + b == b;
    }
  }

  lemma UpperAppend(a: string, b: string)
    ensures Upper(a + b) == Upper(a) + Upper(b)
  {
  }

  lemma UpperTwice(a: string)
    ensures Upper(Upper(a)) == Upper(a)
  {
  }

  lemma UpperNoPadding(a: string)
    requires '=' !in a
    ensures '=' !in Upper(a)
  {
  }

  /** A secret reads the same in upper case, with padding behind it, and with a blank anywhere in it. */
  lemma ReadsAlike(a: string, blank: char, b: string)
    ensures Decode(Upper(a)) == Decode(a) && Decode(a + "=") == Decode(a)
    ensures (blank == ' ' || '\t' <= blank <= '\r') && '=' !in a + b ==> Decode(a + [blank] + b) == Decode(a + b)
  {
    UpperTwice(a);
    PaddingIgnored(a);
    if (blank == ' ' || '\t' <= blank <= '\r') && '=' !in a + b {
      BlankIgnored(a, blank, b);
    }
  }

  lemma PaddingIgnored(a: string)
    ensures Decode(a + "=") == Decode(a)
  {
    UpperAppend(a, "=");
    assert Upper("=") == "=";
    assert (Upper(a) + "=")[..|Upper(a)|] == Upper(a);
  }

  lemma BlankIgnored(a: string, blank: char, b: string)
    requires (blank == ' ' || '\t' <= blank <= '\r') && '=' !in a + b
    ensures Decode(a + [blank] + b) == Decode(a + b)
  {
    UpperAppend(a + [blank], b);
    UpperAppend(a, [blank]);
    UpperAppend(a, b);
    assert Upper([blank]) == [blank];
    NoPaddingIn(a, [blank], b);
    SpacesOut(Upper(a) + [blank], Upper(b));
    SpacesOut(Upper(a), [blank]);
    SpacesOut(Upper(a), Upper(b));
    OneBlank(blank);
    assert DropSpaces(Upper(a)) + "" + DropSpaces(Upper(b)) == DropSpaces(Upper(a)) + DropSpaces(Upper(b));
    assert DropSpaces(DropPadding(Upper(a + [blank] + b))) == DropSpaces(DropPadding(Upper(a + b)));
  }

  lemma OneBlank(blank: char)
    requires blank == ' ' || '\t' <= blank <= '\r'
    ensures DropSpaces([blank]) == ""
  {
  }

  lemma NoPaddingIn(a: string, middle: string, b: string)
    requires '=' !in a + b && '=' !in middle
    ensures DropPadding(Upper(a) + middle + Upper(b)) == Upper(a) + middle + Upper(b)
    ensures DropPadding(Upper(a) + Upper(b)) == Upper(a) + Upper(b)
  {
    assert forall c :: c in a || c in b ==> c in a + b;
    UpperNoPadding(a);
    UpperNoPadding(b);
    NoPadding(Upper(a) + middle + Upper(b));
    NoPadding(Upper(a) + Upper(b));
  }
}
