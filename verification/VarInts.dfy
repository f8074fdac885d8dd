/** Variable-length integers: seven bits to a byte, least significant first, the top bit set on
  * every byte but the last.
  */
module VarInts {
  import opened Bits

  type Byte = x: int | 0 <= x < 0x100
  type Bytes = seq<Byte>

  /** The two kinds: the number of bits and of values, and the most bytes that the reader takes. */
  datatype Format = Format(bits: nat, values: nat, maxBytes: nat)

  const VAR_INT := Format(32, 0x1_0000_0000, 5)
  const VAR_LONG := Format(64, 0x1_0000_0000_0000_0000, 10)

  ghost predicate Known(f: Format) { f == VAR_INT || f == VAR_LONG }

  // ----- two's complement -----

  function ToUnsigned(f: Format, x: int): nat
    requires f.values > 0
  {
    x % f.values
  }

  function ToSigned(f: Format, x: nat): int {
    if 2 * x < f.values then x else x - f.values
  }

  ghost predicate InRange(f: Format, x: int) { 0 - f.values <= 2 * x < f.values }

  lemma SignsCancel(f: Format, x: int)
    requires Known(f) && InRange(f, x)
    ensures ToSigned(f, ToUnsigned(f, x)) == x
  {
  }

  // ----- writing -----

  function Encode(x: nat): (r: Bytes)
    ensures |r| >= 1
  {
    if x < 0x80 then [x] else [x % 0x80 + 0x80] + Encode(x / 0x80)
  }

  lemma EncodeStep(x: nat)
    ensures Encode(x) ==
      if x / 0x80 == 0 then [x % 0x80] else [x % 0x80 + 0x80] + Encode(x / 0x80)
  {
  }

  /** Seven bits of a number: digit `k` to the base 128. */
  function Digit(x: nat, k: nat): nat { if k == 0 then x % 128 else Digit(x / 128, k - 1) }

  /** Each byte has the next seven bits, least significant first, and says whether there is another. */
  lemma {:induction false} EncodedDigits(x: nat, k: nat)
    requires k < |Encode(x)|
    ensures Encode(x)[k] == Digit(x, k) + if k + 1 < |Encode(x)| then 128 else 0
  {
    if k > 0 { EncodedDigits(x / 128, k - 1); }
  }

  /** Appends the encoding to a buffer and tells how many bytes it took. */
  method WriteTo(x: nat, buffer: Bytes) returns (out: Bytes, count: nat)
    ensures out == buffer + Encode(x) && count == |Encode(x)|
  {
    out, count := buffer, 0;
    var rest := x;
    while true
      invariant out + Encode(rest) == buffer + Encode(x)
      invariant count + |Encode(rest)| == |Encode(x)|
      decreases rest
    {
      EncodeStep(rest);
      ghost var written, group := out, Encode(rest);
      var temp := rest % 0x80;
      rest := rest / 0x80;
      if rest != 0 {
        temp := temp + 0x80;
      }
      out := out + [temp];
      count := count + 1;
      if rest == 0 {
        break;
      }
      assert written + group == out + Encode(rest);
    }
  }

  // ----- reading -----

  datatype Reading = Value(x: nat, used: nat) | Incomplete | TooLong

  function Pow128(n: nat): (r: nat)
    ensures r >= 1
  {
    if n == 0 then 1 else 0x80 * Pow128(n - 1)
  }

  /** What byte number `count` contributes. */
  function Group(f: Format, b: Byte, count: nat): nat
    requires f.values > 0
  {
    (b % 0x80) * Pow128(count) % f.values
  }

  lemma GroupFits(f: Format, b: Byte, count: nat)
    requires (b % 0x80) * Pow128(count) < f.values
    ensures Group(f, b, count) == (b % 0x80) * Pow128(count)
  {
    SmallMod((b % 0x80) * Pow128(count), f.values);
  }

  /** Reads on after `count` bytes that gave `sofar`. Each byte's seven bits go above all the
    * earlier ones; bits above the width are lost.
    */
  function DecodeFrom(f: Format, s: Bytes, count: nat, sofar: nat): (r: Reading)
    requires f.values > 0 && count <= |s|
    ensures r.Value? ==> count < r.used <= |s|
    decreases |s| - count
  {
    if count == |s| then Incomplete
    else if count >= f.maxBytes then TooLong
    else
      var b := s[count];
      var x := sofar + Group(f, b, count);
      if b < 0x80 then Value(x, count + 1) else DecodeFrom(f, s, count + 1, x)
  }

  function Decode(f: Format, s: Bytes): (r: Reading)
    requires f.values > 0
    ensures r.Value? ==> 0 < r.used <= |s|
  {
    DecodeFrom(f, s, 0, 0)
  }

  lemma {:induction false} Pow128IsPow2(n: nat)
    ensures Pow128(n) == Pow2(7 * n)
  {
    if n > 0 {
      Pow128IsPow2(n - 1);
      Pow2Adds(7, 7 * (n - 1));
      assert Pow2(7) == 0x80;
    }
  }

  lemma ValuesArePow2(f: Format)
    requires Known(f)
    ensures f.values == Pow2(f.bits) && 7 * (f.maxBytes - 1) <= f.bits
  {
    assert Pow2(8) == 0x100;
    Pow2Adds(8, 8);
    Pow2Adds(16, 16);
    Pow2Adds(32, 32);
  }

  /** Of the last byte only the bits within the width count. */
  lemma LastBits(f: Format, b: Byte) returns (q: nat)
    requires Known(f)
    ensures Group(f, b, f.maxBytes - 1) == q * Pow128(f.maxBytes - 1)
  {
    Powers(f);
    q := b % 0x80;
    if f == VAR_INT {
      assert q * 0x1000_0000 == q / 0x10 * 0x1_0000_0000 + q % 0x10 * 0x1000_0000;
      q := q % 0x10;
    } else {
      assert q * 0x8000_0000_0000_0000 == q / 2 * 0x1_0000_0000_0000_0000 + q % 2 * 0x8000_0000_0000_0000;
      q := q % 2;
    }
  }

  /** A group's bits are all above the bits of the groups before it. */
  lemma GroupIsAbove(f: Format, b: Byte, count: nat) returns (q: nat)
    requires Known(f) && count < f.maxBytes
    ensures Group(f, b, count) == q * Pow128(count)
  {
    if count < f.maxBytes - 1 {
      Powers(f);
      PowersGrow(count + 1, f.maxBytes - 1);
      assert (b % 0x80) * Pow128(count) <= 0x7F * Pow128(count);
      GroupFits(f, b, count);
      q := b % 0x80;
    } else {
      q := LastBits(f, b);
    }
  }

  /** So what has been read and the next group share no bits, and or-ing it in is adding it. */
  lemma OrAddsGroup(f: Format, sofar: nat, b: Byte, count: nat)
    requires Known(f) && count < f.maxBytes && sofar < Pow128(count)
    ensures OrBits(sofar, Group(f, b, count), f.bits) == sofar + Group(f, b, count)
  {
    var q := GroupIsAbove(f, b, count);
    Pow128IsPow2(count);
    ValuesArePow2(f);
    OrIsSum(sofar, q, 7 * count, f.bits);
  }

  lemma NextFits(f: Format, sofar: nat, b: Byte, count: nat)
    requires Known(f) && count + 1 < f.maxBytes && sofar < Pow128(count)
    ensures sofar + Group(f, b, count) < Pow128(count + 1)
  {
    Powers(f);
    PowersGrow(count + 1, f.maxBytes - 1);
    assert (b % 0x80) * Pow128(count) <= 0x7F * Pow128(count);
    GroupFits(f, b, count);
  }

  lemma NextGroup(f: Format, sofar: nat, b: Byte, count: nat)
    requires Known(f) && count < f.maxBytes && sofar < Pow128(count)
    ensures OrBits(sofar, (b % 0x80) * Pow128(count) % f.values, f.bits) == sofar + Group(f, b, count)
    ensures count + 1 < f.maxBytes ==> sofar + Group(f, b, count) < Pow128(count + 1)
  {
    OrAddsGroup(f, sofar, b, count);
    if count + 1 < f.maxBytes { NextFits(f, sofar, b, count); }
  }

  /** The loop ors each byte's bits in. */
  method ReadFrom(f: Format, s: Bytes) returns (r: Reading)
    requires Known(f)
    ensures r == Decode(f, s)
  {
    var count: nat, result: nat, shift: nat := 0, 0, 1;
    while true
      invariant count <= |s| && count <= f.maxBytes && shift == Pow128(count)
      invariant count < f.maxBytes ==> result < Pow128(count)
      invariant Decode(f, s) == DecodeFrom(f, s, count, result)
      decreases |s| - count
    {
      if count == |s| {
        return Incomplete;
      }
      if count + 1 > f.maxBytes {
        return TooLong;
      }
      var b := s[count];
      NextGroup(f, result, b, count);
      result := OrBits(result, (b % 0x80) * shift % f.values, f.bits);
      shift := 0x80 * shift;
      count := count + 1;
      if b < 0x80 {
        return Value(result, count);
      }
    }
  }

  /** What is read never exceeds the width, so the sums in DecodeFrom never carry out of it. */
  lemma {:induction false} DecodedFits(f: Format, s: Bytes, count: nat, sofar: nat)
    requires Known(f) && count <= |s| && count < f.maxBytes && sofar < Pow128(count)
    ensures DecodeFrom(f, s, count, sofar).Value? ==> DecodeFrom(f, s, count, sofar).x < f.values
    decreases |s| - count
  {
    if count < |s| {
      var b := s[count];
      if count == f.maxBytes - 1 {
        LastGroup(f, b);
      } else {
        Powers(f);
        NextFits(f, sofar, b, count);
        PowersGrow(count + 1, f.maxBytes - 1);
        if b >= 0x80 { DecodedFits(f, s, count + 1, sofar + Group(f, b, count)); }
      }
    }
  }

  lemma Powers(f: Format)
    requires Known(f)
    ensures Pow128(f.maxBytes - 1) <= f.values < Pow128(f.maxBytes)
    ensures f == VAR_INT ==> Pow128(4) == 0x1000_0000
    ensures f == VAR_LONG ==> Pow128(9) == 0x8000_0000_0000_0000
  {
    assert Pow128(2) == 0x4000 && Pow128(4) == 0x1000_0000 && Pow128(5) == 0x8_0000_0000;
    assert Pow128(6) == 0x400_0000_0000 && Pow128(8) == 0x100_0000_0000_0000;
  }

  /** The part of the last byte that is within the width leaves room for all the earlier bytes. */
  lemma LastGroup(f: Format, b: Byte)
    requires Known(f)
    ensures Group(f, b, f.maxBytes - 1) + Pow128(f.maxBytes - 1) <= f.values
  {
    Powers(f);
    var g := b % 0x80;
    if f == VAR_INT {
      assert g * 0x1000_0000 == g / 0x10 * 0x1_0000_0000 + g % 0x10 * 0x1000_0000;
    } else {
      assert g * 0x8000_0000_0000_0000 == g / 2 * 0x1_0000_0000_0000_0000 + g % 2 * 0x8000_0000_0000_0000;
    }
  }

  // ----- round trip -----

  lemma {:induction false} PowersGrow(m: nat, n: nat)
    requires m <= n
    ensures Pow128(m) <= Pow128(n)
  {
    if m < n { PowersGrow(m, n - 1); }
  }

  lemma {:induction false} EncodeLength(x: nat, n: nat)
    requires n >= 1
    ensures |Encode(x)| <= n <==> x < Pow128(n)
  {
    if n == 1 {
      assert Pow128(1) == 0x80;
    } else if x < 0x80 {
      PowersGrow(1, n);
      assert Pow128(1) == 0x80;
    } else {
      EncodeLength(x / 0x80, n - 1);
    }
  }

  /** The number of bytes is the least that has room for the value. */
  lemma EncodedSizes(f: Format, x: nat)
    requires Known(f) && x < f.values
    ensures 1 <= |Encode(x)| <= f.maxBytes == if f.bits == 32 then 5 else 10
  {
    Powers(f);
    EncodeLength(x, f.maxBytes);
  }

  /** Reads the rest of an encoding, `x` being what is left of the value after `count` bytes. */
  lemma {:induction false} DecodeRest(f: Format, head: Bytes, x: nat, tail: Bytes, sofar: nat)
    requires f.values > 0 && |head| + |Encode(x)| <= f.maxBytes
    requires sofar + x * Pow128(|head|) < f.values
    ensures DecodeFrom(f, head + Encode(x) + tail, |head|, sofar)
      == Value(sofar + x * Pow128(|head|), |head| + |Encode(x)|)
    decreases x
  {
    var s, p := head + Encode(x) + tail, Pow128(|head|);
    var low := x % 0x80;
    var b := s[|head|];
    assert b == Encode(x)[0];
    SplitValue(x, p);
    GroupFits(f, b, |head|);
    if x >= 0x80 {
      var head' := head + [Encode(x)[0]];
      assert s == head' + Encode(x / 0x80) + tail && Pow128(|head'|) == 0x80 * p;
      DecodeRest(f, head', x / 0x80, tail, sofar + low * p);
    }
  }

  lemma SplitValue(x: nat, p: nat)
    ensures (x / 0x80) * (0x80 * p) + (x % 0x80) * p == x * p
    ensures 0 <= (x % 0x80) * p <= x * p
  {
    var high, low := x / 0x80, x % 0x80;
    assert x == high * 0x80 + low;
    assert high * (0x80 * p) == (high * 0x80) * p;
    assert (high * 0x80 + low) * p == (high * 0x80) * p + low * p;
    assert (high * 0x80) * p >= 0;
  }

  lemma SmallMod(a: nat, b: nat)
    requires a < b
    ensures a % b == a
  {
  }

  /** Main result: the reader gives back the value and consumes exactly what was written, whatever
    * follows.
    */
  lemma RoundTrip(f: Format, x: nat, tail: Bytes)
    requires Known(f) && x < f.values
    ensures Decode(f, Encode(x) + tail) == Value(x, |Encode(x)|)
  {
    EncodedSizes(f, x);
    assert [] + Encode(x) + tail == Encode(x) + tail;
    DecodeRest(f, [], x, tail, 0);
  }

  /** The same for signed values. */
  lemma SignedRoundTrip(f: Format, x: int, tail: Bytes)
    requires Known(f) && InRange(f, x)
    ensures var r := Decode(f, Encode(ToUnsigned(f, x)) + tail);
      r.Value? && ToSigned(f, r.x) == x && r.used == |Encode(ToUnsigned(f, x))|
  {
    SignsCancel(f, x);
    RoundTrip(f, ToUnsigned(f, x), tail);
  }

  // ----- prefixes -----

  lemma {:induction false} AllButLastContinue(x: nat, k: nat)
    requires k < |Encode(x)| - 1
    ensures Encode(x)[k] >= 0x80
  {
    if k > 0 { AllButLastContinue(x / 0x80, k - 1); }
  }

  lemma {:induction false} ContinuingIsIncomplete(f: Format, s: Bytes, count: nat, sofar: nat)
    requires f.values > 0 && count <= |s| <= f.maxBytes
    requires forall k :: 0 <= k < |s| ==> s[k] >= 0x80
    ensures DecodeFrom(f, s, count, sofar) == Incomplete
    decreases |s| - count
  {
    if count < |s| {
      ContinuingIsIncomplete(f, s, count + 1, sofar + Group(f, s[count], count));
    }
  }

  /** Every proper prefix of an encoding is reported as incomplete. */
  lemma PrefixIsIncomplete(f: Format, x: nat, k: nat)
    requires Known(f) && x < f.values && k < |Encode(x)|
    ensures Decode(f, Encode(x)[..k]) == Incomplete
  {
    EncodedSizes(f, x);
    forall i | 0 <= i < k ensures Encode(x)[..k][i] >= 0x80 {
      AllButLastContinue(x, i);
    }
    ContinuingIsIncomplete(f, Encode(x)[..k], 0, 0);
  }

  /** No encoding is a prefix of another one. */
  lemma PrefixFree(f: Format, x: nat, y: nat)
    requires Known(f) && x < f.values && y < f.values
    requires Encode(x) <= Encode(y)
    ensures x == y
  {
    RoundTrip(f, x, Encode(y)[|Encode(x)|..]);
    assert Encode(x) + Encode(y)[|Encode(x)|..] == Encode(y) + [];
    RoundTrip(f, y, []);
  }

  /** Whatever the bytes, the reader takes at least one and no more than its limit, and reports
    * a number as too long only after as many continuation bytes as the limit allows.
    */
  lemma {:induction false} ReaderIsBounded(f: Format, s: Bytes, count: nat, sofar: nat)
    requires f.values > 0 && count <= |s| && count <= f.maxBytes
    requires forall k :: 0 <= k < count ==> s[k] >= 0x80
    ensures match DecodeFrom(f, s, count, sofar)
      case Value(_, used) => count < used <= |s| && used <= f.maxBytes && s[used - 1] < 0x80
        && forall k :: 0 <= k < used - 1 ==> s[k] >= 0x80
      case Incomplete => |s| <= f.maxBytes && forall k :: 0 <= k < |s| ==> s[k] >= 0x80
      case TooLong => |s| > f.maxBytes && forall k :: 0 <= k < f.maxBytes ==> s[k] >= 0x80
    decreases |s| - count
  {
    if count < |s| && count < f.maxBytes && s[count] >= 0x80 {
      ReaderIsBounded(f, s, count + 1, sofar + Group(f, s[count], count));
    }
  }
}
