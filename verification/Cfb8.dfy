/** The 8-bit cipher feedback mode of section 6.3 of NIST SP 800-38A: a byte at a time is combined
  * with the first byte of the enciphered shift register, into which the cipher text goes.
  */
module Cfb8 {
  import opened Bits
  import opened VarInts

  type Key = k: Bytes | |k| == 16 witness seq(16, _ => 0)

  /** The first byte of the block cipher's output, for a key and a register. */
  type BlockCipher = (Key, Bytes) -> Byte

  datatype Cfb = Cfb(cipher: BlockCipher, key: Key, register: Bytes) {

    function Mask(): Byte { cipher(key, register) }

    function Shift(c: Byte): Cfb {
      this.(register := (if register == [] then [] else register[1..]) + [c])
    }
  }

  function Xor(a: Byte, b: Byte): Byte {
    assert Pow2(8) == 0x100;
    XorBits(a, b, 8)
  }

  lemma XorTwice(a: Byte, b: Byte)
    ensures Xor(Xor(a, b), b) == a
  {
    assert Pow2(8) == 0x100;
    XorBitsTwice(a, b, 8);
  }

  lemma XorIsBitwise(a: Byte, b: Byte, k: nat)
    requires k < 8
    ensures Bit(Xor(a, b), k) == if Bit(a, k) != Bit(b, k) then 1 else 0
  {
    BitsOf(a, b, 8, k);
  }

  lemma XorChanges(a: Byte)
    ensures Xor(a, 1) != a
  {
    Halves(if a % 2 == 1 then 0 else 1, XorBits(a / 2, 0, 7));
  }

  /** Enciphers a stream of bytes, and gives the state after it. */
  function Encrypt(c: Cfb, s: Bytes): (r: (Bytes, Cfb))
    ensures |r.0| == |s|
    decreases |s|
  {
    if s == [] then ([], c)
    else
      var e := Xor(s[0], c.Mask());
      var (rest, c') := Encrypt(c.Shift(e), s[1..]);
      ([e] + rest, c')
  }

  function Decrypt(c: Cfb, s: Bytes): (r: (Bytes, Cfb))
    ensures |r.0| == |s|
    decreases |s|
  {
    if s == [] then ([], c)
    else
      var (rest, c') := Decrypt(c.Shift(s[0]), s[1..]);
      ([Xor(s[0], c.Mask())] + rest, c')
  }

  /** Deciphering undoes enciphering and arrives at the same state. */
  lemma {:induction false} DecryptInverts(c: Cfb, s: Bytes)
    ensures Decrypt(c, Encrypt(c, s).0).0 == s
    ensures Decrypt(c, Encrypt(c, s).0).1 == Encrypt(c, s).1
    decreases |s|
  {
    if s != [] {
      var e := Xor(s[0], c.Mask());
      XorTwice(s[0], c.Mask());
      DecryptInverts(c.Shift(e), s[1..]);
      assert Encrypt(c, s).0[1..] == Encrypt(c.Shift(e), s[1..]).0;
      assert [s[0]] + s[1..] == s;
    }
  }

  /** The initial register followed by the cipher text. */
  function Stream(c: Cfb, s: Bytes): Bytes { c.register + Encrypt(c, s).0 }

  lemma StreamShifts(c: Cfb, s: Bytes)
    requires |c.register| > 0 && s != []
    ensures Stream(c.Shift(Xor(s[0], c.Mask())), s[1..]) == Stream(c, s)[1..]
    ensures Stream(c, s)[..|c.register|] == c.register && |Stream(c, s)| == |c.register| + |s|
  {
  }

  /** What the standard says of the mode: each byte is combined with the mask for the part of the
    * stream that ends before the byte's own place, as long as the register.
    */
  lemma {:induction false} EncryptIsCfb8(c: Cfb, s: Bytes, i: nat)
    requires |c.register| > 0 && i < |s|
    ensures Encrypt(c, s).0[i] == Xor(s[i], c.cipher(c.key, Stream(c, s)[i..i + |c.register|]))
    decreases |s|
  {
    StreamShifts(c, s);
    if i > 0 {
      EncryptIsCfb8(c.Shift(Xor(s[0], c.Mask())), s[1..], i - 1);
      assert Stream(c, s)[1..][i - 1..i - 1 + |c.register|] == Stream(c, s)[i..i + |c.register|];
    }
  }

  /** After any bytes the register is the end of the stream. */
  lemma {:induction false} RegisterIsEndOfStream(c: Cfb, s: Bytes)
    requires |c.register| > 0
    ensures Encrypt(c, s).1 == c.(register := Stream(c, s)[|s|..])
    decreases |s|
  {
    if s == [] {
      assert c.register + [] == c.register;
    } else {
      StreamShifts(c, s);
      RegisterIsEndOfStream(c.Shift(Xor(s[0], c.Mask())), s[1..]);
      assert Stream(c, s)[1..][|s| - 1..] == Stream(c, s)[|s|..];
    }
  }

  /** A stream may be enciphered in pieces. */
  lemma {:induction false} EncryptPieces(c: Cfb, s: Bytes, t: Bytes)
    ensures Encrypt(c, s + t).0 == Encrypt(c, s).0 + Encrypt(Encrypt(c, s).1, t).0
    ensures Encrypt(c, s + t).1 == Encrypt(Encrypt(c, s).1, t).1
    decreases |s|
  {
    if s == [] {
      assert s + t == t && [] + Encrypt(c, t).0 == Encrypt(c, t).0;
    } else {
      assert (s + t)[1..] == s[1..] + t && (s + t)[0] == s[0];
      var e := Xor(s[0], c.Mask());
      EncryptPieces(c.Shift(e), s[1..], t);
      var (rest, c') := Encrypt(c.Shift(e), s[1..]);
      var b := Encrypt(c', t).0;
      assert [e] + rest + b == [e] + (rest + b);
    }
  }

  /** And deciphered in pieces, wherever it is cut. */
  lemma {:induction false} DecryptPieces(c: Cfb, s: Bytes, t: Bytes)
    ensures Decrypt(c, s + t).0 == Decrypt(c, s).0 + Decrypt(Decrypt(c, s).1, t).0
    ensures Decrypt(c, s + t).1 == Decrypt(Decrypt(c, s).1, t).1
    decreases |s|
  {
    if s == [] {
      assert s + t == t && [] + Decrypt(c, t).0 == Decrypt(c, t).0;
    } else {
      assert (s + t)[1..] == s[1..] + t && (s + t)[0] == s[0];
      DecryptPieces(c.Shift(s[0]), s[1..], t);
      var (rest, c') := Decrypt(c.Shift(s[0]), s[1..]);
      var p, b := Xor(s[0], c.Mask()), Decrypt(c', t).0;
      assert [p] + rest + b == [p] + (rest + b);
    }
  }
}
