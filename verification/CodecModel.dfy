/** The framing of packets on a byte stream, on values: what is written for a packet, and what a
  * reader makes of the bytes it has received so far.
  */
module CodecModel {
  import opened Options
  import opened VarInts
  import opened Cfb8

  /** The compression of RFC 1950. Decompression gives what it produced and whether it succeeded. */
  datatype Zlib = Zlib(deflate: Bytes -> Bytes, inflate: Bytes -> (Bytes, bool)) {
    ghost predicate Inverse() {
      forall s :: inflate(deflate(s)) == (s, true)
    }
  }

  /** How packets of type T are written to bytes and read from them. A packet that cannot be written
    * leaves the bytes that were written before it failed.
    */
  datatype Packets<!T(!new)> = Packets(write: T -> Bytes, writes: T -> bool, read: Bytes -> Option<T>) {
    ghost predicate Inverse() {
      forall p :: writes(p) ==> read(write(p)) == Some(p)
    }
  }

  // ----- writing -----

  function Number(n: nat): Bytes { Encode(ToUnsigned(VAR_INT, n)) }

  /** The data of a compressed frame: its uncompressed length, or 0 if it is left as it is. */
  function Data(z: Zlib, threshold: nat, body: Bytes): (nat, Bytes) {
    if |body| >= threshold then (|body|, z.deflate(body)) else (0, body)
  }

  /** What stands in a frame after its length. */
  function Content(z: Zlib, compression: Option<nat>, body: Bytes): Bytes {
    match compression
    case None => body
    case Some(threshold) =>
      var (length, data) := Data(z, threshold, body);
      Number(length) + data
  }

  function Frame(z: Zlib, compression: Option<nat>, body: Bytes): Bytes {
    var content := Content(z, compression, body);
    Number(|content|) + content
  }

  /** What is written by a codec whose last read has failed and has left something in the buffer that is
    * also compressed into: that goes out before the compressed data.
    */
  function FrameAfter(z: Zlib, compression: Option<nat>, body: Bytes, target: Bytes): Bytes {
    if compression.None? || |body| < compression.value then Frame(z, compression, body)
    else
      var content := Number(|body|) + (target + z.deflate(body));
      Number(|content|) + content
  }

  /** A number in front of bytes leaves no doubt about either. */
  lemma SameAfterNumber(m: nat, a: Bytes, n: nat, b: Bytes)
    requires Number(m) + a == Number(n) + b
    ensures m % 0x1_0000_0000 == n % 0x1_0000_0000 && a == b
  {
    RoundTrip(VAR_INT, ToUnsigned(VAR_INT, m), a);
    RoundTrip(VAR_INT, ToUnsigned(VAR_INT, n), b);
    assert (Number(m) + a)[|Number(m)|..] == a && (Number(n) + b)[|Number(n)|..] == b;
  }

  /** So the frame is the right one exactly if nothing was left or nothing is compressed. */
  lemma FrameAfterIff(z: Zlib, compression: Option<nat>, body: Bytes, target: Bytes)
    ensures FrameAfter(z, compression, body, target) == Frame(z, compression, body) <==>
            target == [] || compression.None? || |body| < compression.value
  {
    if compression.Some? && |body| >= compression.value {
      var number, data := Number(|body|), z.deflate(body);
      if target == [] {
        assert target + data == data;
      } else if FrameAfter(z, compression, body, target) == Frame(z, compression, body) {
        SameAfterNumber(|number + (target + data)|, number + (target + data), |number + data|, number + data);
      }
    }
  }

  /** Different bodies have different frames. */
  lemma FramesDifferIff(z: Zlib, compression: Option<nat>, a: Bytes, b: Bytes)
    requires z.Inverse() && |a| < 0x8000_0000 && |b| < 0x8000_0000
    ensures Frame(z, compression, a) == Frame(z, compression, b) <==> a == b
  {
    if Frame(z, compression, a) == Frame(z, compression, b) {
      var x, y := Content(z, compression, a), Content(z, compression, b);
      SameAfterNumber(|x|, x, |y|, y);
      if compression.Some? {
        var (m, s) := Data(z, compression.value, a);
        var (n, t) := Data(z, compression.value, b);
        SameAfterNumber(m, s, n, t);
        assert z.inflate(z.deflate(a)).0 == a && z.inflate(z.deflate(b)).0 == b;
      }
    }
  }

  /** A packet that is written after one that could not be: what that left in the staging buffer is
    * framed with it, so the frame is the right one exactly if it left nothing.
    */
  lemma FrameAfterFailureIff(z: Zlib, compression: Option<nat>, body: Bytes, staged: Bytes)
    requires z.Inverse() && |staged + body| < 0x8000_0000
    ensures Frame(z, compression, staged + body) == Frame(z, compression, body) <==> staged == []
  {
    FramesDifferIff(z, compression, staged + body, body);
  }

  /** The lengths that the 32-bit signed length fields can carry. */
  ghost predicate Fits(z: Zlib, compression: Option<nat>, body: Bytes) {
    |body| < 0x8000_0000 && |Content(z, compression, body)| < 0x8000_0000
  }

  // ----- reading -----

  datatype Reader = Reader(cryptor: Option<Cfb>, compression: Option<nat>, received: Bytes, target: Bytes)

  datatype Next<+T> = Packet(packet: T) | Waiting | Failed

  /** A signed length as an unsigned 64-bit machine word. */
  function Usize(x: int): nat { x % 0x1_0000_0000_0000_0000 }

  function Accept(r: Reader, bytes: Bytes): Reader {
    match r.cryptor
    case None => r.(received := r.received + bytes)
    case Some(c) =>
      var (plain, c') := Decrypt(c, bytes);
      r.(received := r.received + plain, cryptor := Some(c'))
  }

  /** The body in a frame's content, and the decompression buffer after it was taken out; the
    * buffer is appended to, and the body is all of it.
    */
  function Unpack(z: Zlib, r: Reader, content: Bytes): (Option<Bytes>, Bytes) {
    if r.compression.None? then (Some(content), r.target)
    else
      match Decode(VAR_INT, content)
      case Value(length, used) =>
        if ToSigned(VAR_INT, length) == 0 then (Some(content[used..]), r.target)
        else
          var (out, ok) := z.inflate(content[used..]);
          (if ok then Some(r.target + out) else None, r.target + out)
      case Incomplete => (None, r.target)
      case TooLong => (None, r.target)
  }

  /** The next packet: one step of the reader. */
  function Poll<T(!new)>(z: Zlib, packets: Packets<T>, r: Reader): (Next<T>, Reader) {
    match Decode(VAR_INT, r.received)
    case Value(x, used) =>
      var length := Usize(ToSigned(VAR_INT, x));
      if |r.received| - used < length then (Waiting, r)
      else
        var (body, target) := Unpack(z, r, r.received[used..used + length]);
        (match body
         case None => (Failed, r.(target := target))
         case Some(b) =>
           match packets.read(b)
           case None => (Failed, r.(target := target))
           case Some(p) => (Packet(p), r.(received := r.received[used + length..], target := [])))
    case Incomplete => (Waiting, r)
    case TooLong => (Waiting, r)
  }

  // ----- one frame -----

  lemma NumberRoundTrip(n: nat, tail: Bytes)
    requires n < 0x8000_0000
    ensures Decode(VAR_INT, Number(n) + tail) == Value(n, |Number(n)|)
    ensures ToSigned(VAR_INT, n) == n && Usize(n) == n
    ensures forall k :: 0 <= k < |Number(n)| ==> Decode(VAR_INT, Number(n)[..k]) == Incomplete
  {
    RoundTrip(VAR_INT, n, tail);
    forall k | 0 <= k < |Number(n)| ensures Decode(VAR_INT, Number(n)[..k]) == Incomplete {
      PrefixIsIncomplete(VAR_INT, n, k);
    }
  }

  /** A body that is compressed must not be empty: its length 0 would mean "not compressed". */
  ghost predicate NotMistaken(compression: Option<nat>, body: Bytes) {
    compression == Some(0) ==> body != []
  }

  /** What was packed is unpacked again, unless an empty body was compressed: then the reader takes
    * the compressed bytes for the body.
    */
  lemma UnpackInverts(z: Zlib, r: Reader, body: Bytes)
    requires z.Inverse() && |body| < 0x8000_0000 && r.target == []
    ensures Unpack(z, r, Content(z, r.compression, body)).0
      == Some(if NotMistaken(r.compression, body) then body else z.deflate([]))
  {
    if r.compression.Some? {
      var (length, data) := Data(z, r.compression.value, body);
      NumberRoundTrip(length, data);
      var content := Number(length) + data;
      assert content[|Number(length)|..] == data;
      assert [] + z.inflate(data).0 == z.inflate(data).0;
    }
  }

  /** So a frame carries its body exactly if the threshold is not 0 or the body is not empty, given
    * that compression never yields an empty stream, which would lack its header.
    */
  lemma UnpackInvertsIff(z: Zlib, r: Reader, body: Bytes)
    requires z.Inverse() && |body| < 0x8000_0000 && r.target == [] && z.deflate([]) != []
    ensures Unpack(z, r, Content(z, r.compression, body)).0 == Some(body) <==> r.compression != Some(0) || body != []
  {
    UnpackInverts(z, r, body);
  }

  /** A frame whose length is negative never comes: as an unsigned word it is larger than any buffer. */
  lemma NegativeLengthWaits<T(!new)>(z: Zlib, packets: Packets<T>, r: Reader, x: nat, used: nat)
    requires Decode(VAR_INT, r.received) == Value(x, used) && 0x8000_0000 <= x < 0x1_0000_0000
    requires |r.received| < 0x8000_0000_0000_0000
    ensures Poll(z, packets, r) == (Waiting, r)
  {
    assert ToSigned(VAR_INT, x) == x - 0x1_0000_0000;
  }

  /** With a whole frame at the front of what was received, its packet is next and the frame is
    * consumed, whatever follows.
    */
  lemma PollWholeFrame<T(!new)>(z: Zlib, packets: Packets<T>, r: Reader, p: T, rest: Bytes)
    requires z.Inverse() && packets.Inverse() && r.target == []
    requires packets.writes(p)
    requires Fits(z, r.compression, packets.write(p)) && NotMistaken(r.compression, packets.write(p))
    requires r.received == Frame(z, r.compression, packets.write(p)) + rest
    ensures Poll(z, packets, r) == (Packet(p), r.(received := rest))
  {
    var content := Content(z, r.compression, packets.write(p));
    var n := |Number(|content|)|;
    assert r.received == Number(|content|) + (content + rest);
    NumberRoundTrip(|content|, content + rest);
    assert r.received[n..n + |content|] == content && r.received[n + |content|..] == rest;
    UnpackInverts(z, r, packets.write(p));
  }

  /** With only part of a frame received there is no packet, and nothing is consumed. */
  lemma PollPartOfFrame<T(!new)>(z: Zlib, packets: Packets<T>, r: Reader, body: Bytes, missing: Bytes)
    requires Fits(z, r.compression, body)
    requires r.received + missing == Frame(z, r.compression, body) && missing != []
    ensures Poll(z, packets, r) == (Waiting, r)
  {
    var content := Content(z, r.compression, body);
    var number := Number(|content|);
    if |r.received| < |number| {
      assert r.received == number[..|r.received|] by {
        assert r.received == (r.received + missing)[..|r.received|] == (number + content)[..|r.received|];
      }
      NumberRoundTrip(|content|, []);
    } else {
      var part := r.received[|number|..];
      assert r.received == number + part by {
        assert r.received == (r.received + missing)[..|r.received|];
      }
      NumberRoundTrip(|content|, part);
    }
  }
}
