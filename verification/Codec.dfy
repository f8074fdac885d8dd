/** The codec object of a connection: its settings, its cipher state and its buffers. */
module Codec {
  import opened Options
  import opened VarInts
  import opened Cfb8
  import opened CodecModel
  import opened PacketStream

  class MinecraftCodec<T(!new)> {
    const zlib: Zlib
    const packets: Packets<T>
    const cipher: BlockCipher

    var cryptor: Option<Cfb>
    var cryptKey: Option<Key>
    var compression: Option<nat>
    var receivedBuf: Bytes
    var stagingBuf: Bytes
    var compressionTarget: Bytes

    constructor (zlib: Zlib, packets: Packets<T>, cipher: BlockCipher)
      ensures this.zlib == zlib && this.packets == packets && this.cipher == cipher
      ensures cryptor == None && cryptKey == None && compression == None
      ensures receivedBuf == [] && stagingBuf == [] && compressionTarget == []
    {
      this.zlib, this.packets, this.cipher := zlib, packets, cipher;
      cryptor, cryptKey, compression := None, None, None;
      receivedBuf, stagingBuf, compressionTarget := [], [], [];
    }

    function WriterState(): Writer
      reads this
    {
      Writer(cryptor, compression)
    }

    function ReaderState(): Reader
      reads this
    {
      Reader(cryptor, compression, receivedBuf, compressionTarget)
    }

    /** The key is also the first content of the shift register. */
    method EnableEncryption(key: Key)
      modifies this`cryptor, this`cryptKey
      ensures cryptor == Some(Cfb(cipher, key, key)) && cryptKey == Some(key)
    {
      cryptor := Some(Cfb(cipher, key, key));
      cryptKey := Some(key);
    }

    method EnableCompression(threshold: nat)
      modifies this`compression
      ensures compression == Some(threshold)
    {
      compression := Some(threshold);
    }

    /** A codec with the same settings, with the cipher at its beginning and empty buffers: so it
      * can talk to one that has just been set up like this one.
      */
    method CloneWithSettings() returns (c: MinecraftCodec<T>)
      ensures fresh(c) && c.zlib == zlib && c.packets == packets && c.cipher == cipher
      ensures c.cryptor == (match cryptKey case Some(k) => Some(Cfb(cipher, k, k)) case None => None)
      ensures c.cryptKey == cryptKey && c.compression == compression
      ensures c.receivedBuf == [] && c.stagingBuf == [] && c.compressionTarget == []
    {
      c := new MinecraftCodec(zlib, packets, cipher);
      if cryptKey.Some? {
        c.EnableEncryption(cryptKey.value);
      }
      c.compression := compression;
    }

    /** Writes a packet after what is in the output already, and enciphers all of it. What a failed
      * read has left in the compression buffer goes out before compressed data, and what a failed
      * write has left in the staging buffer before the packet.
      */
    method EncodePacket(packet: T, output: Bytes) returns (out: Bytes, ok: bool)
      modifies this`stagingBuf, this`compressionTarget, this`cryptor
      ensures ok == packets.writes(packet)
      ensures !ok ==>
        && out == output && stagingBuf == old(stagingBuf) + packets.write(packet)
        && compressionTarget == old(compressionTarget) && WriterState() == old(WriterState())
      ensures ok ==>
        && stagingBuf == [] && compressionTarget == (if compression.Some? then [] else old(compressionTarget))
        && var body := old(stagingBuf) + packets.write(packet);
           (out, WriterState())
             == Finish(old(WriterState()), output + FrameAfter(zlib, compression, body, old(compressionTarget)))
      ensures ok && old(stagingBuf) == [] && old(compressionTarget) == [] ==>
        (out, WriterState()) == EncodeInto(zlib, old(WriterState()), packets.write(packet), output)
    {
      stagingBuf := stagingBuf + packets.write(packet);
      if !packets.writes(packet) {
        return output, false;
      }
      ok := true;
      assert [] + packets.write(packet) == packets.write(packet);
      FrameAfterIff(zlib, compression, stagingBuf, compressionTarget);
      if compression.Some? {
        out := EncodeCompressed(output, compression.value);
      } else {
        out := EncodeUncompressed(output);
      }
      if cryptor.Some? {
        var (enciphered, after) := Encrypt(cryptor.value, out);
        out := enciphered;
        cryptor := Some(after);
      }
      stagingBuf := [];
    }

    method EncodeCompressed(output: Bytes, threshold: nat) returns (out: Bytes)
      requires compression == Some(threshold)
      modifies this`compressionTarget
      ensures compressionTarget == []
      ensures out == output + FrameAfter(zlib, compression, stagingBuf, old(compressionTarget))
    {
      var dataLength, data := ChooseData(threshold);
      ghost var content := Number(dataLength) + data;
      var lengthBytes, position := WriteTo(ToUnsigned(VAR_INT, dataLength), []);
      assert lengthBytes == Number(dataLength);
      var packetLength := position + |data|;
      assert packetLength == |content|;
      var count;
      out, count := WriteTo(ToUnsigned(VAR_INT, packetLength), output);
      out, count := WriteTo(ToUnsigned(VAR_INT, dataLength), out);
      out := out + data;
      compressionTarget := [];
      Join(output, Number(|content|), Number(dataLength), data);
    }

    /** The data of a frame, compressed into the target buffer if it is long enough. */
    method ChooseData(threshold: nat) returns (dataLength: nat, data: Bytes)
      modifies this`compressionTarget
      ensures if |stagingBuf| >= threshold
              then dataLength == |stagingBuf| && data == old(compressionTarget) + zlib.deflate(stagingBuf)
              else dataLength == 0 && data == stagingBuf
    {
      if |stagingBuf| >= threshold {
        compressionTarget := compressionTarget + zlib.deflate(stagingBuf);
        return |stagingBuf|, compressionTarget;
      }
      return 0, stagingBuf;
    }

    method EncodeUncompressed(output: Bytes) returns (out: Bytes)
      requires compression == None
      ensures out == output + Frame(zlib, compression, stagingBuf)
    {
      var count;
      out, count := WriteTo(ToUnsigned(VAR_INT, |stagingBuf|), output);
      out := out + stagingBuf;
    }

    /** Takes in bytes; only the new ones are deciphered. */
    method AcceptBytes(bytes: Bytes)
      modifies this`receivedBuf, this`cryptor
      ensures ReaderState() == Accept(old(ReaderState()), bytes)
    {
      var startIndex := |receivedBuf|;
      receivedBuf := receivedBuf + bytes;
      if cryptor.Some? {
        var (plain, after) := Decrypt(cryptor.value, receivedBuf[startIndex..]);
        receivedBuf := receivedBuf[..startIndex] + plain;
        cryptor := Some(after);
        assert old(receivedBuf) + bytes == receivedBuf[..startIndex] + bytes;
      }
    }

    /** The next packet, if its frame has arrived. A failure leaves the frame where it is. */
    method NextPacket() returns (next: Next<T>)
      modifies this`receivedBuf, this`compressionTarget
      ensures (next, ReaderState()) == Poll(zlib, packets, old(ReaderState()))
    {
      var length := ReadFrom(VAR_INT, receivedBuf);
      if !length.Value? {
        return Waiting;
      }
      var n := Usize(ToSigned(VAR_INT, length.x));
      if |receivedBuf| - length.used < n {
        return Waiting;
      }
      var body := TakeBody(receivedBuf[length.used..length.used + n]);
      if body.None? {
        return Failed;
      }
      var packet := packets.read(body.value);
      if packet.None? {
        return Failed;
      }
      receivedBuf := receivedBuf[length.used + n..];
      compressionTarget := [];
      return Packet(packet.value);
    }

    method TakeBody(content: Bytes) returns (body: Option<Bytes>)
      modifies this`compressionTarget
      ensures (body, compressionTarget) == Unpack(zlib, old(ReaderState()), content)
    {
      if compression.None? {
        return Some(content);
      }
      var dataLength := ReadFrom(VAR_INT, content);
      if !dataLength.Value? {
        return None;
      }
      if ToSigned(VAR_INT, dataLength.x) == 0 {
        return Some(content[dataLength.used..]);
      }
      var (out, ok) := zlib.inflate(content[dataLength.used..]);
      compressionTarget := compressionTarget + out;
      if !ok {
        return None;
      }
      return Some(compressionTarget);
    }
  }

  /** The packets before the first one that cannot be written. */
  function Writable<T(!new)>(packets: Packets<T>, ps: seq<T>): (r: seq<T>)
    ensures r <= ps && (forall p :: p in r ==> packets.writes(p))
    ensures r == ps || !packets.writes(ps[|r|])
  {
    if ps == [] || !packets.writes(ps[0]) then [] else [ps[0]] + Writable(packets, ps[1..])
  }

  /** The sending end of a connection: a codec and an output buffer that is emptied once its
    * content has been sent. A packet that cannot be written ends the connection.
    */
  method SendPackets<T(!new)>(codec: MinecraftCodec<T>, ps: seq<T>) returns (sent: Bytes)
    requires codec.stagingBuf == [] && codec.compressionTarget == []
    modifies codec
    ensures sent == SendAll(codec.zlib, codec.packets, old(codec.WriterState()), Writable(codec.packets, ps))
  {
    sent := [];
    var buffer: Bytes := [];
    ghost var all := SendAll(codec.zlib, codec.packets, codec.WriterState(), Writable(codec.packets, ps));
    for i := 0 to |ps|
      invariant codec.stagingBuf == [] && codec.compressionTarget == [] && buffer == []
      invariant all
        == sent + SendAll(codec.zlib, codec.packets, codec.WriterState(), Writable(codec.packets, ps[i..]))
    {
      assert ps[i..][0] == ps[i] && ps[i..][1..] == ps[i + 1..];
      ghost var before := sent;
      var ok;
      buffer, ok := codec.EncodePacket(ps[i], buffer);
      if !ok {
        return;
      }
      sent := sent + buffer;
      Join([], before, buffer,
           SendAll(codec.zlib, codec.packets, codec.WriterState(), Writable(codec.packets, ps[i + 1..])));
      buffer := [];
    }
  }

  lemma Join(a: Bytes, b: Bytes, c: Bytes, d: Bytes)
    ensures a + b + c + d == a + (b + (c + d)) && [] + b == b
  {
  }
}
