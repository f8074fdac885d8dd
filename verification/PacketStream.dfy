/** Whole conversations: what a writer sends for a sequence of packets, cut up and received in any
  * way, gives the reader exactly those packets.
  */
module PacketStream {
  import opened Options
  import opened VarInts
  import opened Cfb8
  import opened CodecModel

  // ----- streams of frames -----

  function Flat(fs: seq<Bytes>): Bytes {
    if fs == [] then [] else fs[0] + Flat(fs[1..])
  }

  lemma {:induction false} FlatSplits(a: seq<Bytes>, b: seq<Bytes>)
    ensures Flat(a + b) == Flat(a) + Flat(b)
  {
    if a == [] {
      assert a + b == b;
    } else {
      assert (a + b)[1..] == a[1..] + b && (a + b)[0] == a[0];
      FlatSplits(a[1..], b);
    }
  }

  lemma FlatEnds(front: seq<Bytes>, f: Bytes)
    ensures Flat(front + [f]) == Flat(front) + f
  {
    FlatSplits(front, [f]);
    assert Flat([f]) == f + Flat([]);
  }

  /** The stream around frame number `k`. */
  lemma FlatAround(fs: seq<Bytes>, k: nat)
    requires k <= |fs|
    ensures Flat(fs) == Flat(fs[..k]) + Flat(fs[k..])
    ensures k < |fs| ==> Flat(fs[k..]) == fs[k] + Flat(fs[k + 1..]) && Flat(fs[..k + 1]) == Flat(fs[..k]) + fs[k]
  {
    FlatSplits(fs[..k], fs[k..]);
    assert fs[..k] + fs[k..] == fs;
    if k < |fs| {
      FlatEnds(fs[..k], fs[k]);
      assert fs[..k] + [fs[k]] == fs[..k + 1];
      assert fs[k..][1..] == fs[k + 1..];
    }
  }

  function Enciphered(cryptor: Option<Cfb>, s: Bytes): (r: Bytes)
    ensures |r| == |s|
  {
    match cryptor case None => s case Some(c) => Encrypt(c, s).0
  }

  // ----- the writing side -----

  datatype Writer = Writer(cryptor: Option<Cfb>, compression: Option<nat>)

  /** Writes one packet's body into an output buffer. The whole buffer is enciphered, also what was
    * in it before.
    */
  function EncodeInto(z: Zlib, w: Writer, body: Bytes, output: Bytes): (Bytes, Writer) {
    Finish(w, output + Frame(z, w.compression, body))
  }

  /** The end of writing a packet: what is in the output is enciphered. */
  function Finish(w: Writer, plain: Bytes): (Bytes, Writer) {
    match w.cryptor
    case None => (plain, w)
    case Some(c) => (Encrypt(c, plain).0, w.(cryptor := Some(Encrypt(c, plain).1)))
  }

  /** What goes out for these packets, each written into an empty buffer. */
  function SendAll<T(!new)>(z: Zlib, packets: Packets<T>, w: Writer, ps: seq<T>): Bytes
    decreases |ps|
  {
    if ps == [] then []
    else
      var (out, w') := EncodeInto(z, w, packets.write(ps[0]), []);
      out + SendAll(z, packets, w', ps[1..])
  }

  function Frames<T(!new)>(z: Zlib, packets: Packets<T>, compression: Option<nat>, ps: seq<T>): (r: seq<Bytes>)
    ensures |r| == |ps| && forall i :: 0 <= i < |ps| ==> r[i] == Frame(z, compression, packets.write(ps[i]))
  {
    seq(|ps|, i requires 0 <= i < |ps| => Frame(z, compression, packets.write(ps[i])))
  }

  /** Packet by packet, the writer sends the enciphered stream of the frames. */
  lemma {:induction false} SendAllIsStream<T(!new)>(z: Zlib, packets: Packets<T>, w: Writer, ps: seq<T>)
    ensures SendAll(z, packets, w, ps) == Enciphered(w.cryptor, Flat(Frames(z, packets, w.compression, ps)))
    decreases |ps|
  {
    if ps != [] {
      var fs := Frames(z, packets, w.compression, ps);
      assert [] + fs[0] == fs[0];
      var (out, w') := EncodeInto(z, w, packets.write(ps[0]), []);
      SendAllIsStream(z, packets, w', ps[1..]);
      assert fs[1..] == Frames(z, packets, w.compression, ps[1..]);
      if w.cryptor.Some? {
        EncryptPieces(w.cryptor.value, fs[0], Flat(fs[1..]));
      }
    }
  }

  /** Into a buffer that is not empty, what was already there is enciphered a second time: that is
    * why every packet needs an empty buffer.
    */
  lemma OldOutputIsEncipheredAgain(z: Zlib, w: Writer, body: Bytes, output: Bytes)
    requires w.cryptor.Some?
    ensures EncodeInto(z, w, body, output).0[..|output|] == Encrypt(w.cryptor.value, output).0
  {
    EncryptPieces(w.cryptor.value, output, Frame(z, w.compression, body));
  }

  /** A cipher whose mask is always the same byte. */
  const FLIP := Cfb((key, register) => 1, seq(16, _ => 0), [])

  /** What was in the output stays as it was, for every cipher, exactly if there was nothing. */
  lemma OldOutputStaysIff(z: Zlib, compression: Option<nat>, body: Bytes, output: Bytes)
    ensures (forall c: Cfb :: output <= EncodeInto(z, Writer(Some(c), compression), body, output).0) <==> output == []
  {
    if output != [] {
      var out := EncodeInto(z, Writer(Some(FLIP), compression), body, output).0;
      OldOutputIsEncipheredAgain(z, Writer(Some(FLIP), compression), body, output);
      assert out[..|output|][0] == out[0] == Xor(output[0], 1);
      XorChanges(output[0]);
    }
  }

  // ----- the reading side -----

  /** Packets that are what is written for them. */
  const RAW: Packets<Bytes> := Packets(b => b, b => true, b => Some(b))

  ghost predicate Flipped(s: Bytes, t: Bytes) {
    |s| == |t| && forall i :: 0 <= i < |s| ==> t[i] == Xor(s[i], 1)
  }

  lemma {:induction false} FlipsEach(c: Cfb, s: Bytes, t: Bytes)
    requires c.cipher == FLIP.cipher && Flipped(s, t)
    ensures Encrypt(c, s).0 == t && Encrypt(c, s).1.cipher == c.cipher && Decrypt(c, s).0 == t
    decreases |s|
  {
    if s != [] {
      FlipsEach(c.Shift(Xor(s[0], 1)), s[1..], t[1..]);
      FlipsEach(c.Shift(s[0]), s[1..], t[1..]);
    }
  }

  lemma EncodeFlips(z: Zlib, w: Writer, body: Bytes, output: Bytes, t: Bytes)
    requires w.cryptor.Some? && w.cryptor.value.cipher == FLIP.cipher
    requires Flipped(output + Frame(z, w.compression, body), t)
    ensures var (out, w') := EncodeInto(z, w, body, output);
      out == t && w'.cryptor.Some? && w'.cryptor.value.cipher == FLIP.cipher && w'.compression == w.compression
  {
    FlipsEach(w.cryptor.value, output + Frame(z, w.compression, body), t);
  }

  lemma SmallFlips()
    ensures Xor(0, 1) == 1 && Xor(1, 1) == 0 && Xor(6, 1) == 7 && Xor(7, 1) == 6
  {
  }

  lemma FrameOfOneByte(z: Zlib, b: Byte)
    ensures Frame(z, None, [b]) == [1, b]
  {
    assert ToUnsigned(VAR_INT, 1) == 1 && Number(1) == [1];
  }

  lemma PollEmptyFrame(z: Zlib, r: Reader, rest: Bytes)
    requires r.compression == None && r.received == [0] + rest
    ensures Poll(z, RAW, r).0 == Packet([])
  {
    NumberRoundTrip(0, rest);
    assert Number(0) == [0];
    assert r.received[1..1] == [];
  }

  /** If the output still holds a packet when the next one is written, the reader may get neither. */
  lemma OldOutputIsMisread(z: Zlib, w: Writer, r: Reader, body: Bytes, first: Bytes, both: Bytes)
    requires w == Writer(Some(FLIP), None) && r == Reader(Some(FLIP), None, [], []) && body == [7]
    requires first == EncodeInto(z, w, body, []).0
    requires both == EncodeInto(z, EncodeInto(z, w, body, []).1, body, first).0
    ensures Poll(z, RAW, Accept(r, both)).0 == Packet([])
  {
    SmallFlips();
    FrameOfOneByte(z, 7);
    EncodeFlips(z, w, body, [], [0, 6]);
    EncodeFlips(z, EncodeInto(z, w, body, []).1, body, first, [1, 7, 0, 6]);
    FlipsEach(FLIP, both, [0, 6, 1, 7]);
    assert [] + [0, 6, 1, 7] == [0] + [6, 1, 7];
    PollEmptyFrame(z, Accept(r, both), [6, 1, 7]);
  }

  /** What happens to a reader: bytes arrive, or somebody asks for the next packet. */
  datatype Event = Arrive(bytes: Bytes) | Ask

  datatype Session<+T> = Session(reader: Reader, delivered: seq<T>, failed: bool)

  function Handle<T(!new)>(z: Zlib, packets: Packets<T>, s: Session<T>, e: Event): Session<T> {
    match e
    case Arrive(bytes) => s.(reader := Accept(s.reader, bytes))
    case Ask =>
      var (next, reader) := Poll(z, packets, s.reader);
      match next
      case Packet(p) => s.(reader := reader, delivered := s.delivered + [p])
      case Waiting => s.(reader := reader)
      case Failed => s.(reader := reader, failed := true)
  }

  function Play<T(!new)>(z: Zlib, packets: Packets<T>, s: Session<T>, events: seq<Event>): Session<T> {
    if events == [] then s
    else Handle(z, packets, Play(z, packets, s, events[..|events| - 1]), events[|events| - 1])
  }

  /** All the bytes that arrived, in order. */
  function Arrived(events: seq<Event>): Bytes {
    if events == [] then []
    else
      Arrived(events[..|events| - 1])
      + (match events[|events| - 1] case Arrive(bytes) => bytes case Ask => [])
  }

  /** The packet can be written and framed: its lengths fit, and it is not empty if all are compressed. */
  ghost predicate CanSend<T(!new)>(z: Zlib, packets: Packets<T>, compression: Option<nat>, p: T) {
    packets.writes(p) && Fits(z, compression, packets.write(p)) && NotMistaken(compression, packets.write(p))
  }

  ghost predicate Sendable<T(!new)>(z: Zlib, packets: Packets<T>, compression: Option<nat>, ps: seq<T>) {
    forall p :: p in ps ==> CanSend(z, packets, compression, p)
  }

  ghost predicate FramedAt<T(!new)>(z: Zlib, packets: Packets<T>, compression: Option<nat>, ps: seq<T>,
                                    fs: seq<Bytes>, k: nat)
  {
    k < |ps| && k < |fs| ==>
      CanSend(z, packets, compression, ps[k]) && fs[k] == Frame(z, compression, packets.write(ps[k]))
  }

  /** The two ends agree on everything, and these are the frames of the packets. */
  ghost predicate Agreed<T(!new)>(z: Zlib, packets: Packets<T>, start: Reader, ps: seq<T>, fs: seq<Bytes>) {
    && z.Inverse() && packets.Inverse() && |fs| == |ps|
    && forall k: nat :: FramedAt(z, packets, start.compression, ps, fs, k)
  }

  /** The cipher of a reader that has taken in `n` bytes of an enciphered stream. */
  ghost predicate InStep(start: Option<Cfb>, whole: Bytes, now: Option<Cfb>, n: nat)
    requires n <= |whole|
  {
    match start
    case None => now == None
    case Some(c) => now == Some(Decrypt(c, Encrypt(c, whole).0[..n]).1)
  }

  /** What holds after `n` bytes of the stream of frames `fs` have arrived and `k` packets were
    * delivered.
    */
  ghost predicate Progress<T(!new)>(start: Reader, fs: seq<Bytes>, ps: seq<T>, s: Session<T>, n: nat, k: nat) {
    && |fs| == |ps| && n <= |Flat(fs)| && k <= |ps|
    && !s.failed && s.delivered == ps[..k]
    && s.reader.target == [] && s.reader.compression == start.compression
    && Flat(fs[..k]) + s.reader.received == Flat(fs)[..n]
    && InStep(start.cryptor, Flat(fs), s.reader.cryptor, n)
  }

  /** The beginning of an enciphered stream deciphers to the beginning of the plain one. */
  lemma DecipherPrefix(c: Cfb, whole: Bytes, front: Bytes)
    requires front <= Encrypt(c, whole).0
    ensures Decrypt(c, front).0 == whole[..|front|]
  {
    var e := Encrypt(c, whole).0;
    assert e == front + e[|front|..];
    DecryptPieces(c, front, e[|front|..]);
    DecryptInverts(c, whole);
  }

  /** If two pieces together decipher to the beginning of a stream, the second one deciphers, in the
    * state left by the first, to the bytes that follow.
    */
  lemma DecipherNext(c: Cfb, whole: Bytes, front: Bytes, bytes: Bytes, both: Bytes)
    requires Decrypt(c, front + bytes).0 == both
    requires |front| + |bytes| <= |whole| && both == whole[..|both|]
    ensures Decrypt(Decrypt(c, front).1, bytes).0 == whole[|front|..|front| + |bytes|]
    ensures Decrypt(Decrypt(c, front).1, bytes).1 == Decrypt(c, front + bytes).1
  {
    DecryptPieces(c, front, bytes);
    Middle(Decrypt(c, front).0, Decrypt(Decrypt(c, front).1, bytes).0, both, whole);
  }

  lemma TakeMore(e: Bytes, bytes: Bytes, n: nat)
    requires n + |bytes| <= |e| && e[n..n + |bytes|] == bytes
    ensures e[..n + |bytes|] == e[..n] + bytes
  {
  }

  lemma Middle(front: Bytes, plain: Bytes, both: Bytes, whole: Bytes)
    requires |both| <= |whole| && both == front + plain && both == whole[..|both|]
    ensures plain == whole[|front|..|front| + |plain|]
  {
    assert whole[|front|..|both|] == whole[..|both|][|front|..];
  }

  lemma AcceptDeciphers(start: Option<Cfb>, whole: Bytes, r: Reader, n: nat, bytes: Bytes)
    requires n + |bytes| <= |whole| && Enciphered(start, whole)[n..n + |bytes|] == bytes
    requires InStep(start, whole, r.cryptor, n)
    ensures InStep(start, whole, Accept(r, bytes).cryptor, n + |bytes|)
    ensures Accept(r, bytes) == r.(received := r.received + whole[n..n + |bytes|], cryptor := Accept(r, bytes).cryptor)
  {
    if start.Some? {
      var e := Encrypt(start.value, whole).0;
      TakeMore(e, bytes, n);
      DecipherPrefix(start.value, whole, e[..n + |bytes|]);
      DecipherNext(start.value, whole, e[..n], bytes, whole[..n + |bytes|]);
    }
  }

  lemma Extend(head: Bytes, part: Bytes, whole: Bytes, n: nat, m: nat)
    requires n <= m <= |whole| && head + part == whole[..n]
    ensures head + (part + whole[n..m]) == whole[..m]
  {
    assert whole[..m] == whole[..n] + whole[n..m];
  }

  lemma ArriveMakesProgress<T(!new)>(start: Reader, fs: seq<Bytes>, ps: seq<T>, s: Session<T>, n: nat, k: nat,
                              bytes: Bytes)
    requires Progress(start, fs, ps, s, n, k)
    requires n + |bytes| <= |Flat(fs)| && Enciphered(start.cryptor, Flat(fs))[n..n + |bytes|] == bytes
    ensures Progress(start, fs, ps, s.(reader := Accept(s.reader, bytes)), n + |bytes|, k)
  {
    AcceptDeciphers(start.cryptor, Flat(fs), s.reader, n, bytes);
    Extend(Flat(fs[..k]), s.reader.received, Flat(fs), n, n + |bytes|);
  }

  /** What has been received and not yet consumed is the beginning of the frames still to come. */
  lemma ReceivedIsNext<T(!new)>(start: Reader, fs: seq<Bytes>, ps: seq<T>, s: Session<T>, n: nat, k: nat)
    requires Progress(start, fs, ps, s, n, k)
    ensures s.reader.received <= Flat(fs[k..]) && |s.reader.received| == n - |Flat(fs[..k])|
  {
    FlatAround(fs, k);
    CutFront(Flat(fs[..k]), s.reader.received, Flat(fs[k..]), n);
  }

  lemma CutFront(head: Bytes, part: Bytes, rest: Bytes, n: nat)
    requires n <= |head + rest| && head + part == (head + rest)[..n]
    ensures part <= rest && |part| == n - |head|
  {
    assert |head + part| == n;
    forall i | 0 <= i < |part| ensures part[i] == rest[i] {
      assert (head + part)[|head| + i] == part[i];
    }
  }

  /** Polling the beginning of a frame and more. */
  lemma PollNext<T(!new)>(z: Zlib, packets: Packets<T>, r: Reader, p: T, frame: Bytes, later: Bytes)
    requires z.Inverse() && packets.Inverse() && r.target == [] && packets.writes(p)
    requires Fits(z, r.compression, packets.write(p)) && NotMistaken(r.compression, packets.write(p))
    requires frame == Frame(z, r.compression, packets.write(p)) && r.received <= frame + later
    ensures
      if frame <= r.received then Poll(z, packets, r) == (Packet(p), r.(received := r.received[|frame|..]))
      else |r.received| < |frame| && Poll(z, packets, r) == (Waiting, r)
  {
    if |frame| <= |r.received| {
      assert r.received[..|frame|] == frame;
      assert r.received == frame + r.received[|frame|..];
      PollWholeFrame(z, packets, r, p, r.received[|frame|..]);
    } else {
      assert r.received + frame[|r.received|..] == frame;
      PollPartOfFrame(z, packets, r, packets.write(p), frame[|r.received|..]);
    }
  }

  lemma MoveOver(head: Bytes, frame: Bytes, received: Bytes)
    requires frame <= received
    ensures (head + frame) + received[|frame|..] == head + received
  {
  }

  lemma DeliverKeepsProgress<T(!new)>(start: Reader, fs: seq<Bytes>, ps: seq<T>, s: Session<T>, n: nat, k: nat)
    requires Progress(start, fs, ps, s, n, k) && k < |ps| && fs[k] <= s.reader.received
    ensures Progress(start, fs, ps, s.(reader := s.reader.(received := s.reader.received[|fs[k]|..]),
                                       delivered := s.delivered + [ps[k]]), n, k + 1)
  {
    FlatAround(fs, k);
    assert ps[..k] + [ps[k]] == ps[..k + 1];
    MoveOver(Flat(fs[..k]), fs[k], s.reader.received);
  }

  /** Whether the frame of the packet after the first `k` has arrived completely. */
  ghost predicate NextIsThere(fs: seq<Bytes>, n: nat, k: nat) {
    k < |fs| && |Flat(fs[..k + 1])| <= n
  }

  /** Asking delivers the next packet if its frame is there, and otherwise changes nothing. */
  lemma AskMakesProgress<T(!new)>(z: Zlib, packets: Packets<T>, start: Reader, ps: seq<T>, fs: seq<Bytes>,
                                  s: Session<T>, n: nat, k: nat)
    requires Agreed(z, packets, start, ps, fs) && Progress(start, fs, ps, s, n, k)
    ensures var s' := Handle(z, packets, s, Ask);
      if NextIsThere(fs, n, k)
      then Progress(start, fs, ps, s', n, k + 1) && Poll(z, packets, s.reader).0 == Packet(ps[k])
      else s' == s && Poll(z, packets, s.reader) == (Waiting, s.reader)
  {
    ReceivedIsNext(start, fs, ps, s, n, k);
    FlatAround(fs, k);
    if k == |ps| {
      assert s.reader.received == [];
    } else {
      assert FramedAt(z, packets, start.compression, ps, fs, k);
      PollNext(z, packets, s.reader, ps[k], fs[k], Flat(fs[k + 1..]));
      if fs[k] <= s.reader.received {
        DeliverKeepsProgress(start, fs, ps, s, n, k);
      }
    }
  }

  /** What arrives at an event is the next piece of the enciphered stream. */
  ghost predicate IsNextPiece(start: Reader, fs: seq<Bytes>, n: nat, e: Event) {
    e.Arrive? ==>
      && n + |e.bytes| <= |Flat(fs)|
      && Enciphered(start.cryptor, Flat(fs))[n..n + |e.bytes|] == e.bytes
  }

  lemma EventMakesProgress<T(!new)>(z: Zlib, packets: Packets<T>, start: Reader, ps: seq<T>, fs: seq<Bytes>,
                                    s: Session<T>, n: nat, k: nat, e: Event, s': Session<T>, n': nat)
    returns (k': nat)
    requires Agreed(z, packets, start, ps, fs) && Progress(start, fs, ps, s, n, k) && IsNextPiece(start, fs, n, e)
    requires s' == Handle(z, packets, s, e) && n' == n + if e.Arrive? then |e.bytes| else 0
    ensures Progress(start, fs, ps, s', n', k')
  {
    match e
    case Arrive(bytes) =>
      ArriveMakesProgress(start, fs, ps, s, n, k, bytes);
      k' := k;
    case Ask =>
      AskMakesProgress(z, packets, start, ps, fs, s, n, k);
      k' := if NextIsThere(fs, n, k) then k + 1 else k;
  }

  /** A reader that has received nothing yet. */
  ghost predicate Fresh(r: Reader) { r.received == [] && r.target == [] }

  lemma StartIsProgress<T(!new)>(start: Reader, fs: seq<Bytes>, ps: seq<T>)
    requires Fresh(start) && |fs| == |ps|
    ensures Progress(start, fs, ps, Session(start, [], false), 0, 0)
  {
    if start.cryptor.Some? {
      assert Encrypt(start.cryptor.value, Flat(fs)).0[..0] == [];
    }
  }

  /** The last event brings the piece of the stream that follows what has arrived before. */
  lemma LastIsNextPiece(start: Reader, fs: seq<Bytes>, before: seq<Event>, last: Event)
    requires Arrived(before + [last]) <= Enciphered(start.cryptor, Flat(fs))
    ensures Arrived(before) <= Enciphered(start.cryptor, Flat(fs))
    ensures IsNextPiece(start, fs, |Arrived(before)|, last)
    ensures |Arrived(before + [last])| == |Arrived(before)| + if last.Arrive? then |last.bytes| else 0
  {
    assert (before + [last])[..|before|] == before;
  }

  lemma PlayLast<T(!new)>(z: Zlib, packets: Packets<T>, s: Session<T>, before: seq<Event>, last: Event)
    ensures Play(z, packets, s, before + [last]) == Handle(z, packets, Play(z, packets, s, before), last)
  {
    assert (before + [last])[..|before|] == before;
  }

  /** After these events what has arrived is the beginning of the enciphered stream, and the first `k`
    * packets have been delivered.
    */
  ghost predicate InPlay<T(!new)>(z: Zlib, packets: Packets<T>, start: Reader, ps: seq<T>, fs: seq<Bytes>,
                                  events: seq<Event>, k: nat)
  {
    && Arrived(events) <= Enciphered(start.cryptor, Flat(fs))
    && Progress(start, fs, ps, Play(z, packets, Session(start, [], false), events), |Arrived(events)|, k)
  }

  lemma OneMorePlays<T(!new)>(z: Zlib, packets: Packets<T>, start: Reader, ps: seq<T>, fs: seq<Bytes>,
                              before: seq<Event>, last: Event, k: nat)
    returns (k': nat)
    requires Agreed(z, packets, start, ps, fs) && InPlay(z, packets, start, ps, fs, before, k)
    requires Arrived(before + [last]) <= Enciphered(start.cryptor, Flat(fs))
    ensures InPlay(z, packets, start, ps, fs, before + [last], k')
  {
    var s0 := Session(start, [], false);
    LastIsNextPiece(start, fs, before, last);
    PlayLast(z, packets, s0, before, last);
    k' := EventMakesProgress(z, packets, start, ps, fs, Play(z, packets, s0, before), |Arrived(before)|, k, last,
                             Play(z, packets, s0, before + [last]), |Arrived(before + [last])|);
  }

  /** However the stream is cut up and whenever packets are asked for, those delivered so far are
    * the first ones, in order.
    */
  lemma {:induction false} EveryPlayMakesProgress<T(!new)>(z: Zlib, packets: Packets<T>, start: Reader, ps: seq<T>,
                                                           fs: seq<Bytes>, events: seq<Event>)
    returns (k: nat)
    requires Agreed(z, packets, start, ps, fs) && Fresh(start)
    requires Arrived(events) <= Enciphered(start.cryptor, Flat(fs))
    ensures InPlay(z, packets, start, ps, fs, events, k)
  {
    if events == [] {
      k := 0;
      StartIsProgress(start, fs, ps);
    } else {
      var before, last := events[..|events| - 1], events[|events| - 1];
      assert events == before + [last];
      k := EveryPlayMakesProgress(z, packets, start, ps, fs, before);
      k := OneMorePlays(z, packets, start, ps, fs, before, last, k);
    }
  }

  function Asks(n: nat): seq<Event> { seq(n, _ => Ask) }

  lemma {:induction false} AsksBringNothing(events: seq<Event>, m: nat)
    ensures Arrived(events + Asks(m)) == Arrived(events)
  {
    if m == 0 {
      assert events + Asks(0) == events;
    } else {
      var all := events + Asks(m);
      AsksBringNothing(events, m - 1);
      assert all[..|all| - 1] == events + Asks(m - 1);
    }
  }

  /** Once everything has arrived, one more question brings the next packet. */
  lemma OneMoreAsk<T(!new)>(z: Zlib, packets: Packets<T>, start: Reader, ps: seq<T>, fs: seq<Bytes>,
                            before: seq<Event>, k: nat, events: seq<Event>)
    requires Agreed(z, packets, start, ps, fs) && InPlay(z, packets, start, ps, fs, before, k)
    requires |Arrived(before)| == |Flat(fs)| && Arrived(events) == Arrived(before) && events == before + [Ask]
    ensures InPlay(z, packets, start, ps, fs, events, if k < |ps| then k + 1 else k)
  {
    var s0 := Session(start, [], false);
    PlayLast(z, packets, s0, before, Ask);
    AskMakesProgress(z, packets, start, ps, fs, Play(z, packets, s0, before), |Flat(fs)|, k);
    if k < |ps| { FlatAround(fs, k + 1); }
  }

  /** So as many questions as there are packets bring them all. */
  lemma {:induction false} AsksDrain<T(!new)>(z: Zlib, packets: Packets<T>, start: Reader, ps: seq<T>,
                                              fs: seq<Bytes>, before: seq<Event>, k: nat, m: nat, events: seq<Event>)
    requires Agreed(z, packets, start, ps, fs) && InPlay(z, packets, start, ps, fs, before, k)
    requires |Arrived(before)| == |Flat(fs)| && events == before + Asks(m)
    ensures InPlay(z, packets, start, ps, fs, events, if k + m < |ps| then k + m else |ps|)
  {
    if m == 0 {
      assert events == before;
    } else {
      var most := before + Asks(m - 1);
      AsksBringNothing(before, m - 1);
      AsksBringNothing(before, m);
      AsksDrain(z, packets, start, ps, fs, before, k, m - 1, most);
      OneMoreAsk(z, packets, start, ps, fs, most, if k + m - 1 < |ps| then k + m - 1 else |ps|, events);
    }
  }

  lemma StreamIsDelivered<T(!new)>(z: Zlib, packets: Packets<T>, start: Reader, ps: seq<T>, fs: seq<Bytes>,
                                   events: seq<Event>)
    requires Agreed(z, packets, start, ps, fs) && Fresh(start)
    requires Arrived(events) == Enciphered(start.cryptor, Flat(fs))
    ensures InPlay(z, packets, start, ps, fs, events + Asks(|ps|), |ps|)
    ensures Arrived(events + Asks(|ps|)) == Arrived(events)
  {
    var k := EveryPlayMakesProgress(z, packets, start, ps, fs, events);
    AsksDrain(z, packets, start, ps, fs, events, k, |ps|, events + Asks(|ps|));
    AsksBringNothing(events, |ps|);
  }

  lemma AllDelivered<T(!new)>(start: Reader, ps: seq<T>, fs: seq<Bytes>, s: Session<T>)
    requires Progress(start, fs, ps, s, |Flat(fs)|, |ps|)
    ensures s.delivered == ps && !s.failed && s.reader.received == []
  {
    assert fs[..|ps|] == fs && ps[..|ps|] == ps && Flat(fs)[..|Flat(fs)|] == Flat(fs);
  }

  /** Main result on the codec: for every sequence of packets, every compression threshold, every
    * cipher state that the two sides share, and every way in which the bytes are cut up on arrival
    * and asked for on the way, nothing fails and the reader delivers exactly those packets, in
    * order, no later than after as many further questions as there are packets, and then holds
    * nothing more.
    */
  lemma StreamRoundTrip<T(!new)>(z: Zlib, packets: Packets<T>, w: Writer, ps: seq<T>, events: seq<Event>)
    requires z.Inverse() && packets.Inverse() && Sendable(z, packets, w.compression, ps)
    requires Arrived(events) == SendAll(z, packets, w, ps)
    ensures var start := Session(Reader(w.cryptor, w.compression, [], []), [], false);
      && Play(z, packets, start, events + Asks(|ps|)).delivered == ps
      && !Play(z, packets, start, events + Asks(|ps|)).failed
      && Play(z, packets, start, events + Asks(|ps|)).reader.received == []
      && Play(z, packets, start, events).delivered <= ps
      && !Play(z, packets, start, events).failed
  {
    var start, fs := Reader(w.cryptor, w.compression, [], []), Frames(z, packets, w.compression, ps);
    SendAllIsStream(z, packets, w, ps);
    var j := EveryPlayMakesProgress(z, packets, start, ps, fs, events);
    StreamIsDelivered(z, packets, start, ps, fs, events);
    AllDelivered(start, ps, fs, Play(z, packets, Session(start, [], false), events + Asks(|ps|)));
  }

  /** And before the end of the stream has arrived: a question that finds no packet leaves the
    * reader as it was, and there is none to find only if the next frame is still incomplete.
    */
  lemma NothingHeldBack<T(!new)>(z: Zlib, packets: Packets<T>, start: Reader, ps: seq<T>, fs: seq<Bytes>,
                                 events: seq<Event>)
    returns (k: nat)
    requires Agreed(z, packets, start, ps, fs) && Fresh(start)
    requires Arrived(events) <= Enciphered(start.cryptor, Flat(fs))
    ensures var s := Play(z, packets, Session(start, [], false), events);
      k <= |ps| && s.delivered == ps[..k]
      && (Poll(z, packets, s.reader) == (Waiting, s.reader) <==> !NextIsThere(fs, |Arrived(events)|, k))
  {
    k := EveryPlayMakesProgress(z, packets, start, ps, fs, events);
    AskMakesProgress(z, packets, start, ps, fs, Play(z, packets, Session(start, [], false), events),
                     |Arrived(events)|, k);
  }
}
