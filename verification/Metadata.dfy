/** Entity metadata on the wire: entries of many types, each with its index, closed by 0xFF. */
module Metadata {
  import opened Options
  import opened VarInts

  datatype Parsed<+T> = Ok(value: T, rest: Bytes) | Fail

  datatype BlockPosition = BlockPosition(x: int, y: int, z: int)

  /** The entries that are modelled. Floating-point numbers are the 32 bits that they are made of, and
    * strings are the bytes of their encoding.
    */
  datatype Entry =
    | SmallInt(x: int) | Int(x: int) | Float(bits: nat) | Str(text: Bytes) | Chat(text: Bytes)
    | OptChat(chat: Option<Bytes>) | Boolean(b: bool) | Rotation(pitch: nat, yaw: nat, roll: nat)
    | Position(p: BlockPosition) | OptPosition(position: Option<BlockPosition>) | Direction(d: nat)
    | OptUuid(uuid: Option<Bytes>) | OptBlockId(id: Option<int>) | VillagerData(kind: int, profession: int, level: int)
    | OptVarInt(n: Option<int>) | Pose(x: int)

  // ----- big-endian numbers -----

  function Pow256(k: nat): (r: nat)
    ensures r > 0
  {
    if k == 0 then 1 else 256 * Pow256(k - 1)
  }

  function BigEndian(n: nat, k: nat): (r: Bytes)
    ensures |r| == k
  {
    if k == 0 then [] else BigEndian(n / 256, k - 1) + [n % 256]
  }

  function FromBigEndian(s: Bytes): nat {
    if s == [] then 0 else FromBigEndian(s[..|s| - 1]) * 256 + s[|s| - 1]
  }

  lemma {:induction false} BigEndianRoundTrip(n: nat, k: nat)
    requires n < Pow256(k)
    ensures FromBigEndian(BigEndian(n, k)) == n
  {
    if k > 0 {
      BigEndianRoundTrip(n / 256, k - 1);
      assert BigEndian(n, k)[..k - 1] == BigEndian(n / 256, k - 1);
    }
  }

  // ----- the types of the payloads -----

  function WriteVarInt(x: int): Bytes { Encode(ToUnsigned(VAR_INT, x)) }

  function ReadVarInt(s: Bytes): Parsed<int> {
    match Decode(VAR_INT, s)
    case Value(x, used) => Ok(ToSigned(VAR_INT, x), s[used..])
    case _ => Fail
  }

  lemma VarIntRoundTrip(x: int, tail: Bytes)
    requires InRange(VAR_INT, x)
    ensures ReadVarInt(WriteVarInt(x) + tail) == Ok(x, tail)
  {
    SignedRoundTrip(VAR_INT, x, tail);
  }

  function ReadBytes(s: Bytes, k: nat): Parsed<Bytes> {
    if |s| < k then Fail else Ok(s[..k], s[k..])
  }

  function ReadNumber(s: Bytes, k: nat): Parsed<nat> {
    match ReadBytes(s, k)
    case Ok(b, rest) => Ok(FromBigEndian(b), rest)
    case Fail => Fail
  }

  lemma NumberRoundTrip(n: nat, k: nat, tail: Bytes)
    requires n < Pow256(k)
    ensures ReadNumber(BigEndian(n, k) + tail, k) == Ok(n, tail)
  {
    BigEndianRoundTrip(n, k);
    assert (BigEndian(n, k) + tail)[..k] == BigEndian(n, k) && (BigEndian(n, k) + tail)[k..] == tail;
  }

  function WriteBool(b: bool): Bytes { if b then [1] else [0] }

  function ReadBool(s: Bytes): Parsed<bool> {
    if s == [] then Fail else if s[0] == 0 then Ok(false, s[1..]) else if s[0] == 1 then Ok(true, s[1..]) else Fail
  }

  const MAX_STRING := 0x7FFF

  /** The length is written as a signed number of 32 bits, whatever it is. */
  function WriteString(s: Bytes): Bytes { WriteVarInt(Truncated(|s|)) + s }

  function Truncated(n: nat): int { ToSigned(VAR_INT, n % VAR_INT.values) }

  /** Whether bytes are valid text is a parameter. */
  function ReadString(utf8: Bytes -> bool, s: Bytes): Parsed<Bytes> {
    match ReadVarInt(s)
    case Ok(length, rest) =>
      if length < 0 || length > MAX_STRING then Fail
      else if |rest| < length then Fail
      else if utf8(rest[..length]) then Ok(rest[..length], rest[length..])
      else Fail
    case Fail => Fail
  }

  /** A string can be read back if and only if its length is at most 32767. */
  lemma StringRoundTripIff(utf8: Bytes -> bool, s: Bytes, tail: Bytes)
    requires utf8(s)
    ensures ReadString(utf8, WriteString(s) + tail) == Ok(s, tail) <==> |s| <= 32767
  {
    var length := Truncated(|s|);
    TruncatedIs(|s|);
    VarIntRoundTrip(length, s + tail);
    assert WriteString(s) + tail == WriteVarInt(length) + (s + tail);
    if |s| <= MAX_STRING {
      assert (s + tail)[..|s|] == s && (s + tail)[|s|..] == tail;
    }
  }

  lemma TruncatedIs(n: nat)
    ensures InRange(VAR_INT, Truncated(n)) && (n < 0x8000_0000 ==> Truncated(n) == n)
  {
  }

  predicate ValidPosition(p: BlockPosition) {
    -0x200_0000 <= p.x < 0x200_0000 && -0x800 <= p.y < 0x800 && -0x200_0000 <= p.z < 0x200_0000
  }

  /** Three fields of a number of 64 bits: 26 bits each for x and z, and 12 for y. */
  function PackPosition(p: BlockPosition): nat {
    (p.x % 0x400_0000) * 0x40_0000_0000 + (p.z % 0x400_0000) * 0x1000 + p.y % 0x1000
  }

  /** The fields; the upper two are sign-extended. */
  function UnpackPosition(n: nat): BlockPosition {
    BlockPosition(Extended(n / 0x40_0000_0000), n % 0x1000, Extended(n / 0x1000 % 0x400_0000))
  }

  function Extended(n: nat): int { if n < 0x200_0000 then n else n - 0x400_0000 }

  function WritePosition(p: BlockPosition): Bytes { BigEndian(PackPosition(p), 8) }

  function ReadPosition(s: Bytes): Parsed<BlockPosition> {
    match ReadNumber(s, 8)
    case Ok(n, rest) => if ValidPosition(UnpackPosition(n)) then Ok(UnpackPosition(n), rest) else Fail
    case Fail => Fail
  }

  lemma Fields(n: nat, x: nat, y: nat, z: nat)
    requires x < 0x400_0000 && y < 0x1000 && z < 0x400_0000 && n == x * 0x40_0000_0000 + z * 0x1000 + y
    ensures n / 0x40_0000_0000 == x && n / 0x1000 % 0x400_0000 == z && n % 0x1000 == y
    ensures n < 0x1_0000_0000_0000_0000
  {
    assert n / 0x1000 == x * 0x400_0000 + z;
  }

  lemma SignExtends(v: int)
    requires -0x200_0000 <= v < 0x200_0000
    ensures 0 <= v % 0x400_0000 < 0x400_0000 && Extended(v % 0x400_0000) == v
  {
  }

  lemma Height(y: int)
    requires -0x800 <= y < 0x800
    ensures y % 0x1000 == if y >= 0 then y else y + 0x1000
  {
  }

  lemma PackedFields(p: BlockPosition)
    requires ValidPosition(p)
    ensures PackPosition(p) < 0x1_0000_0000_0000_0000
    ensures UnpackPosition(PackPosition(p)) == if p.y >= 0 then p else p.(y := p.y + 0x1000)
  {
    Height(p.y);
    SignExtends(p.x);
    SignExtends(p.z);
    Fields(PackPosition(p), p.x % 0x400_0000, p.y % 0x1000, p.z % 0x400_0000);
  }

  lemma EightBytes()
    ensures Pow256(4) == 0x1_0000_0000 && Pow256(8) == 0x1_0000_0000_0000_0000
  {
    assert Pow256(2) == 0x1_0000;
    assert Pow256(4) == 0x1_0000_0000;
  }

  lemma PackedRoundTrip(n: nat, tail: Bytes)
    requires n < 0x1_0000_0000_0000_0000
    ensures ReadPosition(BigEndian(n, 8) + tail)
         == if ValidPosition(UnpackPosition(n)) then Ok(UnpackPosition(n), tail) else Fail
  {
    EightBytes();
    NumberRoundTrip(n, 8, tail);
  }

  /** A position on the wire: from the most significant bit on, 26 bits of x, 26 of z and 12 of y. */
  lemma PositionBits(p: BlockPosition, n: nat)
    requires ValidPosition(p) && n == PackPosition(p)
    ensures n / 0x40_0000_0000 == (if p.x >= 0 then p.x else p.x + 0x400_0000)
    ensures n / 0x1000 % 0x400_0000 == (if p.z >= 0 then p.z else p.z + 0x400_0000)
    ensures n % 0x1000 == if p.y >= 0 then p.y else p.y + 0x1000
  {
    Height(p.y);
    SignExtends(p.x);
    SignExtends(p.z);
    Fields(n, p.x % 0x400_0000, p.y % 0x1000, p.z % 0x400_0000);
  }

  /** The height is not sign-extended: a position can be read back if and only if it is not below 0. */
  lemma PositionRoundTripIff(p: BlockPosition, tail: Bytes)
    requires ValidPosition(p)
    ensures ReadPosition(WritePosition(p) + tail) == Ok(p, tail) <==> p.y >= 0
  {
    PackedFields(p);
    PackedRoundTrip(PackPosition(p), tail);
  }

  // ----- entries -----

  /** What the types of the original guarantee. */
  ghost predicate WellTyped(utf8: Bytes -> bool, e: Entry) {
    match e
    case SmallInt(x) => -0x80 <= x < 0x80
    case Int(x) => InRange(VAR_INT, x)
    case Float(bits) => bits < 0x1_0000_0000
    case Str(text) => utf8(text)
    case Chat(text) => utf8(text)
    case OptChat(chat) => chat.Some? ==> utf8(chat.value)
    case Boolean(_) => true
    case Rotation(a, b, c) => a < 0x1_0000_0000 && b < 0x1_0000_0000 && c < 0x1_0000_0000
    case Position(p) => ValidPosition(p)
    case OptPosition(p) => p.Some? ==> ValidPosition(p.value)
    case Direction(d) => d < 4
    case OptUuid(uuid) => uuid.Some? ==> |uuid.value| == 16
    case OptBlockId(id) => id.Some? ==> InRange(VAR_INT, id.value)
    case VillagerData(k, p, l) => InRange(VAR_INT, k) && InRange(VAR_INT, p) && InRange(VAR_INT, l)
    case OptVarInt(n) => n.Some? ==> InRange(VAR_INT, n.value)
    case Pose(x) => InRange(VAR_INT, x)
  }

  function Id(e: Entry): nat {
    match e
    case SmallInt(_) => 0 case Int(_) => 1 case Float(_) => 2 case Str(_) => 3 case Chat(_) => 4 case OptChat(_) => 5
    case Boolean(_) => 7 case Rotation(_, _, _) => 8 case Position(_) => 9 case OptPosition(_) => 10
    case Direction(_) => 11 case OptUuid(_) => 12 case OptBlockId(_) => 13 case VillagerData(_, _, _) => 16
    case OptVarInt(_) => 17 case Pose(_) => 18
  }

  function WritePayload(e: Entry): Bytes {
    match e
    case SmallInt(x) => [x % 0x100]
    case Int(x) => WriteVarInt(x)
    case Float(bits) => BigEndian(bits, 4)
    case Str(text) => WriteString(text)
    case Chat(text) => WriteString(text)
    case OptChat(chat) => (match chat case None => [0] case Some(text) => [1] + WriteString(text))
    case Boolean(b) => WriteBool(b)
    case Rotation(a, b, c) => BigEndian(a, 4) + BigEndian(b, 4) + BigEndian(c, 4)
    case Position(p) => WritePosition(p)
    case OptPosition(o) => (match o case None => [0] case Some(p) => [1] + WritePosition(p))
    case Direction(d) => WriteVarInt(d)
    case OptUuid(uuid) => (match uuid case None => [0] case Some(u) => [1] + u)
    case OptBlockId(id) => WriteVarInt(if id.Some? then id.value else 0)
    case VillagerData(k, p, l) => WriteVarInt(k) + WriteVarInt(p) + WriteVarInt(l)
    case OptVarInt(n) => (match n case None => [0] case Some(x) => [1] + BigEndian(x % 0x1_0000_0000, 4))
    case Pose(x) => WriteVarInt(x)
  }

  function WriteEntry(e: Entry): Bytes { WriteVarInt(Id(e)) + WritePayload(e) }

  /** Where the bytes of an entry come from: the number of its type first, and numbers with their most
    * significant byte first.
    */
  lemma EntryBytes(x: Byte, bits: nat, utf8: Bytes -> bool)
    requires bits < 0x1_0000_0000
    ensures WriteEntry(SmallInt(if x < 0x80 then x else x - 0x100)) == [0, x]
    ensures WriteEntry(Float(bits))
         == [2, bits / 0x100_0000, bits / 0x1_0000 % 0x100, bits / 0x100 % 0x100, bits % 0x100]
    ensures WriteEntry(Boolean(true)) == [7, 1] && WriteEntry(Boolean(false)) == [7, 0]
  {
    SmallIds();
    FourBytes(bits);
  }

  /** Entries of three numbers have them in the order of their names. */
  lemma RotationBytes(a: Byte, b: Byte, c: Byte)
    ensures WriteEntry(Rotation(a, b, c)) == [8] + ([0, 0, 0, a] + [0, 0, 0, b] + [0, 0, 0, c])
  {
    SmallIds();
    OneOfFour(a);
    OneOfFour(b);
    OneOfFour(c);
  }

  lemma OneOfFour(n: Byte)
    ensures BigEndian(n, 4) == [0, 0, 0, n]
  {
    FourBytes(n);
  }

  lemma VillagerBytes(a: Byte, b: Byte, c: Byte)
    requires a < 0x80 && b < 0x80 && c < 0x80
    ensures WriteEntry(VillagerData(a, b, c)) == [16, a, b, c]
  {
    SmallIds();
  }

  lemma SmallIds()
    ensures forall n: nat :: n < 0x80 ==> WriteVarInt(n) == [n]
  {
  }

  lemma FourBytes(n: nat)
    requires n < 0x1_0000_0000
    ensures BigEndian(n, 4) == [n / 0x100_0000, n / 0x1_0000 % 0x100, n / 0x100 % 0x100, n % 0x100]
  {
    assert n / 0x100 / 0x100 == n / 0x1_0000 && n / 0x1_0000 / 0x100 == n / 0x100_0000;
    assert BigEndian(n / 0x100_0000, 1) == [n / 0x100_0000];
    assert BigEndian(n / 0x1_0000, 2) == [n / 0x100_0000, n / 0x1_0000 % 0x100];
  }

  /** The types' numbers. */
  lemma TypeNumbers(e: Entry)
    ensures WriteEntry(e) == [match e
                              case SmallInt(_) => 0 case Int(_) => 1 case Float(_) => 2 case Str(_) => 3
                              case Chat(_) => 4 case OptChat(_) => 5 case Boolean(_) => 7 case Rotation(_, _, _) => 8
                              case Position(_) => 9 case OptPosition(_) => 10 case Direction(_) => 11
                              case OptUuid(_) => 12 case OptBlockId(_) => 13 case VillagerData(_, _, _) => 16
                              case OptVarInt(_) => 17 case Pose(_) => 18] + WritePayload(e)
  {
    SmallIds();
  }

  // ----- reading entries -----

  function Map<T, U>(p: Parsed<T>, f: T -> U): Parsed<U> {
    match p case Ok(x, rest) => Ok(f(x), rest) case Fail => Fail
  }

  /** A value after a flag that tells whether it is there. */
  function ReadOpt<T>(s: Bytes, read: Bytes -> Parsed<T>): Parsed<Option<T>> {
    match ReadBool(s)
    case Fail => Fail
    case Ok(b, rest) =>
      if !b then Ok(None, rest)
      else match read(rest) case Ok(x, rest') => Ok(Some(x), rest') case Fail => Fail
  }

  function Read3<T>(s: Bytes, read: Bytes -> Parsed<T>): Parsed<(T, T, T)> {
    match read(s)
    case Fail => Fail
    case Ok(a, s1) =>
      match read(s1)
      case Fail => Fail
      case Ok(b, s2) => match read(s2) case Ok(c, s3) => Ok((a, b, c), s3) case Fail => Fail
  }

  function ReadSmallInt(s: Bytes): Parsed<Entry> {
    if s == [] then Fail
    else
      var b: int := s[0];
      Ok(SmallInt(if b < 0x80 then b else b - 0x100), s[1..])
  }

  function ReadBits(s: Bytes): Parsed<nat> { ReadNumber(s, 4) }

  function ReadUuid(s: Bytes): Parsed<Bytes> { ReadBytes(s, 16) }

  function ReadPayload(utf8: Bytes -> bool, id: int, s: Bytes): Parsed<Entry> {
    if id == 0 then ReadSmallInt(s)
    else if id == 1 then Map(ReadVarInt(s), x => Int(x))
    else if id == 2 then Map(ReadBits(s), x => Float(x))
    else if id == 3 then Map(ReadString(utf8, s), x => Str(x))
    else if id == 4 then Map(ReadString(utf8, s), x => Chat(x))
    else if id == 5 then Map(ReadOpt(s, r => ReadString(utf8, r)), x => OptChat(x))
    else if id == 7 then Map(ReadBool(s), x => Boolean(x))
    else if id == 8 then Map(Read3(s, ReadBits), (x: (nat, nat, nat)) => Rotation(x.0, x.1, x.2))
    else if id == 9 then Map(ReadPosition(s), x => Position(x))
    else if id == 10 then Map(ReadOpt(s, ReadPosition), x => OptPosition(x))
    else if id == 11 then
      (match ReadVarInt(s)
       case Ok(d, rest) => if 0 <= d < 4 then Ok(Direction(d), rest) else Fail
       case Fail => Fail)
    else if id == 12 then Map(ReadOpt(s, ReadUuid), x => OptUuid(x))
    else if id == 13 then Map(ReadVarInt(s), x => OptBlockId(if x == 0 then None else Some(x)))
    else if id == 16 then Map(Read3(s, ReadVarInt), (x: (int, int, int)) => VillagerData(x.0, x.1, x.2))
    else if id == 17 then Map(ReadVarInt(s), x => OptVarInt(if x == 0 then None else Some(x - 1)))
    else if id == 18 then Map(ReadVarInt(s), x => Pose(x))
    else Fail
  }

  function ReadEntry(utf8: Bytes -> bool, s: Bytes): Parsed<Entry> {
    match ReadVarInt(s)
    case Ok(id, rest) => ReadPayload(utf8, id, rest)
    case Fail => Fail
  }

  /** The entries that can be read back: not those with strings that are too long, positions below 0,
    * the block id 0, or a number in an optional number, which is written in one format and read in
    * another.
    */
  predicate Faithful(e: Entry) {
    match e
    case Str(text) => |text| <= 32767
    case Chat(text) => |text| <= 32767
    case OptChat(Some(text)) => |text| <= 32767
    case Position(p) => p.y >= 0
    case OptPosition(Some(p)) => p.y >= 0
    case OptBlockId(id) => id != Some(0)
    case OptVarInt(n) => n.None?
    case _ => true
  }

  lemma BitsRoundTrip(n: nat, tail: Bytes)
    requires n < 0x1_0000_0000
    ensures ReadBits(BigEndian(n, 4) + tail) == Ok(n, tail)
  {
    EightBytes();
    NumberRoundTrip(n, 4, tail);
  }

  lemma OptRoundTrip<T>(payload: Bytes, tail: Bytes, read: Bytes -> Parsed<T>)
    ensures ReadOpt([1] + payload + tail, read)
         == match read(payload + tail) case Ok(x, rest) => Ok(Some(x), rest) case Fail => Fail
    ensures ReadOpt([0] + tail, read) == Ok(None, tail)
  {
    assert ([1] + payload + tail)[1..] == payload + tail;
    assert ([0] + tail)[1..] == tail;
  }

  lemma NumbersRoundTrip(e: Entry, utf8: Bytes -> bool, tail: Bytes)
    requires WellTyped(utf8, e) && (e.SmallInt? || e.Int? || e.Float? || e.Boolean? || e.Direction? || e.Pose?)
    ensures ReadPayload(utf8, Id(e), WritePayload(e) + tail) == Ok(e, tail)
  {
    match e
    case SmallInt(x) => assert ([x % 0x100] + tail)[1..] == tail;
    case Int(x) => VarIntRoundTrip(x, tail);
    case Float(bits) => BitsRoundTrip(bits, tail);
    case Boolean(b) => assert (WriteBool(b) + tail)[1..] == tail;
    case Direction(d) => VarIntRoundTrip(d, tail);
    case Pose(x) => VarIntRoundTrip(x, tail);
  }

  lemma TripleRoundTrip<T>(a: Bytes, b: Bytes, c: Bytes, x: (T, T, T), tail: Bytes, read: Bytes -> Parsed<T>)
    requires read(a + (b + (c + tail))) == Ok(x.0, b + (c + tail))
    requires read(b + (c + tail)) == Ok(x.1, c + tail) && read(c + tail) == Ok(x.2, tail)
    ensures Read3(a + b + c + tail, read) == Ok(x, tail)
  {
    assert a + b + c + tail == a + (b + (c + tail));
  }

  lemma RotationRoundTrip(a: nat, b: nat, c: nat, tail: Bytes)
    requires a < 0x1_0000_0000 && b < 0x1_0000_0000 && c < 0x1_0000_0000
    ensures Read3(BigEndian(a, 4) + BigEndian(b, 4) + BigEndian(c, 4) + tail, ReadBits) == Ok((a, b, c), tail)
  {
    BitsRoundTrip(a, BigEndian(b, 4) + (BigEndian(c, 4) + tail));
    BitsRoundTrip(b, BigEndian(c, 4) + tail);
    BitsRoundTrip(c, tail);
    TripleRoundTrip(BigEndian(a, 4), BigEndian(b, 4), BigEndian(c, 4), (a, b, c), tail, ReadBits);
  }

  lemma VillagerRoundTrip(k: int, p: int, l: int, tail: Bytes)
    requires InRange(VAR_INT, k) && InRange(VAR_INT, p) && InRange(VAR_INT, l)
    ensures Read3(WriteVarInt(k) + WriteVarInt(p) + WriteVarInt(l) + tail, ReadVarInt) == Ok((k, p, l), tail)
  {
    VarIntRoundTrip(k, WriteVarInt(p) + (WriteVarInt(l) + tail));
    VarIntRoundTrip(p, WriteVarInt(l) + tail);
    VarIntRoundTrip(l, tail);
    TripleRoundTrip(WriteVarInt(k), WriteVarInt(p), WriteVarInt(l), (k, p, l), tail, ReadVarInt);
  }

  lemma TriplesRoundTrip(e: Entry, utf8: Bytes -> bool, tail: Bytes)
    requires WellTyped(utf8, e) && (e.Rotation? || e.VillagerData?)
    ensures ReadPayload(utf8, Id(e), WritePayload(e) + tail) == Ok(e, tail)
  {
    match e
    case Rotation(a, b, c) => RotationRoundTrip(a, b, c, tail);
    case VillagerData(k, p, l) => VillagerRoundTrip(k, p, l, tail);
  }

  lemma TextsRoundTripIff(e: Entry, utf8: Bytes -> bool, tail: Bytes)
    requires WellTyped(utf8, e) && (e.Str? || e.Chat? || e.OptChat?)
    ensures ReadPayload(utf8, Id(e), WritePayload(e) + tail) == Ok(e, tail) <==> Faithful(e)
  {
    match e
    case Str(text) => StringRoundTripIff(utf8, text, tail);
    case Chat(text) => StringRoundTripIff(utf8, text, tail);
    case OptChat(None) => OptRoundTrip([], tail, r => ReadString(utf8, r));
    case OptChat(Some(text)) =>
      StringRoundTripIff(utf8, text, tail);
      OptRoundTrip(WriteString(text), tail, r => ReadString(utf8, r));
  }

  lemma PositionsRoundTripIff(e: Entry, utf8: Bytes -> bool, tail: Bytes)
    requires WellTyped(utf8, e) && (e.Position? || e.OptPosition?)
    ensures ReadPayload(utf8, Id(e), WritePayload(e) + tail) == Ok(e, tail) <==> Faithful(e)
  {
    match e
    case Position(p) => PositionRoundTripIff(p, tail);
    case OptPosition(None) => OptRoundTrip([], tail, ReadPosition);
    case OptPosition(Some(p)) =>
      PositionRoundTripIff(p, tail);
      OptRoundTrip(WritePosition(p), tail, ReadPosition);
  }

  lemma UuidsRoundTrip(e: Entry, utf8: Bytes -> bool, tail: Bytes)
    requires WellTyped(utf8, e) && e.OptUuid?
    ensures ReadPayload(utf8, Id(e), WritePayload(e) + tail) == Ok(e, tail)
  {
    match e.uuid
    case None => OptRoundTrip([], tail, ReadUuid);
    case Some(u) =>
      OptRoundTrip(u, tail, ReadUuid);
      assert (u + tail)[..16] == u && (u + tail)[16..] == tail;
  }

  /** An optional number is written as a flag and four bytes, and read as a number of variable length:
    * the flag is taken for the number 1, and the four bytes are left over.
    */
  lemma OptionalsRoundTripIff(e: Entry, utf8: Bytes -> bool, tail: Bytes)
    requires WellTyped(utf8, e) && (e.OptBlockId? || e.OptVarInt?)
    ensures ReadPayload(utf8, Id(e), WritePayload(e) + tail) == Ok(e, tail) <==> Faithful(e)
  {
    match e
    case OptBlockId(id) => VarIntRoundTrip(if id.Some? then id.value else 0, tail);
    case OptVarInt(None) =>
      VarIntRoundTrip(0, tail);
      assert WriteVarInt(0) == [0];
    case OptVarInt(Some(x)) =>
      var left := BigEndian(x % 0x1_0000_0000, 4) + tail;
      VarIntRoundTrip(1, left);
      assert WriteVarInt(1) == [1];
      assert WritePayload(e) + tail == [1] + left;
      assert |left| == 4 + |tail|;
  }

  /** What the reader makes of numbers that others have written: directions are below 4, the block id 0
    * is none, and an optional number is one more than its value or 0.
    */
  lemma NumbersAreRead(utf8: Bytes -> bool, x: int, tail: Bytes)
    requires InRange(VAR_INT, x)
    ensures ReadPayload(utf8, 11, WriteVarInt(x) + tail) == if 0 <= x < 4 then Ok(Direction(x), tail) else Fail
    ensures ReadPayload(utf8, 13, WriteVarInt(x) + tail) == Ok(OptBlockId(if x == 0 then None else Some(x)), tail)
    ensures ReadPayload(utf8, 17, WriteVarInt(x) + tail) == Ok(OptVarInt(if x == 0 then None else Some(x - 1)), tail)
  {
    VarIntRoundTrip(x, tail);
  }

  /** Main result on entries: whatever follows, an entry can be read back if and only if it is
    * faithful.
    */
  lemma EntryRoundTripIff(e: Entry, utf8: Bytes -> bool, tail: Bytes)
    requires WellTyped(utf8, e)
    ensures ReadEntry(utf8, WriteEntry(e) + tail) == Ok(e, tail) <==> Faithful(e)
  {
    VarIntRoundTrip(Id(e), WritePayload(e) + tail);
    assert WriteEntry(e) + tail == WriteVarInt(Id(e)) + (WritePayload(e) + tail);
    match e
    case Str(_) => TextsRoundTripIff(e, utf8, tail);
    case Chat(_) => TextsRoundTripIff(e, utf8, tail);
    case OptChat(_) => TextsRoundTripIff(e, utf8, tail);
    case Position(_) => PositionsRoundTripIff(e, utf8, tail);
    case OptPosition(_) => PositionsRoundTripIff(e, utf8, tail);
    case OptUuid(_) => UuidsRoundTrip(e, utf8, tail);
    case OptBlockId(_) => OptionalsRoundTripIff(e, utf8, tail);
    case OptVarInt(_) => OptionalsRoundTripIff(e, utf8, tail);
    case Rotation(_, _, _) => TriplesRoundTrip(e, utf8, tail);
    case VillagerData(_, _, _) => TriplesRoundTrip(e, utf8, tail);
    case _ => NumbersRoundTrip(e, utf8, tail);
  }

  // ----- reading never goes back -----

  ghost predicate Forward<T>(read: Bytes -> Parsed<T>) {
    forall s :: read(s).Ok? ==> |read(s).rest| <= |s|
  }

  lemma OptIsForward<T>(s: Bytes, read: Bytes -> Parsed<T>)
    requires Forward(read)
    ensures ReadOpt(s, read).Ok? ==> |ReadOpt(s, read).rest| <= |s|
  {
  }

  lemma TripleIsForward<T>(s: Bytes, read: Bytes -> Parsed<T>)
    requires Forward(read)
    ensures Read3(s, read).Ok? ==> |Read3(s, read).rest| <= |s|
  {
  }

  lemma ReadersAreForward(utf8: Bytes -> bool)
    ensures Forward(ReadVarInt) && Forward(ReadBits) && Forward(ReadPosition) && Forward(ReadUuid)
    ensures Forward((r: Bytes) => ReadString(utf8, r))
  {
  }

  lemma OptionsAreForward(utf8: Bytes -> bool, id: int, s: Bytes)
    requires id == 5 || id == 8 || id == 10 || id == 12 || id == 16
    ensures ReadPayload(utf8, id, s).Ok? ==> |ReadPayload(utf8, id, s).rest| <= |s|
  {
    ReadersAreForward(utf8);
    if id == 5 {
      OptIsForward(s, r => ReadString(utf8, r));
    } else if id == 8 {
      TripleIsForward(s, ReadBits);
    } else if id == 10 {
      OptIsForward(s, ReadPosition);
    } else if id == 12 {
      OptIsForward(s, ReadUuid);
    } else {
      TripleIsForward(s, ReadVarInt);
    }
  }

  lemma PayloadIsForward(utf8: Bytes -> bool, id: int, s: Bytes)
    ensures ReadPayload(utf8, id, s).Ok? ==> |ReadPayload(utf8, id, s).rest| <= |s|
  {
    if id == 5 || id == 8 || id == 10 || id == 12 || id == 16 {
      OptionsAreForward(utf8, id, s);
    } else if id == 9 {
      assert ReadPosition(s).Ok? ==> |ReadPosition(s).rest| <= |s|;
    }
  }

  lemma EntryIsForward(utf8: Bytes -> bool, s: Bytes)
    ensures ReadEntry(utf8, s).Ok? ==> |ReadEntry(utf8, s).rest| <= |s|
  {
    if ReadVarInt(s).Ok? { PayloadIsForward(utf8, ReadVarInt(s).value, ReadVarInt(s).rest); }
  }

  // ----- all entries -----

  type Entries = map<Byte, Entry>

  /** The entries from an index on, in ascending order, and the end. */
  function WriteFrom(m: Entries, i: nat): Bytes
    decreases 256 - i
  {
    if i >= 256 then [0xFF]
    else if i in m then [i] + WriteEntry(m[i]) + WriteFrom(m, i + 1)
    else WriteFrom(m, i + 1)
  }

  method Write(m: Entries, buffer: Bytes) returns (out: Bytes)
    ensures out == buffer + WriteFrom(m, 0)
  {
    out := buffer;
    for i := 0 to 256
      invariant out + WriteFrom(m, i) == buffer + WriteFrom(m, 0)
    {
      if i in m {
        assert out + ([i] + WriteEntry(m[i]) + WriteFrom(m, i + 1))
            == (out + [i] + WriteEntry(m[i])) + WriteFrom(m, i + 1);
        out := out + [i] + WriteEntry(m[i]);
      }
    }
    out := out + [0xFF];
  }

  function ReadFrom(utf8: Bytes -> bool, s: Bytes, sofar: Entries): Parsed<Entries>
    decreases |s|
  {
    if s == [] then Fail
    else if s[0] == 0xFF then Ok(sofar, s[1..])
    else
      EntryIsForward(utf8, s[1..]);
      match ReadEntry(utf8, s[1..])
      case Ok(e, rest) => ReadFrom(utf8, rest, sofar[s[0] := e])
      case Fail => Fail
  }

  method Read(utf8: Bytes -> bool, s: Bytes) returns (r: Parsed<Entries>)
    ensures r == ReadFrom(utf8, s, map[])
  {
    var rest, values: Entries := s, map[];
    while true
      invariant ReadFrom(utf8, rest, values) == ReadFrom(utf8, s, map[])
      decreases |rest|
    {
      if rest == [] {
        return Fail;
      }
      var index := rest[0];
      rest := rest[1..];
      if index == 0xFF {
        return Ok(values, rest);
      }
      EntryIsForward(utf8, rest);
      match ReadEntry(utf8, rest) {
        case Fail => return Fail;
        case Ok(e, after) => values, rest := values[index := e], after;
      }
    }
  }

  /** The entries below an index. */
  function Below(m: Entries, i: nat): Entries { map k: Byte | k in m && k < i :: m[k] }

  /** At the last index: either the end, or an entry whose index is taken for the end. */
  lemma ReadsEnd(utf8: Bytes -> bool, m: Entries, tail: Bytes)
    ensures ReadFrom(utf8, WriteFrom(m, 255) + tail, Below(m, 255)) == Ok(m, tail) <==> 255 !in m
  {
    var s := WriteFrom(m, 255) + tail;
    assert WriteFrom(m, 256) == [0xFF];
    assert s[0] == 0xFF;
    if 255 !in m {
      assert Below(m, 255) == m;
      assert s == [0xFF] + tail;
    } else {
      assert |s[1..]| > |tail|;
    }
  }

  lemma ReadsOne(utf8: Bytes -> bool, i: Byte, e: Entry, rest: Bytes, sofar: Entries)
    requires i < 255 && WellTyped(utf8, e) && Faithful(e)
    ensures ReadFrom(utf8, [i] + WriteEntry(e) + rest, sofar) == ReadFrom(utf8, rest, sofar[i := e])
  {
    assert ([i] + WriteEntry(e) + rest)[1..] == WriteEntry(e) + rest;
    EntryRoundTripIff(e, utf8, rest);
  }

  lemma {:induction false} ReadsFrom(utf8: Bytes -> bool, m: Entries, i: nat, tail: Bytes)
    requires i <= 255 && forall k :: k in m && k != 255 ==> WellTyped(utf8, m[k]) && Faithful(m[k])
    ensures ReadFrom(utf8, WriteFrom(m, i) + tail, Below(m, i)) == Ok(m, tail) <==> 255 !in m
    decreases 255 - i
  {
    if i == 255 {
      ReadsEnd(utf8, m, tail);
    } else {
      ReadsFrom(utf8, m, i + 1, tail);
      if i in m {
        var rest := WriteFrom(m, i + 1) + tail;
        assert WriteFrom(m, i) + tail == [i] + WriteEntry(m[i]) + rest;
        assert Below(m, i)[i := m[i]] == Below(m, i + 1);
        ReadsOne(utf8, i, m[i], rest, Below(m, i));
      } else {
        assert Below(m, i) == Below(m, i + 1);
      }
    }
  }

  /** Main result on metadata: a map of faithful entries is read back as it was written, with whatever
    * follows left unread, if and only if it does not use the index 0xFF.
    */
  lemma MetadataRoundTripIff(utf8: Bytes -> bool, m: Entries, tail: Bytes)
    requires forall k :: k in m && k != 255 ==> WellTyped(utf8, m[k]) && Faithful(m[k])
    ensures ReadFrom(utf8, WriteFrom(m, 0) + tail, map[]) == Ok(m, tail) <==> 255 !in m
  {
    assert Below(m, 0) == map[];
    ReadsFrom(utf8, m, 0, tail);
  }
}
