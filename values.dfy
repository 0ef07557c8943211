/** The typed values a WritablePacket appends and a ReadablePacket reads back:
    one constructor per Write overload, laid out as BitConverter lays them out. */
module Values {
  import opened Bytes

  type Bytes4 = s: seq<byte> | |s| == 4 witness [0, 0, 0, 0]
  type Bytes8 = s: seq<byte> | |s| == 8 witness [0, 0, 0, 0, 0, 0, 0, 0]

  /** The fixed-width types of the Write/Read overloads. */
  datatype Kind =
    | ByteKind | BoolKind | ShortKind | UShortKind | CharKind
    | IntKind | UIntKind | FloatKind | LongKind | ULongKind | DoubleKind

  /** A value of one of those types. A char is one UTF-16 code unit; a float
      or double is carried as its IEEE bits, which the library never inspects. */
  datatype Value =
    | ByteVal(b: byte)
    | BoolVal(flag: bool)
    | ShortVal(s: int16)
    | UShortVal(us: uint16)
    | CharVal(ch: uint16)
    | IntVal(i: int32)
    | UIntVal(ui: uint32)
    | FloatVal(floatBits: Bytes4)
    | LongVal(l: int64)
    | ULongVal(ul: uint64)
    | DoubleVal(doubleBits: Bytes8)

  /** sizeof(T) in C#. */
  function Width(k: Kind): nat {
    match k
    case ByteKind => 1
    case BoolKind => 1
    case ShortKind => 2
    case UShortKind => 2
    case CharKind => 2
    case IntKind => 4
    case UIntKind => 4
    case FloatKind => 4
    case LongKind => 8
    case ULongKind => 8
    case DoubleKind => 8
  }

  /** typeof(T).Name, which the read error message names. */
  function TypeName(k: Kind): string {
    match k
    case ByteKind => "Byte"
    case BoolKind => "Boolean"
    case ShortKind => "Int16"
    case UShortKind => "UInt16"
    case CharKind => "Char"
    case IntKind => "Int32"
    case UIntKind => "UInt32"
    case FloatKind => "Single"
    case LongKind => "Int64"
    case ULongKind => "UInt64"
    case DoubleKind => "Double"
  }

  function KindOf(v: Value): Kind {
    match v
    case ByteVal(_) => ByteKind
    case BoolVal(_) => BoolKind
    case ShortVal(_) => ShortKind
    case UShortVal(_) => UShortKind
    case CharVal(_) => CharKind
    case IntVal(_) => IntKind
    case UIntVal(_) => UIntKind
    case FloatVal(_) => FloatKind
    case LongVal(_) => LongKind
    case ULongVal(_) => ULongKind
    case DoubleVal(_) => DoubleKind
  }

  /** BitConverter.GetBytes for each overload (a bool is one byte, 1 or 0). */
  function Encode(v: Value): (r: seq<byte>)
    ensures |r| == Width(KindOf(v))
  {
    Pow256Values();
    match v
    case ByteVal(b) => [b]
    case BoolVal(f) => [if f then 1 else 0]
    case ShortVal(x) => LittleEndian(TwosComplement(x, 2), 2)
    case UShortVal(x) => LittleEndian(x, 2)
    case CharVal(x) => LittleEndian(x, 2)
    case IntVal(x) => LittleEndian(TwosComplement(x, 4), 4)
    case UIntVal(x) => LittleEndian(x, 4)
    case FloatVal(bits) => bits
    case LongVal(x) => LittleEndian(TwosComplement(x, 8), 8)
    case ULongVal(x) => LittleEndian(x, 8)
    case DoubleVal(bits) => bits
  }

  /** BitConverter.ToXxx over exactly Width(k) bytes (ToBoolean: any non-zero byte is true). */
  function Decode(k: Kind, bytes: seq<byte>): (v: Value)
    requires |bytes| == Width(k)
    ensures KindOf(v) == k
  {
    Pow256Values();
    match k
    case ByteKind => ByteVal(bytes[0])
    case BoolKind => BoolVal(bytes[0] != 0)
    case ShortKind => ShortVal(Signed(FromLittleEndian(bytes), 2))
    case UShortKind => UShortVal(FromLittleEndian(bytes))
    case CharKind => CharVal(FromLittleEndian(bytes))
    case IntKind => IntVal(Signed(FromLittleEndian(bytes), 4))
    case UIntKind => UIntVal(FromLittleEndian(bytes))
    case FloatKind => FloatVal(bytes)
    case LongKind => LongVal(Signed(FromLittleEndian(bytes), 8))
    case ULongKind => ULongVal(FromLittleEndian(bytes))
    case DoubleKind => DoubleVal(bytes)
  }

  /** Every overload's bytes read back as the value written. */
  lemma {:induction false} ValueRoundTrip(v: Value)
    ensures Decode(KindOf(v), Encode(v)) == v
  {
    Pow256Values();
    match v
    case ByteVal(_) =>
    case BoolVal(_) =>
    case ShortVal(x) =>
      LittleEndianRoundTrip(TwosComplement(x, 2), 2);
      SignedRoundTrip(x, 2);
    case UShortVal(x) => LittleEndianRoundTrip(x, 2);
    case CharVal(x) => LittleEndianRoundTrip(x, 2);
    case IntVal(x) =>
      LittleEndianRoundTrip(TwosComplement(x, 4), 4);
      SignedRoundTrip(x, 4);
    case UIntVal(x) => LittleEndianRoundTrip(x, 4);
    case FloatVal(_) =>
    case LongVal(x) =>
      LittleEndianRoundTrip(TwosComplement(x, 8), 8);
      SignedRoundTrip(x, 8);
    case ULongVal(x) => LittleEndianRoundTrip(x, 8);
    case DoubleVal(_) =>
  }

  /** Conversely, decoding bytes and writing the value gives the same bytes,
      for every type but bool: ToBoolean reads any non-zero byte as true,
      and GetBytes(true) is the single byte 1. */
  lemma {:induction false} DecodeEncode(k: Kind, bytes: seq<byte>)
    requires |bytes| == Width(k)
    ensures k != BoolKind ==> Encode(Decode(k, bytes)) == bytes
    ensures k == BoolKind ==> (Encode(Decode(k, bytes)) == bytes <==> bytes[0] <= 1)
  {
    Pow256Values();
    match k
    case ByteKind =>
    case BoolKind =>
    case ShortKind =>
      TwosComplementOfSigned(FromLittleEndian(bytes), 2);
      FromLittleEndianRoundTrip(bytes);
    case UShortKind => FromLittleEndianRoundTrip(bytes);
    case CharKind => FromLittleEndianRoundTrip(bytes);
    case IntKind =>
      TwosComplementOfSigned(FromLittleEndian(bytes), 4);
      FromLittleEndianRoundTrip(bytes);
    case UIntKind => FromLittleEndianRoundTrip(bytes);
    case FloatKind =>
    case LongKind =>
      TwosComplementOfSigned(FromLittleEndian(bytes), 8);
      FromLittleEndianRoundTrip(bytes);
    case ULongKind => FromLittleEndianRoundTrip(bytes);
    case DoubleKind =>
  }
}
