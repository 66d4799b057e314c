/** The optional sections of a type entry: GUID, copy mask, RPC methods, attributes and enum values. */
module TypeSections {
  import opened Outcomes
  import opened Bytes
  import opened Formats
  import opened TypeInfo

  /** Library functions: lossy text decoding, and the conversions from floats to integers. */
  datatype Foreign = Foreign(utf8: seq<byte> -> string, truncate32: seq<byte> -> int, truncate64: seq<byte> -> int)

  predicate Flag(flags: u32, bit: nat)
    requires bit > 0
  {
    (flags / bit) % 2 == 1
  }

  const FLAG_GUID := 0x80
  const FLAG_COPY_MASK := 0x200
  const FLAG_METHOD_INFOS := 0x800
  const FLAG_ATTRIBUTES := 0x1000
  const FLAG_ENUM_INFOS := 0x2000
  const METHOD_FLAG_ATTRIBUTES := 0x08
  const PARAMETER_FLAG_ATTRIBUTES := 0x40

  // ---- Texts -------------------------------------------------------------------------------

  /**
    * A text and its terminator, read into a buffer of a fixed size.  The slice of the buffer is
    * taken before anything is read; the terminator's value is not looked at.
    */
  function ReadText(lib: Foreign, length: nat, buffer: nat, ptr: seq<byte>): Outcome<(string, seq<byte>)> {
    if length + 1 > buffer then Panic else
    var (raw, rest) :- Take(length + 1, ptr);
    Ok((lib.utf8(raw[..length]), rest))
  }

  /** On the wire a text includes its terminator. */
  function TextOf(lib: Foreign, raw: seq<byte>): string {
    if raw == [] then "" else lib.utf8(raw[..|raw| - 1])
  }

  predicate TextFits(raw: seq<byte>, buffer: nat) {
    1 <= |raw| <= buffer
  }

  lemma ReadPutText(lib: Foreign, raw: seq<byte>, buffer: nat, rest: seq<byte>)
    requires TextFits(raw, buffer)
    ensures ReadText(lib, |raw| - 1, buffer, raw + rest) == Ok((TextOf(lib, raw), rest))
  {
    TakeAppend(raw, rest);
  }

  lemma PutReadText(lib: Foreign, length: nat, buffer: nat, ptr: seq<byte>) returns (raw: seq<byte>)
    requires ReadText(lib, length, buffer, ptr).Ok?
    ensures |raw| == length + 1 && TextFits(raw, buffer)
    ensures raw + ReadText(lib, length, buffer, ptr).value.1 == ptr
    ensures TextOf(lib, raw) == ReadText(lib, length, buffer, ptr).value.0
  {
    raw := ptr[..length + 1];
    assert raw + ptr[length + 1..] == ptr;
  }

  /** The three texts every longer entry starts with, after their lengths. */
  datatype Texts<T> = Texts(name: T, typ: T, comment: T)

  function ReadTexts(lib: Foreign, lengths: Texts<u16>, buffer: nat, ptr: seq<byte>)
    : Outcome<(Texts<string>, seq<byte>)>
  {
    var (name, ptr1) :- ReadText(lib, lengths.name, buffer, ptr);
    var (typ, ptr2) :- ReadText(lib, lengths.typ, buffer, ptr1);
    var (comment, rest) :- ReadText(lib, lengths.comment, buffer, ptr2);
    Ok((Texts(name, typ, comment), rest))
  }

  function ReadLengths(ptr: seq<byte>): Outcome<(Texts<u16>, seq<byte>)> {
    var (name, ptr1) :- ReadU16(ptr);
    var (typ, ptr2) :- ReadU16(ptr1);
    var (comment, rest) :- ReadU16(ptr2);
    Ok((Texts(name, typ, comment), rest))
  }

  predicate TextsFit(ws: Texts<seq<byte>>, buffer: nat) {
    TextFits(ws.name, buffer) && TextFits(ws.typ, buffer) && TextFits(ws.comment, buffer)
  }

  function TextsOf(lib: Foreign, ws: Texts<seq<byte>>): Texts<string> {
    Texts(TextOf(lib, ws.name), TextOf(lib, ws.typ), TextOf(lib, ws.comment))
  }

  function PutTexts(ws: Texts<seq<byte>>, rest: seq<byte>): seq<byte> {
    ws.name + (ws.typ + (ws.comment + rest))
  }

  function PutLengths(ws: Texts<seq<byte>>, rest: seq<byte>): seq<byte> {
    PutLength16(|ws.name| - 1) + (PutLength16(|ws.typ| - 1) + (PutLength16(|ws.comment| - 1) + rest))
  }

  /** The lengths, which do not count the terminators. */
  function LengthsOf(ws: Texts<seq<byte>>): Texts<u16>
    requires TextsFit(ws, 0x1_0000)
  {
    Texts(|ws.name| - 1, |ws.typ| - 1, |ws.comment| - 1)
  }

  lemma ReadPutTexts(lib: Foreign, ws: Texts<seq<byte>>, buffer: nat, rest: seq<byte>)
    requires TextsFit(ws, buffer) && buffer <= 0x1_0000
    ensures ReadTexts(lib, LengthsOf(ws), buffer, PutTexts(ws, rest)) == Ok((TextsOf(lib, ws), rest))
  {
    hide ReadText, TextOf;
    ReadPutText(lib, ws.name, buffer, ws.typ + (ws.comment + rest));
    ReadPutText(lib, ws.typ, buffer, ws.comment + rest);
    ReadPutText(lib, ws.comment, buffer, rest);
  }

  lemma PutReadTexts(lib: Foreign, lengths: Texts<u16>, buffer: nat, ptr: seq<byte>) returns (ws: Texts<seq<byte>>)
    requires ReadTexts(lib, lengths, buffer, ptr).Ok? && buffer <= 0x1_0000
    ensures TextsFit(ws, buffer) && LengthsOf(ws) == lengths
    ensures PutTexts(ws, ReadTexts(lib, lengths, buffer, ptr).value.1) == ptr
    ensures TextsOf(lib, ws) == ReadTexts(lib, lengths, buffer, ptr).value.0
  {
    hide ReadText, TextOf;
    var ptr1 := ReadText(lib, lengths.name, buffer, ptr).value.1;
    var ptr2 := ReadText(lib, lengths.typ, buffer, ptr1).value.1;
    var name := PutReadText(lib, lengths.name, buffer, ptr);
    var typ := PutReadText(lib, lengths.typ, buffer, ptr1);
    var comment := PutReadText(lib, lengths.comment, buffer, ptr2);
    ws := Texts(name, typ, comment);
  }

  lemma ReadPutLengths(ws: Texts<seq<byte>>, rest: seq<byte>)
    requires TextsFit(ws, 0x1_0000)
    ensures ReadLengths(PutLengths(ws, rest)) == Ok((LengthsOf(ws), rest))
  {
    hide ReadU16, PutU16, PutLength16;
    ReadPutLength16(|ws.name| - 1, PutLength16(|ws.typ| - 1) + (PutLength16(|ws.comment| - 1) + rest));
    ReadPutLength16(|ws.typ| - 1, PutLength16(|ws.comment| - 1) + rest);
    ReadPutLength16(|ws.comment| - 1, rest);
  }

  lemma PutReadLengths(ws: Texts<seq<byte>>, ptr: seq<byte>)
    requires TextsFit(ws, 0x1_0000) && ReadLengths(ptr).Ok? && ReadLengths(ptr).value.0 == LengthsOf(ws)
    ensures PutLengths(ws, ReadLengths(ptr).value.1) == ptr
  {
    hide ReadU16, PutU16, PutLength16;
    PutReadLength16(ptr);
    var ptr1 := ReadU16(ptr).value.1;
    PutReadLength16(ptr1);
    PutReadLength16(ReadU16(ptr1).value.1);
  }

  // ---- GUIDs -------------------------------------------------------------------------------

  function Digit(n: nat): char
    requires n < 16
  {
    "0123456789abcdef"[n]
  }

  /** The last `digits` hexadecimal digits. */
  function Hex(n: nat, digits: nat): (s: string)
    ensures |s| == digits
  {
    if digits == 0 then "" else Hex(n / 16, digits - 1) + [Digit(n % 16)]
  }

  function HexBytes(g: seq<byte>): (s: string)
    ensures |s| == 2 * |g|
  {
    if g == [] then "" else Hex(g[0], 2) + HexBytes(g[1..])
  }

  function GuidText(g: seq<byte>): string
    requires |g| == 16
  {
    Hex(U32(g[0..4]), 8) + "-" + Hex(U16(g[4..6]), 4) + "-" + Hex(U16(g[6..8]), 4) + "-"
    + HexBytes(g[8..10]) + "-" + HexBytes(g[10..16])
  }

  lemma DigitDiffers(n: nat, m: nat)
    requires n < 16 && m < 16 && Digit(n) == Digit(m)
    ensures n == m
  {
  }

  lemma {:induction false} HexDiffers(n: nat, m: nat, digits: nat)
    requires Hex(n, digits) == Hex(m, digits) && n < Power16(digits) && m < Power16(digits)
    ensures n == m
    decreases digits
  {
    hide Digit;
    if digits > 0 {
      var a, b := Hex(n, digits), Hex(m, digits);
      assert a[..digits - 1] == Hex(n / 16, digits - 1) && b[..digits - 1] == Hex(m / 16, digits - 1);
      assert a[digits - 1] == Digit(n % 16) && b[digits - 1] == Digit(m % 16);
      DigitDiffers(n % 16, m % 16);
      HexDiffers(n / 16, m / 16, digits - 1);
    }
  }

  function Power16(digits: nat): nat {
    if digits == 0 then 1 else 16 * Power16(digits - 1)
  }

  lemma {:induction false} HexBytesDiffer(g: seq<byte>, h: seq<byte>)
    requires |g| == |h| && HexBytes(g) == HexBytes(h)
    ensures g == h
  {
    if g != [] {
      var a, b := HexBytes(g), HexBytes(h);
      assert a[..2] == Hex(g[0], 2) && a[2..] == HexBytes(g[1..]);
      assert b[..2] == Hex(h[0], 2) && b[2..] == HexBytes(h[1..]);
      assert Power16(2) == 256;
      HexDiffers(g[0], h[0], 2);
      HexBytesDiffer(g[1..], h[1..]);
    }
  }

  /** The text of a GUID identifies it. */
  lemma GuidTextIsInjective(g: seq<byte>, h: seq<byte>)
    requires |g| == |h| == 16 && GuidText(g) == GuidText(h)
    ensures g == h
  {
    hide Hex, HexBytes, U32, U16;
    var a, b := GuidText(g), GuidText(h);
    assert a[0..8] == Hex(U32(g[0..4]), 8) && a[9..13] == Hex(U16(g[4..6]), 4) && a[14..18] == Hex(U16(g[6..8]), 4);
    assert b[0..8] == Hex(U32(h[0..4]), 8) && b[9..13] == Hex(U16(h[4..6]), 4) && b[14..18] == Hex(U16(h[6..8]), 4);
    assert a[19..23] == HexBytes(g[8..10]) && a[24..36] == HexBytes(g[10..16]);
    assert b[19..23] == HexBytes(h[8..10]) && b[24..36] == HexBytes(h[10..16]);
    assert Power16(8) == U32_LIMIT && Power16(4) == 0x1_0000;
    HexDiffers(U32(g[0..4]), U32(h[0..4]), 8);
    HexDiffers(U16(g[4..6]), U16(h[4..6]), 4);
    HexDiffers(U16(g[6..8]), U16(h[6..8]), 4);
    HexBytesDiffer(g[8..10], h[8..10]);
    HexBytesDiffer(g[10..16], h[10..16]);
    PutU32OfU32(g[0..4]);
    PutU32OfU32(h[0..4]);
    PutU16OfU16(g[4..6]);
    PutU16OfU16(h[4..6]);
    PutU16OfU16(g[6..8]);
    PutU16OfU16(h[6..8]);
    assert g == g[0..4] + g[4..6] + g[6..8] + g[8..10] + g[10..16];
    assert h == h[0..4] + h[4..6] + h[6..8] + h[8..10] + h[10..16];
  }

  function ReadGuid(ptr: seq<byte>): Outcome<(string, seq<byte>)> {
    var (g, rest) :- Take(16, ptr);
    Ok((GuidText(g), rest))
  }

  function Guid(): Format<seq<byte>, string> {
    Format(
      ptr => ReadGuid(ptr),
      (g: seq<byte>, rest) => g + rest,
      (g: seq<byte>) => |g| == 16,
      (g: seq<byte>) => if |g| == 16 then GuidText(g) else "")
  }

  lemma GuidCoded()
    ensures Sound(Guid()) && Complete(Guid())
  {
    hide GuidText;
    var f := Guid();
    forall g: seq<byte>, rest: seq<byte> | f.valid(g)
      ensures f.read(f.put(g, rest)) == Ok((f.meaning(g), rest))
    {
      TakeAppend(g, rest);
    }
    forall ptr: seq<byte> | f.read(ptr).Ok?
      ensures exists g: seq<byte> :: Wrote(f, g, ptr)
    {
      assert ptr[..16] + ptr[16..] == ptr;
      assert Wrote(f, ptr[..16], ptr);
    }
  }

  // ---- Attributes --------------------------------------------------------------------------

  datatype WireAttribute = WireAttribute(name: seq<byte>, value: seq<byte>)

  function ReadAttribute(lib: Foreign, ptr: seq<byte>): Outcome<(Attribute, seq<byte>)> {
    var (nameLength, ptr1) :- ReadU8(ptr);
    var (valueLength, ptr2) :- ReadU8(ptr1);
    var (name, ptr3) :- ReadText(lib, nameLength, 256, ptr2);
    var (value, rest) :- ReadText(lib, valueLength, 256, ptr3);
    Ok((Attribute(name, value), rest))
  }

  function PutAttribute(w: WireAttribute, rest: seq<byte>): seq<byte> {
    PutLength8(|w.name| - 1) + (PutLength8(|w.value| - 1) + (w.name + (w.value + rest)))
  }

  function AttributeFormat(lib: Foreign): Format<WireAttribute, Attribute> {
    Format(
      ptr => ReadAttribute(lib, ptr),
      (w, rest) => PutAttribute(w, rest),
      (w: WireAttribute) => TextFits(w.name, 256) && TextFits(w.value, 256),
      (w: WireAttribute) => Attribute(TextOf(lib, w.name), TextOf(lib, w.value)))
  }

  lemma AttributeSound(lib: Foreign)
    ensures Sound(AttributeFormat(lib))
  {
    hide ReadText, TextOf, ReadU8, PutLength8;
    var f := AttributeFormat(lib);
    forall w: WireAttribute, rest: seq<byte> | f.valid(w)
      ensures f.read(f.put(w, rest)) == Ok((f.meaning(w), rest))
    {
      var tail := w.name + (w.value + rest);
      ReadPutLength8(|w.name| - 1, PutLength8(|w.value| - 1) + tail);
      ReadPutLength8(|w.value| - 1, tail);
      ReadPutText(lib, w.name, 256, w.value + rest);
      ReadPutText(lib, w.value, 256, rest);
    }
  }

  lemma AttributeComplete(lib: Foreign)
    ensures Complete(AttributeFormat(lib))
  {
    hide ReadText, TextOf, ReadU8, PutLength8;
    var f := AttributeFormat(lib);
    forall ptr: seq<byte> | f.read(ptr).Ok?
      ensures exists w: WireAttribute :: Wrote(f, w, ptr)
    {
      var (nameLength, ptr1) := ReadU8(ptr).value;
      var (valueLength, ptr2) := ReadU8(ptr1).value;
      var name := PutReadText(lib, nameLength, 256, ptr2);
      var ptr3 := ReadText(lib, nameLength, 256, ptr2).value.1;
      var value := PutReadText(lib, valueLength, 256, ptr3);
      PutReadLength8(ptr);
      PutReadLength8(ptr1);
      assert Wrote(f, WireAttribute(name, value), ptr);
    }
  }

  function Attributes(lib: Foreign): Format<seq<WireAttribute>, seq<Attribute>> {
    Counted(AttributeFormat(lib))
  }

  lemma AttributesCoded(lib: Foreign)
    ensures Sound(Attributes(lib)) && Complete(Attributes(lib))
  {
    hide Sound, Complete, AttributeFormat, Counted;
    AttributeSound(lib);
    AttributeComplete(lib);
    CountedSound(AttributeFormat(lib));
    CountedComplete(AttributeFormat(lib));
  }

  // ---- Enum values -------------------------------------------------------------------------

  datatype WireEnum = WireEnum(name: seq<byte>, raw: seq<byte>)

  function SignedValue(raw: seq<byte>, width: nat): Outcome<int>
    requires width == 1 || width == 2 || width == 4 || width == 8
  {
    if |raw| < width then Panic
    else match width
      case 1 => Ok(Signed(raw[0], 0x100))
      case 2 => Ok(Signed(U16(raw[..2]), 0x1_0000))
      case 4 => Ok(Signed(U32(raw[..4]), U32_LIMIT))
      case 8 => Ok(Signed(U64(raw[..8]), 0x1_0000_0000_0000_0000))
  }

  function UnsignedValue(raw: seq<byte>, width: nat): Outcome<int>
    requires width == 1 || width == 2 || width == 4
  {
    if |raw| < width then Panic
    else match width
      case 1 => Ok(raw[0])
      case 2 => Ok(U16(raw[..2]))
      case 4 => Ok(U32(raw[..4]))
  }

  /** The value of an enum, by its base type; a value of fewer bytes than the base type needs panics. */
  function EnumValue(lib: Foreign, raw: seq<byte>, baseType: u32): Outcome<int> {
    match baseType
    case 2 => SignedValue(raw, 2)
    case 3 => SignedValue(raw, 4)
    case 4 => if |raw| < 4 then Panic else Ok(lib.truncate32(raw[..4]))
    case 5 => if |raw| < 8 then Panic else Ok(lib.truncate64(raw[..8]))
    case 16 => SignedValue(raw, 1)
    case 17 => UnsignedValue(raw, 1)
    case 18 => UnsignedValue(raw, 2)
    case 19 => UnsignedValue(raw, 4)
    case 20 => SignedValue(raw, 8)
    case 21 => SignedValue(raw, 8)
    case _ =>
      match |raw|
      case 1 => UnsignedValue(raw, 1)
      case 2 => SignedValue(raw, 2)
      case 4 => SignedValue(raw, 4)
      case 8 => SignedValue(raw, 8)
      case _ => Fail(Other)
  }

  function ReadEnum(lib: Foreign, size: nat, baseType: u32, ptr: seq<byte>): Outcome<(EnumInfo, seq<byte>)> {
    var (nameLength, ptr1) :- ReadU8(ptr);
    var (name, ptr2) :- ReadText(lib, nameLength, 256, ptr1);
    var (raw, rest) :- Take(size, ptr2);
    var value :- EnumValue(lib, raw, baseType);
    Ok((EnumInfo(name, value), rest))
  }

  function PutEnum(w: WireEnum, rest: seq<byte>): seq<byte> {
    PutLength8(|w.name| - 1) + (w.name + (w.raw + rest))
  }

  function EnumOf(lib: Foreign, baseType: u32, w: WireEnum): EnumInfo {
    var value := EnumValue(lib, w.raw, baseType);
    EnumInfo(TextOf(lib, w.name), if value.Ok? then value.value else 0)
  }

  function EnumFormat(lib: Foreign, size: nat, baseType: u32): Format<WireEnum, EnumInfo> {
    Format(
      ptr => ReadEnum(lib, size, baseType, ptr),
      (w, rest) => PutEnum(w, rest),
      (w: WireEnum) => TextFits(w.name, 256) && |w.raw| == size && EnumValue(lib, w.raw, baseType).Ok?,
      (w: WireEnum) => EnumOf(lib, baseType, w))
  }

  lemma EnumSound(lib: Foreign, size: nat, baseType: u32)
    ensures Sound(EnumFormat(lib, size, baseType))
  {
    hide ReadText, TextOf, EnumValue, ReadU8, PutLength8;
    var f := EnumFormat(lib, size, baseType);
    forall w: WireEnum, rest: seq<byte> | f.valid(w)
      ensures f.read(f.put(w, rest)) == Ok((f.meaning(w), rest))
    {
      var tail := w.name + (w.raw + rest);
      ReadPutLength8(|w.name| - 1, tail);
      ReadPutText(lib, w.name, 256, w.raw + rest);
      TakeAppend(w.raw, rest);
    }
  }

  lemma EnumComplete(lib: Foreign, size: nat, baseType: u32)
    ensures Complete(EnumFormat(lib, size, baseType))
  {
    hide ReadText, TextOf, EnumValue, ReadU8, PutLength8;
    var f := EnumFormat(lib, size, baseType);
    forall ptr: seq<byte> | f.read(ptr).Ok?
      ensures exists w: WireEnum :: Wrote(f, w, ptr)
    {
      var (nameLength, ptr1) := ReadU8(ptr).value;
      var name := PutReadText(lib, nameLength, 256, ptr1);
      var ptr2 := ReadText(lib, nameLength, 256, ptr1).value.1;
      PutReadLength8(ptr);
      assert ptr2 == ptr2[..size] + ptr2[size..];
      assert Wrote(f, WireEnum(name, ptr2[..size]), ptr);
    }
  }

  function Enums(lib: Foreign, size: nat, baseType: u32): Format<seq<WireEnum>, seq<EnumInfo>> {
    Counted(EnumFormat(lib, size, baseType))
  }

  lemma EnumsCoded(lib: Foreign, size: nat, baseType: u32)
    ensures Sound(Enums(lib, size, baseType)) && Complete(Enums(lib, size, baseType))
  {
    hide Sound, Complete, EnumFormat, Counted;
    EnumSound(lib, size, baseType);
    EnumComplete(lib, size, baseType);
    CountedSound(EnumFormat(lib, size, baseType));
    CountedComplete(EnumFormat(lib, size, baseType));
  }
}
