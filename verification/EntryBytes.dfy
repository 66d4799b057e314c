/**
  * Where everything in the entries of the type inventory is: what the decoders return, told by byte positions
  * and by the numbers of the layout.
  */
module EntryBytes {
  import opened Outcomes
  import opened Bytes
  import opened Formats
  import opened TypeInfo
  import opened TypeSections
  import opened RpcMethods
  import opened TypeEntries
  import opened TypeInventory

  /** Bounds on the wire: the lower bound, then the number of elements. */
  predicate IsDimension(bounds: (i32, i32), b: seq<byte>)
    requires |b| == 8
  {
    bounds.0 == TwosComplement(b[..4]) && bounds.1 - bounds.0 + 1 == TwosComplement(b[4..])
  }

  /** The text of `n` bytes at a position; a byte, usually zero, ends it. */
  predicate IsText(lib: Foreign, text: string, b: seq<byte>, at: nat, n: nat) {
    at + n < |b| && text == lib.utf8(b[at..at + n])
  }

  lemma OneDimension(ptr: seq<byte>)
    requires ReadDimension(ptr).Ok?
    ensures 8 <= |ptr| && ReadDimension(ptr).value.1 == ptr[8..]
    ensures IsDimension(ReadDimension(ptr).value.0, ptr[..8])
  {
    hide U32, TwosComplement;
    Window(ptr, 4, 4);
    assert ptr[..8][..4] == ptr[..4] && ptr[..8][4..] == ptr[4..8];
    FixedWidths(ptr[..4]);
    FixedWidths(ptr[4..8]);
  }

  /** A dimension panics exactly when its upper bound, or the number behind it, is no 32-bit number. */
  lemma DimensionPanicsIff(ptr: seq<byte>)
    requires 8 <= |ptr|
    ensures var end := TwosComplement(ptr[..4]) + TwosComplement(ptr[4..8]);
            && (ReadDimension(ptr) == Panic <==> !(-0x8000_0000 < end < 0x8000_0000))
            && (ReadDimension(ptr).Ok? <==> -0x8000_0000 < end < 0x8000_0000)
  {
    hide U32, TwosComplement;
    Window(ptr, 4, 4);
    FixedWidths(ptr[..4]);
    FixedWidths(ptr[4..8]);
  }

  lemma {:induction false} DimensionBytes(count: nat, ptr: seq<byte>)
    requires ReadMany(Dimension().read, count, ptr).Ok?
    ensures 8 * count <= |ptr|
    ensures var (bounds, rest) := ReadMany(Dimension().read, count, ptr).value;
            && |bounds| == count && rest == ptr[8 * count..]
            && forall i :: 0 <= i < count ==> IsDimension(bounds[i], ptr[8 * i..8 * i + 8])
  {
    hide IsDimension, ReadDimension;
    if count > 0 {
      OneDimension(ptr);
      DimensionBytes(count - 1, ptr[8..]);
      var bounds := ReadMany(Dimension().read, count, ptr).value.0;
      forall i | 0 <= i < count
        ensures IsDimension(bounds[i], ptr[8 * i..8 * i + 8])
      {
        if i > 0 {
          Windows(ptr, 8, 8 * (i - 1), 8 * (i - 1) + 8);
        } else {
          assert ptr[..8] == ptr[0..8];
        }
      }
    }
  }

  // ---- Headers of types and fields ---------------------------------------------------------

  /**
    * What types and fields have in common, in an entry: size at 12, base type at 20, flags at 24, three lengths and
    * the number of dimensions from 28 on; from 38 on the three texts, and the dimensions behind them.
    */
  predicate Describes(
    lib: Foreign, b: seq<byte>, texts: Texts<string>, size: nat, baseType: u32, flags: u32, bounds: seq<(i32, i32)>)
  {
    && 38 <= |b|
    && size == U32(b[12..16]) && baseType == U32(b[20..24]) && flags == U32(b[24..28])
    && var n, t, c, d := U16(b[28..30]) as nat, U16(b[30..32]) as nat, U16(b[32..34]) as nat, U16(b[34..36]) as nat;
    && IsText(lib, texts.name, b, 38, n)
    && IsText(lib, texts.typ, b, 39 + n, t)
    && IsText(lib, texts.comment, b, 40 + n + t, c)
    && var at := 41 + n + t + c;
    && at + 8 * d <= |b| && |bounds| == d
    && forall i :: 0 <= i < d ==> IsDimension(bounds[i], b[at + 8 * i..at + 8 * i + 8])
  }

  /** A header also has the offset, at 16, and the number of nested entries, at 36. */
  predicate IsHeader(lib: Foreign, h: Header, b: seq<byte>) {
    && Describes(lib, b, h.texts, h.size, h.baseType, h.flags, h.bounds)
    && h.offset == U32(b[16..20]) && h.subItems == U16(b[36..38])
  }

  /** Where the sections, or the nested entries, begin. */
  function HeaderEnd(b: seq<byte>): nat
    requires 38 <= |b|
  {
    41 + U16(b[28..30]) + U16(b[30..32]) + U16(b[32..34]) + 8 * U16(b[34..36])
  }

  lemma TextBytes(lib: Foreign, b: seq<byte>, at: nat, n: nat, buffer: nat)
    requires at <= |b| && ReadText(lib, n, buffer, b[at..]).Ok?
    ensures IsText(lib, ReadText(lib, n, buffer, b[at..]).value.0, b, at, n)
    ensures ReadText(lib, n, buffer, b[at..]).value.1 == b[at + n + 1..]
  {
    Window(b, at, n + 1);
    assert b[at..at + n + 1][..n] == b[at..at + n];
  }

  lemma TextsBytes(lib: Foreign, b: seq<byte>, at: nat, lengths: Texts<u16>, buffer: nat)
    requires at <= |b| && ReadTexts(lib, lengths, buffer, b[at..]).Ok?
    ensures var (texts, rest) := ReadTexts(lib, lengths, buffer, b[at..]).value;
            var n, t, c := lengths.name as nat, lengths.typ as nat, lengths.comment as nat;
            && IsText(lib, texts.name, b, at, n)
            && IsText(lib, texts.typ, b, at + 1 + n, t)
            && IsText(lib, texts.comment, b, at + 2 + n + t, c)
            && rest == b[at + 3 + n + t + c..]
  {
    hide ReadText, IsText;
    var n, t, c := lengths.name as nat, lengths.typ as nat, lengths.comment as nat;
    TextBytes(lib, b, at, n, buffer);
    assert IsText(lib, ReadText(lib, n, buffer, b[at..]).value.0, b, at, n);
    TextEnd(lib, ReadText(lib, n, buffer, b[at..]).value.0, b, at, n);
    TextBytes(lib, b, at + n + 1, t, buffer);
    TextEnd(lib, ReadText(lib, t, buffer, b[at + n + 1..]).value.0, b, at + n + 1, t);
    TextBytes(lib, b, at + n + 1 + t + 1, c, buffer);
  }

  lemma TextEnd(lib: Foreign, text: string, b: seq<byte>, at: nat, n: nat)
    requires IsText(lib, text, b, at, n)
    ensures at + n + 1 <= |b|
  {
  }

  lemma HeaderBytes(lib: Foreign, b: seq<byte>)
    requires ReadU32(b).Ok? && ReadHeader(lib, b[4..]).Ok?
    ensures IsHeader(lib, ReadHeader(lib, b[4..]).value.0, b)
    ensures HeaderEnd(b) <= |b| && ReadHeader(lib, b[4..]).value.1 == b[HeaderEnd(b)..]
  {
    hide U16, U32, ReadTexts, ReadMany, IsText, IsDimension;
    assert b[4..][8..] == b[12..];
    Window(b, 12, 4);
    Window(b, 16, 4);
    Window(b, 20, 4);
    Window(b, 24, 4);
    Window(b, 28, 2);
    Window(b, 30, 2);
    Window(b, 32, 2);
    Window(b, 34, 2);
    Window(b, 36, 2);
    var lengths := Texts(U16(b[28..30]), U16(b[30..32]), U16(b[32..34]));
    TextsBytes(lib, b, 38, lengths, TYPE_BUFFER);
    var texts := ReadTexts(lib, lengths, TYPE_BUFFER, b[38..]).value.0;
    var n, t, c, d := U16(b[28..30]) as nat, U16(b[30..32]) as nat, U16(b[32..34]) as nat, U16(b[34..36]) as nat;
    TextEnd(lib, texts.comment, b, 40 + n + t, c);
    var at := 41 + n + t + c;
    DimensionBytes(d, b[at..]);
    forall i | 0 <= i < d
      ensures b[at..][8 * i..8 * i + 8] == b[at + 8 * i..at + 8 * i + 8]
    {
      Windows(b, at, 8 * i, 8 * i + 8);
    }
  }

  /** In a header without dimensions that is all there, only a text of 1024 bytes or more is not read: it panics. */
  lemma LongTextsPanicIff(lib: Foreign, b: seq<byte>)
    requires 38 <= |b| && HeaderEnd(b) <= |b| && U16(b[34..36]) == 0
    ensures var tooLong := 1024 <= U16(b[28..30]) || 1024 <= U16(b[30..32]) || 1024 <= U16(b[32..34]);
            && (ReadHeader(lib, b[4..]) == Panic <==> tooLong)
            && (ReadHeader(lib, b[4..]).Ok? <==> !tooLong)
  {
    hide U16, U32;
    assert b[4..][8..] == b[12..];
    Window(b, 12, 4);
    Window(b, 16, 4);
    Window(b, 20, 4);
    Window(b, 24, 4);
    Window(b, 28, 2);
    Window(b, 30, 2);
    Window(b, 32, 2);
    Window(b, 34, 2);
    Window(b, 36, 2);
  }

  // ---- Fields and types --------------------------------------------------------------------

  /** Both decoders take every member of a field from its place; an offset of all ones means elsewhere. */
  lemma FieldBytes(lib: Foreign, b: seq<byte>)
    requires ReadNamedField(lib, b).Ok?
    ensures var f := ReadNamedField(lib, b).value;
            && Describes(lib, b, Texts(f.name, f.typ, f.comment), f.size, f.baseType, f.flags, f.bounds)
            && f.offset == (if U32(b[16..20]) == 0xFFFF_FFFF then None else Some(U32(b[16..20])))
            && (f.attributes.Some? <==> f.flags / 0x1000 % 2 == 1)
    ensures ReadBulkField(lib, b).Ok? ==>
              ReadBulkField(lib, b) == ReadNamedField(lib, b) && U32(b[0..4]) == 1 && U16(b[36..38]) == 0
  {
    hide U16, U32, ReadHeader, IsText, IsDimension, Guid, Raw, Methods, Attributes;
    HeaderBytes(lib, b);
    assert b[0..4] == b[..4];
  }

  /** The same for types; guid, methods, attributes and enum values are there as the flags say. */
  lemma TypeBytes(lib: Foreign, b: seq<byte>)
    requires ReadNamedType(lib, b).Ok?
    ensures var y := ReadNamedType(lib, b).value;
            && Describes(lib, b, Texts(y.name, y.typeName, y.comment), y.size, y.baseType, y.flags, y.bounds)
            && |y.fields| == U16(b[36..38])
            && (y.guid.Some? <==> y.flags / 0x80 % 2 == 1) && (y.methods.Some? <==> y.flags / 0x800 % 2 == 1)
            && (y.attributes.Some? <==> y.flags / 0x1000 % 2 == 1)
            && (y.enumInfo.Some? <==> y.flags / 0x2000 % 2 == 1)
    ensures ReadBulkType(lib, b).Ok? ==>
              ReadBulkType(lib, b) == ReadNamedType(lib, b) && U32(b[0..4]) == 1 && U32(b[16..20]) == 0
  {
    hide U16, U32, ReadHeader, IsText, IsDimension, Guid, Raw, Methods, Attributes, Enums, BulkFields, NamedFields;
    hide ReadMany;
    HeaderBytes(lib, b);
    ManyCount(NamedFields(lib).read, U16(b[36..38]), b[HeaderEnd(b)..]);
    assert b[0..4] == b[..4];
    if ReadBulkType(lib, b).Ok? {
      BulkRefinesNamed(lib, b);
    }
  }

  /** What follows a type's header: its fields, the sections, and the enum values. */
  lemma TypeSectionBytes(lib: Foreign, b: seq<byte>)
    requires ReadNamedType(lib, b).Ok?
    ensures 38 <= |b| && HeaderEnd(b) <= |b|
    ensures var y := ReadNamedType(lib, b).value;
            var items := ReadMany(NamedFields(lib).read, U16(b[36..38]), b[HeaderEnd(b)..]);
            && items.Ok? && y.fields == items.value.0
            && var parts := ReadParts(lib, y.flags, y.size, items.value.1);
            && parts.Ok? && y.guid == parts.value.0.guid && y.methods == parts.value.0.methods
            && y.attributes == parts.value.0.attributes
            && (y.flags / 0x2000 % 2 == 1 ==>
                  var enums := Enums(lib, y.size, y.baseType).read(parts.value.1);
                  enums.Ok? && y.enumInfo == Some(enums.value.0))
  {
    hide U16, U32, ReadHeader, IsText, IsDimension, ReadParts, Enums, NamedFields, ReadMany;
    HeaderBytes(lib, b);
  }

  lemma {:induction false} ManyCount<T>(read: seq<byte> -> Outcome<(T, seq<byte>)>, count: nat, ptr: seq<byte>)
    requires ReadMany(read, count, ptr).Ok?
    ensures |ReadMany(read, count, ptr).value.0| == count
  {
    if count > 0 {
      ManyCount(read, count - 1, read(ptr).value.1);
    }
  }

  /** An entry with a length, which counts its own four bytes: what is inside, and where the next begins. */
  lemma EntryFrame<T>(short: Short, read: seq<byte> -> Outcome<T>, b: seq<byte>)
    requires ReadEntry(short, read, b).Ok?
    ensures 4 <= |b| && 4 <= U32(b[0..4]) <= |b|
    ensures var length := U32(b[0..4]);
            read(b[4..length]).Ok? && ReadEntry(short, read, b).value == (read(b[4..length]).value, b[length..])
  {
    hide U32;
    var length := U32(b[0..4]);
    assert b[0..4] == b[..4];
    Window(b, 4, length - 4);
  }

  /** What is not read as an entry: without a length, with one below four, or with one beyond the data. */
  lemma EntryFailsIff<T>(short: Short, read: seq<byte> -> Outcome<T>, b: seq<byte>)
    ensures var r := ReadEntry(short, read, b);
            if |b| < 4 then r == Fail(Io)
            else if U32(b[0..4]) < 4 then
              r == if short.Rejects? then Fail(BadReply(InvalidEntryLength, U32(b[0..4]))) else Panic
            else if |b| < U32(b[0..4]) then r == Panic
            else r.Ok? <==> read(b[4..U32(b[0..4])]).Ok?
  {
    hide U32;
    if 4 <= |b| {
      assert b[0..4] == b[..4];
      if 4 <= U32(b[0..4]) <= |b| {
        Window(b, 4, U32(b[0..4]) - 4);
      }
    }
  }

  /** Who panics and who rejects: only the bulk decoder's own entries panic on a length below four. */
  lemma ShortLengths(lib: Foreign, b: seq<byte>)
    requires 4 <= |b| && U32(b[0..4]) < 4
    ensures var error := BadReply(InvalidEntryLength, U32(b[0..4]));
            && BulkFields(lib).read(b) == Panic && ReadAll(BulkType(lib).read, b) == Panic
            && ReadAll(SymbolBody(lib).read, b) == Panic
            && NamedFields(lib).read(b) == Fail(error)
            && ParameterFormat(lib).read(b) == Fail(error) && Framed(Rejects, MethodBody(lib)).read(b) == Fail(error)
  {
    hide U32;
    assert b[0..4] == b[..4];
  }

  /** What only the bulk decoder refuses, and how. */
  lemma BulkRefusals(lib: Foreign, b: seq<byte>)
    ensures 4 <= |b| && U32(b[0..4]) != 1 ==>
              && ReadBulkField(lib, b) == Fail(BadReply(UnknownVersion, U32(b[0..4])))
              && ReadBulkType(lib, b) == Fail(BadReply(UnknownVersion, U32(b[0..4])))
    ensures ReadNamedField(lib, b).Ok? && U32(b[0..4]) == 1 ==>
              38 <= |b| && ReadBulkField(lib, b) == if U16(b[36..38]) != 0 then Panic else ReadNamedField(lib, b)
    ensures ReadNamedType(lib, b).Ok? && U32(b[0..4]) == 1 ==>
              38 <= |b| && (U32(b[16..20]) != 0 ==> ReadBulkType(lib, b) == Panic)
  {
    hide U16, U32, ReadHeader, ReadParts, ReadRest, IsText, IsDimension;
    if 4 <= |b| {
      assert b[0..4] == b[..4];
      if ReadHeader(lib, b[4..]).Ok? {
        HeaderBytes(lib, b);
      }
    }
  }

  /** The sections in their order: sixteen bytes of GUID, `size` bytes of mask, methods, attributes. */
  lemma SectionBytes(lib: Foreign, flags: u32, size: nat, b: seq<byte>)
    requires ReadParts(lib, flags, size, b).Ok?
    ensures var (parts, end) := ReadParts(lib, flags, size, b).value;
            var g := if flags / 0x80 % 2 == 1 then 16 else 0;
            var at := g + if flags / 0x200 % 2 == 1 then size else 0;
            && at <= |b|
            && parts.guid == (if g == 16 then Some(GuidText(b[..16])) else None)
            && var methods := ReadIf(flags / 0x800 % 2 == 1, Methods(lib).read, b[at..]);
            && methods.Ok? && parts.methods == methods.value.0
            && ReadIf(flags / 0x1000 % 2 == 1, Attributes(lib).read, methods.value.1) == Ok((parts.attributes, end))
  {
    hide GuidText, Methods, Attributes;
    if flags / 0x80 % 2 == 1 && flags / 0x200 % 2 == 1 {
      Window(b, 16, size);
    }
  }

  /** A byte in hexadecimal. */
  function Pair(b: byte): string {
    ["0123456789abcdef"[b / 16], "0123456789abcdef"[b % 16]]
  }

  lemma TwoDigits(n: nat, b: byte)
    ensures (0x100 * n + b) % 16 == b % 16 && (0x100 * n + b) / 16 % 16 == b / 16 && (0x100 * n + b) / 16 / 16 == n
  {
  }

  lemma HexOfByte(n: nat, b: byte, digits: nat)
    ensures Hex(0x100 * n + b, digits + 2) == Hex(n, digits) + Pair(b)
  {
    hide Hex;
    var m := 0x100 * n + b;
    TwoDigits(n, b);
    HexLast(m, digits + 2);
    HexLast(m / 16, digits + 1);
  }

  lemma HexLast(n: nat, digits: nat)
    requires digits > 0
    ensures Hex(n, digits) == Hex(n / 16, digits - 1) + ["0123456789abcdef"[n % 16]]
  {
  }

  lemma HexPair(b: byte)
    ensures Hex(b, 2) == Pair(b)
  {
    HexOfByte(0, b, 0);
    assert Hex(0, 0) + Pair(b) == Pair(b);
  }

  /** The text of a GUID by its bytes: three numbers, whose top bytes come last, then single bytes. */
  lemma GuidByBytes(g: seq<byte>)
    requires |g| == 16
    ensures GuidText(g)
         == (Pair(g[3]) + Pair(g[2]) + Pair(g[1]) + Pair(g[0])) + "-" + (Pair(g[5]) + Pair(g[4])) + "-"
            + (Pair(g[7]) + Pair(g[6])) + "-" + (Pair(g[8]) + Pair(g[9])) + "-"
            + (Pair(g[10]) + Pair(g[11]) + Pair(g[12]) + Pair(g[13]) + Pair(g[14]) + Pair(g[15]))
  {
    hide Pair, Hex, U16, U32, HexBytes;
    HexOfWord(g[4..6]);
    HexOfWord(g[6..8]);
    HexOfLong(g[0..4]);
    HexOfBytes(g[8..10], 2);
    HexOfBytes(g[10..16], 6);
  }

  lemma HexOfWord(b: seq<byte>)
    requires |b| == 2
    ensures Hex(U16(b), 4) == Pair(b[1]) + Pair(b[0])
  {
    hide Pair, Hex;
    HexOfByte(b[1], b[0], 2);
    HexPair(b[1]);
  }

  lemma LongParts(b: seq<byte>)
    requires |b| == 4
    ensures U32(b) == 0x100 * (0x100 * U16(b[2..]) + b[1]) + b[0]
  {
  }

  lemma HexOfLong(b: seq<byte>)
    requires |b| == 4
    ensures Hex(U32(b), 8) == Pair(b[3]) + Pair(b[2]) + Pair(b[1]) + Pair(b[0])
  {
    hide Pair, Hex, U32, U16;
    var hi: nat := U16(b[2..]);
    LongParts(b);
    HexOfByte(0x100 * hi + b[1] as nat, b[0], 6);
    HexOfByte(hi, b[1], 4);
    HexOfWord(b[2..]);
  }

  lemma HexOfBytes(b: seq<byte>, n: nat)
    requires |b| == n && (n == 2 || n == 6)
    ensures n == 2 ==> HexBytes(b) == Pair(b[0]) + Pair(b[1])
    ensures n == 6 ==> HexBytes(b) == Pair(b[0]) + Pair(b[1]) + Pair(b[2]) + Pair(b[3]) + Pair(b[4]) + Pair(b[5])
  {
    hide Pair;
    HexBytesFront(b);
    if n == 6 {
      HexBytesFront(b[2..]);
      HexBytesFront(b[4..]);
      assert b[2..][2..] == b[4..] && b[4..][2..] == [];
    } else {
      assert b[2..] == [];
    }
  }

  lemma HexBytesFront(b: seq<byte>)
    requires 2 <= |b|
    ensures HexBytes(b) == Pair(b[0]) + Pair(b[1]) + HexBytes(b[2..])
  {
    hide Pair, Hex, HexBytes;
    assert b[1..][1..] == b[2..];
    HexBytesNext(b);
    HexBytesNext(b[1..]);
    assert Pair(b[0]) + (Pair(b[1]) + HexBytes(b[2..])) == Pair(b[0]) + Pair(b[1]) + HexBytes(b[2..]);
  }

  lemma HexBytesNext(b: seq<byte>)
    requires b != []
    ensures HexBytes(b) == Pair(b[0]) + HexBytes(b[1..])
  {
    hide Pair, Hex;
    HexPair(b[0]);
  }

  // ---- Attributes, enum values, methods, symbols -------------------------------------------

  /** An attribute: two lengths of one byte, then name and value. */
  lemma AttributeBytes(lib: Foreign, b: seq<byte>)
    requires ReadAttribute(lib, b).Ok?
    ensures 2 <= |b|
    ensures var (a, rest) := ReadAttribute(lib, b).value;
            var n, v := b[0] as nat, b[1] as nat;
            && IsText(lib, a.name, b, 2, n) && IsText(lib, a.value, b, 3 + n, v)
            && rest == b[4 + n + v..]
  {
    hide ReadText, IsText;
    var n, v := b[0] as nat, b[1] as nat;
    assert b[1..][1..] == b[2..];
    TextBytes(lib, b, 2, n, 256);
    TextEnd(lib, ReadText(lib, n, 256, b[2..]).value.0, b, 2, n);
    TextBytes(lib, b, 3 + n, v, 256);
  }

  /** The number of an enum value: by its base type, or else by its size. */
  predicate IsEnumValue(lib: Foreign, value: int, baseType: u32, raw: seq<byte>) {
    match baseType
    case 2 => 2 <= |raw| && value == TwosComplement(raw[..2])
    case 3 => 4 <= |raw| && value == TwosComplement(raw[..4])
    case 4 => 4 <= |raw| && value == lib.truncate32(raw[..4])
    case 5 => 8 <= |raw| && value == lib.truncate64(raw[..8])
    case 16 => 1 <= |raw| && value == TwosComplement(raw[..1])
    case 17 => 1 <= |raw| && value == Number(raw[..1])
    case 18 => 2 <= |raw| && value == Number(raw[..2])
    case 19 => 4 <= |raw| && value == Number(raw[..4])
    case 20 => 8 <= |raw| && value == TwosComplement(raw[..8])
    case 21 => 8 <= |raw| && value == TwosComplement(raw[..8])
    case _ => if |raw| == 1 then value == Number(raw) else |raw| in {2, 4, 8} && value == TwosComplement(raw)
  }

  /** The value read is that number, and there is one unless the bytes are too few or of no known size. */
  lemma EnumValueIff(lib: Foreign, value: int, baseType: u32, raw: seq<byte>)
    ensures EnumValue(lib, raw, baseType) == Ok(value) <==> IsEnumValue(lib, value, baseType, raw)
    ensures EnumValue(lib, raw, baseType).Fail? <==>
              baseType !in {2, 3, 4, 5, 16, 17, 18, 19, 20, 21} && |raw| !in {1, 2, 4, 8}
  {
    hide Number, Limit, U16, U32, U64, Signed;
    assert raw[..|raw|] == raw;
    if 1 <= |raw| {
      FixedWidths(raw[..1]);
    }
    if 2 <= |raw| {
      FixedWidths(raw[..2]);
    }
    if 4 <= |raw| {
      FixedWidths(raw[..4]);
    }
    if 8 <= |raw| {
      FixedWidths(raw[..8]);
    }
  }

  /** An enum value: the length of its name, its name, and `size` bytes of value. */
  lemma EnumBytes(lib: Foreign, size: nat, baseType: u32, b: seq<byte>)
    requires ReadEnum(lib, size, baseType, b).Ok?
    ensures 1 <= |b|
    ensures var (e, rest) := ReadEnum(lib, size, baseType, b).value;
            var at := 2 + b[0] as nat;
            && IsText(lib, e.name, b, 1, b[0] as nat) && at + size <= |b|
            && IsEnumValue(lib, e.value, baseType, b[at..at + size])
            && rest == b[at + size..]
  {
    hide ReadText, IsText, EnumValue, IsEnumValue;
    var n := b[0] as nat;
    TextBytes(lib, b, 1, n, 256);
    TextEnd(lib, ReadText(lib, n, 256, b[1..]).value.0, b, 1, n);
    Window(b, 2 + n, size);
    EnumValueIff(lib, ReadEnum(lib, size, baseType, b).value.0.value, baseType, b[2 + n..2 + n + size]);
  }

  /** A parameter: size at 0, flags at 12, the lengths of its texts at 38, and its texts. */
  lemma ParameterBytes(lib: Foreign, b: seq<byte>)
    requires ReadParameter(lib, b).Ok?
    ensures 44 <= |b|
    ensures var p := ReadParameter(lib, b).value;
            var n, t, c := U16(b[38..40]) as nat, U16(b[40..42]) as nat, U16(b[42..44]) as nat;
            && p.size == U32(b[0..4]) && p.flags == U32(b[12..16])
            && IsText(lib, p.name, b, 44, n) && IsText(lib, p.typ, b, 45 + n, t)
            && IsText(lib, p.comment, b, 46 + n + t, c) && 47 + n + t + c <= |b|
            && (if p.flags / 0x40 % 2 == 1
                then var read := Attributes(lib).read(b[47 + n + t + c..]);
                     read.Ok? && p.attributes == read.value.0
                else p.attributes == [])
  {
    hide U16, U32, ReadTexts, IsText, Attributes;
    assert b[..4] == b[0..4] && b[4..][8..] == b[12..];
    Window(b, 12, 4);
    assert b[16..][22..] == b[38..];
    Window(b, 38, 2);
    Window(b, 40, 2);
    Window(b, 42, 2);
    var lengths := Texts(U16(b[38..40]), U16(b[40..42]), U16(b[42..44]));
    TextsBytes(lib, b, 44, lengths, RPC_BUFFER);
    var texts := ReadTexts(lib, lengths, RPC_BUFFER, b[44..]).value.0;
    TextEnd(lib, texts.comment, b, 46 + lengths.name as nat + lengths.typ as nat, lengths.comment);
  }

  /** A method: the size of what it returns at 8, flags at 40, lengths and the number of parameters at 44. */
  lemma MethodBytes(lib: Foreign, b: seq<byte>)
    requires ReadMethod(lib, b).Ok?
    ensures 52 <= |b|
    ensures var m := ReadMethod(lib, b).value;
            var n, t, c := U16(b[44..46]) as nat, U16(b[46..48]) as nat, U16(b[48..50]) as nat;
            && m.returnSize == U32(b[8..12])
            && IsText(lib, m.name, b, 52, n) && IsText(lib, m.returnType, b, 53 + n, t)
            && IsText(lib, m.comment, b, 54 + n + t, c) && 55 + n + t + c <= |b|
            && var read := ReadMany(ParameterFormat(lib).read, U16(b[50..52]), b[55 + n + t + c..]);
            && read.Ok? && m.parameters == read.value.0
            && (if U32(b[40..44]) / 0x08 % 2 == 1
                then var attributes := Attributes(lib).read(read.value.1);
                     attributes.Ok? && m.attributes == attributes.value.0
                else m.attributes == [])
  {
    hide U16, U32, ReadTexts, IsText, Attributes, ParameterFormat, ReadMany;
    Window(b, 8, 4);
    assert b[12..][28..] == b[40..];
    Window(b, 40, 4);
    Window(b, 44, 2);
    Window(b, 46, 2);
    Window(b, 48, 2);
    Window(b, 50, 2);
    var lengths := Texts(U16(b[44..46]), U16(b[46..48]), U16(b[48..50]));
    TextsBytes(lib, b, 52, lengths, RPC_BUFFER);
    var texts := ReadTexts(lib, lengths, RPC_BUFFER, b[52..]).value.0;
    TextEnd(lib, texts.comment, b, 54 + lengths.name as nat + lengths.typ as nat, lengths.comment);
  }

  /** A symbol: its address and size, base type and flags from 0 on, lengths at 20, name and type name from 26. */
  lemma SymbolBytes(lib: Foreign, b: seq<byte>)
    requires ReadSymbol(lib, b).Ok?
    ensures 26 <= |b|
    ensures var s := ReadSymbol(lib, b).value;
            var n, t := U16(b[20..22]) as nat, U16(b[22..24]) as nat;
            && s.ixGroup == U32(b[0..4]) && s.ixOffset == U32(b[4..8]) && s.size == U32(b[8..12])
            && s.baseType == U32(b[12..16]) && s.flags == U16(b[16..18])
            && IsText(lib, s.name, b, 26, n) && IsText(lib, s.typ, b, 27 + n, t)
  {
    hide U16, U32, ReadText, IsText;
    assert b[..4] == b[0..4];
    Window(b, 4, 4);
    Window(b, 8, 4);
    Window(b, 12, 4);
    Window(b, 16, 2);
    assert b[18..][2..] == b[20..];
    Window(b, 20, 2);
    Window(b, 22, 2);
    assert b[24..][2..] == b[26..];
    var n := U16(b[20..22]) as nat;
    TextBytes(lib, b, 26, n, TYPE_BUFFER);
    TextEnd(lib, ReadText(lib, n, TYPE_BUFFER, b[26..]).value.0, b, 26, n);
    TextBytes(lib, b, 27 + n, U16(b[22..24]), TYPE_BUFFER);
  }
}
