/**
  * Type entries: a header, nested field entries, and the sections that flags select.  Two decoders
  * read them, one for the bulk upload and one for a query by name.
  */
module TypeEntries {
  import opened Outcomes
  import opened Bytes
  import opened Formats
  import opened TypeInfo
  import opened TypeSections
  import opened RpcMethods

  const TYPE_BUFFER := 1024
  const ELSEWHERE: u32 := 0xFFFF_FFFF

  // ---- Array dimensions --------------------------------------------------------------------

  predicate IsI32(n: int) {
    -0x8000_0000 <= n < 0x8000_0000
  }

  /** On the wire a dimension is its lower bound and its number of elements; the sums are 32-bit and checked. */
  function BoundsOf(lower: i32, total: i32): Outcome<(i32, i32)> {
    if !IsI32(lower + total) || !IsI32(lower + total - 1) then Panic else Ok((lower, lower + total - 1))
  }

  function ReadDimension(ptr: seq<byte>): Outcome<((i32, i32), seq<byte>)> {
    var (lower, ptr1) :- ReadI32(ptr);
    var (total, rest) :- ReadI32(ptr1);
    var bounds :- BoundsOf(lower, total);
    Ok((bounds, rest))
  }

  function Dimension(): Format<(i32, i32), (i32, i32)> {
    Format(
      ptr => ReadDimension(ptr),
      (w: (i32, i32), rest) => PutI32(w.0) + (PutI32(w.1) + rest),
      (w: (i32, i32)) => BoundsOf(w.0, w.1).Ok?,
      (w: (i32, i32)) => if BoundsOf(w.0, w.1).Ok? then BoundsOf(w.0, w.1).value else w)
  }

  lemma DimensionCoded()
    ensures Sound(Dimension()) && Complete(Dimension())
  {
    hide ReadI32, PutI32;
    var f := Dimension();
    forall w: (i32, i32), rest: seq<byte> | f.valid(w)
      ensures f.read(f.put(w, rest)) == Ok((f.meaning(w), rest))
    {
      ReadPutI32(w.0, PutI32(w.1) + rest);
      ReadPutI32(w.1, rest);
    }
    forall ptr: seq<byte> | f.read(ptr).Ok?
      ensures exists w: (i32, i32) :: Wrote(f, w, ptr)
    {
      var (lower, ptr1) := ReadI32(ptr).value;
      var (total, rest) := ReadI32(ptr1).value;
      PutReadI32(ptr);
      PutReadI32(ptr1);
      assert Wrote(f, (lower, total), ptr);
    }
  }

  /**
    * An array with the given bounds, of which 32 bits hold the element count, is read back exactly
    * when its upper bound is below the largest number: at that bound the sum overflows on the way.
    */
  lemma BoundsAreReadIff(lower: i32, upper: i32, rest: seq<byte>)
    requires IsI32(upper - lower + 1)
    ensures ReadDimension(PutI32(lower) + (PutI32(upper - lower + 1) + rest)) == Ok(((lower, upper), rest)) <==>
            upper < 0x7FFF_FFFF
    ensures upper == 0x7FFF_FFFF ==> ReadDimension(PutI32(lower) + (PutI32(upper - lower + 1) + rest)) == Panic
  {
    hide ReadI32, PutI32;
    ReadPutI32(lower, PutI32(upper - lower + 1) + rest);
    ReadPutI32(upper - lower + 1, rest);
  }

  // ---- Headers -----------------------------------------------------------------------------

  datatype Header = Header(
    size: u32, offset: u32, baseType: u32, flags: u32, subItems: u16, texts: Texts<string>, bounds: seq<(i32, i32)>)

  /** `identity` are the eight bytes after the version, which neither decoder looks at. */
  datatype WireHeader = WireHeader(
    identity: seq<byte>, size: u32, offset: u32, baseType: u32, flags: u32, subItems: u16,
    texts: Texts<seq<byte>>, dimensions: seq<(i32, i32)>)

  function ReadHeader(lib: Foreign, ptr: seq<byte>): Outcome<(Header, seq<byte>)> {
    var (_, ptr1) :- Take(8, ptr);
    var (size, ptr2) :- ReadU32(ptr1);
    var (offset, ptr3) :- ReadU32(ptr2);
    var (baseType, ptr4) :- ReadU32(ptr3);
    var (flags, ptr5) :- ReadU32(ptr4);
    var (lengths, ptr6) :- ReadLengths(ptr5);
    var (dimensions, ptr7) :- ReadU16(ptr6);
    var (subItems, ptr8) :- ReadU16(ptr7);
    var (texts, ptr9) :- ReadTexts(lib, lengths, TYPE_BUFFER, ptr8);
    var (bounds, rest) :- ReadMany(Dimension().read, dimensions, ptr9);
    Ok((Header(size, offset, baseType, flags, subItems, texts, bounds), rest))
  }

  function PutHeader(w: WireHeader, rest: seq<byte>): seq<byte> {
    w.identity + (PutU32(w.size) + (PutU32(w.offset) + (PutU32(w.baseType) + (PutU32(w.flags)
    + PutLengths(w.texts, PutLength16(|w.dimensions|) + (PutU16(w.subItems)
    + PutTexts(w.texts, PutMany(Dimension().put, w.dimensions, rest))))))))
  }

  predicate HeaderFits(w: WireHeader) {
    && |w.identity| == 8 && TextsFit(w.texts, TYPE_BUFFER)
    && |w.dimensions| < 0x1_0000 && AllValid(Dimension().valid, w.dimensions)
  }

  function HeaderOf(lib: Foreign, w: WireHeader): Header {
    Header(w.size, w.offset, w.baseType, w.flags, w.subItems, TextsOf(lib, w.texts),
        Meanings(Dimension().meaning, w.dimensions))
  }

  lemma ReadPutHeader(lib: Foreign, w: WireHeader, rest: seq<byte>)
    requires HeaderFits(w)
    ensures ReadHeader(lib, PutHeader(w, rest)) == Ok((HeaderOf(lib, w), rest))
  {
    hide ReadU16, ReadU32, PutU16, PutU32, Take, PutLength16, ReadLengths, PutLengths, ReadTexts, PutTexts, TextsOf;
    hide Dimension, ReadMany, PutMany, Meanings, AllValid;
    var t9 := PutMany(Dimension().put, w.dimensions, rest);
    var t8 := PutTexts(w.texts, t9);
    var t7 := PutU16(w.subItems) + t8;
    var t6 := PutLength16(|w.dimensions|) + t7;
    var t5 := PutLengths(w.texts, t6);
    var t4 := PutU32(w.flags) + t5;
    var t3 := PutU32(w.baseType) + t4;
    var t2 := PutU32(w.offset) + t3;
    TakeAppend(w.identity, PutU32(w.size) + t2);
    ReadPutU32(w.size, t2);
    ReadPutU32(w.offset, t3);
    ReadPutU32(w.baseType, t4);
    ReadPutU32(w.flags, t5);
    ReadPutLengths(w.texts, t6);
    ReadPutLength16(|w.dimensions|, t7);
    ReadPutU16(w.subItems, t8);
    ReadPutTexts(lib, w.texts, TYPE_BUFFER, t9);
    DimensionCoded();
    ManySound(Dimension(), w.dimensions, rest);
  }

  lemma PutReadHeader(lib: Foreign, ptr: seq<byte>) returns (w: WireHeader)
    requires ReadHeader(lib, ptr).Ok?
    ensures HeaderFits(w) && HeaderOf(lib, w) == ReadHeader(lib, ptr).value.0
    ensures PutHeader(w, ReadHeader(lib, ptr).value.1) == ptr
  {
    hide ReadU16, ReadU32, PutU16, PutU32, PutLength16, ReadLengths, PutLengths, ReadTexts, PutTexts, TextsOf;
    hide Dimension, ReadMany, PutMany, Meanings, AllValid;
    var (identity, ptr1) := Take(8, ptr).value;
    var (size, ptr2) := ReadU32(ptr1).value;
    var (offset, ptr3) := ReadU32(ptr2).value;
    var (baseType, ptr4) := ReadU32(ptr3).value;
    var (flags, ptr5) := ReadU32(ptr4).value;
    var (lengths, ptr6) := ReadLengths(ptr5).value;
    var (count, ptr7) := ReadU16(ptr6).value;
    var (subItems, ptr8) := ReadU16(ptr7).value;
    var (texts, ptr9) := ReadTexts(lib, lengths, TYPE_BUFFER, ptr8).value;
    assert identity + ptr1 == ptr;
    PutReadU32(ptr1);
    PutReadU32(ptr2);
    PutReadU32(ptr3);
    PutReadU32(ptr4);
    PutReadLength16(ptr6);
    PutReadU16(ptr7);
    DimensionCoded();
    var dimensions := ManyComplete(Dimension(), count, ptr9);
    var ws := PutReadTexts(lib, lengths, TYPE_BUFFER, ptr8);
    PutReadLengths(ws, ptr5);
    w := WireHeader(identity, size, offset, baseType, flags, subItems, ws, dimensions);
  }

  function Elements(bounds: (i32, i32)): int {
    (bounds.1 as int) - (bounds.0 as int) + 1
  }

  function WireDimension(bounds: (i32, i32)): (i32, i32)
    requires IsI32(Elements(bounds))
  {
    (bounds.0, Elements(bounds))
  }

  /** A header as the repository's tests lay it out: nothing to identify it, and texts ended by a zero byte. */
  function PlainHeader(
    texts: Texts<seq<byte>>, size: u32, offset: u32, baseType: u32, flags: u32, subItems: u16,
    bounds: seq<(i32, i32)>): WireHeader
    requires forall i :: 0 <= i < |bounds| ==> IsI32(Elements(bounds[i]))
  {
    WireHeader([0, 0, 0, 0, 0, 0, 0, 0], size, offset, baseType, flags, subItems,
               Texts(texts.name + [0], texts.typ + [0], texts.comment + [0]),
               seq(|bounds|, i requires 0 <= i < |bounds| && IsI32(Elements(bounds[i])) => WireDimension(bounds[i])))
  }

  function PlainTexts(lib: Foreign, texts: Texts<seq<byte>>): Texts<string> {
    Texts(lib.utf8(texts.name), lib.utf8(texts.typ), lib.utf8(texts.comment))
  }

  /**
    * Such a header is one that can be read exactly when its texts leave room for their terminators
    * and no upper bound is the largest number; and then texts and bounds are read as they were.
    */
  lemma PlainHeaderFitsIff(
    lib: Foreign, texts: Texts<seq<byte>>, size: u32, offset: u32, baseType: u32, flags: u32, subItems: u16,
    bounds: seq<(i32, i32)>)
    requires |bounds| < 0x1_0000 && forall i :: 0 <= i < |bounds| ==> IsI32(Elements(bounds[i]))
    ensures var w := PlainHeader(texts, size, offset, baseType, flags, subItems, bounds);
            && (HeaderFits(w) <==>
                  && |texts.name| < TYPE_BUFFER && |texts.typ| < TYPE_BUFFER && |texts.comment| < TYPE_BUFFER
                  && forall i :: 0 <= i < |bounds| ==> bounds[i].1 < 0x7FFF_FFFF)
            && (HeaderFits(w) ==>
                  HeaderOf(lib, w) == Header(size, offset, baseType, flags, subItems,
                                             PlainTexts(lib, texts), bounds))
  {
    var w := PlainHeader(texts, size, offset, baseType, flags, subItems, bounds);
    assert forall i :: 0 <= i < |bounds| ==> (Dimension().valid(w.dimensions[i]) <==> bounds[i].1 < 0x7FFF_FFFF);
    assert w.texts.name[..|texts.name|] == texts.name;
    assert w.texts.typ[..|texts.typ|] == texts.typ;
    assert w.texts.comment[..|texts.comment|] == texts.comment;
    if HeaderFits(w) {
      assert Meanings(Dimension().meaning, w.dimensions) == bounds;
    }
  }

  // ---- Sections ----------------------------------------------------------------------------

  /** What fields and types can both carry.  A copy mask is skipped. */
  datatype Parts = Parts(guid: Option<string>, methods: Option<seq<RpcMethod>>, attributes: Option<seq<Attribute>>)

  datatype WireParts = WireParts(
    guid: seq<byte>, mask: seq<byte>, methods: seq<WireMethod>, attributes: seq<WireAttribute>)

  function ReadParts(lib: Foreign, flags: u32, size: nat, ptr: seq<byte>): Outcome<(Parts, seq<byte>)> {
    var (guid, ptr1) :- ReadIf(Flag(flags, FLAG_GUID), Guid().read, ptr);
    var (_, ptr2) :- ReadIf(Flag(flags, FLAG_COPY_MASK), Raw(size).read, ptr1);
    var (methods, ptr3) :- ReadIf(Flag(flags, FLAG_METHOD_INFOS), Methods(lib).read, ptr2);
    var (attributes, rest) :- ReadIf(Flag(flags, FLAG_ATTRIBUTES), Attributes(lib).read, ptr3);
    Ok((Parts(guid, methods, attributes), rest))
  }

  function PutParts(lib: Foreign, flags: u32, size: nat, w: WireParts, rest: seq<byte>): seq<byte> {
    PutIf(Flag(flags, FLAG_GUID), Guid().put, w.guid,
    PutIf(Flag(flags, FLAG_COPY_MASK), Raw(size).put, w.mask,
    PutIf(Flag(flags, FLAG_METHOD_INFOS), Methods(lib).put, w.methods,
    PutIf(Flag(flags, FLAG_ATTRIBUTES), Attributes(lib).put, w.attributes, rest))))
  }

  /** A section has to fit only if its flag is set. */
  predicate PartsFit(lib: Foreign, flags: u32, size: nat, w: WireParts) {
    && (Flag(flags, FLAG_GUID) ==> Guid().valid(w.guid))
    && (Flag(flags, FLAG_COPY_MASK) ==> |w.mask| == size)
    && (Flag(flags, FLAG_METHOD_INFOS) ==> Methods(lib).valid(w.methods))
    && (Flag(flags, FLAG_ATTRIBUTES) ==> Attributes(lib).valid(w.attributes))
  }

  function PartsOf(lib: Foreign, flags: u32, w: WireParts): Parts {
    Parts(
      MeaningIf(Flag(flags, FLAG_GUID), Guid().meaning, w.guid),
      MeaningIf(Flag(flags, FLAG_METHOD_INFOS), Methods(lib).meaning, w.methods),
      MeaningIf(Flag(flags, FLAG_ATTRIBUTES), Attributes(lib).meaning, w.attributes))
  }

  lemma ReadPutParts(lib: Foreign, flags: u32, size: nat, w: WireParts, rest: seq<byte>)
    requires PartsFit(lib, flags, size, w)
    ensures ReadParts(lib, flags, size, PutParts(lib, flags, size, w, rest)) == Ok((PartsOf(lib, flags, w), rest))
  {
    hide ReadIf, PutIf, Flag, Methods, Attributes, Guid, Sound, Complete, Take;
    var t3 := PutIf(Flag(flags, FLAG_ATTRIBUTES), Attributes(lib).put, w.attributes, rest);
    var t2 := PutIf(Flag(flags, FLAG_METHOD_INFOS), Methods(lib).put, w.methods, t3);
    var t1 := PutIf(Flag(flags, FLAG_COPY_MASK), Raw(size).put, w.mask, t2);
    GuidCoded();
    RawSound(size);
    MethodsCoded(lib);
    AttributesCoded(lib);
    IfSound(Flag(flags, FLAG_GUID), Guid(), w.guid, t1);
    IfSound(Flag(flags, FLAG_COPY_MASK), Raw(size), w.mask, t2);
    IfSound(Flag(flags, FLAG_METHOD_INFOS), Methods(lib), w.methods, t3);
    IfSound(Flag(flags, FLAG_ATTRIBUTES), Attributes(lib), w.attributes, rest);
  }

  lemma PutReadParts(lib: Foreign, flags: u32, size: nat, ptr: seq<byte>) returns (w: WireParts)
    requires ReadParts(lib, flags, size, ptr).Ok?
    ensures PartsFit(lib, flags, size, w) && PartsOf(lib, flags, w) == ReadParts(lib, flags, size, ptr).value.0
    ensures PutParts(lib, flags, size, w, ReadParts(lib, flags, size, ptr).value.1) == ptr
  {
    hide ReadIf, PutIf, Flag, Methods, Attributes, Guid, Sound, Complete, Take;
    var ptr1 := ReadIf(Flag(flags, FLAG_GUID), Guid().read, ptr).value.1;
    var ptr2 := ReadIf(Flag(flags, FLAG_COPY_MASK), Raw(size).read, ptr1).value.1;
    var ptr3 := ReadIf(Flag(flags, FLAG_METHOD_INFOS), Methods(lib).read, ptr2).value.1;
    GuidCoded();
    RawComplete(size);
    MethodsCoded(lib);
    AttributesCoded(lib);
    var guid := IfComplete(Flag(flags, FLAG_GUID), Guid(), [], ptr);
    var mask := IfComplete(Flag(flags, FLAG_COPY_MASK), Raw(size), [], ptr1);
    var methods := IfComplete(Flag(flags, FLAG_METHOD_INFOS), Methods(lib), [], ptr2);
    var attributes := IfComplete(Flag(flags, FLAG_ATTRIBUTES), Attributes(lib), [], ptr3);
    w := WireParts(guid, mask, methods, attributes);
  }

  // ---- Fields ------------------------------------------------------------------------------

  datatype WireField = WireField(version: u32, header: WireHeader, parts: WireParts, trailing: seq<byte>)

  function FieldOf(h: Header, attributes: Option<seq<Attribute>>): Field {
    Field(h.texts.name, h.texts.typ, if h.offset == ELSEWHERE then None else Some(h.offset), h.size, h.bounds,
          h.baseType, h.flags, h.texts.comment, attributes)
  }

  /** The bulk decoder insists on version 1, and that fields have no fields. */
  function ReadBulkField(lib: Foreign, data: seq<byte>): Outcome<Field> {
    var (version, ptr1) :- ReadU32(data);
    if version != 1 then Fail(BadReply(UnknownVersion, version)) else
    var (h, ptr2) :- ReadHeader(lib, ptr1);
    if h.subItems != 0 then Panic else
    var (parts, _) :- ReadParts(lib, h.flags, h.size, ptr2);
    Ok(FieldOf(h, parts.attributes))
  }

  function ReadNamedField(lib: Foreign, data: seq<byte>): Outcome<Field> {
    var (_, ptr1) :- ReadU32(data);
    var (h, ptr2) :- ReadHeader(lib, ptr1);
    var (parts, _) :- ReadParts(lib, h.flags, h.size, ptr2);
    Ok(FieldOf(h, parts.attributes))
  }

  function PutField(lib: Foreign, w: WireField): seq<byte> {
    PutU32(w.version) + PutHeader(w.header, PutParts(lib, w.header.flags, w.header.size, w.parts, w.trailing))
  }

  predicate FieldFits(lib: Foreign, w: WireField) {
    HeaderFits(w.header) && PartsFit(lib, w.header.flags, w.header.size, w.parts)
  }

  function MeaningOfField(lib: Foreign, w: WireField): Field {
    FieldOf(HeaderOf(lib, w.header), PartsOf(lib, w.header.flags, w.parts).attributes)
  }

  predicate StrictField(w: WireField) {
    w.version == 1 && w.header.subItems == 0
  }

  predicate AllStrict(ws: seq<WireField>) {
    forall i :: 0 <= i < |ws| ==> StrictField(ws[i])
  }

  function BulkField(lib: Foreign): Body<WireField, Field> {
    Body(
      data => ReadBulkField(lib, data),
      w => PutField(lib, w),
      w => FieldFits(lib, w) && StrictField(w),
      w => MeaningOfField(lib, w))
  }

  function NamedField(lib: Foreign): Body<WireField, Field> {
    Body(data => ReadNamedField(lib, data), w => PutField(lib, w), w => FieldFits(lib, w), w => MeaningOfField(lib, w))
  }

  lemma ReadPutField(lib: Foreign, w: WireField)
    requires FieldFits(lib, w)
    ensures ReadNamedField(lib, PutField(lib, w)) == Ok(MeaningOfField(lib, w))
    ensures StrictField(w) ==> ReadBulkField(lib, PutField(lib, w)) == Ok(MeaningOfField(lib, w))
  {
    hide ReadU32, PutU32, ReadHeader, PutHeader, HeaderFits, ReadParts, PutParts, PartsFit, PartsOf, TextsOf;
    hide Meanings, Dimension;
    var t2 := PutParts(lib, w.header.flags, w.header.size, w.parts, w.trailing);
    ReadPutU32(w.version, PutHeader(w.header, t2));
    ReadPutHeader(lib, w.header, t2);
    ReadPutParts(lib, w.header.flags, w.header.size, w.parts, w.trailing);
  }

  lemma PutReadField(lib: Foreign, data: seq<byte>) returns (w: WireField)
    requires ReadNamedField(lib, data).Ok?
    ensures FieldFits(lib, w) && PutField(lib, w) == data && MeaningOfField(lib, w) == ReadNamedField(lib, data).value
    ensures ReadBulkField(lib, data).Ok? ==> StrictField(w) && ReadBulkField(lib, data) == ReadNamedField(lib, data)
  {
    hide ReadU32, PutU32, ReadHeader, PutHeader, HeaderFits, ReadParts, PutParts, PartsFit, PartsOf, TextsOf;
    hide Meanings, Dimension;
    var (version, ptr1) := ReadU32(data).value;
    var (h, ptr2) := ReadHeader(lib, ptr1).value;
    PutReadU32(data);
    var header := PutReadHeader(lib, ptr1);
    var parts := PutReadParts(lib, h.flags, h.size, ptr2);
    w := WireField(version, header, parts, ReadParts(lib, h.flags, h.size, ptr2).value.1);
  }

  lemma BulkFieldIsNamed(lib: Foreign, data: seq<byte>)
    requires ReadBulkField(lib, data).Ok?
    ensures ReadNamedField(lib, data) == ReadBulkField(lib, data)
  {
    hide ReadU32, ReadHeader, ReadParts;
  }

  function BulkFields(lib: Foreign): Format<WireField, Field> {
    Framed(Panics, BulkField(lib))
  }

  function NamedFields(lib: Foreign): Format<WireField, Field> {
    Framed(Rejects, NamedField(lib))
  }

  lemma FieldsCoded(lib: Foreign)
    ensures Sound(BulkFields(lib)) && Complete(BulkFields(lib))
    ensures Sound(NamedFields(lib)) && Complete(NamedFields(lib))
  {
    hide Sound, Complete, Framed, ReadBulkField, ReadNamedField, PutField, FieldFits, MeaningOfField, StrictField;
    var b, n := BulkField(lib), NamedField(lib);
    forall w: WireField | FieldFits(lib, w)
      ensures n.read(n.put(w)) == Ok(n.meaning(w))
      ensures StrictField(w) ==> b.read(b.put(w)) == Ok(b.meaning(w))
    {
      ReadPutField(lib, w);
    }
    forall data: seq<byte> | n.read(data).Ok?
      ensures exists w: WireField :: Holds(n, w, data)
    {
      var w := PutReadField(lib, data);
      assert Holds(n, w, data);
    }
    forall data: seq<byte> | b.read(data).Ok?
      ensures exists w: WireField :: Holds(b, w, data)
    {
      BulkFieldIsNamed(lib, data);
      var w := PutReadField(lib, data);
      assert Holds(b, w, data);
    }
    FramedSound(Panics, b);
    FramedComplete(Panics, b);
    FramedSound(Rejects, n);
    FramedComplete(Rejects, n);
  }

  // ---- Types -------------------------------------------------------------------------------

  datatype WireType = WireType(
    version: u32, header: WireHeader, fields: seq<WireField>, parts: WireParts, enums: seq<WireEnum>,
    trailing: seq<byte>)

  function TypeOf(h: Header, fields: seq<Field>, parts: Parts, enums: Option<seq<EnumInfo>>): Type
  {
    Type(h.texts.name, h.texts.typ, h.texts.comment, h.size, h.bounds, fields, h.baseType, h.flags,
         parts.guid, parts.methods, parts.attributes, enums)
  }

  /** Everything after a type's header. */
  function ReadRest(lib: Foreign, h: Header, fields: Format<WireField, Field>, ptr: seq<byte>): Outcome<Type> {
    var (items, ptr1) :- ReadMany(fields.read, h.subItems, ptr);
    var (parts, ptr2) :- ReadParts(lib, h.flags, h.size, ptr1);
    var (enums, _) :- ReadIf(Flag(h.flags, FLAG_ENUM_INFOS), Enums(lib, h.size, h.baseType).read, ptr2);
    Ok(TypeOf(h, items, parts, enums))
  }

  /** The bulk decoder insists on version 1, and that a type has no offset. */
  function ReadBulkType(lib: Foreign, data: seq<byte>): Outcome<Type> {
    var (version, ptr1) :- ReadU32(data);
    if version != 1 then Fail(BadReply(UnknownVersion, version)) else
    var (h, ptr2) :- ReadHeader(lib, ptr1);
    if h.offset != 0 then Panic else
    ReadRest(lib, h, BulkFields(lib), ptr2)
  }

  function ReadNamedType(lib: Foreign, data: seq<byte>): Outcome<Type> {
    var (_, ptr1) :- ReadU32(data);
    var (h, ptr2) :- ReadHeader(lib, ptr1);
    ReadRest(lib, h, NamedFields(lib), ptr2)
  }

  function PutType(lib: Foreign, w: WireType): seq<byte> {
    PutU32(w.version) + PutHeader(w.header, PutMany(NamedFields(lib).put, w.fields,
    PutParts(lib, w.header.flags, w.header.size, w.parts,
    PutIf(Flag(w.header.flags, FLAG_ENUM_INFOS), Enums(lib, w.header.size, w.header.baseType).put, w.enums,
        w.trailing))))
  }

  predicate TypeFits(lib: Foreign, w: WireType) {
    && HeaderFits(w.header) && w.header.subItems == |w.fields| && AllValid(NamedFields(lib).valid, w.fields)
    && PartsFit(lib, w.header.flags, w.header.size, w.parts)
    && (Flag(w.header.flags, FLAG_ENUM_INFOS) ==> Enums(lib, w.header.size, w.header.baseType).valid(w.enums))
  }

  /** What only the bulk decoder asks for. */
  predicate StrictType(w: WireType) {
    w.version == 1 && w.header.offset == 0 && AllStrict(w.fields)
  }

  function MeaningOfType(lib: Foreign, w: WireType): Type
  {
    TypeOf(HeaderOf(lib, w.header), Meanings(NamedFields(lib).meaning, w.fields), PartsOf(lib, w.header.flags, w.parts),
           MeaningIf(Flag(w.header.flags, FLAG_ENUM_INFOS), Enums(lib, w.header.size, w.header.baseType).meaning,
               w.enums))
  }
}
