/** Type entries that are cut short: where a cut makes the decoder by name fail, panic or succeed. */
module ShortEntries {
  import opened Outcomes
  import opened Bytes
  import opened Formats
  import opened ShortLayouts
  import opened TypeInfo
  import opened TypeSections
  import opened RpcMethods
  import opened TypeEntries

  // ---- Texts and dimensions ----------------------------------------------------------------

  lemma CutText(lib: Foreign, raw: seq<byte>, buffer: nat, rest: seq<byte>, k: nat)
    requires TextFits(raw, buffer) && k <= |raw + rest|
    ensures var cut := (raw + rest)[..k];
            var r := ReadText(lib, |raw| - 1, buffer, cut);
            if k < |raw| then r == Fail(Io) else r == Ok((TextOf(lib, raw), rest[..k - |raw|])) && k - |raw| <= |rest|
  {
    CutFront(raw, rest, k);
    if |raw| <= k {
      ReadPutText(lib, raw, buffer, rest[..k - |raw|]);
    }
  }

  function SizeOfTexts(ws: Texts<seq<byte>>): nat {
    |ws.name| + |ws.typ| + |ws.comment|
  }

  lemma CutTexts(lib: Foreign, ws: Texts<seq<byte>>, buffer: nat, rest: seq<byte>, k: nat)
    requires TextsFit(ws, buffer) && buffer <= 0x1_0000 && k <= |PutTexts(ws, rest)|
    ensures |PutTexts(ws, rest)| == SizeOfTexts(ws) + |rest|
    ensures var cut := PutTexts(ws, rest)[..k];
            var r := ReadTexts(lib, LengthsOf(ws), buffer, cut);
            var n := SizeOfTexts(ws);
            if k < n then r == Fail(Io)
            else r == Ok((TextsOf(lib, ws), rest[..k - n])) && cut == PutTexts(ws, rest[..k - n])
  {
    hide ReadText, TextOf;
    var t1 := ws.typ + (ws.comment + rest);
    CutText(lib, ws.name, buffer, t1, k);
    CutFront(ws.name, t1, k);
    if |ws.name| <= k {
      var k1 := k - |ws.name|;
      CutText(lib, ws.typ, buffer, ws.comment + rest, k1);
      CutFront(ws.typ, ws.comment + rest, k1);
      if |ws.typ| <= k1 {
        CutText(lib, ws.comment, buffer, rest, k1 - |ws.typ|);
        CutFront(ws.comment, rest, k1 - |ws.typ|);
      }
    }
  }

  lemma CutLengths(ws: Texts<seq<byte>>, rest: seq<byte>, k: nat)
    requires TextsFit(ws, 0x1_0000) && k <= |PutLengths(ws, rest)|
    ensures |PutLengths(ws, rest)| == 6 + |rest|
    ensures var cut := PutLengths(ws, rest)[..k];
            if k < 6 then ReadLengths(cut) == Fail(Io)
            else ReadLengths(cut) == Ok((LengthsOf(ws), rest[..k - 6])) && cut == PutLengths(ws, rest[..k - 6])
  {
    hide ReadU16, PutU16;
    var t2 := PutU16(|ws.comment| - 1) + rest;
    var t1 := PutU16(|ws.typ| - 1) + t2;
    CutU16(|ws.name| - 1, t1, k);
    CutFront(PutU16(|ws.name| - 1), t1, k);
    if 2 <= k {
      CutU16(|ws.typ| - 1, t2, k - 2);
      CutFront(PutU16(|ws.typ| - 1), t2, k - 2);
      if 4 <= k {
        CutU16(|ws.comment| - 1, rest, k - 4);
        CutFront(PutU16(|ws.comment| - 1), rest, k - 4);
      }
    }
  }

  function DimensionCut(): Cutting<(i32, i32)> {
    Cutting((w: (i32, i32)) => 8, (w: (i32, i32), k) => false)
  }

  lemma DimensionCuts()
    ensures Cuts(Dimension(), DimensionCut())
  {
    hide ReadI32, PutI32;
    var f, c := Dimension(), DimensionCut();
    forall w: (i32, i32), rest: seq<byte>, k: nat | f.valid(w) && k <= |f.put(w, rest)|
      ensures CutAt(f, c, w, rest, k)
    {
      var t := PutI32(w.1) + rest;
      CutI32(w.0, t, k);
      CutFront(PutI32(w.0), t, k);
      if 4 <= k {
        CutI32(w.1, rest, k - 4);
        CutFront(PutI32(w.1), rest, k - 4);
      }
    }
  }

  lemma {:induction false} DimensionsTake(ws: seq<(i32, i32)>)
    ensures SizeOfAll(DimensionCut().size, ws) == 8 * |ws|
  {
    if ws != [] {
      DimensionsTake(ws[1..]);
    }
  }

  // ---- Headers -----------------------------------------------------------------------------

  function SizeOfHeader(w: WireHeader): nat {
    34 + SizeOfTexts(w.texts) + 8 * |w.dimensions|
  }

  /** What a header ends with: lengths, counts, texts and dimensions. */
  function ReadTail(lib: Foreign, ptr: seq<byte>): Outcome<((u16, Texts<string>, seq<(i32, i32)>), seq<byte>)> {
    var (lengths, ptr1) :- ReadLengths(ptr);
    var (dimensions, ptr2) :- ReadU16(ptr1);
    var (subItems, ptr3) :- ReadU16(ptr2);
    var (texts, ptr4) :- ReadTexts(lib, lengths, TYPE_BUFFER, ptr3);
    var (bounds, rest) :- ReadMany(Dimension().read, dimensions, ptr4);
    Ok(((subItems, texts, bounds), rest))
  }

  function PutTail(w: WireHeader, rest: seq<byte>): seq<byte> {
    PutLengths(w.texts, PutLength16(|w.dimensions|) + (PutU16(w.subItems)
    + PutTexts(w.texts, PutMany(Dimension().put, w.dimensions, rest))))
  }

  lemma CutTail(lib: Foreign, w: WireHeader, rest: seq<byte>, k: nat)
    requires HeaderFits(w) && k <= |PutTail(w, rest)|
    ensures |PutTail(w, rest)| == SizeOfHeader(w) - 24 + |rest|
    ensures var r := ReadTail(lib, PutTail(w, rest)[..k]);
            var h := HeaderOf(lib, w);
            var n := SizeOfHeader(w) - 24;
            if k < n then r == Fail(Io) else r == Ok(((h.subItems, h.texts, h.bounds), rest[..k - n]))
  {
    hide ReadU16, PutU16, PutLength16, ReadLengths, PutLengths, ReadTexts, PutTexts, TextsOf;
    hide Dimension, ReadMany, PutMany, Meanings, AllValid, SizeOfTexts, SizeOfAll, Sound, Complete, Cuts;
    var t9 := PutMany(Dimension().put, w.dimensions, rest);
    var t8 := PutTexts(w.texts, t9);
    var t7 := PutU16(w.subItems) + t8;
    var t6 := PutLength16(|w.dimensions|) + t7;
    DimensionCoded();
    DimensionCuts();
    DimensionsTake(w.dimensions);
    ManyCuts(Dimension(), DimensionCut(), w.dimensions, rest, 0);
    CutTexts(lib, w.texts, TYPE_BUFFER, t9, 0);
    CutLengths(w.texts, t6, k);
    if 6 <= k {
      CutLength16(|w.dimensions|, t7, k - 6);
    }
    if 8 <= k {
      CutU16(w.subItems, t8, k - 8);
    }
    if 10 <= k {
      CutTexts(lib, w.texts, TYPE_BUFFER, t9, k - 10);
    }
    if 10 + SizeOfTexts(w.texts) <= k {
      var k9 := k - 10 - SizeOfTexts(w.texts);
      NoItemPanics(DimensionCut(), w.dimensions, k9);
      ManyCuts(Dimension(), DimensionCut(), w.dimensions, rest, k9);
      if 8 * |w.dimensions| <= k9 {
        ManySound(Dimension(), w.dimensions, rest[..k9 - 8 * |w.dimensions|]);
      }
    }
  }

  lemma CutHeader(lib: Foreign, w: WireHeader, rest: seq<byte>, k: nat)
    requires HeaderFits(w) && k <= |PutHeader(w, rest)|
    ensures |PutHeader(w, rest)| == SizeOfHeader(w) + |rest|
    ensures var r := ReadHeader(lib, PutHeader(w, rest)[..k]);
            if k < SizeOfHeader(w) then r == Fail(Io) else r == Ok((HeaderOf(lib, w), rest[..k - SizeOfHeader(w)]))
  {
    hide ReadU16, ReadU32, PutU16, PutU32, Take, PutLength16, ReadLengths, PutLengths, ReadTexts, PutTexts, TextsOf;
    hide Dimension, ReadMany, PutMany, Meanings, AllValid, SizeOfTexts;
    var t5 := PutTail(w, rest);
    var t4 := PutU32(w.flags) + t5;
    var t3 := PutU32(w.baseType) + t4;
    var t2 := PutU32(w.offset) + t3;
    CutBytes(w.identity, PutU32(w.size) + t2, k);
    CutTail(lib, w, rest, 0);
    if 8 <= k {
      CutU32(w.size, t2, k - 8);
    }
    if 12 <= k {
      CutU32(w.offset, t3, k - 12);
    }
    if 16 <= k {
      CutU32(w.baseType, t4, k - 16);
    }
    if 20 <= k {
      CutU32(w.flags, t5, k - 20);
    }
    if 24 <= k {
      CutTail(lib, w, rest, k - 24);
    }
  }

  // ---- Sections ----------------------------------------------------------------------------

  lemma GuidCuts()
    ensures Cuts(Guid(), RawCut())
  {
    hide GuidText, Take;
    var f, c := Guid(), RawCut();
    forall g: seq<byte>, rest: seq<byte>, k: nat | f.valid(g) && k <= |f.put(g, rest)|
      ensures CutAt(f, c, g, rest, k)
    {
      CutBytes(g, rest, k);
      CutFront(g, rest, k);
    }
  }

  function AttributeCut(): Cutting<WireAttribute> {
    Cutting((w: WireAttribute) => 2 + |w.name| + |w.value|, (w: WireAttribute, k) => false)
  }

  lemma AttributeCuts(lib: Foreign)
    ensures Cuts(AttributeFormat(lib), AttributeCut())
  {
    hide ReadU8, PutLength8, ReadText, TextOf;
    var f, c := AttributeFormat(lib), AttributeCut();
    forall w: WireAttribute, rest: seq<byte>, k: nat | f.valid(w) && k <= |f.put(w, rest)|
      ensures CutAt(f, c, w, rest, k)
    {
      var t2 := w.name + (w.value + rest);
      var t1 := PutLength8(|w.value| - 1) + t2;
      CutU8(|w.name| - 1, t1, k);
      CutFront(PutLength8(|w.name| - 1), t1, k);
      if 1 <= k {
        CutU8(|w.value| - 1, t2, k - 1);
        CutFront(PutLength8(|w.value| - 1), t2, k - 1);
      }
      if 2 <= k {
        CutText(lib, w.name, 256, w.value + rest, k - 2);
        CutFront(w.name, w.value + rest, k - 2);
      }
      if 2 + |w.name| <= k {
        CutText(lib, w.value, 256, rest, k - 2 - |w.name|);
        CutFront(w.value, rest, k - 2 - |w.name|);
      }
    }
  }

  function EnumCut(): Cutting<WireEnum> {
    Cutting((w: WireEnum) => 1 + |w.name| + |w.raw|, (w: WireEnum, k) => false)
  }

  lemma EnumCuts(lib: Foreign, size: nat, baseType: u32)
    ensures Cuts(EnumFormat(lib, size, baseType), EnumCut())
  {
    hide ReadU8, PutLength8, ReadText, TextOf, Take, EnumValue;
    var f, c := EnumFormat(lib, size, baseType), EnumCut();
    forall w: WireEnum, rest: seq<byte>, k: nat | f.valid(w) && k <= |f.put(w, rest)|
      ensures CutAt(f, c, w, rest, k)
    {
      var t := w.name + (w.raw + rest);
      CutU8(|w.name| - 1, t, k);
      CutFront(PutLength8(|w.name| - 1), t, k);
      if 1 <= k {
        CutText(lib, w.name, 256, w.raw + rest, k - 1);
        CutFront(w.name, w.raw + rest, k - 1);
      }
      if 1 + |w.name| <= k {
        CutBytes(w.raw, rest, k - 1 - |w.name|);
        CutFront(w.raw, rest, k - 1 - |w.name|);
      }
    }
  }

  function MethodsCut(lib: Foreign): Cutting<seq<WireMethod>> {
    CountedCut(FramedCut(MethodBody(lib)))
  }

  lemma SectionsCut(lib: Foreign)
    ensures Cuts(Methods(lib), MethodsCut(lib)) && Cuts(Attributes(lib), CountedCut(AttributeCut()))
  {
    hide Cuts, Sound, Complete, Framed, FramedCut, Counted, CountedCut, ReadMethod, PutMethod, MethodFits, MethodOf;
    MethodFormatCoded(lib);
    FramedCuts(Rejects, MethodBody(lib));
    CountedCuts(Framed(Rejects, MethodBody(lib)), FramedCut(MethodBody(lib)));
    hide AttributeFormat, AttributeCut;
    AttributeSound(lib);
    AttributeCuts(lib);
    CountedCuts(AttributeFormat(lib), AttributeCut());
  }

  function GuidSize(flags: u32, w: WireParts): nat {
    SizeIf(Flag(flags, FLAG_GUID), RawCut(), w.guid)
  }

  function MaskSize(flags: u32, w: WireParts): nat {
    SizeIf(Flag(flags, FLAG_COPY_MASK), RawCut(), w.mask)
  }

  function MethodsSize(lib: Foreign, flags: u32, w: WireParts): nat {
    SizeIf(Flag(flags, FLAG_METHOD_INFOS), MethodsCut(lib), w.methods)
  }

  function AttributesSize(flags: u32, w: WireParts): nat {
    SizeIf(Flag(flags, FLAG_ATTRIBUTES), CountedCut(AttributeCut()), w.attributes)
  }

  function SizeOfParts(lib: Foreign, flags: u32, w: WireParts): nat {
    GuidSize(flags, w) + MaskSize(flags, w) + MethodsSize(lib, flags, w) + AttributesSize(flags, w)
  }

  /** A cut inside the sections panics only inside one of the methods. */
  predicate PartsPanic(lib: Foreign, flags: u32, w: WireParts, k: nat) {
    var start := GuidSize(flags, w) + MaskSize(flags, w);
    start <= k < start + MethodsSize(lib, flags, w) && MethodsCut(lib).panics(w.methods, k - start)
  }

  lemma BytesNeverPanic(bytes: seq<byte>, k: nat)
    ensures !RawCut().panics(bytes, k)
  {
  }

  lemma AttributesNeverPanic(ws: seq<WireAttribute>, k: nat)
    ensures !CountedCut(AttributeCut()).panics(ws, k)
  {
    if 2 <= k {
      NoItemPanics(AttributeCut(), ws, k - 2);
    }
  }

  lemma PartsTake(lib: Foreign, flags: u32, size: nat, w: WireParts, rest: seq<byte>)
    requires PartsFit(lib, flags, size, w)
    ensures |PutParts(lib, flags, size, w, rest)| == SizeOfParts(lib, flags, w) + |rest|
  {
    hide PutIf, Flag, Methods, Attributes, Guid, Cuts, MethodsCut, CountedCut, RawCut, SizeIf;
    var t3 := PutIf(Flag(flags, FLAG_ATTRIBUTES), Attributes(lib).put, w.attributes, rest);
    var t2 := PutIf(Flag(flags, FLAG_METHOD_INFOS), Methods(lib).put, w.methods, t3);
    var t1 := PutIf(Flag(flags, FLAG_COPY_MASK), Raw(size).put, w.mask, t2);
    GuidCuts();
    RawCuts(size);
    SectionsCut(lib);
    IfCuts(Flag(flags, FLAG_GUID), Guid(), RawCut(), w.guid, t1, 0);
    IfCuts(Flag(flags, FLAG_COPY_MASK), Raw(size), RawCut(), w.mask, t2, 0);
    IfCuts(Flag(flags, FLAG_METHOD_INFOS), Methods(lib), MethodsCut(lib), w.methods, t3, 0);
    IfCuts(Flag(flags, FLAG_ATTRIBUTES), Attributes(lib), CountedCut(AttributeCut()), w.attributes, rest, 0);
  }

  /** Sections cut at byte `k`: inside them the decoder fails or panics, behind them they are read. */
  lemma CutParts(lib: Foreign, flags: u32, size: nat, w: WireParts, rest: seq<byte>, k: nat)
    requires PartsFit(lib, flags, size, w) && k <= |PutParts(lib, flags, size, w, rest)|
    ensures |PutParts(lib, flags, size, w, rest)| == SizeOfParts(lib, flags, w) + |rest|
    ensures var r := ReadParts(lib, flags, size, PutParts(lib, flags, size, w, rest)[..k]);
            var n := SizeOfParts(lib, flags, w);
            if k < n then r == CutShort(PartsPanic(lib, flags, w, k))
                else r == Ok((PartsOf(lib, flags, w), rest[..k - n]))
  {
    hide ReadIf, PutIf, Flag, Methods, Attributes, Guid, Cuts, Sound, Complete, MeaningIf, MethodsCut, CountedCut;
    hide RawCut, SizeIf;
    var t3 := PutIf(Flag(flags, FLAG_ATTRIBUTES), Attributes(lib).put, w.attributes, rest);
    var t2 := PutIf(Flag(flags, FLAG_METHOD_INFOS), Methods(lib).put, w.methods, t3);
    var t1 := PutIf(Flag(flags, FLAG_COPY_MASK), Raw(size).put, w.mask, t2);
    GuidCoded();
    GuidCuts();
    RawSound(size);
    RawCuts(size);
    MethodsCoded(lib);
    AttributesCoded(lib);
    SectionsCut(lib);
    BytesNeverPanic(w.guid, k);
    PartsTake(lib, flags, size, w, rest);
    var g, m, s := GuidSize(flags, w), MaskSize(flags, w), MethodsSize(lib, flags, w);
    CutSection(Flag(flags, FLAG_GUID), Guid(), RawCut(), w.guid, t1, k);
    if g <= k {
      BytesNeverPanic(w.mask, k - g);
      CutSection(Flag(flags, FLAG_COPY_MASK), Raw(size), RawCut(), w.mask, t2, k - g);
    }
    if g + m <= k {
      CutSection(Flag(flags, FLAG_METHOD_INFOS), Methods(lib), MethodsCut(lib), w.methods, t3, k - g - m);
    }
    if g + m + s <= k {
      var k3 := k - g - m - s;
      AttributesNeverPanic(w.attributes, k3);
      CutSection(Flag(flags, FLAG_ATTRIBUTES), Attributes(lib), CountedCut(AttributeCut()), w.attributes, rest, k3);
    }
  }

  // ---- Types -------------------------------------------------------------------------------

  function FieldCut(lib: Foreign): Cutting<WireField> {
    FramedCut(NamedField(lib))
  }

  function EnumsSize(w: WireType): nat {
    SizeIf(Flag(w.header.flags, FLAG_ENUM_INFOS), CountedCut(EnumCut()), w.enums)
  }

  function FieldsStart(w: WireType): nat {
    4 + SizeOfHeader(w.header)
  }

  function PartsStart(lib: Foreign, w: WireType): nat {
    FieldsStart(w) + SizeOfAll(FieldCut(lib).size, w.fields)
  }

  /** The bytes of an entry that are looked at, without those that trail. */
  function ContentSize(lib: Foreign, w: WireType): nat {
    PartsStart(lib, w) + SizeOfParts(lib, w.header.flags, w.parts) + EnumsSize(w)
  }

  predicate TypePanics(lib: Foreign, w: WireType, k: nat) {
    var fields, parts := FieldsStart(w), PartsStart(lib, w);
    || (fields <= k < parts && SomePanics(FieldCut(lib), w.fields, k - fields))
    || (parts <= k < parts + SizeOfParts(lib, w.header.flags, w.parts)
        && PartsPanic(lib, w.header.flags, w.parts, k - parts))
  }

  lemma FieldsCut(lib: Foreign)
    ensures Cuts(NamedFields(lib), FieldCut(lib))
  {
    hide Framed, FramedCut, Cuts, NamedField;
    FramedCuts(Rejects, NamedField(lib));
  }

  lemma EnumsCut(lib: Foreign, size: nat, baseType: u32)
    ensures Cuts(Enums(lib, size, baseType), CountedCut(EnumCut()))
  {
    hide Cuts, Sound, EnumFormat, EnumCut, Counted, CountedCut;
    EnumSound(lib, size, baseType);
    EnumCuts(lib, size, baseType);
    CountedCuts(EnumFormat(lib, size, baseType), EnumCut());
  }

  lemma EnumsNeverPanic(ws: seq<WireEnum>, k: nat)
    ensures !CountedCut(EnumCut()).panics(ws, k)
  {
    if 2 <= k {
      NoItemPanics(EnumCut(), ws, k - 2);
    }
  }

  /** The layout behind a header, and its last section. */
  function EnumsOf(lib: Foreign, w: WireType): seq<byte> {
    PutIf(Flag(w.header.flags, FLAG_ENUM_INFOS), Enums(lib, w.header.size, w.header.baseType).put, w.enums, w.trailing)
  }

  function SectionsOf(lib: Foreign, w: WireType): seq<byte> {
    PutParts(lib, w.header.flags, w.header.size, w.parts, EnumsOf(lib, w))
  }

  function FieldsOf(lib: Foreign, w: WireType): seq<byte> {
    PutMany(NamedFields(lib).put, w.fields, SectionsOf(lib, w))
  }

  lemma CutRest(lib: Foreign, w: WireType, k: nat)
    requires TypeFits(lib, w) && k <= |FieldsOf(lib, w)|
    ensures |FieldsOf(lib, w)| == ContentSize(lib, w) - FieldsStart(w) + |w.trailing|
    ensures var r := ReadRest(lib, HeaderOf(lib, w.header), NamedFields(lib), FieldsOf(lib, w)[..k]);
            if FieldsStart(w) + k < ContentSize(lib, w) then r == CutShort(TypePanics(lib, w, FieldsStart(w) + k))
            else r == Ok(MeaningOfType(lib, w))
  {
    hide ReadMany, PutMany, Meanings, NamedFields, HeaderFits, AllValid, ReadParts, PutParts, PartsFit, PartsOf;
    hide PartsPanic;
    hide Enums, ReadIf, PutIf, MeaningIf, Flag, TextsOf, Sound, Complete, Cuts, FieldCut, CountedCut, SizeOfParts;
    hide SizeIf;
    hide SizeOfAll, SomePanics, SizeOfHeader;
    var h := w.header;
    var enums, sections := EnumsOf(lib, w), SectionsOf(lib, w);
    var n, p := SizeOfAll(FieldCut(lib).size, w.fields), SizeOfParts(lib, h.flags, w.parts);
    FieldsCoded(lib);
    FieldsCut(lib);
    ManyCuts(NamedFields(lib), FieldCut(lib), w.fields, sections, k);
    PartsTake(lib, h.flags, h.size, w.parts, enums);
    EnumsCoded(lib, h.size, h.baseType);
    EnumsCut(lib, h.size, h.baseType);
    CutSection(Flag(h.flags, FLAG_ENUM_INFOS), Enums(lib, h.size, h.baseType), CountedCut(EnumCut()), w.enums,
        w.trailing, 0);
    if n <= k {
      ManySound(NamedFields(lib), w.fields, sections[..k - n]);
      CutParts(lib, h.flags, h.size, w.parts, enums, k - n);
    }
    if n + p <= k {
      var k2 := k - n - p;
      EnumsNeverPanic(w.enums, k2);
      CutSection(Flag(h.flags, FLAG_ENUM_INFOS), Enums(lib, h.size, h.baseType), CountedCut(EnumCut()), w.enums,
          w.trailing, k2);
    }
  }

  /** Exactly what the decoder by name makes of an entry that was cut at byte `k`. */
  lemma CutType(lib: Foreign, w: WireType, k: nat)
    requires TypeFits(lib, w) && k <= |PutType(lib, w)|
    ensures |PutType(lib, w)| == ContentSize(lib, w) + |w.trailing|
    ensures ReadNamedType(lib, PutType(lib, w)[..k])
         == if k < ContentSize(lib, w) then CutShort(TypePanics(lib, w, k)) else Ok(MeaningOfType(lib, w))
  {
    hide ReadU32, PutU32, ReadHeader, PutHeader, ReadRest, PutMany, NamedFields, PutParts, PutIf, MeaningOfType;
    hide SizeOfHeader;
    hide ContentSize, TypePanics;
    var body := PutHeader(w.header, FieldsOf(lib, w));
    CutU32(w.version, body, k);
    CutRest(lib, w, 0);
    CutHeader(lib, w.header, FieldsOf(lib, w), 0);
    CutsBefore(lib, w, k);
    if 4 <= k {
      CutHeader(lib, w.header, FieldsOf(lib, w), k - 4);
    }
    if FieldsStart(w) <= k {
      CutRest(lib, w, k - FieldsStart(w));
    }
  }

  lemma CutsBefore(lib: Foreign, w: WireType, k: nat)
    ensures FieldsStart(w) <= PartsStart(lib, w) <= ContentSize(lib, w)
    ensures k < FieldsStart(w) ==> !TypePanics(lib, w, k)
  {
  }

  // ---- Where a cut panics ------------------------------------------------------------------

  /** The sizes of framed field and method entries, with their lengths. */
  function FieldSizes(lib: Foreign, ws: seq<WireField>): (r: seq<nat>)
    ensures |r| == |ws| && forall i :: 0 <= i < |r| ==> r[i] == 4 + |PutField(lib, ws[i])|
  {
    seq(|ws|, i requires 0 <= i < |ws| => 4 + |PutField(lib, ws[i])|)
  }

  function MethodSizes(lib: Foreign, ws: seq<WireMethod>): (r: seq<nat>)
    ensures |r| == |ws| && forall i :: 0 <= i < |r| ==> r[i] == 4 + |PutMethod(lib, ws[i])|
  {
    seq(|ws|, i requires 0 <= i < |ws| => 4 + |PutMethod(lib, ws[i])|)
  }

  /** Behind the fields, GUID, copy mask and method count. */
  function MethodsStart(lib: Foreign, w: WireType): nat {
    PartsStart(lib, w) + GuidSize(w.header.flags, w.parts) + MaskSize(w.header.flags, w.parts) + 2
  }

  /** Byte `k` of the entry lies in a field or a method, behind its length. */
  ghost predicate InsideFieldOrMethod(lib: Foreign, w: WireType, k: nat) {
    || InsideEntry(FieldSizes(lib, w.fields), k - FieldsStart(w))
    || (Flag(w.header.flags, FLAG_METHOD_INFOS)
        && InsideEntry(MethodSizes(lib, w.parts.methods), k - MethodsStart(lib, w)))
  }

  /** A cut panics exactly inside a field or a method: their lengths are believed before the bytes are there. */
  lemma TypePanicsIff(lib: Foreign, w: WireType, k: nat)
    ensures TypePanics(lib, w, k) <==> InsideFieldOrMethod(lib, w, k)
  {
    hide PutField, PutMethod, Flag, SomePanics, SizeOfHeader;
    var fields, parts, methods := FieldsStart(w), PartsStart(lib, w), MethodsStart(lib, w);
    EntriesPanicIff(NamedField(lib), w.fields, FieldSizes(lib, w.fields), k - fields);
    EntriesPanicIff(MethodBody(lib), w.parts.methods, MethodSizes(lib, w.parts.methods), k - methods);
  }
}
