/**
  * The type inventory: the round trip of type entries, the bulk decoder against the decoder by
  * name, and the upload of all types and symbols.
  */
module TypeInventory {
  import opened Outcomes
  import opened Bytes
  import opened Formats
  import opened TypeInfo
  import opened TypeSections
  import opened RpcMethods
  import opened TypeEntries

  // ---- Both decoders on one entry ----------------------------------------------------------

  lemma BulkFieldIff(lib: Foreign, w: WireField)
    requires FieldFits(lib, w)
    ensures ReadBulkField(lib, PutField(lib, w)).Ok? <==> StrictField(w)
  {
    hide ReadU32, PutU32, ReadHeader, PutHeader, HeaderFits, ReadParts, PutParts, PartsFit, TextsOf, Meanings;
    hide Dimension;
    hide FieldOf, MeaningOfField;
    ReadPutField(lib, w);
    var t2 := PutParts(lib, w.header.flags, w.header.size, w.parts, w.trailing);
    ReadPutU32(w.version, PutHeader(w.header, t2));
    ReadPutHeader(lib, w.header, t2);
  }

  lemma BulkEntryIff(lib: Foreign, w: WireField, rest: seq<byte>)
    requires NamedFields(lib).valid(w)
    ensures var r := BulkFields(lib).read(NamedFields(lib).put(w, rest));
            (r.Ok? <==> StrictField(w)) && (r.Ok? ==> r.value == (NamedFields(lib).meaning(w), rest))
  {
    hide ReadU32, SplitEntry, PutEntry, ReadBulkField, PutField, FieldFits, MeaningOfField, StrictField;
    SplitPutEntry(Panics, PutField(lib, w), rest);
    BulkFieldIff(lib, w);
    ReadPutField(lib, w);
  }

  lemma BulkFieldsIff(lib: Foreign, ws: seq<WireField>, rest: seq<byte>)
    requires AllValid(NamedFields(lib).valid, ws)
    ensures var r := ReadMany(BulkFields(lib).read, |ws|, PutMany(NamedFields(lib).put, ws, rest));
            && (r.Ok? <==> AllStrict(ws))
            && (r.Ok? ==> r.value == (Meanings(NamedFields(lib).meaning, ws), rest))
  {
    hide NamedFields, BulkFields, StrictField, ReadMany, PutMany, Meanings;
    var strict := (w: WireField) => StrictField(w);
    forall w: WireField, tail: seq<byte> | NamedFields(lib).valid(w)
      ensures var r := BulkFields(lib).read(NamedFields(lib).put(w, tail));
              (r.Ok? <==> strict(w)) && (r.Ok? ==> r.value == (NamedFields(lib).meaning(w), tail))
    {
      BulkEntryIff(lib, w, tail);
    }
    ManyPicks(NamedFields(lib), BulkFields(lib).read, strict, ws, rest);
  }

  /** The tail of a type, after its fields. */
  function PutTail(lib: Foreign, w: WireType): seq<byte> {
    PutParts(lib, w.header.flags, w.header.size, w.parts,
    PutIf(Flag(w.header.flags, FLAG_ENUM_INFOS), Enums(lib, w.header.size, w.header.baseType).put, w.enums, w.trailing))
  }

  lemma ReadPutRest(lib: Foreign, w: WireType, fields: Format<WireField, Field>)
    requires TypeFits(lib, w)
    requires var r := ReadMany(fields.read, |w.fields|, PutMany(NamedFields(lib).put, w.fields, PutTail(lib, w)));
             r.Ok? ==> r.value == (Meanings(NamedFields(lib).meaning, w.fields), PutTail(lib, w))
    ensures var r := ReadRest(lib, HeaderOf(lib, w.header), fields,
            PutMany(NamedFields(lib).put, w.fields, PutTail(lib, w)));
            && (r.Ok? <==> ReadMany(fields.read, |w.fields|,
                PutMany(NamedFields(lib).put, w.fields, PutTail(lib, w))).Ok?)
            && (r.Ok? ==> r.value == MeaningOfType(lib, w))
  {
    hide ReadMany, PutMany, Meanings, NamedFields, HeaderFits, AllValid, ReadParts, PutParts, PartsFit, PartsOf;
    hide Enums, ReadIf, PutIf, MeaningIf, Flag, TextsOf, Sound, Complete;
    var t := PutIf(Flag(w.header.flags, FLAG_ENUM_INFOS), Enums(lib, w.header.size, w.header.baseType).put, w.enums,
        w.trailing);
    ReadPutParts(lib, w.header.flags, w.header.size, w.parts, t);
    EnumsCoded(lib, w.header.size, w.header.baseType);
    IfSound(Flag(w.header.flags, FLAG_ENUM_INFOS), Enums(lib, w.header.size, w.header.baseType), w.enums, w.trailing);
  }

  /**
    * Any entry that is laid out well is read by name as what it means.  The bulk decoder reads it,
    * with the same result, exactly when versions, offset and nested fields are as it insists.
    */
  lemma ReadPutType(lib: Foreign, w: WireType)
    requires TypeFits(lib, w)
    ensures ReadNamedType(lib, PutType(lib, w)) == Ok(MeaningOfType(lib, w))
    ensures ReadBulkType(lib, PutType(lib, w)).Ok? <==> StrictType(w)
    ensures StrictType(w) ==> ReadBulkType(lib, PutType(lib, w)) == Ok(MeaningOfType(lib, w))
  {
    hide ReadU32, PutU32, ReadHeader, PutHeader, ReadMany, PutMany, Meanings, NamedFields, BulkFields, AllValid;
    hide ReadParts, PutParts, PartsFit, PartsOf, Enums, ReadIf, PutIf, MeaningIf, Flag, TextsOf, Sound, Complete;
    hide ReadRest, MeaningOfType;
    var tail := PutTail(lib, w);
    var body := PutMany(NamedFields(lib).put, w.fields, tail);
    ReadPutU32(w.version, PutHeader(w.header, body));
    ReadPutHeader(lib, w.header, body);
    FieldsCoded(lib);
    ManySound(NamedFields(lib), w.fields, tail);
    BulkFieldsIff(lib, w.fields, tail);
    ReadPutRest(lib, w, NamedFields(lib));
    ReadPutRest(lib, w, BulkFields(lib));
  }

  /** Whatever is accepted by name is the layout of an entry, and nothing in it was misread. */
  lemma PutReadType(lib: Foreign, data: seq<byte>) returns (w: WireType)
    requires ReadNamedType(lib, data).Ok?
    ensures TypeFits(lib, w) && PutType(lib, w) == data && MeaningOfType(lib, w) == ReadNamedType(lib, data).value
  {
    hide ReadU32, PutU32, ReadHeader, PutHeader, HeaderFits, ReadMany, PutMany, Meanings, NamedFields, BulkFields;
    hide AllValid;
    hide ReadParts, PutParts, PartsFit, PartsOf, Enums, ReadIf, PutIf, MeaningIf, Flag, TextsOf, Sound, Complete;
    var (version, ptr1) := ReadU32(data).value;
    var (h, ptr2) := ReadHeader(lib, ptr1).value;
    var (items, ptr3) := ReadMany(NamedFields(lib).read, h.subItems, ptr2).value;
    var (parts, ptr4) := ReadParts(lib, h.flags, h.size, ptr3).value;
    PutReadU32(data);
    var header := PutReadHeader(lib, ptr1);
    FieldsCoded(lib);
    var fields := ManyComplete(NamedFields(lib), h.subItems, ptr2);
    var wireParts := PutReadParts(lib, h.flags, h.size, ptr3);
    EnumsCoded(lib, h.size, h.baseType);
    var enums := IfComplete(Flag(h.flags, FLAG_ENUM_INFOS), Enums(lib, h.size, h.baseType), [], ptr4);
    var trailing := ReadIf(Flag(h.flags, FLAG_ENUM_INFOS), Enums(lib, h.size, h.baseType).read, ptr4).value.1;
    w := WireType(version, header, fields, wireParts, enums, trailing);
  }

  lemma {:induction false} BulkFieldsAreNamed(lib: Foreign, count: nat, ptr: seq<byte>)
    requires ReadMany(BulkFields(lib).read, count, ptr).Ok?
    ensures ReadMany(NamedFields(lib).read, count, ptr) == ReadMany(BulkFields(lib).read, count, ptr)
  {
    hide ReadU32, ReadBulkField, ReadNamedField;
    if count > 0 {
      var (length, ptr1) := ReadU32(ptr).value;
      var (entry, rest) := SplitEntry(Panics, length, ptr1).value;
      BulkFieldIsNamed(lib, entry);
      BulkFieldsAreNamed(lib, count - 1, rest);
    }
  }

  /** The bulk decoder refines the decoder by name: what it returns, the other returns for the same bytes. */
  lemma BulkRefinesNamed(lib: Foreign, data: seq<byte>)
    requires ReadBulkType(lib, data).Ok?
    ensures ReadNamedType(lib, data) == ReadBulkType(lib, data)
  {
    hide ReadU32, ReadHeader, ReadMany, NamedFields, BulkFields, ReadParts, Enums, ReadIf, Flag;
    var ptr1 := ReadU32(data).value.1;
    var (h, ptr2) := ReadHeader(lib, ptr1).value;
    BulkFieldsAreNamed(lib, h.subItems, ptr2);
  }

  /** The entry is laid out as these bytes and means this type. */
  predicate LaysOut(lib: Foreign, w: WireType, data: seq<byte>, t: Type) {
    PutType(lib, w) == data && MeaningOfType(lib, w) == t
  }

  /** Precisely which bytes the bulk decoder accepts, and as what. */
  lemma BulkAcceptsIff(lib: Foreign, data: seq<byte>, t: Type)
    ensures ReadBulkType(lib, data) == Ok(t)
       <==> exists w: WireType :: TypeFits(lib, w) && StrictType(w) && LaysOut(lib, w, data, t)
  {
    hide ReadBulkType, ReadNamedType, TypeFits, StrictType, PutType, MeaningOfType;
    if ReadBulkType(lib, data) == Ok(t) {
      BulkRefinesNamed(lib, data);
      var w := PutReadType(lib, data);
      ReadPutType(lib, w);
      assert LaysOut(lib, w, data, t);
    }
    forall w: WireType | TypeFits(lib, w) && StrictType(w) && LaysOut(lib, w, data, t)
      ensures ReadBulkType(lib, data) == Ok(t)
    {
      ReadPutType(lib, w);
    }
  }

  // ---- Symbols -----------------------------------------------------------------------------

  /** `arrayDim` is a legacy word; the comment and everything after it are jumped over. */
  datatype WireSymbol = WireSymbol(
    ixGroup: u32, ixOffset: u32, size: u32, baseType: u32, flags: u16, arrayDim: seq<byte>,
    name: seq<byte>, typ: seq<byte>, commentLength: seq<byte>, trailing: seq<byte>)

  function ReadSymbol(lib: Foreign, data: seq<byte>): Outcome<Symbol> {
    var (ixGroup, ptr1) :- ReadU32(data);
    var (ixOffset, ptr2) :- ReadU32(ptr1);
    var (size, ptr3) :- ReadU32(ptr2);
    var (baseType, ptr4) :- ReadU32(ptr3);
    var (flags, ptr5) :- ReadU16(ptr4);
    var (_, ptr6) :- Take(2, ptr5);
    var (nameLength, ptr7) :- ReadU16(ptr6);
    var (typLength, ptr8) :- ReadU16(ptr7);
    var (_, ptr9) :- Take(2, ptr8);
    var (name, ptr10) :- ReadText(lib, nameLength, TYPE_BUFFER, ptr9);
    var (typ, _) :- ReadText(lib, typLength, TYPE_BUFFER, ptr10);
    Ok(Symbol(name, ixGroup, ixOffset, typ, size, baseType, flags))
  }

  function PutSymbol(w: WireSymbol): seq<byte> {
    PutU32(w.ixGroup) + (PutU32(w.ixOffset) + (PutU32(w.size) + (PutU32(w.baseType) + (PutU16(w.flags) + (w.arrayDim
    + (PutLength16(|w.name| - 1)
        + (PutLength16(|w.typ| - 1) + (w.commentLength + (w.name + (w.typ + w.trailing))))))))))
  }

  predicate SymbolFits(w: WireSymbol) {
    |w.arrayDim| == 2 && |w.commentLength| == 2 && TextFits(w.name, TYPE_BUFFER) && TextFits(w.typ, TYPE_BUFFER)
  }

  function SymbolOf(lib: Foreign, w: WireSymbol): Symbol {
    Symbol(TextOf(lib, w.name), w.ixGroup, w.ixOffset, TextOf(lib, w.typ), w.size, w.baseType, w.flags)
  }

  lemma ReadPutSymbol(lib: Foreign, w: WireSymbol)
    requires SymbolFits(w)
    ensures ReadSymbol(lib, PutSymbol(w)) == Ok(SymbolOf(lib, w))
  {
    hide ReadU16, ReadU32, PutU16, PutU32, Take, PutLength16, ReadText, TextOf;
    var t9 := w.name + (w.typ + w.trailing);
    var t8 := w.commentLength + t9;
    var t7 := PutLength16(|w.typ| - 1) + t8;
    var t6 := PutLength16(|w.name| - 1) + t7;
    var t5 := w.arrayDim + t6;
    var t4 := PutU16(w.flags) + t5;
    var t3 := PutU32(w.baseType) + t4;
    var t2 := PutU32(w.size) + t3;
    ReadPutU32(w.ixGroup, PutU32(w.ixOffset) + t2);
    ReadPutU32(w.ixOffset, t2);
    ReadPutU32(w.size, t3);
    ReadPutU32(w.baseType, t4);
    ReadPutU16(w.flags, t5);
    TakeAppend(w.arrayDim, t6);
    ReadPutLength16(|w.name| - 1, t7);
    ReadPutLength16(|w.typ| - 1, t8);
    TakeAppend(w.commentLength, t9);
    ReadPutText(lib, w.name, TYPE_BUFFER, w.typ + w.trailing);
    ReadPutText(lib, w.typ, TYPE_BUFFER, w.trailing);
  }

  lemma PutReadSymbol(lib: Foreign, data: seq<byte>) returns (w: WireSymbol)
    requires ReadSymbol(lib, data).Ok?
    ensures SymbolFits(w) && PutSymbol(w) == data && SymbolOf(lib, w) == ReadSymbol(lib, data).value
  {
    hide ReadU16, ReadU32, PutU16, PutU32, PutLength16, ReadText, TextOf, TextFits, Take;
    var (ixGroup, ptr1) := ReadU32(data).value;
    var (ixOffset, ptr2) := ReadU32(ptr1).value;
    var (size, ptr3) := ReadU32(ptr2).value;
    var (baseType, ptr4) := ReadU32(ptr3).value;
    var (flags, ptr5) := ReadU16(ptr4).value;
    var (arrayDim, ptr6) := Take(2, ptr5).value;
    var (nameLength, ptr7) := ReadU16(ptr6).value;
    var (typLength, ptr8) := ReadU16(ptr7).value;
    var (commentLength, ptr9) := Take(2, ptr8).value;
    var ptr10 := ReadText(lib, nameLength, TYPE_BUFFER, ptr9).value.1;
    PutReadU32(data);
    PutReadU32(ptr1);
    PutReadU32(ptr2);
    PutReadU32(ptr3);
    PutReadU16(ptr4);
    PutTake(2, ptr5);
    PutTake(2, ptr8);
    PutReadLength16(ptr6);
    PutReadLength16(ptr7);
    var name := PutReadText(lib, nameLength, TYPE_BUFFER, ptr9);
    var typ := PutReadText(lib, typLength, TYPE_BUFFER, ptr10);
    w := WireSymbol(ixGroup, ixOffset, size, baseType, flags, arrayDim, name, typ, commentLength,
                    ReadText(lib, typLength, TYPE_BUFFER, ptr10).value.1);
  }

  // ---- The whole upload --------------------------------------------------------------------

  function BulkType(lib: Foreign): Body<WireType, Type> {
    Body(
      data => ReadBulkType(lib, data),
      w => PutType(lib, w),
      w => TypeFits(lib, w) && StrictType(w),
      w => MeaningOfType(lib, w))
  }

  function SymbolBody(lib: Foreign): Body<WireSymbol, Symbol> {
    Body(data => ReadSymbol(lib, data), w => PutSymbol(w), w => SymbolFits(w), w => SymbolOf(lib, w))
  }

  lemma BodiesCoded(lib: Foreign)
    ensures BodySound(BulkType(lib)) && BodyComplete(BulkType(lib))
    ensures BodySound(SymbolBody(lib)) && BodyComplete(SymbolBody(lib))
  {
    hide ReadBulkType, ReadNamedType, PutType, TypeFits, StrictType, MeaningOfType, ReadSymbol, PutSymbol, SymbolFits;
    hide SymbolOf;
    var t, s := BulkType(lib), SymbolBody(lib);
    forall w: WireType | t.valid(w)
      ensures t.read(t.put(w)) == Ok(t.meaning(w))
    {
      ReadPutType(lib, w);
    }
    forall data: seq<byte> | t.read(data).Ok?
      ensures exists w: WireType :: Holds(t, w, data)
    {
      BulkRefinesNamed(lib, data);
      var w := PutReadType(lib, data);
      ReadPutType(lib, w);
      assert Holds(t, w, data);
    }
    forall w: WireSymbol | s.valid(w)
      ensures s.read(s.put(w)) == Ok(s.meaning(w))
    {
      ReadPutSymbol(lib, w);
    }
    forall data: seq<byte> | s.read(data).Ok?
      ensures exists w: WireSymbol :: Holds(s, w, data)
    {
      var w := PutReadSymbol(lib, data);
      assert Holds(s, w, data);
    }
  }

  /** The types by name; a later type replaces an earlier one. */
  function ByName(done: TypeMap, types: seq<Type>): TypeMap
    decreases |types|
  {
    if types == [] then done else ByName(done[types[0].name := types[0]], types[1..])
  }

  function DecodeInventory(lib: Foreign, symbolData: seq<byte>, typeData: seq<byte>): Outcome<(seq<Symbol>, TypeMap)> {
    var types :- ReadAll(BulkType(lib).read, typeData);
    var symbols :- ReadAll(SymbolBody(lib).read, symbolData);
    Ok((symbols, ByName(map[], types)))
  }

  /** The last type of a name. */
  predicate LastNamed(types: seq<Type>, i: nat, name: string)
    requires i < |types|
  {
    types[i].name == name && forall j :: i < j < |types| ==> types[j].name != name
  }

  predicate HasNamed(types: seq<Type>, name: string) {
    exists i :: 0 <= i < |types| && types[i].name == name
  }

  /** Exactly the names of the types, each with the last type of that name. */
  lemma {:induction false} ByNameIsLast(done: TypeMap, types: seq<Type>, name: string)
    ensures name in ByName(done, types) <==> name in done || HasNamed(types, name)
    ensures forall i :: 0 <= i < |types| && LastNamed(types, i, name) ==>
              name in ByName(done, types) && ByName(done, types)[name] == types[i]
    ensures name in done && !HasNamed(types, name) ==>
              name in ByName(done, types) && ByName(done, types)[name] == done[name]
    decreases |types|
  {
    if types != [] {
      var t, more := types[0], types[1..];
      ByNameIsLast(done[t.name := t], more, name);
      NamedCons(types, name);
      forall i | 0 <= i < |types| && LastNamed(types, i, name)
        ensures name in ByName(done, types) && ByName(done, types)[name] == types[i]
      {
        if i > 0 {
          assert LastNamed(more, i - 1, name);
        } else {
          assert !HasNamed(more, name);
        }
      }
    }
  }

  lemma NamedCons(types: seq<Type>, name: string)
    requires types != []
    ensures HasNamed(types, name) <==> types[0].name == name || HasNamed(types[1..], name)
  {
    assert forall i :: 0 <= i < |types[1..]| ==> types[1..][i] == types[i + 1];
    assert forall i :: 1 <= i < |types| ==> types[i] == types[1..][i - 1];
  }

  /** With distinct names, the map is the list: nothing is lost and nothing is added. */
  lemma ByNameKeepsAll(types: seq<Type>)
    requires forall i, j :: 0 <= i < j < |types| ==> types[i].name != types[j].name
    ensures forall i :: 0 <= i < |types| ==>
            types[i].name in ByName(map[], types) && ByName(map[], types)[types[i].name] == types[i]
    ensures forall name :: name in ByName(map[], types) ==> exists i :: 0 <= i < |types| && types[i].name == name
  {
    forall i | 0 <= i < |types|
      ensures types[i].name in ByName(map[], types) && ByName(map[], types)[types[i].name] == types[i]
    {
      ByNameIsLast(map[], types, types[i].name);
      assert LastNamed(types, i, types[i].name);
    }
    forall name | name in ByName(map[], types)
      ensures exists i :: 0 <= i < |types| && types[i].name == name
    {
      ByNameIsLast(map[], types, name);
    }
  }

  /** Decoding what any types and symbols were laid out as gives the types and symbols. */
  lemma InventoryRoundTrip(lib: Foreign, symbols: seq<WireSymbol>, types: seq<WireType>)
    requires AllFit(SymbolBody(lib), symbols) && AllFit(BulkType(lib), types)
    ensures DecodeInventory(lib, PutAll(SymbolBody(lib).put, symbols), PutAll(BulkType(lib).put, types))
         == Ok((Meanings(SymbolBody(lib).meaning, symbols), ByName(map[], Meanings(BulkType(lib).meaning, types))))
  {
    hide SymbolBody, BulkType, AllFit, BodySound, BodyComplete;
    BodiesCoded(lib);
    AllSound(SymbolBody(lib), symbols);
    AllSound(BulkType(lib), types);
  }

  /** And nothing else is accepted: an upload that decodes is the layout of what it decodes to. */
  lemma InventoryIsLaidOut(lib: Foreign, symbolData: seq<byte>, typeData: seq<byte>)
    returns (symbols: seq<WireSymbol>, types: seq<WireType>)
    requires DecodeInventory(lib, symbolData, typeData).Ok?
    ensures AllFit(SymbolBody(lib), symbols) && AllFit(BulkType(lib), types)
    ensures PutAll(SymbolBody(lib).put, symbols) == symbolData && PutAll(BulkType(lib).put, types) == typeData
    ensures DecodeInventory(lib, symbolData, typeData)
         == Ok((Meanings(SymbolBody(lib).meaning, symbols), ByName(map[], Meanings(BulkType(lib).meaning, types))))
  {
    hide SymbolBody, BulkType, AllFit, BodySound, BodyComplete;
    BodiesCoded(lib);
    symbols := AllComplete(SymbolBody(lib), symbolData);
    types := AllComplete(BulkType(lib), typeData);
  }
}
