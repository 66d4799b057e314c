/**
  * What the decoders make of an entry that was laid out, member by member: each member of the result against the
  * member of the layout it comes from.
  */
module EntryMembers {
  import opened Outcomes
  import opened Bytes
  import opened Formats
  import opened TypeInfo
  import opened TypeSections
  import opened RpcMethods
  import opened TypeEntries
  import opened TypeInventory

  /** The text, without the byte that ends it. */
  predicate TextSays(lib: Foreign, text: string, raw: seq<byte>) {
    raw != [] && text == lib.utf8(raw[..|raw| - 1])
  }

  predicate BoundsSay(bounds: seq<(i32, i32)>, dimensions: seq<(i32, i32)>) {
    && |bounds| == |dimensions|
    && forall i :: 0 <= i < |bounds| ==>
         bounds[i].0 == dimensions[i].0 && bounds[i].1 as int == dimensions[i].0 as int + dimensions[i].1 as int - 1
  }

  predicate AttributesSay(lib: Foreign, attributes: seq<Attribute>, ws: seq<WireAttribute>) {
    && |attributes| == |ws|
    && forall i :: 0 <= i < |ws| ==>
         TextSays(lib, attributes[i].name, ws[i].name) && TextSays(lib, attributes[i].value, ws[i].value)
  }

  predicate EnumsSay(lib: Foreign, enums: seq<EnumInfo>, baseType: u32, ws: seq<WireEnum>) {
    && |enums| == |ws|
    && forall i :: 0 <= i < |ws| ==>
         TextSays(lib, enums[i].name, ws[i].name) && EnumValue(lib, ws[i].raw, baseType) == Ok(enums[i].value)
  }

  predicate ParameterSays(lib: Foreign, p: RpcParameter, w: WireParameter) {
    && TextSays(lib, p.name, w.texts.name) && TextSays(lib, p.typ, w.texts.typ)
    && TextSays(lib, p.comment, w.texts.comment)
    && p.size == w.size && p.flags == w.flags
    && (if w.flags / 0x40 % 2 == 1 then AttributesSay(lib, p.attributes, w.attributes) else p.attributes == [])
  }

  predicate MethodSays(lib: Foreign, m: RpcMethod, w: WireMethod) {
    && TextSays(lib, m.name, w.texts.name) && TextSays(lib, m.returnType, w.texts.typ)
    && TextSays(lib, m.comment, w.texts.comment)
    && m.returnSize == w.returnSize
    && |m.parameters| == |w.parameters|
    && (forall i :: 0 <= i < |w.parameters| ==> ParameterSays(lib, m.parameters[i], w.parameters[i]))
    && (if w.flags / 0x08 % 2 == 1 then AttributesSay(lib, m.attributes, w.attributes) else m.attributes == [])
  }

  predicate MethodsSay(lib: Foreign, methods: seq<RpcMethod>, ws: seq<WireMethod>) {
    |methods| == |ws| && forall i :: 0 <= i < |ws| ==> MethodSays(lib, methods[i], ws[i])
  }

  /** A field: name, type name and comment as laid out; an offset of all ones means placed elsewhere. */
  predicate FieldSays(lib: Foreign, f: Field, w: WireField) {
    && TextSays(lib, f.name, w.header.texts.name) && TextSays(lib, f.typ, w.header.texts.typ)
    && TextSays(lib, f.comment, w.header.texts.comment)
    && f.offset == (if w.header.offset == 0xFFFF_FFFF then None else Some(w.header.offset))
    && f.size == w.header.size && f.baseType == w.header.baseType && f.flags == w.header.flags
    && BoundsSay(f.bounds, w.header.dimensions)
    && (if w.header.flags / 0x1000 % 2 == 1
        then f.attributes.Some? && AttributesSay(lib, f.attributes.value, w.parts.attributes)
        else f.attributes == None)
  }

  predicate FieldsSay(lib: Foreign, fields: seq<Field>, ws: seq<WireField>) {
    |fields| == |ws| && forall i :: 0 <= i < |ws| ==> FieldSays(lib, fields[i], ws[i])
  }

  /** A type, with every section that its flags select. */
  predicate TypeSays(lib: Foreign, t: Type, w: WireType) {
    && TextSays(lib, t.name, w.header.texts.name) && TextSays(lib, t.typeName, w.header.texts.typ)
    && TextSays(lib, t.comment, w.header.texts.comment)
    && t.size == w.header.size && t.baseType == w.header.baseType && t.flags == w.header.flags
    && BoundsSay(t.bounds, w.header.dimensions)
    && FieldsSay(lib, t.fields, w.fields)
    && (if t.flags / 0x80 % 2 == 1 then |w.parts.guid| == 16 && t.guid == Some(GuidText(w.parts.guid))
        else t.guid == None)
    && (if t.flags / 0x800 % 2 == 1 then t.methods.Some? && MethodsSay(lib, t.methods.value, w.parts.methods)
        else t.methods == None)
    && (if t.flags / 0x1000 % 2 == 1
        then t.attributes.Some? && AttributesSay(lib, t.attributes.value, w.parts.attributes)
        else t.attributes == None)
    && (if t.flags / 0x2000 % 2 == 1 then t.enumInfo.Some? && EnumsSay(lib, t.enumInfo.value, t.baseType, w.enums)
        else t.enumInfo == None)
  }

  predicate SymbolSays(lib: Foreign, s: Symbol, w: WireSymbol) {
    && TextSays(lib, s.name, w.name) && TextSays(lib, s.typ, w.typ)
    && s.ixGroup == w.ixGroup && s.ixOffset == w.ixOffset
    && s.size == w.size && s.baseType == w.baseType && s.flags == w.flags
  }

  // ---- That is what is read ----------------------------------------------------------------

  lemma AttributeMembers(lib: Foreign, ws: seq<WireAttribute>)
    requires Attributes(lib).valid(ws)
    ensures AttributesSay(lib, Attributes(lib).meaning(ws), ws)
  {
  }

  lemma EnumMembers(lib: Foreign, size: nat, baseType: u32, ws: seq<WireEnum>)
    requires Enums(lib, size, baseType).valid(ws)
    ensures EnumsSay(lib, Enums(lib, size, baseType).meaning(ws), baseType, ws)
  {
    hide EnumValue;
  }

  lemma HeaderMembers(lib: Foreign, w: WireHeader)
    requires HeaderFits(w)
    ensures var h := HeaderOf(lib, w);
            && TextSays(lib, h.texts.name, w.texts.name) && TextSays(lib, h.texts.typ, w.texts.typ)
            && TextSays(lib, h.texts.comment, w.texts.comment)
            && h.size == w.size && h.offset == w.offset && h.baseType == w.baseType && h.flags == w.flags
            && BoundsSay(h.bounds, w.dimensions)
  {
  }

  lemma ParameterMembers(lib: Foreign, w: WireParameter)
    requires ParameterFits(lib, w)
    ensures ParameterSays(lib, ParameterOf(lib, w), w)
  {
    hide Attributes;
    if w.flags / 0x40 % 2 == 1 {
      AttributeMembers(lib, w.attributes);
    }
  }

  lemma MethodMembers(lib: Foreign, w: WireMethod)
    requires MethodFits(lib, w)
    ensures MethodSays(lib, MethodOf(lib, w), w)
  {
    hide Attributes, PutParameter;
    if w.flags / 0x08 % 2 == 1 {
      AttributeMembers(lib, w.attributes);
    }
    forall i | 0 <= i < |w.parameters|
      ensures ParameterSays(lib, MethodOf(lib, w).parameters[i], w.parameters[i])
    {
      assert ParameterFormat(lib).valid(w.parameters[i]);
      ParameterMembers(lib, w.parameters[i]);
    }
  }

  lemma MethodsMembers(lib: Foreign, ws: seq<WireMethod>)
    requires Methods(lib).valid(ws)
    ensures MethodsSay(lib, Methods(lib).meaning(ws), ws)
  {
    hide MethodFits, MethodOf, PutMethod, MethodSays;
    forall i | 0 <= i < |ws|
      ensures MethodSays(lib, Methods(lib).meaning(ws)[i], ws[i])
    {
      assert Framed(Rejects, MethodBody(lib)).valid(ws[i]);
      MethodMembers(lib, ws[i]);
    }
  }

  /** Every field that is laid out is read with each member where it belongs. */
  lemma FieldMembers(lib: Foreign, w: WireField)
    requires FieldFits(lib, w)
    ensures ReadNamedField(lib, PutField(lib, w)).Ok?
    ensures FieldSays(lib, ReadNamedField(lib, PutField(lib, w)).value, w)
    ensures w.version == 1 && w.header.subItems == 0 ==>
              ReadBulkField(lib, PutField(lib, w)) == ReadNamedField(lib, PutField(lib, w))
  {
    hide ReadNamedField, ReadBulkField, PutField, HeaderFits, HeaderOf, Attributes, Methods, Guid, TextSays;
    ReadPutField(lib, w);
    HeaderMembers(lib, w.header);
    if w.header.flags / 0x1000 % 2 == 1 {
      AttributeMembers(lib, w.parts.attributes);
    }
  }

  lemma FieldsMembers(lib: Foreign, ws: seq<WireField>)
    requires AllValid(NamedFields(lib).valid, ws)
    ensures FieldsSay(lib, Meanings(NamedFields(lib).meaning, ws), ws)
  {
    hide FieldFits, ReadNamedField, ReadBulkField, MeaningOfField, PutField, FieldSays;
    forall i | 0 <= i < |ws|
      ensures FieldSays(lib, Meanings(NamedFields(lib).meaning, ws)[i], ws[i])
    {
      assert NamedFields(lib).valid(ws[i]);
      ReadPutField(lib, ws[i]);
      FieldMembers(lib, ws[i]);
    }
  }

  /** The same for whole types, with their fields, sections and enum values, by both decoders. */
  lemma TypeMembers(lib: Foreign, w: WireType)
    requires TypeFits(lib, w)
    ensures ReadNamedType(lib, PutType(lib, w)).Ok?
    ensures TypeSays(lib, ReadNamedType(lib, PutType(lib, w)).value, w)
    ensures ReadBulkType(lib, PutType(lib, w)).Ok? ==>
              ReadBulkType(lib, PutType(lib, w)) == ReadNamedType(lib, PutType(lib, w))
  {
    hide ReadNamedType, ReadBulkType, PutType, HeaderFits, HeaderOf, Attributes, Methods, Enums, NamedFields, AllValid;
    hide Meanings, TextSays, BoundsSay, GuidText, AttributesSay, EnumsSay, MethodsSay, FieldsSay, StrictType;
    ReadPutType(lib, w);
    HeaderMembers(lib, w.header);
    FieldsMembers(lib, w.fields);
    var flags := w.header.flags;
    if flags / 0x800 % 2 == 1 {
      MethodsMembers(lib, w.parts.methods);
    }
    if flags / 0x1000 % 2 == 1 {
      AttributeMembers(lib, w.parts.attributes);
    }
    if flags / 0x2000 % 2 == 1 {
      EnumMembers(lib, w.header.size, w.header.baseType, w.enums);
    }
  }

  lemma SymbolMembers(lib: Foreign, w: WireSymbol)
    requires SymbolFits(w)
    ensures ReadSymbol(lib, PutSymbol(w)).Ok? && SymbolSays(lib, ReadSymbol(lib, PutSymbol(w)).value, w)
  {
    hide ReadSymbol, PutSymbol;
    ReadPutSymbol(lib, w);
  }

  // ---- Whole uploads -----------------------------------------------------------------------

  /** The name a type is laid out with. */
  function WireName(lib: Foreign, w: WireType): string {
    var raw := w.header.texts.name;
    if raw == [] then "" else lib.utf8(raw[..|raw| - 1])
  }

  predicate LastOfName(lib: Foreign, types: seq<WireType>, i: nat)
    requires i < |types|
  {
    forall j :: i < j < |types| ==> WireName(lib, types[j]) != WireName(lib, types[i])
  }

  lemma StrictMembers(lib: Foreign, w: WireType)
    requires TypeFits(lib, w) && StrictType(w)
    ensures TypeSays(lib, MeaningOfType(lib, w), w) && MeaningOfType(lib, w).name == WireName(lib, w)
  {
    hide ReadNamedType, ReadBulkType, PutType, TypeFits, StrictType, MeaningOfType;
    ReadPutType(lib, w);
    TypeMembers(lib, w);
  }

  /**
    * An upload that was laid out decodes to all its symbols in order, and to a map that has, under every name,
    * the last type laid out with it, each with every member where it belongs.
    */
  lemma InventoryMembers(lib: Foreign, symbols: seq<WireSymbol>, types: seq<WireType>)
    requires AllFit(SymbolBody(lib), symbols) && AllFit(BulkType(lib), types)
    ensures var r := DecodeInventory(lib, PutAll(SymbolBody(lib).put, symbols), PutAll(BulkType(lib).put, types));
            && r.Ok? && |r.value.0| == |symbols|
            && (forall i :: 0 <= i < |symbols| ==> SymbolSays(lib, r.value.0[i], symbols[i]))
            && (forall i :: 0 <= i < |types| && LastOfName(lib, types, i) ==>
                  && WireName(lib, types[i]) in r.value.1
                  && TypeSays(lib, r.value.1[WireName(lib, types[i])], types[i]))
  {
    hide PutType, TypeFits, StrictType, MeaningOfType, TypeSays, WireName, ByName, PutSymbol, SymbolFits, SymbolSays;
    InventoryRoundTrip(lib, symbols, types);
    forall i | 0 <= i < |symbols|
      ensures SymbolSays(lib, SymbolOf(lib, symbols[i]), symbols[i])
    {
      assert SymbolBody(lib).valid(symbols[i]);
      ReadPutSymbol(lib, symbols[i]);
      SymbolMembers(lib, symbols[i]);
    }
    var meanings := Meanings(BulkType(lib).meaning, types);
    forall i | 0 <= i < |types|
      ensures TypeSays(lib, meanings[i], types[i]) && meanings[i].name == WireName(lib, types[i])
    {
      assert BulkType(lib).valid(types[i]);
      StrictMembers(lib, types[i]);
    }
    forall i | 0 <= i < |types| && LastOfName(lib, types, i)
      ensures meanings[i].name in ByName(map[], meanings) && ByName(map[], meanings)[meanings[i].name] == meanings[i]
    {
      ByNameIsLast(map[], meanings, meanings[i].name);
      assert LastNamed(meanings, i, meanings[i].name);
    }
  }
}
