/** RPC methods and their parameters: entries with a length, inside type entries. */
module RpcMethods {
  import opened Outcomes
  import opened Bytes
  import opened Formats
  import opened TypeInfo
  import opened TypeSections

  const RPC_BUFFER := 2048

  /** Attributes that are not there count as none. */
  function OrNone(attributes: Option<seq<Attribute>>): seq<Attribute> {
    if attributes.Some? then attributes.value else []
  }

  // ---- Parameters --------------------------------------------------------------------------

  /** `skip1` is the alignment and the data type; `skip2` a reserved word, the GUID and a parameter index. */
  datatype WireParameter = WireParameter(
    size: u32, skip1: seq<byte>, flags: u32, skip2: seq<byte>, texts: Texts<seq<byte>>,
    attributes: seq<WireAttribute>, trailing: seq<byte>)

  function ReadParameter(lib: Foreign, data: seq<byte>): Outcome<RpcParameter> {
    var (size, ptr1) :- ReadU32(data);
    var (_, ptr2) :- Take(8, ptr1);
    var (flags, ptr3) :- ReadU32(ptr2);
    var (_, ptr4) :- Take(22, ptr3);
    var (lengths, ptr5) :- ReadLengths(ptr4);
    var (texts, ptr6) :- ReadTexts(lib, lengths, RPC_BUFFER, ptr5);
    var (attributes, _) :- ReadIf(Flag(flags, PARAMETER_FLAG_ATTRIBUTES), Attributes(lib).read, ptr6);
    Ok(RpcParameter(texts.name, texts.typ, size, flags, texts.comment, OrNone(attributes)))
  }

  function PutParameter(lib: Foreign, w: WireParameter): seq<byte> {
    PutU32(w.size) + (w.skip1 + (PutU32(w.flags) + (w.skip2 + PutLengths(w.texts, PutTexts(w.texts,
    PutIf(Flag(w.flags, PARAMETER_FLAG_ATTRIBUTES), Attributes(lib).put, w.attributes, w.trailing))))))
  }

  predicate ParameterFits(lib: Foreign, w: WireParameter) {
    && |w.skip1| == 8 && |w.skip2| == 22 && TextsFit(w.texts, RPC_BUFFER)
    && (Flag(w.flags, PARAMETER_FLAG_ATTRIBUTES) ==> Attributes(lib).valid(w.attributes))
  }

  function ParameterOf(lib: Foreign, w: WireParameter): RpcParameter {
    var texts := TextsOf(lib, w.texts);
    RpcParameter(texts.name, texts.typ, w.size, w.flags, texts.comment,
                 OrNone(MeaningIf(Flag(w.flags, PARAMETER_FLAG_ATTRIBUTES), Attributes(lib).meaning, w.attributes)))
  }

  function ParameterBody(lib: Foreign): Body<WireParameter, RpcParameter> {
    Body(
      data => ReadParameter(lib, data),
      w => PutParameter(lib, w),
      w => ParameterFits(lib, w),
      w => ParameterOf(lib, w))
  }

  lemma ReadPutParameter(lib: Foreign, w: WireParameter)
    requires ParameterFits(lib, w)
    ensures ReadParameter(lib, PutParameter(lib, w)) == Ok(ParameterOf(lib, w))
  {
    hide ReadU32, PutU32, Take, ReadLengths, PutLengths, ReadTexts, PutTexts, TextsOf, Attributes, ReadIf, PutIf;
    hide MeaningIf, Flag;
    var t6 := PutIf(Flag(w.flags, PARAMETER_FLAG_ATTRIBUTES), Attributes(lib).put, w.attributes, w.trailing);
    var t5 := PutTexts(w.texts, t6);
    var t4 := PutLengths(w.texts, t5);
    var t3 := w.skip2 + t4;
    var t2 := PutU32(w.flags) + t3;
    var t1 := w.skip1 + t2;
    ReadPutU32(w.size, t1);
    TakeAppend(w.skip1, t2);
    ReadPutU32(w.flags, t3);
    TakeAppend(w.skip2, t4);
    ReadPutLengths(w.texts, t5);
    ReadPutTexts(lib, w.texts, RPC_BUFFER, t6);
    AttributesCoded(lib);
    IfSound(Flag(w.flags, PARAMETER_FLAG_ATTRIBUTES), Attributes(lib), w.attributes, w.trailing);
  }

  lemma PutReadParameter(lib: Foreign, data: seq<byte>) returns (w: WireParameter)
    requires ReadParameter(lib, data).Ok?
    ensures ParameterFits(lib, w) && PutParameter(lib, w) == data
            && ParameterOf(lib, w) == ReadParameter(lib, data).value
  {
    hide ReadU32, PutU32, ReadLengths, PutLengths, ReadTexts, PutTexts, TextsOf, Attributes, ReadIf, PutIf, MeaningIf;
    hide Flag;
    var (size, ptr1) := ReadU32(data).value;
    var (skip1, ptr2) := Take(8, ptr1).value;
    var (flags, ptr3) := ReadU32(ptr2).value;
    var (skip2, ptr4) := Take(22, ptr3).value;
    var (lengths, ptr5) := ReadLengths(ptr4).value;
    var (texts, ptr6) := ReadTexts(lib, lengths, RPC_BUFFER, ptr5).value;
    PutReadU32(data);
    PutReadU32(ptr2);
    assert skip1 + ptr2 == ptr1 && skip2 + ptr4 == ptr3;
    AttributesCoded(lib);
    var attributes := IfComplete(Flag(flags, PARAMETER_FLAG_ATTRIBUTES), Attributes(lib), [], ptr6);
    var ws := PutReadTexts(lib, lengths, RPC_BUFFER, ptr5);
    PutReadLengths(ws, ptr4);
    var trailing := ReadIf(Flag(flags, PARAMETER_FLAG_ATTRIBUTES), Attributes(lib).read, ptr6).value.1;
    w := WireParameter(size, skip1, flags, skip2, ws, attributes, trailing);
  }

  function ParameterFormat(lib: Foreign): Format<WireParameter, RpcParameter> {
    Framed(Rejects, ParameterBody(lib))
  }

  lemma ParametersCoded(lib: Foreign)
    ensures Sound(ParameterFormat(lib)) && Complete(ParameterFormat(lib))
  {
    hide Sound, Complete, Framed, ReadParameter, PutParameter, ParameterFits, ParameterOf;
    var b := ParameterBody(lib);
    forall w: WireParameter | b.valid(w)
      ensures b.read(b.put(w)) == Ok(b.meaning(w))
    {
      ReadPutParameter(lib, w);
    }
    forall data: seq<byte> | b.read(data).Ok?
      ensures exists w: WireParameter :: Holds(b, w, data)
    {
      var w := PutReadParameter(lib, data);
      assert Holds(b, w, data);
    }
    FramedSound(Rejects, b);
    FramedComplete(Rejects, b);
  }

  // ---- Methods -----------------------------------------------------------------------------

  /**
    * `skip1` is the version and the v-table index; `skip2` the alignment, a reserved word, the
    * return type's GUID and data type.
    */
  datatype WireMethod = WireMethod(
    skip1: seq<byte>, returnSize: u32, skip2: seq<byte>, flags: u32, texts: Texts<seq<byte>>,
    parameters: seq<WireParameter>, attributes: seq<WireAttribute>, trailing: seq<byte>)

  function ReadMethod(lib: Foreign, data: seq<byte>): Outcome<RpcMethod> {
    var (_, ptr1) :- Take(8, data);
    var (returnSize, ptr2) :- ReadU32(ptr1);
    var (_, ptr3) :- Take(28, ptr2);
    var (flags, ptr4) :- ReadU32(ptr3);
    var (lengths, ptr5) :- ReadLengths(ptr4);
    var (count, ptr6) :- ReadU16(ptr5);
    var (texts, ptr7) :- ReadTexts(lib, lengths, RPC_BUFFER, ptr6);
    var (parameters, ptr8) :- ReadMany(ParameterFormat(lib).read, count, ptr7);
    var (attributes, _) :- ReadIf(Flag(flags, METHOD_FLAG_ATTRIBUTES), Attributes(lib).read, ptr8);
    Ok(RpcMethod(texts.name, texts.typ, returnSize, texts.comment, parameters, OrNone(attributes)))
  }

  function PutMethod(lib: Foreign, w: WireMethod): seq<byte> {
    w.skip1 + (PutU32(w.returnSize) + (w.skip2 + (PutU32(w.flags) + PutLengths(w.texts,
    PutLength16(|w.parameters|) + PutTexts(w.texts, PutMany(ParameterFormat(lib).put, w.parameters,
    PutIf(Flag(w.flags, METHOD_FLAG_ATTRIBUTES), Attributes(lib).put, w.attributes, w.trailing)))))))
  }

  predicate MethodFits(lib: Foreign, w: WireMethod) {
    && |w.skip1| == 8 && |w.skip2| == 28 && TextsFit(w.texts, RPC_BUFFER)
    && |w.parameters| < 0x1_0000 && AllValid(ParameterFormat(lib).valid, w.parameters)
    && (Flag(w.flags, METHOD_FLAG_ATTRIBUTES) ==> Attributes(lib).valid(w.attributes))
  }

  function MethodOf(lib: Foreign, w: WireMethod): RpcMethod {
    var texts := TextsOf(lib, w.texts);
    RpcMethod(texts.name, texts.typ, w.returnSize, texts.comment, Meanings(ParameterFormat(lib).meaning, w.parameters),
              OrNone(MeaningIf(Flag(w.flags, METHOD_FLAG_ATTRIBUTES), Attributes(lib).meaning, w.attributes)))
  }

  function MethodBody(lib: Foreign): Body<WireMethod, RpcMethod> {
    Body(data => ReadMethod(lib, data), w => PutMethod(lib, w), w => MethodFits(lib, w), w => MethodOf(lib, w))
  }

  lemma ReadPutMethod(lib: Foreign, w: WireMethod)
    requires MethodFits(lib, w)
    ensures ReadMethod(lib, PutMethod(lib, w)) == Ok(MethodOf(lib, w))
  {
    hide ReadU16, ReadU32, PutU32, Take, PutLength16, ReadLengths, PutLengths, ReadTexts, PutTexts, TextsOf;
    hide Attributes, ReadIf, PutIf, MeaningIf, Flag, ParameterFormat, ReadMany, PutMany, Meanings, AllValid;
    var t8 := PutIf(Flag(w.flags, METHOD_FLAG_ATTRIBUTES), Attributes(lib).put, w.attributes, w.trailing);
    var t7 := PutMany(ParameterFormat(lib).put, w.parameters, t8);
    var t6 := PutTexts(w.texts, t7);
    var t5 := PutLength16(|w.parameters|) + t6;
    var t4 := PutLengths(w.texts, t5);
    var t3 := PutU32(w.flags) + t4;
    var t2 := w.skip2 + t3;
    var t1 := PutU32(w.returnSize) + t2;
    TakeAppend(w.skip1, t1);
    ReadPutU32(w.returnSize, t2);
    TakeAppend(w.skip2, t3);
    ReadPutU32(w.flags, t4);
    ReadPutLengths(w.texts, t5);
    ReadPutLength16(|w.parameters|, t6);
    ReadPutTexts(lib, w.texts, RPC_BUFFER, t7);
    ParametersCoded(lib);
    ManySound(ParameterFormat(lib), w.parameters, t8);
    AttributesCoded(lib);
    IfSound(Flag(w.flags, METHOD_FLAG_ATTRIBUTES), Attributes(lib), w.attributes, w.trailing);
  }

  lemma PutReadMethod(lib: Foreign, data: seq<byte>) returns (w: WireMethod)
    requires ReadMethod(lib, data).Ok?
    ensures MethodFits(lib, w) && PutMethod(lib, w) == data && MethodOf(lib, w) == ReadMethod(lib, data).value
  {
    hide ReadU16, ReadU32, PutU32, PutU16, PutLength16, ReadLengths, PutLengths, ReadTexts, PutTexts, TextsOf;
    hide Attributes, ReadIf, PutIf, MeaningIf, Flag, ParameterFormat, ReadMany, PutMany, Meanings, AllValid;
    var (skip1, ptr1) := Take(8, data).value;
    var (returnSize, ptr2) := ReadU32(ptr1).value;
    var (skip2, ptr3) := Take(28, ptr2).value;
    var (flags, ptr4) := ReadU32(ptr3).value;
    var (lengths, ptr5) := ReadLengths(ptr4).value;
    var (count, ptr6) := ReadU16(ptr5).value;
    var (texts, ptr7) := ReadTexts(lib, lengths, RPC_BUFFER, ptr6).value;
    var (parameters, ptr8) := ReadMany(ParameterFormat(lib).read, count, ptr7).value;
    assert skip1 + ptr1 == data && skip2 + ptr3 == ptr2;
    PutReadU32(ptr1);
    PutReadU32(ptr3);
    PutReadLength16(ptr5);
    ParametersCoded(lib);
    var params := ManyComplete(ParameterFormat(lib), count, ptr7);
    AttributesCoded(lib);
    var attributes := IfComplete(Flag(flags, METHOD_FLAG_ATTRIBUTES), Attributes(lib), [], ptr8);
    var ws := PutReadTexts(lib, lengths, RPC_BUFFER, ptr6);
    PutReadLengths(ws, ptr4);
    var trailing := ReadIf(Flag(flags, METHOD_FLAG_ATTRIBUTES), Attributes(lib).read, ptr8).value.1;
    w := WireMethod(skip1, returnSize, skip2, flags, ws, params, attributes, trailing);
  }

  function Methods(lib: Foreign): Format<seq<WireMethod>, seq<RpcMethod>> {
    Counted(Framed(Rejects, MethodBody(lib)))
  }

  lemma MethodFormatCoded(lib: Foreign)
    ensures Sound(Framed(Rejects, MethodBody(lib))) && Complete(Framed(Rejects, MethodBody(lib)))
  {
    hide Sound, Complete, Framed, ReadMethod, PutMethod, MethodFits, MethodOf;
    var b := MethodBody(lib);
    forall w: WireMethod | b.valid(w)
      ensures b.read(b.put(w)) == Ok(b.meaning(w))
    {
      ReadPutMethod(lib, w);
    }
    forall data: seq<byte> | b.read(data).Ok?
      ensures exists w: WireMethod :: Holds(b, w, data)
    {
      var w := PutReadMethod(lib, data);
      assert Holds(b, w, data);
    }
    FramedSound(Rejects, b);
    FramedComplete(Rejects, b);
  }

  lemma MethodsCoded(lib: Foreign)
    ensures Sound(Methods(lib)) && Complete(Methods(lib))
  {
    hide Sound, Complete, Framed, Counted, MethodBody;
    MethodFormatCoded(lib);
    CountedSound(Framed(Rejects, MethodBody(lib)));
    CountedComplete(Framed(Rejects, MethodBody(lib)));
  }
}
