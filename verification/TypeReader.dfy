/** The decoders as the source writes them: cursors moved over a buffer, and loops that push. */
module TypeReader {
  import opened Outcomes
  import opened Bytes
  import opened Formats
  import opened TypeInfo
  import opened TypeSections
  import opened RpcMethods
  import opened TypeEntries
  import opened TypeInventory
  import opened TypeReplies

  /** A method that moves a cursor does what a reader says. */
  ghost predicate Agrees<T>(r: Outcome<T>, spec: Outcome<(T, seq<byte>)>, rest: seq<byte>) {
    match spec
    case Ok((value, tail)) => r == Ok(value) && rest == tail
    case Fail(e) => r == Fail(e)
    case Panic => r == Panic
  }

  lemma Nothing<T>(more: Outcome<(seq<T>, seq<byte>)>)
    ensures AddTo([], more) == more
  {
    if more.Ok? {
      assert [] + more.value.0 == more.value.0;
    }
  }

  method TakeText(lib: Foreign, ptr: Cursor, length: nat, buffer: nat) returns (r: Outcome<string>)
    modifies ptr
    ensures Agrees(r, ReadText(lib, length, buffer, old(ptr.data)), ptr.data)
  {
    if length + 1 > buffer {
      return Panic;
    }
    var raw :- ptr.TakeBytes(length + 1);
    r := Ok(lib.utf8(raw[..length]));
  }

  method ParseGuid(ptr: Cursor) returns (r: Outcome<string>)
    modifies ptr
    ensures Agrees(r, Guid().read(old(ptr.data)), ptr.data)
  {
    hide GuidText;
    var g :- ptr.TakeBytes(16);
    r := Ok(GuidText(g));
  }

  method SkipCopyMask(ptr: Cursor, size: nat) returns (r: Outcome<seq<byte>>)
    modifies ptr
    ensures Agrees(r, Raw(size).read(old(ptr.data)), ptr.data)
  {
    r := ptr.TakeBytes(size);
  }

  method ParseAttribute(lib: Foreign, ptr: Cursor) returns (r: Outcome<Attribute>)
    modifies ptr
    ensures Agrees(r, ReadAttribute(lib, old(ptr.data)), ptr.data)
  {
    hide ReadText, ReadU8;
    var nameLength :- ptr.TakeU8();
    var valueLength :- ptr.TakeU8();
    var name :- TakeText(lib, ptr, nameLength, 256);
    var value :- TakeText(lib, ptr, valueLength, 256);
    r := Ok(Attribute(name, value));
  }

  method ParseAttributes(lib: Foreign, ptr: Cursor) returns (r: Outcome<seq<Attribute>>)
    modifies ptr
    ensures Agrees(r, Attributes(lib).read(old(ptr.data)), ptr.data)
  {
    hide ReadU16, ReadAttribute, ReadMany;
    var count :- ptr.TakeU16();
    var attrs: seq<Attribute> := [];
    ghost var read := AttributeFormat(lib).read;
    ghost var all := ReadMany(read, count, ptr.data);
    Nothing(all);
    for i := 0 to count
      invariant all == AddTo(attrs, ReadMany(read, count - i, ptr.data))
    {
      ReadManyStep(read, count - i, ptr.data, attrs);
      var attribute :- ParseAttribute(lib, ptr);
      attrs := attrs + [attribute];
    }
    ReadNothing(read, ptr.data);
    assert attrs + [] == attrs;
    r := Ok(attrs);
  }

  lemma ReadNothing<T>(read: seq<byte> -> Outcome<(T, seq<byte>)>, ptr: seq<byte>)
    ensures ReadMany(read, 0, ptr) == Ok(([], ptr))
  {
  }

  method ParseEnumInfo(lib: Foreign, ptr: Cursor, size: nat, baseType: u32) returns (r: Outcome<EnumInfo>)
    modifies ptr
    ensures Agrees(r, ReadEnum(lib, size, baseType, old(ptr.data)), ptr.data)
  {
    hide ReadText, ReadU8, EnumValue;
    var nameLength :- ptr.TakeU8();
    var name :- TakeText(lib, ptr, nameLength, 256);
    var raw :- ptr.TakeBytes(size);
    var value :- EnumValue(lib, raw, baseType);
    r := Ok(EnumInfo(name, value));
  }

  method ParseEnumInfos(lib: Foreign, ptr: Cursor, size: nat, baseType: u32) returns (r: Outcome<seq<EnumInfo>>)
    modifies ptr
    ensures Agrees(r, Enums(lib, size, baseType).read(old(ptr.data)), ptr.data)
  {
    hide ReadU16, ReadEnum, ReadMany;
    var count :- ptr.TakeU16();
    var enums: seq<EnumInfo> := [];
    ghost var read := EnumFormat(lib, size, baseType).read;
    ghost var all := ReadMany(read, count, ptr.data);
    Nothing(all);
    for i := 0 to count
      invariant all == AddTo(enums, ReadMany(read, count - i, ptr.data))
    {
      ReadManyStep(read, count - i, ptr.data, enums);
      var info :- ParseEnumInfo(lib, ptr, size, baseType);
      enums := enums + [info];
    }
    ReadNothing(read, ptr.data);
    assert enums + [] == enums;
    r := Ok(enums);
  }

  /** The bytes of an entry whose length has been read; the cursor is left behind it. */
  method TakeEntry(ptr: Cursor, short: Short, length: u32) returns (r: Outcome<seq<byte>>)
    modifies ptr
    ensures Agrees(r, SplitEntry(short, length, old(ptr.data)), ptr.data)
    ensures r.Ok? ==> |ptr.data| <= |old(ptr.data)|
  {
    if length < 4 {
      return if short.Rejects? then Fail(BadReply(InvalidEntryLength, length)) else Panic;
    }
    if length - 4 > |ptr.data| {
      return Panic;
    }
    r := Ok(ptr.data[..length - 4]);
    ptr.data := ptr.data[length - 4..];
  }

  method TakeTexts(lib: Foreign, ptr: Cursor, lengths: Texts<u16>, buffer: nat) returns (r: Outcome<Texts<string>>)
    modifies ptr
    ensures Agrees(r, ReadTexts(lib, lengths, buffer, old(ptr.data)), ptr.data)
  {
    hide ReadText;
    var name :- TakeText(lib, ptr, lengths.name, buffer);
    var typ :- TakeText(lib, ptr, lengths.typ, buffer);
    var comment :- TakeText(lib, ptr, lengths.comment, buffer);
    r := Ok(Texts(name, typ, comment));
  }

  method TakeLengths(ptr: Cursor) returns (r: Outcome<Texts<u16>>)
    modifies ptr
    ensures Agrees(r, ReadLengths(old(ptr.data)), ptr.data)
  {
    hide ReadU16;
    var name :- ptr.TakeU16();
    var typ :- ptr.TakeU16();
    var comment :- ptr.TakeU16();
    r := Ok(Texts(name, typ, comment));
  }

  method ParseRpcMethodParameter(lib: Foreign, data: seq<byte>) returns (r: Outcome<RpcParameter>)
    ensures r == ReadParameter(lib, data)
  {
    hide ReadU32, ReadLengths, ReadTexts, Attributes, Flag;
    var ptr := new Cursor(data);
    var size :- ptr.TakeU32();
    var _ :- ptr.TakeBytes(8);
    var flags :- ptr.TakeU32();
    var _ :- ptr.TakeBytes(22);
    var lengths :- TakeLengths(ptr);
    var texts :- TakeTexts(lib, ptr, lengths, RPC_BUFFER);
    var attributes: seq<Attribute> := [];
    if Flag(flags, PARAMETER_FLAG_ATTRIBUTES) {
      attributes :- ParseAttributes(lib, ptr);
    }
    r := Ok(RpcParameter(texts.name, texts.typ, size, flags, texts.comment, attributes));
  }

  method ParseParameters(lib: Foreign, ptr: Cursor, count: nat) returns (r: Outcome<seq<RpcParameter>>)
    modifies ptr
    ensures Agrees(r, ReadMany(ParameterFormat(lib).read, count, old(ptr.data)), ptr.data)
  {
    hide ReadU32, ReadMany, SplitEntry, ReadParameter;
    var parameters: seq<RpcParameter> := [];
    ghost var read := ParameterFormat(lib).read;
    ghost var all := ReadMany(read, count, ptr.data);
    Nothing(all);
    for i := 0 to count
      invariant all == AddTo(parameters, ReadMany(read, count - i, ptr.data))
    {
      ReadManyStep(read, count - i, ptr.data, parameters);
      var length :- ptr.TakeU32();
      var entry :- TakeEntry(ptr, Rejects, length);
      var parameter :- ParseRpcMethodParameter(lib, entry);
      parameters := parameters + [parameter];
    }
    ReadNothing(read, ptr.data);
    assert parameters + [] == parameters;
    r := Ok(parameters);
  }

  method ParseRpcMethod(lib: Foreign, data: seq<byte>) returns (r: Outcome<RpcMethod>)
    ensures r == ReadMethod(lib, data)
  {
    hide ReadU16, ReadU32, ReadLengths, ReadTexts, Attributes, Flag, ReadMany, ParameterFormat;
    var ptr := new Cursor(data);
    var _ :- ptr.TakeBytes(8);
    var returnSize :- ptr.TakeU32();
    var _ :- ptr.TakeBytes(28);
    var flags :- ptr.TakeU32();
    var lengths :- TakeLengths(ptr);
    var count :- ptr.TakeU16();
    var texts :- TakeTexts(lib, ptr, lengths, RPC_BUFFER);
    var parameters :- ParseParameters(lib, ptr, count);
    var attributes: seq<Attribute> := [];
    if Flag(flags, METHOD_FLAG_ATTRIBUTES) {
      attributes :- ParseAttributes(lib, ptr);
    }
    r := Ok(RpcMethod(texts.name, texts.typ, returnSize, texts.comment, parameters, attributes));
  }

  method ParseMethodInfos(lib: Foreign, ptr: Cursor) returns (r: Outcome<seq<RpcMethod>>)
    modifies ptr
    ensures Agrees(r, Methods(lib).read(old(ptr.data)), ptr.data)
  {
    hide ReadU16, ReadU32, ReadMany, SplitEntry, ReadMethod;
    var count :- ptr.TakeU16();
    var methods: seq<RpcMethod> := [];
    ghost var read := Framed(Rejects, MethodBody(lib)).read;
    ghost var all := ReadMany(read, count, ptr.data);
    Nothing(all);
    for i := 0 to count
      invariant all == AddTo(methods, ReadMany(read, count - i, ptr.data))
    {
      ReadManyStep(read, count - i, ptr.data, methods);
      var length :- ptr.TakeU32();
      var entry :- TakeEntry(ptr, Rejects, length);
      var m :- ParseRpcMethod(lib, entry);
      methods := methods + [m];
    }
    ReadNothing(read, ptr.data);
    assert methods + [] == methods;
    r := Ok(methods);
  }

  // ---- Entries -----------------------------------------------------------------------------

  method TakeBounds(ptr: Cursor, count: nat) returns (r: Outcome<seq<(i32, i32)>>)
    modifies ptr
    ensures Agrees(r, ReadMany(Dimension().read, count, old(ptr.data)), ptr.data)
  {
    hide ReadI32, ReadMany;
    var bounds: seq<(i32, i32)> := [];
    ghost var read := Dimension().read;
    ghost var all := ReadMany(read, count, ptr.data);
    Nothing(all);
    for i := 0 to count
      invariant all == AddTo(bounds, ReadMany(read, count - i, ptr.data))
    {
      ReadManyStep(read, count - i, ptr.data, bounds);
      var lower :- ptr.TakeI32();
      var total :- ptr.TakeI32();
      var end: int := (lower as int) + (total as int);
      if !IsI32(end) || !IsI32(end - 1) {
        return Panic;
      }
      bounds := bounds + [(lower, end - 1)];
    }
    ReadNothing(read, ptr.data);
    assert bounds + [] == bounds;
    r := Ok(bounds);
  }

  method TakeHeader(lib: Foreign, ptr: Cursor) returns (r: Outcome<Header>)
    modifies ptr
    ensures Agrees(r, ReadHeader(lib, old(ptr.data)), ptr.data)
  {
    hide ReadU16, ReadU32, ReadLengths, ReadTexts, ReadMany, Dimension;
    var _ :- ptr.TakeBytes(8);
    var size :- ptr.TakeU32();
    var offset :- ptr.TakeU32();
    var baseType :- ptr.TakeU32();
    var flags :- ptr.TakeU32();
    var lengths :- TakeLengths(ptr);
    var arrayDim :- ptr.TakeU16();
    var subItems :- ptr.TakeU16();
    var texts :- TakeTexts(lib, ptr, lengths, TYPE_BUFFER);
    var bounds :- TakeBounds(ptr, arrayDim);
    r := Ok(Header(size, offset, baseType, flags, subItems, texts, bounds));
  }

  /** The sections that fields and types share. */
  method ParseParts(lib: Foreign, ptr: Cursor, flags: u32, size: nat) returns (r: Outcome<Parts>)
    modifies ptr
    ensures Agrees(r, ReadParts(lib, flags, size, old(ptr.data)), ptr.data)
  {
    hide Flag, Guid, Raw, Methods, Attributes;
    var guid, methods, attributes := None, None, None;
    if Flag(flags, FLAG_GUID) {
      var text :- ParseGuid(ptr);
      guid := Some(text);
    }
    if Flag(flags, FLAG_COPY_MASK) {
      var _ :- SkipCopyMask(ptr, size);
    }
    if Flag(flags, FLAG_METHOD_INFOS) {
      var infos :- ParseMethodInfos(lib, ptr);
      methods := Some(infos);
    }
    if Flag(flags, FLAG_ATTRIBUTES) {
      var attrs :- ParseAttributes(lib, ptr);
      attributes := Some(attrs);
    }
    r := Ok(Parts(guid, methods, attributes));
  }

  /** A field keeps only its attributes. */
  method ParseFieldAttributes(
    lib: Foreign, ptr: Cursor, flags: u32, size: nat) returns (r: Outcome<Option<seq<Attribute>>>)
    modifies ptr
    ensures match ReadParts(lib, flags, size, old(ptr.data))
            case Ok((parts, rest)) => r == Ok(parts.attributes) && ptr.data == rest
            case Fail(e) => r == Fail(e)
            case Panic => r == Panic
  {
    hide ReadParts;
    var parts :- ParseParts(lib, ptr, flags, size);
    r := Ok(parts.attributes);
  }

  /** The type that is being decoded, which its field entries push onto. */
  class OpenType {
    var typ: Type

    constructor (typ: Type)
      ensures this.typ == typ
    {
      this.typ := typ;
    }

    /** Reads the sections the type's flags select into it. */
    method ParseTypeFlags(lib: Foreign, ptr: Cursor) returns (r: Outcome<()>)
      requires typ.guid.None? && typ.methods.None? && typ.attributes.None? && typ.enumInfo.None?
      requires typ.size < U32_LIMIT
      modifies this, ptr
      ensures match ReadParts(lib, old(typ).flags, old(typ).size, old(ptr.data))
              case Fail(e) => r == Fail(e)
              case Panic => r == Panic
              case Ok((parts, rest)) =>
                match ReadIf(Flag(old(typ).flags, FLAG_ENUM_INFOS), Enums(lib, old(typ).size, old(typ).baseType).read,
                    rest)
                case Fail(e) => r == Fail(e)
                case Panic => r == Panic
                case Ok((enums, _)) =>
                  && r == Ok(())
                  && typ == old(typ).(guid := parts.guid, methods := parts.methods, attributes := parts.attributes,
                      enumInfo := enums)
    {
      hide Flag, ReadParts, Enums;
      var parts :- ParseParts(lib, ptr, typ.flags, typ.size);
      typ := typ.(guid := parts.guid, methods := parts.methods, attributes := parts.attributes);
      if Flag(typ.flags, FLAG_ENUM_INFOS) {
        var enums :- ParseEnumInfos(lib, ptr, typ.size, typ.baseType);
        typ := typ.(enumInfo := Some(enums));
      }
      r := Ok(());
    }

    method Push(field: Field)
      modifies this
      ensures typ == old(typ).(fields := old(typ).fields + [field])
    {
      typ := typ.(fields := typ.fields + [field]);
    }
  }

  /** The type a header opens, before its fields and sections are read. */
  function Opened(h: Header): Type {
    Type(h.texts.name, h.texts.typ, h.texts.comment, h.size, h.bounds, [], h.baseType, h.flags, None, None, None, None)
  }

  /** The loop over a type's field entries, each of which is pushed onto the type. */
  method DecodeSubItems(lib: Foreign, ptr: Cursor, count: nat, typinfo: OpenType) returns (r: Outcome<()>)
    modifies ptr, typinfo
    ensures match ReadMany(BulkFields(lib).read, count, old(ptr.data))
            case Ok((fields, rest)) =>
              r == Ok(()) && ptr.data == rest
                  && typinfo.typ == old(typinfo.typ).(fields := old(typinfo.typ.fields) + fields)
            case Fail(e) => r == Fail(e)
            case Panic => r == Panic
    decreases true, 0
  {
    hide ReadU32, ReadMany, SplitEntry, ReadBulkField;
    ghost var read := BulkFields(lib).read;
    ghost var all := AddTo(typinfo.typ.fields, ReadMany(read, count, ptr.data));
    for i := 0 to count
      invariant typinfo.typ == old(typinfo.typ).(fields := typinfo.typ.fields)
      invariant all == AddTo(typinfo.typ.fields, ReadMany(read, count - i, ptr.data))
    {
      ReadManyStep(read, count - i, ptr.data, typinfo.typ.fields);
      var subSize :- ptr.TakeU32();
      var entry :- TakeEntry(ptr, Panics, subSize);
      var _ :- DecodeTypeInfo(lib, entry, typinfo);
    }
    ReadNothing(read, ptr.data);
    assert typinfo.typ.fields + [] == typinfo.typ.fields;
    r := Ok(());
  }

  /** With a parent, an entry is a field, which is pushed onto it; without one it is a type. */
  method DecodeTypeInfo(lib: Foreign, data: seq<byte>, parent: OpenType?) returns (r: Outcome<Option<Type>>)
    modifies parent
    ensures parent == null ==> r == Found(ReadBulkType(lib, data))
    ensures parent != null ==> Pushed(r, ReadBulkField(lib, data), old(parent.typ), parent.typ)
    decreases parent == null, 1
  {
    hide ReadU32, ReadHeader, ReadParts, ReadMany, ReadIf, Enums, Flag, BulkFields, NamedFields;
    var ptr := new Cursor(data);
    var version :- ptr.TakeU32();
    if version != 1 {
      return Fail(BadReply(UnknownVersion, version));
    }
    var h :- TakeHeader(lib, ptr);
    if parent != null {
      if h.subItems != 0 {
        return Panic;
      }
      var attributes :- ParseFieldAttributes(lib, ptr, h.flags, h.size);
      parent.Push(FieldOf(h, attributes));
      return Ok(None);
    }
    if h.offset != 0 {
      return Panic;
    }
    var typinfo := new OpenType(Opened(h));
    ghost var items := ReadMany(BulkFields(lib).read, h.subItems, ptr.data);
    var _ :- DecodeSubItems(lib, ptr, h.subItems, typinfo);
    assert [] + items.value.0 == items.value.0;
    var _ :- typinfo.ParseTypeFlags(lib, ptr);
    r := Ok(Some(typinfo.typ));
  }

  function Found(t: Outcome<Type>): Outcome<Option<Type>> {
    var typ :- t;
    Ok(Some(typ))
  }

  /** A field that was read has been pushed onto its parent, which is otherwise as it was. */
  predicate Pushed(r: Outcome<Option<Type>>, field: Outcome<Field>, before: Type, after: Type) {
    match field
    case Ok(f) => r == Ok(None) && after == before.(fields := before.fields + [f])
    case Fail(e) => r == Fail(e) && after == before
    case Panic => r == Panic && after == before
  }

  /** The loop over a type's field entries, each of which is pushed onto the type. */
  method DecodeSubItemsByName(lib: Foreign, ptr: Cursor, count: nat, typinfo: OpenType) returns (r: Outcome<()>)
    modifies ptr, typinfo
    ensures match ReadMany(NamedFields(lib).read, count, old(ptr.data))
            case Ok((fields, rest)) =>
              r == Ok(()) && ptr.data == rest
                  && typinfo.typ == old(typinfo.typ).(fields := old(typinfo.typ.fields) + fields)
            case Fail(e) => r == Fail(e)
            case Panic => r == Panic
    decreases true, 0
  {
    hide ReadU32, ReadMany, SplitEntry, ReadNamedField;
    ghost var read := NamedFields(lib).read;
    ghost var all := AddTo(typinfo.typ.fields, ReadMany(read, count, ptr.data));
    for i := 0 to count
      invariant typinfo.typ == old(typinfo.typ).(fields := typinfo.typ.fields)
      invariant all == AddTo(typinfo.typ.fields, ReadMany(read, count - i, ptr.data))
    {
      ReadManyStep(read, count - i, ptr.data, typinfo.typ.fields);
      var subSize :- ptr.TakeU32();
      var entry :- TakeEntry(ptr, Rejects, subSize);
      var _ :- DecodeEntryByName(lib, entry, typinfo);
    }
    ReadNothing(read, ptr.data);
    assert typinfo.typ.fields + [] == typinfo.typ.fields;
    r := Ok(());
  }

  method DecodeEntryByName(lib: Foreign, data: seq<byte>, parent: OpenType?) returns (r: Outcome<Option<Type>>)
    modifies parent
    ensures parent == null ==> r == Found(ReadNamedType(lib, data))
    ensures parent != null ==> Pushed(r, ReadNamedField(lib, data), old(parent.typ), parent.typ)
    decreases parent == null, 1
  {
    hide ReadU32, ReadHeader, ReadParts, ReadMany, ReadIf, Enums, Flag, BulkFields, NamedFields;
    var ptr := new Cursor(data);
    var _ :- ptr.TakeU32();
    var h :- TakeHeader(lib, ptr);
    if parent != null {
      var attributes :- ParseFieldAttributes(lib, ptr, h.flags, h.size);
      parent.Push(FieldOf(h, attributes));
      return Ok(None);
    }
    var typinfo := new OpenType(Opened(h));
    ghost var items := ReadMany(NamedFields(lib).read, h.subItems, ptr.data);
    var _ :- DecodeSubItemsByName(lib, ptr, h.subItems, typinfo);
    assert [] + items.value.0 == items.value.0;
    var _ :- typinfo.ParseTypeFlags(lib, ptr);
    r := Ok(Some(typinfo.typ));
  }

  method DecodeReply(lib: Foreign, reply: seq<byte>) returns (r: Outcome<Type>)
    ensures r == ReadReply(lib, reply)
  {
    hide U32, ReadNamedType;
    if |reply| < 4 {
      return Fail(BadReply(TooShort, |reply|));
    }
    var entryLength: int := U32(reply[..4]);
    var bodyEnd := if entryLength < |reply| then entryLength else |reply|;
    if bodyEnd < 4 {
      return Panic;
    }
    var found :- DecodeEntryByName(lib, reply[4..bodyEnd], null);
    r := if found.Some? then Ok(found.value) else Fail(Other);
  }

  /** `readData` is the buffer after the request, and `n` the number of bytes the device reports. */
  method GetTypeInfoByName(lib: Foreign, readData: seq<byte>, n: nat) returns (r: Outcome<Type>)
    ensures r == ReadReported(lib, readData, n)
  {
    hide ReadReply;
    if n > |readData| {
      return Panic;
    }
    r := DecodeReply(lib, readData[..n]);
  }

  // ---- The upload --------------------------------------------------------------------------

  method DecodeSymbol(lib: Foreign, data: seq<byte>) returns (r: Outcome<Symbol>)
    ensures r == ReadSymbol(lib, data)
  {
    hide ReadU16, ReadU32, ReadText;
    var ptr := new Cursor(data);
    var ixGroup :- ptr.TakeU32();
    var ixOffset :- ptr.TakeU32();
    var size :- ptr.TakeU32();
    var baseType :- ptr.TakeU32();
    var flags :- ptr.TakeU16();
    var _ :- ptr.TakeBytes(2);
    var nameLength :- ptr.TakeU16();
    var typLength :- ptr.TakeU16();
    var _ :- ptr.TakeBytes(2);
    var name :- TakeText(lib, ptr, nameLength, TYPE_BUFFER);
    var typ :- TakeText(lib, ptr, typLength, TYPE_BUFFER);
    r := Ok(Symbol(name, ixGroup, ixOffset, typ, size, baseType, flags));
  }

  lemma ReadAllStep<T>(read: seq<byte> -> Outcome<T>, ptr: seq<byte>)
    requires ptr != []
    ensures ReadAll(read, ptr)
         == match ReadU32(ptr) {
              case Fail(e) => Fail(e)
              case Panic => Panic
              case Ok((length, ptr1)) =>
                match SplitEntry(Panics, length, ptr1) {
                  case Fail(e) => Fail(e)
                  case Panic => Panic
                  case Ok((entry, rest)) =>
                    match read(entry) {
                      case Fail(e) => Fail(e)
                      case Panic => Panic
                      case Ok(item) => Prepend([item], ReadAll(read, rest))
                    }
                }
            }
  {
    hide ReadU32, SplitEntry;
  }

  function Prepend<T>(done: seq<T>, more: Outcome<seq<T>>): Outcome<seq<T>> {
    var items :- more;
    Ok(done + items)
  }

  lemma PrependBoth<T>(done: seq<T>, item: T, more: Outcome<seq<T>>)
    ensures Prepend(done, Prepend([item], more)) == Prepend(done + [item], more)
  {
    if more.Ok? {
      assert done + ([item] + more.value) == done + [item] + more.value;
    }
  }

  method DecodeTypes(lib: Foreign, data: seq<byte>) returns (r: Outcome<TypeMap>)
    ensures r == MapOf(ReadAll(BulkType(lib).read, data))
  {
    hide ReadU32, ReadAll, ReadBulkType, SplitEntry;
    var ptr := new Cursor(data);
    var typeMap: TypeMap := map[];
    ghost var read := BulkType(lib).read;
    ghost var types: seq<Type> := [];
    ghost var all := ReadAll(read, data);
    PrependNothing(all);
    while ptr.data != []
      invariant all == Prepend(types, ReadAll(read, ptr.data))
      invariant typeMap == ByName(map[], types)
      decreases |ptr.data|
    {
      ReadAllStep(read, ptr.data);
      var entrySize :- ptr.TakeU32();
      var entry :- TakeEntry(ptr, Panics, entrySize);
      var found :- DecodeTypeInfo(lib, entry, null);
      var typ := found.value;
      ByNameSnoc(map[], types, typ);
      PrependBoth(types, typ, ReadAll(read, ptr.data));
      typeMap := typeMap[typ.name := typ];
      types := types + [typ];
    }
    ReadAllNothing(read);
    assert types + [] == types;
    r := Ok(typeMap);
  }

  lemma PrependNothing<T>(more: Outcome<seq<T>>)
    ensures Prepend([], more) == more
  {
    if more.Ok? {
      assert [] + more.value == more.value;
    }
  }

  lemma ReadAllNothing<T>(read: seq<byte> -> Outcome<T>)
    ensures ReadAll(read, []) == Ok([])
  {
  }

  function MapOf(types: Outcome<seq<Type>>): Outcome<TypeMap> {
    var ts :- types;
    Ok(ByName(map[], ts))
  }

  lemma {:induction false} ByNameSnoc(done: TypeMap, types: seq<Type>, t: Type)
    ensures ByName(done, types + [t]) == ByName(done, types)[t.name := t]
    decreases |types|
  {
    if types == [] {
      assert [t][1..] == [];
    } else {
      assert (types + [t])[1..] == types[1..] + [t];
      ByNameSnoc(done[types[0].name := types[0]], types[1..], t);
    }
  }

  method DecodeSymbolInfo(
    lib: Foreign, symbolData: seq<byte>, typeData: seq<byte>) returns (r: Outcome<(seq<Symbol>, TypeMap)>)
    ensures r == DecodeInventory(lib, symbolData, typeData)
  {
    hide ReadU32, ReadAll, ReadSymbol, SplitEntry, BulkType, ByName;
    var typeMap :- DecodeTypes(lib, typeData);
    var ptr := new Cursor(symbolData);
    var symbols: seq<Symbol> := [];
    ghost var read := SymbolBody(lib).read;
    ghost var all := ReadAll(read, symbolData);
    PrependNothing(all);
    while ptr.data != []
      invariant all == Prepend(symbols, ReadAll(read, ptr.data))
      decreases |ptr.data|
    {
      ReadAllStep(read, ptr.data);
      var entrySize :- ptr.TakeU32();
      var entry :- TakeEntry(ptr, Panics, entrySize);
      var symbol :- DecodeSymbol(lib, entry);
      PrependBoth(symbols, symbol, ReadAll(read, ptr.data));
      symbols := symbols + [symbol];
    }
    ReadAllNothing(read);
    assert symbols + [] == symbols;
    r := Ok((symbols, typeMap));
  }
}
