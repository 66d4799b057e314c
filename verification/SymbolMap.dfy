/** Flattening a type tree into one descriptor per path, and decoding a payload along it. */
module SymbolMaps {
  import opened Outcomes
  import opened Bytes
  import opened IndexMaps
  import opened TypeTrees
  import opened SymbolTrees

  datatype PrimitiveType =
    | PScalar(kind: ScalarKind)
    | PString(size: nat)
    | PWstring(size: nat)
    | PTime(offsets: seq<nat>)
    | PVoid(size: nat)

  datatype Descriptor = Descriptor(typ: PrimitiveType, offset: u32)

  datatype PrimitiveValue =
    | VInt(i64: int)
    | VUint(u64: u64)
    | VFloat(f64: seq<byte>)
    | VString(text: string)
    | VTimestamp(time: int)
    | VBool(b: bool)
    | VMalformed
    | VVoid(bytes: seq<byte>)

  // ---- Flattening --------------------------------------------------------------------------

  /** A time structure counts only when all its fields are placed unsigned words. */
  predicate ValidTime(fields: seq<Entry<Slot>>) {
    forall i :: 0 <= i < |fields| ==> fields[i].value.offset.Some? && fields[i].value.tree == Scalar(ScalarKind.Uint)
  }

  function Offsets(fields: seq<Entry<Slot>>): (r: seq<nat>)
    requires ValidTime(fields)
    ensures |r| == |fields| && forall i :: 0 <= i < |r| ==> r[i] == fields[i].value.offset.value
  {
    if fields == [] then [] else [fields[0].value.offset.value] + Offsets(fields[1..])
  }

  function ChildPath(path: string, name: string): string {
    if path == "" then name else path + "." + name
  }

  /** The primitive a node other than a struct is read as. */
  function PrimitiveOf(t: TypeTree): PrimitiveType
    requires !t.Struct? && !t.Compound? && !t.Missing?
  {
    match t
    case Scalar(kind) => PScalar(kind)
    case String(size) => PString(size)
    case Wstring(size) => PWstring(size)
    case Array(_, size) => PVoid(size)
    case Void(size) => PVoid(size)
    case Unknown(size) => PVoid(size)
  }

  /** Panics for a compound placeholder, and where the sum of offsets leaves 32 bits. */
  function FromTree(t: TypeTree, offset: u32, path: string): Outcome<seq<Entry<Descriptor>>>
    decreases t
  {
    match t
    case Struct(fields, _) =>
      if Keys(fields) == TIME_KEYS then
        if ValidTime(fields) then Ok([Entry(path, Descriptor(PTime(Offsets(fields)), offset))]) else Ok([])
      else FieldsFromTree([], fields, offset, path)
    case Compound(_) => Panic
    case Missing => Ok([])
    case _ => Ok([Entry(path, Descriptor(PrimitiveOf(t), offset))])
  }

  function FieldsFromTree(map_: seq<Entry<Descriptor>>, fields: seq<Entry<Slot>>, offset: u32, path: string)
    : Outcome<seq<Entry<Descriptor>>>
    decreases fields
  {
    if fields == [] then Ok(map_) else
    var more :- FieldFromTree(fields[0], offset, path);
    FieldsFromTree(Append(map_, more), fields[1..], offset, path)
  }

  function FieldFromTree(field: Entry<Slot>, offset: u32, path: string): Outcome<seq<Entry<Descriptor>>>
    decreases field
  {
    var slot := field.value;
    if slot.offset.None? then Ok([])
    else if offset + slot.offset.value >= U32_LIMIT then Panic
    else FromTree(slot.tree, offset + slot.offset.value, ChildPath(path, field.key))
  }

  // ---- Reading along a descriptor ----------------------------------------------------------

  function WidenScalar(lib: Library, kind: ScalarKind, data: seq<byte>): PrimitiveValue {
    if |data| < kind.Width() then VMalformed else
    match kind
    case Int => VInt(Signed(Bytes.U16(data[..2]), 0x1_0000))
    case Dint => VInt(Signed(Bytes.U32(data[..4]), 0x1_0000_0000))
    case Real => VFloat(lib.widen(data[..4]))
    case Lreal => VFloat(data[..8])
    case Sint => VInt(Signed(data[0], 0x100))
    case Usint => VUint(data[0])
    case Uint => VUint(Bytes.U16(data[..2]))
    case Udint => VUint(Bytes.U32(data[..4]))
    case Lint => VInt(Signed(Bytes.U64(data[..8]), 0x1_0000_0000_0000_0000))
    case Ulint => VUint(Bytes.U64(data[..8]))
    case Real80 => VFloat(lib.extended(data[..10]))
    case Bool => VBool(data[0] != 0)
  }

  /** A word at an offset: slicing past the end panics, and a slice of fewer than two bytes is an error. */
  function WordAt(data: seq<byte>, offset: nat): Outcome<u16> {
    if offset > |data| then Panic
    else if |data| < offset + 2 then Fail(Other)
    else Ok(Bytes.U16(data[offset..offset + 2]))
  }

  function ReadMoment(offsets: seq<nat>, data: seq<byte>): Outcome<Moment>
    requires |offsets| == 8
  {
    var year :- WordAt(data, offsets[0]);
    var month :- WordAt(data, offsets[1]);
    var day :- WordAt(data, offsets[3]);
    var hour :- WordAt(data, offsets[4]);
    var minute :- WordAt(data, offsets[5]);
    var second :- WordAt(data, offsets[6]);
    var milliseconds :- WordAt(data, offsets[7]);
    Ok(Moment(year, month, day, hour, minute, second, milliseconds))
  }

  function ReadFromBytes(lib: Library, d: Descriptor, bytes: seq<byte>): Outcome<PrimitiveValue>
    requires d.typ.PTime? ==> |d.typ.offsets| == 8
  {
    if d.offset > |bytes| then Panic else
    var data := bytes[d.offset..];
    match d.typ
    case PTime(offsets) =>
      (match ReadMoment(offsets, data)
       case Ok(moment) => Ok(if lib.date(moment).Some? then VTimestamp(lib.date(moment).value) else VMalformed)
       case Fail(_) => Ok(VMalformed)
       case Panic => Panic)
    case PScalar(kind) => Ok(WidenScalar(lib, kind, data))
    case PString(size) =>
      var text :- Slice(data, size);
      Ok(VString(lib.utf8(text)))
    case PWstring(size) =>
      if size % 2 != 0 then Ok(VMalformed) else
      var text :- Slice(data, size);
      Ok(VString(lib.utf16(Words(text))))
    case PVoid(size) =>
      var raw :- Slice(data, size);
      Ok(VVoid(raw))
  }

  /** The descriptors a flattened tree holds. */
  predicate Readable(m: seq<Entry<Descriptor>>) {
    forall i :: 0 <= i < |m| ==> (m[i].value.typ.PTime? ==> |m[i].value.typ.offsets| == 8)
  }

  function MapFromBytes(lib: Library, bytes: seq<byte>, m: seq<Entry<Descriptor>>): Outcome<seq<Entry<PrimitiveValue>>>
    requires Readable(m)
    decreases |m|
  {
    if m == [] then Ok([]) else
    assert m[0].value.typ.PTime? ==> |m[0].value.typ.offsets| == 8;
    var value :- ReadFromBytes(lib, m[0].value, bytes);
    var rest :- MapFromBytes(lib, bytes, m[1..]);
    Ok([Entry(m[0].key, value)] + rest)
  }

  // ---- As the source writes it -------------------------------------------------------------

  method Flatten(t: TypeTree, offset: u32, path: string) returns (r: Outcome<seq<Entry<Descriptor>>>)
    ensures r == FromTree(t, offset, path)
    decreases t, 1
  {
    hide FieldsFromTree, Append;
    var m: seq<Entry<Descriptor>> := [];
    match t {
      case Struct(fields, _) =>
        if Keys(fields) == TIME_KEYS {
          assert |fields| == |Keys(fields)| == 8;
          r := FlattenTime(fields, offset, path);
        } else {
          r := FlattenFields(t, offset, path);
        }
      case Compound(_) =>
        r := Panic;
      case Missing =>
        r := Ok(m);
      case _ =>
        m := Insert(m, path, Descriptor(PrimitiveOf(t), offset));
        r := Ok(m);
    }
  }

  /**
    * The loop over a time structure, whose names are the eight keys in order, so that the position
    * of a name is its index.  The first field that is not a placed word discards it all.
    */
  method FlattenTime(fields: seq<Entry<Slot>>, offset: u32, path: string) returns (r: Outcome<seq<Entry<Descriptor>>>)
    requires |fields| == 8
    ensures r == if ValidTime(fields) then Ok([Entry(path, Descriptor(PTime(Offsets(fields)), offset))]) else Ok([])
  {
    var offsets: seq<nat> := [0, 0, 0, 0, 0, 0, 0, 0];
    for i := 0 to |fields|
      invariant |offsets| == 8
      invariant forall j :: 0 <= j < i ==>
                  && fields[j].value.offset.Some? && fields[j].value.tree == Scalar(ScalarKind.Uint)
                  && offsets[j] == fields[j].value.offset.value
    {
      var slot := fields[i].value;
      if slot.offset.None? {
        return Ok([]);
      }
      if slot.tree != Scalar(ScalarKind.Uint) {
        return Ok([]);
      }
      offsets := offsets[i := slot.offset.value];
    }
    assert offsets == Offsets(fields);
    r := Ok([Entry(path, Descriptor(PTime(offsets), offset))]);
  }

  method FlattenFields(t: TypeTree, offset: u32, path: string) returns (r: Outcome<seq<Entry<Descriptor>>>)
    requires t.Struct?
    ensures r == FieldsFromTree([], t.fields, offset, path)
    decreases t, 0
  {
    hide FromTree, Append;
    var fields := t.fields;
    var m: seq<Entry<Descriptor>> := [];
    assert fields[0..] == fields;
    for i := 0 to |fields|
      invariant FieldsFromTree([], fields, offset, path) == FieldsFromTree(m, fields[i..], offset, path)
    {
      assert fields[i..][0] == fields[i] && fields[i..][1..] == fields[i + 1..];
      var slot := fields[i].value;
      var more: seq<Entry<Descriptor>> := [];
      if slot.offset.Some? {
        if offset + slot.offset.value >= U32_LIMIT {
          return Panic;
        }
        more :- Flatten(slot.tree, offset + slot.offset.value, ChildPath(path, fields[i].key));
      }
      m := Append(m, more);
    }
    assert fields[|fields|..] == [];
    r := Ok(m);
  }

  method DecodeMap(
    lib: Library, bytes: seq<byte>, m: seq<Entry<Descriptor>>) returns (r: Outcome<seq<Entry<PrimitiveValue>>>)
    requires Readable(m) && Distinct(m)
    ensures r == MapFromBytes(lib, bytes, m)
  {
    hide ReadFromBytes;
    var values: seq<Entry<PrimitiveValue>> := [];
    ghost var all := MapFromBytes(lib, bytes, m);
    assert m[0..] == m;
    assert all.Ok? ==> [] + all.value == all.value;
    for i := 0 to |m|
      invariant |values| == i && forall j :: 0 <= j < i ==> values[j].key == m[j].key
      invariant Readable(m[i..])
      invariant all == (match MapFromBytes(lib, bytes, m[i..])
                        case Ok(rest) => Ok(values + rest)
                        case Fail(e) => Fail(e)
                        case Panic => Panic)
    {
      assert m[i..][0] == m[i] && m[i..][1..] == m[i + 1..];
      var value :- ReadDescriptor(lib, m[i].value, bytes);
      ghost var rest := MapFromBytes(lib, bytes, m[i + 1..]);
      if rest.Ok? {
        assert values + ([Entry(m[i].key, value)] + rest.value) == values + [Entry(m[i].key, value)] + rest.value;
      }
      InsertNew(values, m[i].key, value);
      values := Insert(values, m[i].key, value);
    }
    assert values + [] == values;
    r := Ok(values);
  }

  method ReadDescriptor(lib: Library, d: Descriptor, bytes: seq<byte>) returns (r: Outcome<PrimitiveValue>)
    requires d.typ.PTime? ==> |d.typ.offsets| == 8
    ensures r == ReadFromBytes(lib, d, bytes)
  {
    hide WidenScalar, ReadMoment, Words;
    if d.offset > |bytes| {
      return Panic;
    }
    var data := bytes[d.offset..];
    match d.typ {
      case PTime(offsets) =>
        var moment := ReadMoment(offsets, data);
        if moment.Panic? {
          return Panic;
        }
        var time := if moment.Ok? then lib.date(moment.value) else None;
        r := Ok(if time.Some? then VTimestamp(time.value) else VMalformed);
      case PScalar(kind) =>
        r := Ok(WidenScalar(lib, kind, data));
      case PString(size) =>
        var text :- SliceOf(data, size);
        r := Ok(VString(lib.utf8(text)));
      case PWstring(size) =>
        if size % 2 != 0 {
          return Ok(VMalformed);
        }
        var words :- CollectWords(data, size);
        r := Ok(VString(lib.utf16(words)));
      case PVoid(size) =>
        var raw :- SliceOf(data, size);
        r := Ok(VVoid(raw));
    }
  }
}
