/** Decoding a payload into a tree, along its type tree. */
module SymbolTrees {
  import opened Outcomes
  import opened Bytes
  import opened Strings
  import opened IndexMaps
  import opened TypeTrees

  datatype Moment = Moment(
    year: u16, month: u16, day: u16, hour: u16, minute: u16, second: u16, milliseconds: u16)

  /**
    * The library functions both decoders share.  Floats are kept as their bytes; `date` is the
    * calendar, which may reject a moment.
    */
  datatype Library = Library(
    utf8: seq<byte> -> string,
    utf16: seq<u16> -> string,
    widen: seq<byte> -> seq<byte>,
    extended: seq<byte> -> seq<byte>,
    date: Moment -> Option<int>)

  datatype SymbolTree =
    | Missing
    | Malformed
    | Struct(fields: seq<Entry<SymbolTree>>)
    | Array(items: seq<SymbolTree>)
    | Void(bytes: seq<byte>)
    | Int(i16: int)
    | Dint(i32: int)
    | Real(f32: seq<byte>)
    | Lreal(f64: seq<byte>)
    | Sint(i8: int)
    | Usint(u8: byte)
    | Uint(uint: u16)
    | Udint(udint: u32)
    | Lint(i64: int)
    | Ulint(ulint: u64)
    | String(text: string)
    | Real80(f80: seq<byte>)
    | Bool(b: bool)
    | Unknown

  // ---- Decoding ----------------------------------------------------------------------------

  /** A fixed-width value read from the front of the data; too little data is malformed. */
  function DecodeScalar(lib: Library, kind: ScalarKind, data: seq<byte>): SymbolTree {
    if |data| < kind.Width() then Malformed else
    match kind
    case Int => SymbolTree.Int(Signed(Bytes.U16(data[..2]), 0x1_0000))
    case Dint => SymbolTree.Dint(Signed(Bytes.U32(data[..4]), 0x1_0000_0000))
    case Real => SymbolTree.Real(data[..4])
    case Lreal => SymbolTree.Lreal(data[..8])
    case Sint => SymbolTree.Sint(Signed(data[0], 0x100))
    case Usint => SymbolTree.Usint(data[0])
    case Uint => SymbolTree.Uint(Bytes.U16(data[..2]))
    case Udint => SymbolTree.Udint(Bytes.U32(data[..4]))
    case Lint => SymbolTree.Lint(Signed(Bytes.U64(data[..8]), 0x1_0000_0000_0000_0000))
    case Ulint => SymbolTree.Ulint(Bytes.U64(data[..8]))
    case Real80 => SymbolTree.Real80(lib.extended(data[..10]))
    case Bool => SymbolTree.Bool(data[0] != 0)
  }

  /** The words of a text; an odd last byte is left over. */
  function Words(data: seq<byte>): seq<u16> {
    if |data| < 2 then [] else [Bytes.U16(data[..2])] + Words(data[2..])
  }

  function Slice(data: seq<byte>, size: nat): Outcome<seq<byte>> {
    if size <= |data| then Ok(data[..size]) else Panic
  }

  function FromBytes(lib: Library, data: seq<byte>, t: TypeTree, offset: nat): Outcome<SymbolTree>
    decreases t
  {
    if offset > |data| then Ok(SymbolTree.Missing) else
    match t
    case Struct(fields, _) =>
      var children :- FieldsFromBytes(lib, data, fields, offset);
      Ok(SymbolTree.Struct(children))
    case Array(_, size) =>
      var bytes :- Slice(data[offset..], size);
      Ok(SymbolTree.Array([SymbolTree.Void(bytes)]))
    case Void(size) =>
      var bytes :- Slice(data[offset..], size);
      Ok(SymbolTree.Void(bytes))
    case Scalar(kind) => Ok(DecodeScalar(lib, kind, data[offset..]))
    case String(size) =>
      var bytes :- Slice(data[offset..], size);
      Ok(SymbolTree.String(lib.utf8(bytes)))
    case Wstring(size) =>
      if size % 2 != 0 then Ok(Malformed) else
      var bytes :- Slice(data[offset..], size);
      Ok(SymbolTree.String(lib.utf16(Words(bytes))))
    case Compound(_) => Ok(Malformed)
    case Unknown(_) => Ok(SymbolTree.Unknown)
    case Missing => Ok(SymbolTree.Missing)
  }

  function FieldFromBytes(lib: Library, data: seq<byte>, slot: Slot, offset: nat): Outcome<SymbolTree>
    decreases slot
  {
    if slot.offset.Some? then FromBytes(lib, data, slot.tree, offset + slot.offset.value) else Ok(SymbolTree.Missing)
  }

  /** One child per field, under the same name and in the same order. */
  function FieldsFromBytes(
    lib: Library, data: seq<byte>, fields: seq<Entry<Slot>>, offset: nat): Outcome<seq<Entry<SymbolTree>>>
    decreases fields
  {
    if fields == [] then Ok([]) else
    var child :- FieldFromBytes(lib, data, fields[0].value, offset);
    var rest :- FieldsFromBytes(lib, data, fields[1..], offset);
    Ok([Entry(fields[0].key, child)] + rest)
  }

  lemma {:induction false} FieldsInOrder(lib: Library, data: seq<byte>, fields: seq<Entry<Slot>>, offset: nat, i: nat)
    requires FieldsFromBytes(lib, data, fields, offset).Ok? && i < |fields|
    ensures |FieldsFromBytes(lib, data, fields, offset).value| == |fields|
    ensures FieldFromBytes(lib, data, fields[i].value, offset).Ok?
    ensures FieldsFromBytes(lib, data, fields, offset).value[i]
         == Entry(fields[i].key, FieldFromBytes(lib, data, fields[i].value, offset).value)
    decreases i, |fields|
  {
    hide FieldFromBytes;
    if i > 0 {
      FieldsInOrder(lib, data, fields[1..], offset, i - 1);
    } else if |fields| > 1 {
      FieldsInOrder(lib, data, fields[1..], offset, 0);
    }
  }

  // ---- Looking up --------------------------------------------------------------------------

  function Lookup(t: SymbolTree, tokens: seq<string>): SymbolTree
    decreases |tokens|
  {
    if tokens == [] then t
    else if t.Struct? && Get(t.fields, tokens[0]).Some? then Lookup(Get(t.fields, tokens[0]).value, tokens[1..])
    else SymbolTree.Missing
  }

  method GetChild(tree: SymbolTree, path: string) returns (child: SymbolTree)
    ensures child == Lookup(tree, Split(path, '.'))
  {
    hide Get, Split;
    var tokens := Split(path, '.');
    child := tree;
    for i := 0 to |tokens|
      invariant Lookup(tree, tokens) == Lookup(child, tokens[i..])
    {
      assert tokens[i..][1..] == tokens[i + 1..];
      if child.Struct? && Get(child.fields, tokens[i]).Some? {
        child := Get(child.fields, tokens[i]).value;
      } else {
        return SymbolTree.Missing;
      }
    }
    assert tokens[|tokens|..] == [];
  }

  function GetUint(fields: seq<Entry<SymbolTree>>, key: string): Option<u16> {
    var v := Get(fields, key);
    if v.Some? && v.value.Uint? then Some(v.value.uint) else None
  }

  /** The names of a time structure, in order. */
  const TIME_KEYS: seq<string> :=
    ["wYear", "wMonth", "wDayOfWeek", "wDay", "wHour", "wMinute", "wSecond", "wMilliseconds"]

  /** The words under the keys of a time structure; the day of the week is not needed. */
  function MomentOf(fields: seq<Entry<SymbolTree>>, keys: seq<string>): Option<Moment>
    requires |keys| == 8
  {
    match (GetUint(fields, keys[0]), GetUint(fields, keys[1]), GetUint(fields, keys[3]), GetUint(fields, keys[4]),
           GetUint(fields, keys[5]), GetUint(fields, keys[6]), GetUint(fields, keys[7]))
    case (Some(year), Some(month), Some(day), Some(hour), Some(minute), Some(second), Some(milliseconds)) =>
      Some(Moment(year, month, day, hour, minute, second, milliseconds))
    case _ => None
  }

  /** The timestamp of a time structure that has been looked up. */
  function Timestamp(lib: Library, t: SymbolTree): Option<int> {
    if !t.Struct? then None else
    var moment := MomentOf(t.fields, TIME_KEYS);
    if moment.Some? then lib.date(moment.value) else None
  }

  // ---- The decoder as the source writes it -------------------------------------------------

  lemma {:induction false} WordsSnoc(data: seq<byte>, i: nat)
    requires i % 2 == 0 && i + 2 <= |data|
    ensures Words(data[..i + 2]) == Words(data[..i]) + [Bytes.U16(data[i..i + 2])]
    decreases i
  {
    hide Bytes.U16;
    if i > 0 {
      WordsSnoc(data[2..], i - 2);
      assert data[..i + 2][2..] == data[2..][..i] && data[..i][2..] == data[2..][..i - 2];
      assert data[..i + 2][..2] == data[..i][..2] && data[2..][i - 2..i] == data[i..i + 2];
    } else {
      assert data[..2][..2] == data[0..2] && data[..2][2..] == [];
    }
  }

  /** The word-collecting loop; each round slices two bytes out of the data. */
  method CollectWords(data: seq<byte>, size: nat) returns (r: Outcome<seq<u16>>)
    requires size % 2 == 0
    ensures r == (if size <= |data| then Ok(Words(data[..size])) else Panic)
  {
    hide Bytes.U16, Words;
    var words: seq<u16> := [];
    var i := 0;
    assert Words(data[..0]) == [] by { NoWords(data[..0]); }
    while i < size
      invariant i % 2 == 0 && 0 <= i <= size && i <= |data|
      invariant words == Words(data[..i])
    {
      if i + 2 > |data| {
        return Panic;
      }
      WordsSnoc(data, i);
      words := words + [Bytes.U16(data[i..i + 2])];
      i := i + 2;
    }
    r := Ok(words);
  }

  lemma NoWords(data: seq<byte>)
    requires data == []
    ensures Words(data) == []
  {
  }

  method Decode(lib: Library, data: seq<byte>, t: TypeTree, parentOffset: nat) returns (r: Outcome<SymbolTree>)
    requires DistinctNames(t)
    ensures r == FromBytes(lib, data, t, parentOffset)
    decreases t, 1
  {
    hide DecodeScalar, Words, FieldsFromBytes;
    if parentOffset > |data| {
      return Ok(SymbolTree.Missing);
    }
    var accessible := data[parentOffset..];
    match t {
      case Struct(_, _) =>
        var children :- DecodeFields(lib, data, t, parentOffset);
        r := Ok(SymbolTree.Struct(children));
      case Array(_, size) =>
        var bytes :- SliceOf(accessible, size);
        r := Ok(SymbolTree.Array([SymbolTree.Void(bytes)]));
      case Void(size) =>
        var bytes :- SliceOf(accessible, size);
        r := Ok(SymbolTree.Void(bytes));
      case Scalar(kind) =>
        r := Ok(DecodeScalar(lib, kind, accessible));
      case String(size) =>
        var bytes :- SliceOf(accessible, size);
        r := Ok(SymbolTree.String(lib.utf8(bytes)));
      case Wstring(size) =>
        if size % 2 != 0 {
          return Ok(Malformed);
        }
        var words :- CollectWords(accessible, size);
        r := Ok(SymbolTree.String(lib.utf16(words)));
      case Compound(_) =>
        r := Ok(Malformed);
      case Unknown(_) =>
        r := Ok(SymbolTree.Unknown);
      case Missing =>
        r := Ok(SymbolTree.Missing);
    }
  }

  /** The loop over the fields of a struct, filling the map of its children. */
  method DecodeFields(lib: Library, data: seq<byte>, t: TypeTree, parentOffset: nat)
    returns (r: Outcome<seq<Entry<SymbolTree>>>)
    requires t.Struct? && DistinctNames(t)
    ensures r == FieldsFromBytes(lib, data, t.fields, parentOffset)
    decreases t, 0
  {
    hide FromBytes;
    var fields := t.fields;
    var children: seq<Entry<SymbolTree>> := [];
    ghost var all := FieldsFromBytes(lib, data, fields, parentOffset);
    assert fields[0..] == fields;
    AddToNothing(all);
    for i := 0 to |fields|
      invariant |children| == i && forall j :: 0 <= j < i ==> children[j].key == fields[j].key
      invariant all == AddTo(children, FieldsFromBytes(lib, data, fields[i..], parentOffset))
    {
      assert fields[i..][0] == fields[i] && fields[i..][1..] == fields[i + 1..];
      var slot := fields[i].value;
      var child := SymbolTree.Missing;
      if slot.offset.Some? {
        child :- Decode(lib, data, slot.tree, parentOffset + slot.offset.value);
      }
      AddToAssoc(children, Entry(fields[i].key, child), FieldsFromBytes(lib, data, fields[i + 1..], parentOffset));
      InsertNew(children, fields[i].key, child);
      children := Insert(children, fields[i].key, child);
    }
    assert fields[|fields|..] == [];
    assert children + [] == children;
    r := Ok(children);
  }

  method SliceOf(data: seq<byte>, size: nat) returns (r: Outcome<seq<byte>>)
    ensures r == Slice(data, size)
  {
    r := if size <= |data| then Ok(data[..size]) else Panic;
  }

  /** As in any insertion-ordered map, the fields of a struct have different names. */
  predicate DistinctNames(t: TypeTree) {
    match t
    case Struct(fields, _) => Distinct(fields) && forall i :: 0 <= i < |fields| ==> DistinctNames(fields[i].value.tree)
    case _ => true
  }

  function AddTo(done: seq<Entry<SymbolTree>>, more: Outcome<seq<Entry<SymbolTree>>>): Outcome<seq<Entry<SymbolTree>>> {
    match more
    case Ok(entries) => Ok(done + entries)
    case Fail(e) => Fail(e)
    case Panic => Panic
  }

  lemma AddToNothing(more: Outcome<seq<Entry<SymbolTree>>>)
    ensures AddTo([], more) == more
  {
    if more.Ok? {
      assert [] + more.value == more.value;
    }
  }

  lemma AddToAssoc(done: seq<Entry<SymbolTree>>, e: Entry<SymbolTree>, more: Outcome<seq<Entry<SymbolTree>>>)
    ensures more.Ok? ==> AddTo(done, Ok([e] + more.value)) == AddTo(done + [e], more)
  {
    if more.Ok? {
      assert done + ([e] + more.value) == done + [e] + more.value;
    }
  }
}
