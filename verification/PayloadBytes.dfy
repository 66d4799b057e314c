/**
  * What a payload's bytes are read as, by the number of a symbol's base type: the type tree, the recursive decoder
  * and the flattened decoder taken together.
  */
module PayloadBytes {
  import opened Outcomes
  import opened Bytes
  import opened IndexMaps
  import opened TypeInfo
  import opened TypeTrees
  import opened SymbolTrees
  import opened SymbolMaps
  import opened Flattening

  /** What the flattened decoder reads for a node that has exactly one entry, under its own path. */
  function MapReading(lib: Library, data: seq<byte>, t: TypeTree, offset: u32, path: string): Outcome<PrimitiveValue> {
    var m := FromTree(t, offset, path);
    if m.Ok? && |m.value| == 1 && m.value[0].key == path && !m.value[0].value.typ.PTime?
    then ReadFromBytes(lib, m.value[0].value, data)
    else Fail(Other)
  }

  /** Both decoders, on the node at an offset. */
  predicate ReadsAs(
    lib: Library, data: seq<byte>, t: TypeTree, offset: u32, path: string, node: SymbolTree, value: PrimitiveValue)
  {
    FromBytes(lib, data, t, offset) == Ok(node) && MapReading(lib, data, t, offset, path) == Ok(value)
  }

  /** The tree of a node whose base type is not a compound; it takes neither a name nor an inventory to build. */
  function NodeOf(baseType: u32, size: nat): TypeTree
    requires baseType != 65
  {
    Build(baseType, size, "", map[], map[]).value
  }

  lemma BuildIsNode(baseType: u32, size: nat, typeName: string, types: TypeMap, rank: map<string, nat>)
    requires Ranked(types, rank) && baseType != 65
    ensures Build(baseType, size, typeName, types, rank) == Some(NodeOf(baseType, size))
  {
  }

  /** The number types: so many bytes, least significant first, the signed ones in two's complement. */
  lemma NumbersRead(lib: Library, data: seq<byte>, baseType: u32, size: nat, offset: u32, path: string)
    requires baseType != 65 && offset <= |data|
    ensures var t, b := NodeOf(baseType, size), data[offset..];
            match baseType
            case 2 => 2 <= |b| ==>
              var n := TwosComplement(b[..2]);
              ReadsAs(lib, data, t, offset, path, SymbolTree.Int(n), VInt(n))
            case 3 => 4 <= |b| ==>
              var n := TwosComplement(b[..4]);
              ReadsAs(lib, data, t, offset, path, SymbolTree.Dint(n), VInt(n))
            case 16 => 1 <= |b| ==>
              var n := TwosComplement(b[..1]);
              ReadsAs(lib, data, t, offset, path, SymbolTree.Sint(n), VInt(n))
            case 17 => 1 <= |b| ==>
              ReadsAs(lib, data, t, offset, path, SymbolTree.Usint(b[0]), VUint(b[0]))
            case 18 => 2 <= |b| ==>
              var n := Bytes.U16(b[..2]);
              ReadsAs(lib, data, t, offset, path, SymbolTree.Uint(n), VUint(n))
            case 19 => 4 <= |b| ==>
              var n := Bytes.U32(b[..4]);
              ReadsAs(lib, data, t, offset, path, SymbolTree.Udint(n), VUint(n))
            case 20 => 8 <= |b| ==>
              var n := TwosComplement(b[..8]);
              ReadsAs(lib, data, t, offset, path, SymbolTree.Lint(n), VInt(n))
            case 21 => 8 <= |b| ==>
              var n := Bytes.U64(b[..8]);
              ReadsAs(lib, data, t, offset, path, SymbolTree.Ulint(n), VUint(n))
            case _ => true
  {
    hide TwosComplement, Bytes.U16, Bytes.U32, Bytes.U64, Signed;
    var b := data[offset..];
    if 1 <= |b| {
      FixedWidths(b[..1]);
    }
    if 2 <= |b| {
      FixedWidths(b[..2]);
    }
    if 4 <= |b| {
      FixedWidths(b[..4]);
    }
    if 8 <= |b| {
      FixedWidths(b[..8]);
    }
  }

  /** Floats of four, eight and ten bytes, and booleans, where every byte but zero is true. */
  lemma FloatsRead(lib: Library, data: seq<byte>, baseType: u32, size: nat, offset: u32, path: string)
    requires baseType != 65 && offset <= |data|
    ensures var t, b := NodeOf(baseType, size), data[offset..];
            match baseType
            case 4 => 4 <= |b| ==>
              ReadsAs(lib, data, t, offset, path, SymbolTree.Real(b[..4]), VFloat(lib.widen(b[..4])))
            case 5 => 8 <= |b| ==>
              ReadsAs(lib, data, t, offset, path, SymbolTree.Lreal(b[..8]), VFloat(b[..8]))
            case 32 => 10 <= |b| ==>
              var f := lib.extended(b[..10]);
              ReadsAs(lib, data, t, offset, path, SymbolTree.Real80(f), VFloat(f))
            case 33 => 1 <= |b| ==>
              ReadsAs(lib, data, t, offset, path, SymbolTree.Bool(b[0] != 0), VBool(b[0] != 0))
            case _ => true
  {
  }

  /** The width of each fixed-width base type. */
  function Width(baseType: u32): Option<nat> {
    match baseType
    case 2 => Some(2)
    case 3 => Some(4)
    case 4 => Some(4)
    case 5 => Some(8)
    case 16 => Some(1)
    case 17 => Some(1)
    case 18 => Some(2)
    case 19 => Some(4)
    case 20 => Some(8)
    case 21 => Some(8)
    case 32 => Some(10)
    case 33 => Some(1)
    case _ => None
  }

  /** A fixed-width type is malformed in both exactly when the bytes that are left are too few. */
  lemma ShortScalarsRead(lib: Library, data: seq<byte>, baseType: u32, size: nat, offset: u32, path: string)
    requires baseType != 65 && offset <= |data| && Width(baseType).Some?
    ensures |data| - offset < Width(baseType).value <==>
              ReadsAs(lib, data, NodeOf(baseType, size), offset, path, Malformed, VMalformed)
  {
    hide Bytes.U16, Bytes.U32, Bytes.U64, Signed;
  }

  /** The words of a wide text. */
  predicate AreWords(words: seq<u16>, b: seq<byte>) {
    |words| == |b| / 2 && forall i :: 0 <= i < |words| ==> words[i] == Bytes.U16(b[2 * i..2 * i + 2])
  }

  lemma {:induction false} WordsAreWords(b: seq<byte>)
    ensures AreWords(Words(b), b)
  {
    hide Bytes.U16;
    if 2 <= |b| {
      WordsAreWords(b[2..]);
      assert b[..2] == b[0..2];
      forall i | 1 <= i < |Words(b)|
        ensures Words(b)[i] == Bytes.U16(b[2 * i..2 * i + 2])
      {
        Windows(b, 2, 2 * (i - 1), 2 * (i - 1) + 2);
      }
    }
  }

  /**
    * Everything else takes `size` bytes: 30 is a text of bytes and 31 one of words, 0 is raw bytes, and a number
    * that is in no table is unknown in the tree and raw bytes in the map.
    */
  lemma SizedRead(lib: Library, data: seq<byte>, baseType: u32, size: nat, offset: u32, path: string)
    requires baseType != 65 && Width(baseType).None? && offset + size <= |data|
    ensures var t, b := NodeOf(baseType, size), data[offset..offset + size];
            match baseType
            case 0 => ReadsAs(lib, data, t, offset, path, SymbolTree.Void(b), VVoid(b))
            case 30 => ReadsAs(lib, data, t, offset, path, SymbolTree.String(lib.utf8(b)), VString(lib.utf8(b)))
            case 31 =>
              if size % 2 == 1 then ReadsAs(lib, data, t, offset, path, Malformed, VMalformed) else
              exists words: seq<u16> :: AreWords(words, b)
                && ReadsAs(lib, data, t, offset, path, SymbolTree.String(lib.utf16(words)), VString(lib.utf16(words)))
            case _ => ReadsAs(lib, data, t, offset, path, SymbolTree.Unknown, VVoid(b))
  {
    hide Words, AreWords;
    Window(data, offset, size);
    WordsAreWords(data[offset..offset + size]);
  }

  /** With fewer bytes, a slice panics in both, but for wide texts of odd size and, in the tree, unknown types. */
  lemma ShortSizedRead(lib: Library, data: seq<byte>, baseType: u32, size: nat, offset: u32, path: string)
    requires baseType != 65 && Width(baseType).None? && offset <= |data| < offset + size
    ensures var t := NodeOf(baseType, size);
            if baseType == 31 && size % 2 == 1 then ReadsAs(lib, data, t, offset, path, Malformed, VMalformed)
            else
              && MapReading(lib, data, t, offset, path) == Panic
              && FromBytes(lib, data, t, offset) == (if baseType in {0, 30, 31} then Panic else Ok(SymbolTree.Unknown))
  {
  }

  /** Behind the end of the payload, the tree has no value and the map's slice panics. */
  lemma BehindPayload(lib: Library, data: seq<byte>, baseType: u32, size: nat, offset: u32, path: string)
    requires baseType != 65 && |data| < offset
    ensures FromBytes(lib, data, NodeOf(baseType, size), offset) == Ok(SymbolTree.Missing)
    ensures MapReading(lib, data, NodeOf(baseType, size), offset, path) == Panic
  {
  }

  // ---- Compounds ---------------------------------------------------------------------------

  /** A compound whose type has no fields is raw bytes of the declared size, in the tree as one item of an array. */
  lemma FieldlessRead(
    lib: Library, data: seq<byte>, size: nat, typeName: string, types: TypeMap, rank: map<string, nat>, offset: u32,
    path: string)
    requires Ranked(types, rank) && typeName in types && types[typeName].fields == [] && offset + size <= |data|
    ensures var t, b := Build(65, size, typeName, types, rank), data[offset..offset + size];
            t.Some? && ReadsAs(lib, data, t.value, offset, path, SymbolTree.Array([SymbolTree.Void(b)]), VVoid(b))
  {
    Window(data, offset, size);
  }

  /** A field's own node; a compound whose type is absent is unknown. */
  function FieldNode(field: Field, types: TypeMap, ghost rank: map<string, nat>): TypeTree
    requires Ranked(types, rank)
  {
    var t := Build(field.baseType, field.size, field.typ, types, rank);
    if t.Some? then t.value else TypeTree.Unknown(field.size)
  }

  /**
    * A compound whose type has fields: one child per field, under its name and in the type's order, read at the
    * compound's offset plus its own; a field placed elsewhere has no value.
    */
  lemma StructRead(
    lib: Library, data: seq<byte>, size: nat, typeName: string, types: TypeMap, rank: map<string, nat>, offset: nat,
    i: nat)
    requires Ranked(types, rank) && typeName in types && NamesDiffer(types[typeName].fields)
    requires i < |types[typeName].fields| && offset <= |data|
    ensures Build(65, size, typeName, types, rank).Some?
    ensures var t, fields := Build(65, size, typeName, types, rank).value, types[typeName].fields;
            var r := FromBytes(lib, data, t, offset);
            && t.Size() == types[typeName].size
            && (r.Ok? ==>
                  && r.value.Struct? && |r.value.fields| == |fields| && r.value.fields[i].key == fields[i].name
                  && Ok(r.value.fields[i].value)
                     == if fields[i].offset.None? then Ok(SymbolTree.Missing)
                        else FromBytes(lib, data, FieldNode(fields[i], types, rank), offset + fields[i].offset.value))
  {
    hide BuildFields;
    var fields, bound := types[typeName].fields, rank[typeName];
    BuildFieldsInOrder([], fields, types, rank, bound, i);
    var built := BuildFields([], fields, types, rank, bound);
    if FieldsFromBytes(lib, data, built, offset).Ok? {
      hide FieldsFromBytes;
      FieldsInOrder(lib, data, built, offset, i);
    }
  }

  // ---- Time structures ---------------------------------------------------------------------

  /** A struct of eight words at these offsets, under the names of a time structure. */
  function TimeTree(offsets: seq<u32>, size: nat): TypeTree
    requires |offsets| == 8
  {
    var word := (o: u32) => Slot(NodeOf(18, 2), Some(o));
    TypeTree.Struct(
      [Entry("wYear", word(offsets[0])), Entry("wMonth", word(offsets[1])), Entry("wDayOfWeek", word(offsets[2])),
       Entry("wDay", word(offsets[3])), Entry("wHour", word(offsets[4])), Entry("wMinute", word(offsets[5])),
       Entry("wSecond", word(offsets[6])), Entry("wMilliseconds", word(offsets[7]))],
      size)
  }

  /** The moment those words name, whatever their order in memory; the day of the week does not matter. */
  function MomentAt(b: seq<byte>, o: seq<u32>): Moment
    requires |o| == 8 && forall i :: 0 <= i < 8 ==> o[i] + 2 <= |b|
  {
    Moment(
      year := Bytes.U16(b[o[0]..o[0] + 2]), month := Bytes.U16(b[o[1]..o[1] + 2]), day := Bytes.U16(b[o[3]..o[3] + 2]),
      hour := Bytes.U16(b[o[4]..o[4] + 2]), minute := Bytes.U16(b[o[5]..o[5] + 2]),
      second := Bytes.U16(b[o[6]..o[6] + 2]), milliseconds := Bytes.U16(b[o[7]..o[7] + 2]))
  }

  /** In the map a time structure is one moment, and the tree's timestamp is the same. */
  lemma TimeRead(lib: Library, data: seq<byte>, offsets: seq<u32>, size: nat, offset: u32, path: string)
    requires |offsets| == 8 && offset + size <= |data| && forall i :: 0 <= i < 8 ==> offsets[i] + 2 <= size
    ensures var t, date := TimeTree(offsets, size), lib.date(MomentAt(data[offset..], offsets));
            && (exists d: Descriptor :: d.typ.PTime? && |d.typ.offsets| == 8
                  && FromTree(t, offset, path) == Ok([Entry(path, d)])
                  && ReadFromBytes(lib, d, data) == Ok(if date.Some? then VTimestamp(date.value) else VMalformed))
            && FromBytes(lib, data, t, offset).Ok?
            && Timestamp(lib, FromBytes(lib, data, t, offset).value) == date
  {
    hide Bytes.U16, FieldsFromBytes, Offsets, MomentOf, ReadMoment, Keys;
    var t := TimeTree(offsets, size);
    var fields := t.fields;
    TimeTreeIsTime(offsets, size);
    DecodeInBounds(lib, data, t, offset);
    MomentAgrees(lib, data, fields, TIME_KEYS, size, offset);
    MomentRead(data[offset..], fields, offsets);
    var d := Descriptor(PTime(Offsets(fields)), offset);
    assert FromTree(t, offset, path) == Ok([Entry(path, d)]);
  }

  lemma TimeTreeIsTime(offsets: seq<u32>, size: nat)
    requires |offsets| == 8 && forall i :: 0 <= i < 8 ==> offsets[i] + 2 <= size
    ensures var t := TimeTree(offsets, size);
            && IsTime(t) && ValidTime(t.fields) && Distinct(t.fields) && InBounds(t)
            && (forall i :: 0 <= i < 8 ==> t.fields[i].key == TIME_KEYS[i])
            && Offsets(t.fields) == offsets
  {
    hide Offsets, Distinct, InBounds, TimeTree, Keys;
    var t := TimeTree(offsets, size);
    TimeTreeFields(offsets, size);
    assert Keys(t.fields) == TIME_KEYS;
    assert Offsets(t.fields) == offsets;
    assert Distinct(t.fields) by { KeysDiffer(t.fields); }
    assert InBounds(t) by { WordsInBounds(t); }
  }

  lemma TimeTreeFields(offsets: seq<u32>, size: nat)
    requires |offsets| == 8
    ensures var t := TimeTree(offsets, size);
            && t.Struct? && t.size == size && |t.fields| == 8
            && (forall i :: 0 <= i < 8 ==> t.fields[i].key == TIME_KEYS[i])
            && (forall i :: 0 <= i < 8 ==>
                  t.fields[i].value == Slot(TypeTree.Scalar(ScalarKind.Uint), Some(offsets[i])))
  {
  }

  lemma KeysDiffer(fields: seq<Entry<Slot>>)
    requires |fields| == 8 && forall i :: 0 <= i < 8 ==> fields[i].key == TIME_KEYS[i]
    ensures Distinct(fields)
  {
    var keys := TIME_KEYS;
    assert forall i, j :: 0 <= i < j < 8 ==>
             |keys[i]| != |keys[j]| || keys[i][1] != keys[j][1] || keys[i][2] != keys[j][2];
  }

  lemma WordsInBounds(t: TypeTree)
    requires t.Struct? && ValidTime(t.fields)
    requires forall i :: 0 <= i < |t.fields| ==> t.fields[i].value.offset.value + 2 <= t.size
    ensures InBounds(t)
  {
  }

  lemma MomentRead(b: seq<byte>, fields: seq<Entry<Slot>>, offsets: seq<u32>)
    requires ValidTime(fields) && Offsets(fields) == offsets && |offsets| == 8
    requires forall i :: 0 <= i < 8 ==> offsets[i] + 2 <= |b|
    ensures ReadMoment(Offsets(fields), b) == Ok(MomentAt(b, offsets))
  {
    hide Bytes.U16, Offsets, ValidTime;
  }

  /**
    * With too few bytes, the first of its words that is not there decides: the map's moment is malformed if
    * the word's place is still inside the payload, and its slice panics if not.
    */
  lemma ShortTimeRead(lib: Library, data: seq<byte>, offsets: seq<u32>, offset: u32, k: nat)
    requires |offsets| == 8 && offset <= |data| && k < 8 && k != 2
    requires forall i :: 0 <= i < k && i != 2 ==> offset + offsets[i] + 2 <= |data|
    requires |data| < offset + offsets[k] + 2
    ensures ReadFromBytes(lib, Descriptor(PTime(offsets), offset), data)
         == if offset + offsets[k] <= |data| then Ok(VMalformed) else Panic
  {
    hide Bytes.U16;
  }

  // ---- When flattening panics --------------------------------------------------------------

  /** Something below has no place in 32 bits, or is a placeholder. */
  predicate Blocked(t: TypeTree, offset: nat)
    decreases t
  {
    match t
    case Struct(fields, _) =>
      Keys(fields) != TIME_KEYS && exists i :: 0 <= i < |fields| && FieldBlocked(fields[i], offset)
    case Compound(_) => true
    case _ => false
  }

  predicate FieldBlocked(field: Entry<Slot>, offset: nat)
    decreases field
  {
    && field.value.offset.Some?
    && var below := offset + field.value.offset.value;
    && (0x1_0000_0000 <= below || Blocked(field.value.tree, below))
  }

  /** Flattening panics exactly then, and never fails otherwise. */
  lemma {:induction false} FlattenPanicsIff(t: TypeTree, offset: u32, path: string)
    ensures FromTree(t, offset, path) == Panic <==> Blocked(t, offset)
    ensures !FromTree(t, offset, path).Fail?
    decreases t
  {
    hide FieldsFromTree, FieldBlocked, Offsets;
    if t.Struct? && Keys(t.fields) != TIME_KEYS {
      FieldsPanicIff([], t.fields, offset, path);
    }
  }

  lemma {:induction false} FieldsPanicIff(
    m: seq<Entry<Descriptor>>, fields: seq<Entry<Slot>>, offset: u32, path: string)
    ensures FieldsFromTree(m, fields, offset, path) == Panic <==>
              exists i :: 0 <= i < |fields| && FieldBlocked(fields[i], offset)
    ensures !FieldsFromTree(m, fields, offset, path).Fail?
    decreases fields
  {
    hide FromTree, Blocked, Append;
    if fields != [] {
      var slot := fields[0].value;
      if slot.offset.Some? && offset + slot.offset.value < 0x1_0000_0000 {
        FlattenPanicsIff(slot.tree, offset + slot.offset.value, ChildPath(path, fields[0].key));
      }
      var more := FieldFromTree(fields[0], offset, path);
      if more.Ok? {
        FieldsPanicIff(Append(m, more.value), fields[1..], offset, path);
        assert forall i :: 0 <= i < |fields[1..]| ==> fields[1..][i] == fields[i + 1];
        assert forall i :: 1 <= i < |fields| ==> fields[i] == fields[1..][i - 1];
      }
    }
  }
}
