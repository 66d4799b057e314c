/**
  * The main results about flattening: the map and the tree are the same reading of a payload,
  * path by path, for every tree that a well-formed inventory gives.
  */
module Meaning {
  import opened Outcomes
  import opened Bytes
  import opened Strings
  import opened IndexMaps
  import opened TypeInfo
  import opened TypeSections
  import opened TypeTrees
  import opened SymbolTrees
  import opened SymbolMaps
  import opened Flattening

  predicate Good(t: TypeTree) {
    Named(t) && NoCompound(t) && InBounds(t) && t.Size() < U32_LIMIT
  }

  // ---- Leaf by leaf ------------------------------------------------------------------------

  /** The entry a leaf becomes, read off the tree. */
  function EntryOf(lib: Library, data: seq<byte>, tree: SymbolTree, leaf: Leaf): Entry<PrimitiveValue> {
    Entry(Dotted(leaf.path), Widened(lib, Lookup(tree, leaf.path), RawOf(data, leaf.typ, leaf.offset)))
  }

  /**
    * Neither decoder panics on a payload that covers the tree, and the flattened map holds, depth
    * first, one entry per leaf: the widened value of the tree's node along the same path.
    */
  lemma FlattenPreservesMeaning(lib: Library, data: seq<byte>, t: TypeTree)
    requires Good(t) && t.Size() <= |data|
    ensures FromBytes(lib, data, t, 0).Ok?
    ensures FromTree(t, 0, "").Ok? && Readable(FromTree(t, 0, "").value) && Distinct(FromTree(t, 0, "").value)
    ensures MapFromBytes(lib, data, FromTree(t, 0, "").value).Ok?
    ensures var tree := FromBytes(lib, data, t, 0).value;
            var values := MapFromBytes(lib, data, FromTree(t, 0, "").value).value;
            && Distinct(values)
            && |values| == |Leaves(t, [], 0)|
            && forall k :: 0 <= k < |values| ==> values[k] == EntryOf(lib, data, tree, Leaves(t, [], 0)[k])
  {
    hide FromBytes, FromTree, MapFromBytes, ReadFromBytes, Leaves, Reaches, Named, NoCompound, InBounds, Widened;
    hide Lookup, RawOf;
    var leaves := Leaves(t, [], 0);
    DecodeInBounds(lib, data, t, 0);
    NamedDistinct(t);
    FlattenIsLeaves(t, [], 0);
    EntriesDistinct(t, [], 0);
    var tree, flat := FromBytes(lib, data, t, 0).value, FromTree(t, 0, "").value;
    forall k | 0 <= k < |flat|
      ensures flat[k].value.typ.PTime? ==> |flat[k].value.typ.offsets| == 8
      ensures Reads(lib, data, flat[k], EntryOf(lib, data, tree, leaves[k]))
    {
      LeavesReached(t, [], 0, k);
      assert leaves[k].path[0..] == leaves[k].path;
      ReadingsAgree(lib, data, t, leaves[k].path, 0, leaves[k].typ, leaves[k].offset);
    }
    ghost var values := seq(|flat|, k requires 0 <= k < |flat| => EntryOf(lib, data, tree, leaves[k]));
    MapInOrder(lib, data, flat, values);
  }

  predicate Reads(lib: Library, data: seq<byte>, d: Entry<Descriptor>, v: Entry<PrimitiveValue>) {
    (d.value.typ.PTime? ==> |d.value.typ.offsets| == 8) && d.key == v.key
        && ReadFromBytes(lib, d.value, data) == Ok(v.value)
  }

  /** Reading a map reads its descriptors one by one, under their keys. */
  lemma {:induction false} MapInOrder(
    lib: Library, data: seq<byte>, m: seq<Entry<Descriptor>>, values: seq<Entry<PrimitiveValue>>)
    requires |values| == |m| && Readable(m) && forall k :: 0 <= k < |m| ==> Reads(lib, data, m[k], values[k])
    ensures MapFromBytes(lib, data, m) == Ok(values)
    decreases |m|
  {
    hide ReadFromBytes;
    if m != [] {
      assert Reads(lib, data, m[0], values[0]);
      forall k | 0 <= k < |m[1..]|
        ensures Reads(lib, data, m[1..][k], values[1..][k])
      {
        assert Reads(lib, data, m[k + 1], values[k + 1]);
      }
      MapInOrder(lib, data, m[1..], values[1..]);
      assert [values[0]] + values[1..] == values;
    }
  }

  // ---- Path by path ------------------------------------------------------------------------

  /** A path as text; the empty text stands for the root. */
  function Tokens(path: string): (tokens: seq<string>)
    ensures Dotted(tokens) == path
  {
    if path == "" then [] else
      JoinSplit(path, '.');
      Split(path, '.')
  }

  /** For every text whatsoever: the map has it as a key exactly when following it reaches a leaf. */
  lemma KeyIffReached(lib: Library, data: seq<byte>, t: TypeTree, path: string)
    requires Good(t) && t.Size() <= |data|
    requires FromTree(t, 0, "").Ok? && Readable(FromTree(t, 0, "").value)
    requires MapFromBytes(lib, data, FromTree(t, 0, "").value).Ok?
    ensures Has(MapFromBytes(lib, data, FromTree(t, 0, "").value).value, path)
       <==> exists typ, at :: Reaches(t, Tokens(path), 0, typ, at)
  {
    hide FromBytes, FromTree, MapFromBytes, Leaves, Reaches, Named, NoCompound, InBounds, Widened, Lookup, RawOf;
    hide Dotted, Tokens;
    FlattenPreservesMeaning(lib, data, t);
    var leaves, values := Leaves(t, [], 0), MapFromBytes(lib, data, FromTree(t, 0, "").value).value;
    if Has(values, path) {
      var k :| 0 <= k < |values| && values[k].key == path;
      LeavesReached(t, [], 0, k);
      assert leaves[k].path[0..] == leaves[k].path;
      ReachedIsPath(t, leaves[k].path, 0, leaves[k].typ, leaves[k].offset);
      TokensOfDotted(leaves[k].path);
      assert Reaches(t, Tokens(path), 0, leaves[k].typ, leaves[k].offset);
    }
    if typ, at :| Reaches(t, Tokens(path), 0, typ, at) {
      ReachedIsLeaf(t, [], Tokens(path), 0, typ, at);
      assert [] + Tokens(path) == Tokens(path);
      var k :| 0 <= k < |leaves| && leaves[k] == Leaf(Tokens(path), typ, at);
      assert values[k].key == path;
    }
  }

  lemma TokensOfDotted(tokens: seq<string>)
    requires Flattening.Path(tokens)
    ensures Tokens(Dotted(tokens)) == tokens
  {
    hide Split, Dotted;
    DottedNonEmpty(tokens);
    if tokens != [] {
      DottedSplits(tokens);
    }
  }

  /** What the map gives for the path of a leaf is the widened value the tree's lookup finds there. */
  lemma ReadingsOfPath(lib: Library, data: seq<byte>, t: TypeTree, path: string, typ: PrimitiveType, at: nat)
    requires Good(t) && t.Size() <= |data| && Reaches(t, Tokens(path), 0, typ, at)
    requires FromBytes(lib, data, t, 0).Ok? && FromTree(t, 0, "").Ok? && Readable(FromTree(t, 0, "").value)
    requires MapFromBytes(lib, data, FromTree(t, 0, "").value).Ok?
    ensures Get(MapFromBytes(lib, data, FromTree(t, 0, "").value).value, path)
         == Some(Widened(lib, Lookup(FromBytes(lib, data, t, 0).value, Tokens(path)), RawOf(data, typ, at)))
  {
    hide FromBytes, FromTree, MapFromBytes, Leaves, Reaches, Named, NoCompound, InBounds, Widened, Lookup, RawOf;
    hide Dotted, Tokens, Get;
    FlattenPreservesMeaning(lib, data, t);
    var leaves, values := Leaves(t, [], 0), MapFromBytes(lib, data, FromTree(t, 0, "").value).value;
    ReachedIsLeaf(t, [], Tokens(path), 0, typ, at);
    assert [] + Tokens(path) == Tokens(path);
    var k :| 0 <= k < |leaves| && leaves[k] == Leaf(Tokens(path), typ, at);
    GetAt(values, k);
  }

  /** The root itself is the one leaf the tree's lookup cannot name: the empty text finds nothing. */
  lemma RootIsNotFound(lib: Library, data: seq<byte>, t: TypeTree)
    requires Good(t) && FromBytes(lib, data, t, 0).Ok?
    ensures Split("", '.') == [""] && Lookup(FromBytes(lib, data, t, 0).value, Split("", '.')) == SymbolTree.Missing
  {
    hide FieldsFromBytes, Words, Bytes.U16, Bytes.U32, Bytes.U64, Signed;
    var tree := FromBytes(lib, data, t, 0).value;
    if tree.Struct? && Has(tree.fields, "") {
      var i :| 0 <= i < |tree.fields| && tree.fields[i].key == "";
      if t.fields != [] {
        FieldsInOrder(lib, data, t.fields, 0, 0);
        FieldsInOrder(lib, data, t.fields, 0, i);
      } else {
        NoFields(lib, data);
      }
    }
  }

  lemma NoFields(lib: Library, data: seq<byte>)
    ensures FieldsFromBytes(lib, data, [], 0) == Ok([])
  {
  }

  // ---- When a value is malformed -----------------------------------------------------------

  /** The two ways in which a value inside the payload can be rejected. */
  predicate Rejected(lib: Library, data: seq<byte>, typ: PrimitiveType, at: nat)
    requires typ.PTime? ==> |typ.offsets| == 8
  {
    match typ
    case PWstring(size) => size % 2 != 0
    case PTime(offsets) =>
      at <= |data| && ReadMoment(offsets, data[at..]).Ok? && lib.date(ReadMoment(offsets, data[at..]).value).None?
    case _ => false
  }

  /** A leaf reads as malformed exactly for an odd wide text or a moment that is no date. */
  lemma {:induction false} MalformedIff(
    lib: Library, data: seq<byte>, t: TypeTree, tokens: seq<string>, offset: nat, typ: PrimitiveType, at: nat)
    requires DistinctNames(t) && InBounds(t) && offset + t.Size() <= |data| && at < U32_LIMIT
             && Reaches(t, tokens, offset, typ, at)
    ensures typ.PTime? ==> |typ.offsets| == 8
    ensures ReadFromBytes(lib, Descriptor(typ, at), data).Ok?
    ensures ReadFromBytes(lib, Descriptor(typ, at), data).value == VMalformed <==> Rejected(lib, data, typ, at)
    decreases |tokens|
  {
    hide ReadFromBytes, DistinctNames, InBounds, Reaches, Rejected;
    if tokens == [] {
      ReachedHere(t, offset, typ, at);
      NodeMalformedIff(lib, data, t, at, typ);
    } else {
      DecodeInBounds(lib, data, t, offset);
      var i := StepDown(lib, data, t, tokens, offset, typ, at);
      var slot := t.fields[i].value;
      MalformedIff(lib, data, slot.tree, tokens[1..], offset + slot.offset.value, typ, at);
    }
  }

  lemma NodeMalformedIff(lib: Library, data: seq<byte>, t: TypeTree, offset: u32, typ: PrimitiveType)
    requires DistinctNames(t) && InBounds(t) && offset + t.Size() <= |data| && Reaches(t, [], offset, typ, offset)
    ensures typ.PTime? ==> |typ.offsets| == 8
    ensures ReadFromBytes(lib, Descriptor(typ, offset), data).Ok?
    ensures ReadFromBytes(lib, Descriptor(typ, offset), data).value == VMalformed <==> Rejected(lib, data, typ, offset)
  {
    hide Words, ReadMoment, MomentOf, FieldsFromBytes, ValidTime, Offsets, Bytes.U16, Bytes.U32, Bytes.U64, Signed;
    if IsTime(t) {
      DecodeInBounds(lib, data, t, offset);
      assert |t.fields| == |Keys(t.fields)| == 8;
      assert forall i :: 0 <= i < 8 ==> t.fields[i].key == Keys(t.fields)[i];
      assert t == TypeTree.Struct(t.fields, t.size);
      MomentAgrees(lib, data, t.fields, TIME_KEYS, t.size, offset);
    }
  }

  /** The type at the end of a path through placed fields. */
  function PlacedAt(t: TypeTree, tokens: seq<string>): Option<TypeTree>
    decreases |tokens|
  {
    if tokens == [] then Some(t)
    else if t.Struct? && Get(t.fields, tokens[0]).Some? && Get(t.fields, tokens[0]).value.offset.Some? then
      PlacedAt(Get(t.fields, tokens[0]).value.tree, tokens[1..])
    else None
  }

  /** In the tree, too, a node is malformed exactly for an odd wide text (or a placeholder that should not be there). */
  lemma {:induction false} TreeMalformedIff(
    lib: Library, data: seq<byte>, t: TypeTree, tokens: seq<string>, offset: nat)
    requires DistinctNames(t) && InBounds(t) && offset + t.Size() <= |data|
    ensures FromBytes(lib, data, t, offset).Ok?
    ensures Lookup(FromBytes(lib, data, t, offset).value, tokens) == Malformed <==>
              && PlacedAt(t, tokens).Some?
              && (PlacedAt(t, tokens).value.Compound?
                  || (PlacedAt(t, tokens).value.Wstring? && PlacedAt(t, tokens).value.size % 2 != 0))
    decreases |tokens|
  {
    hide FieldsFromBytes, FromBytes;
    DecodeInBounds(lib, data, t, offset);
    if tokens == [] || !t.Struct? {
      LeafMalformedIff(lib, data, t, offset);
    } else {
      hide Get, DistinctNames;
      var i := ChildUnder(lib, data, t, tokens[0], offset);
      if i.Some? && t.fields[i.value].value.offset.Some? {
        var slot := t.fields[i.value].value;
        TreeMalformedIff(lib, data, slot.tree, tokens[1..], offset + slot.offset.value);
      }
    }
  }

  lemma LeafMalformedIff(lib: Library, data: seq<byte>, t: TypeTree, offset: nat)
    requires offset + t.Size() <= |data| && FromBytes(lib, data, t, offset).Ok?
    ensures FromBytes(lib, data, t, offset).value == Malformed <==> t.Compound? || (t.Wstring? && t.size % 2 != 0)
    ensures !t.Struct? ==> !FromBytes(lib, data, t, offset).value.Struct?
  {
    hide FieldsFromBytes, Words, Bytes.U16, Bytes.U32, Bytes.U64, Signed;
  }

  /** The child under a name: decoded where its field is placed, missing where it is not. */
  lemma ChildUnder(lib: Library, data: seq<byte>, t: TypeTree, name: string, offset: nat) returns (i: Option<nat>)
    requires t.Struct? && DistinctNames(t) && FromBytes(lib, data, t, offset).Ok? && offset <= |data|
    ensures i.Some? ==> i.value < |t.fields| && DistinctNames(t.fields[i.value].value.tree)
    ensures Get(t.fields, name) == if i.None? then None else Some(t.fields[i.value].value)
    ensures FromBytes(lib, data, t, offset).value.Struct?
    ensures var child := Get(FromBytes(lib, data, t, offset).value.fields, name);
            match i
            case None => child == None
            case Some(k) =>
              var slot := t.fields[k].value;
              && FieldFromBytes(lib, data, slot, offset).Ok?
              && child == Some(FieldFromBytes(lib, data, slot, offset).value)
  {
    hide FieldsFromBytes, FieldFromBytes, Get;
    var children := FieldsFromBytes(lib, data, t.fields, offset).value;
    if t.fields != [] {
      FieldsInOrder(lib, data, t.fields, offset, 0);
      forall j | 0 <= j < |t.fields|
        ensures children[j].key == t.fields[j].key
      {
        FieldsInOrder(lib, data, t.fields, offset, j);
      }
    } else {
      assert children == [] by { NoChildren(lib, data, t.fields, offset); }
    }
    if k: nat :| k < |t.fields| && t.fields[k].key == name {
      GetAt(t.fields, k);
      GetAt(children, k);
      FieldsInOrder(lib, data, t.fields, offset, k);
      i := Some(k);
    } else {
      i := None;
      assert !Has(t.fields, name);
      if Has(children, name) {
        var j :| 0 <= j < |children| && children[j].key == name;
      }
    }
  }

  lemma NoChildren(lib: Library, data: seq<byte>, fields: seq<Entry<Slot>>, offset: nat)
    requires fields == []
    ensures FieldsFromBytes(lib, data, fields, offset) == Ok([])
  {
  }

  /** How far behind the start of the tree's bytes the node at the end of a path is, through placed fields. */
  function PlaceOf(t: TypeTree, tokens: seq<string>): Option<nat>
    decreases |tokens|
  {
    if tokens == [] then Some(0)
    else if t.Struct? && Get(t.fields, tokens[0]).Some? && Get(t.fields, tokens[0]).value.offset.Some? then
      var slot := Get(t.fields, tokens[0]).value;
      var below := PlaceOf(slot.tree, tokens[1..]);
      if below.Some? then Some(slot.offset.value + below.value) else None
    else None
  }

  /**
    * The two look-ups agree: the node found under a path in the decoded tree is what the type found under the same
    * path in the type tree decodes to at its place; and where there is no place, there is no node.
    */
  lemma {:induction false} LookupsAgree(
    lib: Library, data: seq<byte>, t: TypeTree, tokens: seq<string>, offset: nat)
    requires DistinctNames(t) && InBounds(t) && offset + t.Size() <= |data|
    ensures FromBytes(lib, data, t, offset).Ok?
    ensures var node, place := Lookup(FromBytes(lib, data, t, offset).value, tokens), PlaceOf(t, tokens);
            if place.Some? then FromBytes(lib, data, Walk(t, tokens), offset + place.value) == Ok(node)
            else node == SymbolTree.Missing
    decreases |tokens|
  {
    hide FieldsFromBytes, FromBytes, InBounds, DistinctNames, Get;
    DecodeInBounds(lib, data, t, offset);
    if tokens != [] && !t.Struct? {
      LeafMalformedIff(lib, data, t, offset);
    } else if tokens != [] {
      var i := ChildUnder(lib, data, t, tokens[0], offset);
      if i.Some? && t.fields[i.value].value.offset.Some? {
        var slot := t.fields[i.value].value;
        FieldInBounds(t, i.value);
        LookupsAgree(lib, data, slot.tree, tokens[1..], offset + slot.offset.value);
      } else {
        NothingBelowMissing(tokens[1..]);
      }
    }
  }

  lemma FieldInBounds(t: TypeTree, i: nat)
    requires t.Struct? && InBounds(t) && i < |t.fields| && t.fields[i].value.offset.Some?
    ensures var slot := t.fields[i].value;
            InBounds(slot.tree) && slot.offset.value + slot.tree.Size() <= t.Size()
  {
  }

  lemma NothingBelowMissing(tokens: seq<string>)
    ensures Lookup(SymbolTree.Missing, tokens) == SymbolTree.Missing
  {
  }

  // ---- From the inventory ------------------------------------------------------------------

  predicate NamesAreTokens(fields: seq<Field>) {
    forall i :: 0 <= i < |fields| ==> Token(fields[i].name)
  }

  /** What the inventory has to promise: no cycles, usable names, and fields inside their types. */
  ghost predicate GoodInventory(types: TypeMap, rank: map<string, nat>) {
    && Ranked(types, rank) && Fits(types)
    && forall name :: name in types ==> NamesAreTokens(types[name].fields)
  }

  /** Every tree built from such an inventory has distinct, usable names at every depth. */
  lemma {:induction false} BuildNamed(
    baseType: u32, size: nat, typeName: string, types: TypeMap, rank: map<string, nat>)
    requires GoodInventory(types, rank)
    ensures Build(baseType, size, typeName, types, rank).Some? ==>
            Named(Build(baseType, size, typeName, types, rank).value)
    decreases if baseType == COMPOUND then Height(typeName, types, rank) else 0
  {
    hide BuildFields, Insert, Fits;
    if baseType == COMPOUND && typeName in types && types[typeName].fields != [] {
      var fields, bound := types[typeName].fields, rank[typeName];
      assert NamesAreTokens(fields);
      var built := BuildFields([], fields, types, rank, bound);
      BuildFieldsDistinct([], fields, types, rank, bound);
      forall i | 0 <= i < |built|
        ensures Token(built[i].key) && Named(built[i].value.tree)
      {
        BuildFieldsOrigin([], fields, types, rank, bound, i);
        var j :| 0 <= j < |fields| && built[i] == Entry(fields[j].name, BuildField(fields[j], types, rank));
        var f := fields[j];
        BuildNamed(f.baseType, f.size, f.typ, types, rank);
      }
    }
  }

  lemma {:induction false} WalkNamed(t: TypeTree, tokens: seq<string>)
    requires Named(t)
    ensures Named(Walk(t, tokens))
    decreases |tokens|
  {
    if tokens != [] && t.Struct? && Get(t.fields, tokens[0]).Some? {
      var slot := Get(t.fields, tokens[0]).value;
      var i :| 0 <= i < |t.fields| && t.fields[i] == Entry(tokens[0], slot);
      assert t.fields[i].value.tree == slot.tree;
      WalkNamed(slot.tree, tokens[1..]);
    }
  }

  /**
    * End to end: a symbol's tree and every child of it are good, so that for any payload of at
    * least its size both decoders succeed and agree.
    */
  lemma InventoryIsSafe(
    types: TypeMap, rank: map<string, nat>, symbol: Symbol, path: string, lib: Library, data: seq<byte>)
    requires GoodInventory(types, rank)
    requires Build(symbol.baseType, symbol.size, symbol.typ, types, rank).Some?
    ensures var t := Walk(Build(symbol.baseType, symbol.size, symbol.typ, types, rank).value, Split(path, '.'));
            t.Size() < U32_LIMIT && t.Size() <= |data| ==>
              && Good(t)
              && FromBytes(lib, data, t, 0).Ok?
              && FromTree(t, 0, "").Ok? && Readable(FromTree(t, 0, "").value)
              && MapFromBytes(lib, data, FromTree(t, 0, "").value).Ok?
  {
    hide Build, Walk, FromBytes, FromTree, MapFromBytes, Named, NoCompound, InBounds, Split, Fits;
    var tree := Build(symbol.baseType, symbol.size, symbol.typ, types, rank).value;
    BuildNamed(symbol.baseType, symbol.size, symbol.typ, types, rank);
    BuildEliminatesCompound(symbol.baseType, symbol.size, symbol.typ, types, rank);
    BuildInBounds(symbol.baseType, symbol.size, symbol.typ, types, rank);
    WalkNamed(tree, Split(path, '.'));
    WalkKeeps(tree, Split(path, '.'));
    var t := Walk(tree, Split(path, '.'));
    if t.Size() < U32_LIMIT && t.Size() <= |data| {
      FlattenPreservesMeaning(lib, data, t);
    }
  }

  // ---- Enum values -------------------------------------------------------------------------

  /** An integer node's number; the widest unsigned one wraps, as enum values are signed. */
  function NumberOf(node: SymbolTree): Option<int> {
    match node
    case Int(n) => Some(n)
    case Dint(n) => Some(n)
    case Sint(n) => Some(n)
    case Lint(n) => Some(n)
    case Usint(n) => Some(n)
    case Uint(n) => Some(n)
    case Udint(n) => Some(n)
    case Ulint(n) => Some(Signed(n, 0x1_0000_0000_0000_0000))
    case _ => None
  }

  /**
    * The inventory's reading of an enum value and the tree decoder's reading of a variable of the same
    * integer base type give the same number from the same bytes, so that values can be compared.
    */
  lemma EnumValueIsTreeValue(foreign: Foreign, lib: Library, raw: seq<byte>, baseType: u32)
    requires NumberOf(FromBytesOf(lib, raw, baseType)).Some?
    ensures EnumValue(foreign, raw, baseType) == Ok(NumberOf(FromBytesOf(lib, raw, baseType)).value)
  {
    hide Bytes.U16, Bytes.U32, Bytes.U64, Signed, Words, FieldsFromBytes;
    assert raw[0..] == raw;
  }

  /** A variable of a base type, decoded on its own; a panic counts as missing. */
  function FromBytesOf(lib: Library, raw: seq<byte>, baseType: u32): SymbolTree {
    var node := FromBytes(lib, raw, FromTypeId(baseType, |raw|), 0);
    if node.Ok? then node.value else SymbolTree.Missing
  }

  // ---- What the hypotheses are for ---------------------------------------------------------

  /**
    * A struct with the names of a time structure, but not all of them placed unsigned words, has no
    * entry in the map at all, although the tree decodes its eight children.
    */
  lemma BadTimeVanishes(lib: Library, data: seq<byte>, t: TypeTree, offset: u32, path: string)
    requires IsTime(t) && !ValidTime(t.fields) && InBounds(t) && offset + t.Size() <= |data|
    ensures FromTree(t, offset, path) == Ok([])
    ensures forall tokens, typ, at :: !Reaches(t, tokens, offset, typ, at)
    ensures FromBytes(lib, data, t, offset).Ok? && FromBytes(lib, data, t, offset).value.Struct?
    ensures |FromBytes(lib, data, t, offset).value.fields| == 8
  {
    hide FieldsFromBytes, ValidTime, Reaches;
    DecodeInBounds(lib, data, t, offset);
    assert |t.fields| == |Keys(t.fields)| == 8;
    FieldsInOrder(lib, data, t.fields, offset, 0);
    forall tokens, typ, at | Reaches(t, tokens, offset, typ, at)
      ensures false
    {
      OnlyValidTimes(t, tokens, offset, typ, at);
    }
  }

  lemma OnlyValidTimes(t: TypeTree, tokens: seq<string>, offset: nat, typ: PrimitiveType, at: nat)
    requires IsTime(t) && Reaches(t, tokens, offset, typ, at)
    ensures ValidTime(t.fields)
  {
    hide ValidTime, Offsets;
  }

  const ONE_BYTE := Slot(TypeTree.Scalar(ScalarKind.Usint), Some(0))

  /** Such a struct: the eight names, over one byte each. */
  const BYTES_AS_TIME := TypeTree.Struct(
    [Entry("wYear", ONE_BYTE), Entry("wMonth", ONE_BYTE), Entry("wDayOfWeek", ONE_BYTE), Entry("wDay", ONE_BYTE),
     Entry("wHour", ONE_BYTE), Entry("wMinute", ONE_BYTE), Entry("wSecond", ONE_BYTE),
     Entry("wMilliseconds", ONE_BYTE)],
    1)

  lemma BytesAsTimeIsATime()
    ensures IsTime(BYTES_AS_TIME) && !ValidTime(BYTES_AS_TIME.fields)
  {
    var fields := BYTES_AS_TIME.fields;
    assert Keys(fields) == TIME_KEYS;
    assert fields[0].value.tree != TypeTree.Scalar(ScalarKind.Uint);
  }

  lemma BytesAsTimeVanish(lib: Library, data: seq<byte>)
    requires |data| == 1
    ensures FromTree(BYTES_AS_TIME, 0, "") == Ok([])
    ensures FromBytes(lib, data, BYTES_AS_TIME, 0).Ok? && FromBytes(lib, data, BYTES_AS_TIME, 0).value.Struct?
    ensures |FromBytes(lib, data, BYTES_AS_TIME, 0).value.fields| == 8
  {
    hide FromTree, FromBytes, Keys, ValidTime, IsTime, Reaches;
    BytesAsTimeIsATime();
    BadTimeVanishes(lib, data, BYTES_AS_TIME, 0, "");
  }
}
