/**
  * Flattening preserves meaning: the flattened map and the tree are two readings of the same
  * payload, and from a well-formed inventory neither reads out of range.
  */
module Flattening {
  import opened Outcomes
  import opened Bytes
  import opened Strings
  import opened IndexMaps
  import opened TypeInfo
  import opened TypeTrees
  import opened SymbolTrees
  import opened SymbolMaps

  // ---- Paths -------------------------------------------------------------------------------

  /**
    * A name that can be a path token: not empty and without a dot.  An empty name only matters in front
    * of a path, where flattening drops it (module LeafKeys treats any names).
    */
  predicate Token(name: string) {
    name != "" && Free(name, '.')
  }

  predicate Path(tokens: seq<string>) {
    forall i :: 0 <= i < |tokens| ==> Token(tokens[i])
  }

  function Dotted(tokens: seq<string>): string {
    Join(tokens, '.')
  }

  lemma DottedNonEmpty(tokens: seq<string>)
    requires Path(tokens)
    ensures Dotted(tokens) == "" <==> tokens == []
  {
  }

  /** Extending a path by a field's name is what the flattening does with its text. */
  lemma DottedChild(tokens: seq<string>, name: string)
    requires Path(tokens) && Token(name)
    ensures ChildPath(Dotted(tokens), name) == Dotted(tokens + [name])
    ensures Path(tokens + [name])
  {
    DottedNonEmpty(tokens);
    if tokens != [] {
      JoinSnoc(tokens, name, '.');
    }
  }

  lemma DottedSplits(tokens: seq<string>)
    requires Path(tokens) && tokens != []
    ensures Split(Dotted(tokens), '.') == tokens
  {
    SplitJoin(tokens, '.');
  }

  lemma DottedInjective(a: seq<string>, b: seq<string>)
    requires Path(a) && Path(b) && Dotted(a) == Dotted(b)
    ensures a == b
  {
    DottedNonEmpty(a);
    DottedNonEmpty(b);
    if a != [] {
      DottedSplits(a);
      DottedSplits(b);
    }
  }

  /** Field names are tokens, and different within a struct. */
  predicate Named(t: TypeTree) {
    match t
    case Struct(fields, _) =>
      && Distinct(fields)
      && forall i :: 0 <= i < |fields| ==> Token(fields[i].key) && Named(fields[i].value.tree)
    case _ => true
  }

  lemma {:induction false} NamedDistinct(t: TypeTree)
    requires Named(t)
    ensures DistinctNames(t)
  {
    if t.Struct? {
      forall i | 0 <= i < |t.fields|
        ensures DistinctNames(t.fields[i].value.tree)
      {
        NamedDistinct(t.fields[i].value.tree);
      }
    }
  }

  // ---- The leaves of a tree ----------------------------------------------------------------

  /** A leaf: its path, the primitive it is read as, and where. */
  datatype Leaf = Leaf(path: seq<string>, typ: PrimitiveType, offset: nat)

  predicate IsTime(t: TypeTree) {
    t.Struct? && Keys(t.fields) == TIME_KEYS
  }

  /** The leaves below `path`, depth first. */
  function Leaves(t: TypeTree, path: seq<string>, offset: nat): seq<Leaf>
    decreases t
  {
    match t
    case Struct(fields, _) =>
      if IsTime(t) then (if ValidTime(fields) then [Leaf(path, PTime(Offsets(fields)), offset)] else [])
      else FieldLeaves(fields, path, offset)
    case Compound(_) => []
    case Missing => []
    case _ => [Leaf(path, PrimitiveOf(t), offset)]
  }

  function LeavesOf(field: Entry<Slot>, path: seq<string>, offset: nat): seq<Leaf>
    decreases field
  {
    if field.value.offset.None? then []
    else Leaves(field.value.tree, path + [field.key], offset + field.value.offset.value)
  }

  function FieldLeaves(fields: seq<Entry<Slot>>, path: seq<string>, offset: nat): seq<Leaf>
    decreases fields
  {
    if fields == [] then [] else LeavesOf(fields[0], path, offset) + FieldLeaves(fields[1..], path, offset)
  }

  /**
    * Independently of any traversal: following `tokens` down from `t` through placed fields ends
    * at something that is read as `typ` at `at`.
    */
  ghost predicate Reaches(t: TypeTree, tokens: seq<string>, offset: nat, typ: PrimitiveType, at: nat)
    decreases |tokens|
  {
    if tokens == [] then
      && at == offset
      && (if IsTime(t) then ValidTime(t.fields) && typ == PTime(Offsets(t.fields))
          else !t.Struct? && !t.Compound? && !t.Missing? && typ == PrimitiveOf(t))
    else
      && t.Struct? && !IsTime(t)
      && exists i :: 0 <= i < |t.fields| && ReachesThrough(t.fields[i], tokens, offset, typ, at)
  }

  ghost predicate ReachesThrough(field: Entry<Slot>, tokens: seq<string>, offset: nat, typ: PrimitiveType, at: nat)
    requires tokens != []
    decreases |tokens|, 0
  {
    && field.key == tokens[0] && field.value.offset.Some?
    && Reaches(field.value.tree, tokens[1..], offset + field.value.offset.value, typ, at)
  }

  /** The first step of a path goes through a placed field of a struct. */
  lemma FirstStep(t: TypeTree, tokens: seq<string>, offset: nat, typ: PrimitiveType, at: nat) returns (i: nat)
    requires tokens != [] && Reaches(t, tokens, offset, typ, at)
    ensures t.Struct? && i < |t.fields| && t.fields[i].key == tokens[0] && t.fields[i].value.offset.Some?
    ensures Reaches(t.fields[i].value.tree, tokens[1..], offset + t.fields[i].value.offset.value, typ, at)
  {
    hide IsTime, Offsets, PrimitiveOf, ValidTime;
    i :| 0 <= i < |t.fields| && ReachesThrough(t.fields[i], tokens, offset, typ, at);
  }

  lemma ReachedHere(t: TypeTree, offset: nat, typ: PrimitiveType, at: nat)
    requires Reaches(t, [], offset, typ, at)
    ensures at == offset
  {
    hide Offsets, PrimitiveOf, ValidTime;
  }

  /** Every leaf lies below the path it was collected for, and is reached along the rest of its own. */
  lemma {:induction false} LeavesReached(t: TypeTree, path: seq<string>, offset: nat, k: nat)
    requires k < |Leaves(t, path, offset)|
    ensures var leaf := Leaves(t, path, offset)[k];
            path <= leaf.path && Reaches(t, leaf.path[|path|..], offset, leaf.typ, leaf.offset)
    decreases t, 1
  {
    hide Offsets, PrimitiveOf;
    if t.Struct? && !IsTime(t) {
      var j := FieldLeavesReached(t.fields, path, offset, k);
      var leaf := Leaves(t, path, offset)[k];
      assert ReachesThrough(t.fields[j], leaf.path[|path|..], offset, leaf.typ, leaf.offset);
    }
  }

  lemma {:induction false} FieldLeavesReached(
    fields: seq<Entry<Slot>>, path: seq<string>, offset: nat, k: nat) returns (j: nat)
    requires k < |FieldLeaves(fields, path, offset)|
    ensures j < |fields|
    ensures var leaf := FieldLeaves(fields, path, offset)[k];
            && path < leaf.path
            && ReachesThrough(fields[j], leaf.path[|path|..], offset, leaf.typ, leaf.offset)
    decreases fields, 0
  {
    var field := fields[0];
    var first := LeavesOf(field, path, offset);
    if k < |first| {
      j := 0;
      LeavesReached(field.value.tree, path + [field.key], offset + field.value.offset.value, k);
      var leaf := first[k];
      assert leaf.path[|path|..][1..] == leaf.path[|path + [field.key]|..];
      assert leaf.path[|path|] == (path + [field.key])[|path|];
      assert path <= path + [field.key];
    } else {
      var i := FieldLeavesReached(fields[1..], path, offset, k - |first|);
      j := i + 1;
    }
  }

  /** Whatever is reached is among the leaves. */
  lemma {:induction false} ReachedIsLeaf(
    t: TypeTree, path: seq<string>, tokens: seq<string>, offset: nat, typ: PrimitiveType, at: nat)
    requires Reaches(t, tokens, offset, typ, at)
    ensures Leaf(path + tokens, typ, at) in Leaves(t, path, offset)
    decreases |tokens|
  {
    hide Offsets, PrimitiveOf;
    if tokens == [] {
      assert path + tokens == path;
    } else {
      var i :| 0 <= i < |t.fields| && ReachesThrough(t.fields[i], tokens, offset, typ, at);
      var field := t.fields[i];
      ReachedIsLeaf(field.value.tree, path + [field.key], tokens[1..], offset + field.value.offset.value, typ, at);
      assert path + [field.key] + tokens[1..] == path + tokens;
      LeavesOfField(t.fields, path, offset, i, Leaf(path + tokens, typ, at));
    }
  }

  lemma {:induction false} LeavesOfField(fields: seq<Entry<Slot>>, path: seq<string>, offset: nat, i: nat, leaf: Leaf)
    requires i < |fields| && leaf in LeavesOf(fields[i], path, offset)
    ensures leaf in FieldLeaves(fields, path, offset)
    decreases i
  {
    hide LeavesOf;
    if i > 0 {
      LeavesOfField(fields[1..], path, offset, i - 1, leaf);
    }
  }

  /** In a tree with distinct names, a path is read in one way only. */
  lemma {:induction false} ReachesOnce(
    t: TypeTree, tokens: seq<string>, offset: nat, typ: PrimitiveType, at: nat, typ': PrimitiveType, at': nat)
    requires DistinctNames(t) && Reaches(t, tokens, offset, typ, at) && Reaches(t, tokens, offset, typ', at')
    ensures typ == typ' && at == at'
    decreases |tokens|
  {
    hide Reaches, Offsets, PrimitiveOf;
    if tokens == [] {
      ReachedHere(t, offset, typ, at);
      ReachedHere(t, offset, typ', at');
      ReadOnce(t, offset, typ, typ');
    } else {
      var i := FirstStep(t, tokens, offset, typ, at);
      var j := FirstStep(t, tokens, offset, typ', at');
      assert i == j;
      var slot := t.fields[i].value;
      ReachesOnce(slot.tree, tokens[1..], offset + slot.offset.value, typ, at, typ', at');
    }
  }

  lemma ReadOnce(t: TypeTree, offset: nat, typ: PrimitiveType, typ': PrimitiveType)
    requires Reaches(t, [], offset, typ, offset) && Reaches(t, [], offset, typ', offset)
    ensures typ == typ'
  {
    hide Offsets, PrimitiveOf, ValidTime, IsTime;
  }

  // ---- The flattened map is the leaves -----------------------------------------------------

  predicate PathsDiffer(leaves: seq<Leaf>) {
    forall i, j :: 0 <= i < j < |leaves| ==> leaves[i].path != leaves[j].path
  }

  lemma {:induction false} LeavesDiffer(t: TypeTree, path: seq<string>, offset: nat)
    requires Named(t)
    ensures PathsDiffer(Leaves(t, path, offset))
    decreases t, 1
  {
    if t.Struct? && !IsTime(t) {
      FieldLeavesDiffer(t.fields, path, offset);
    }
  }

  lemma {:induction false} FieldLeavesDiffer(fields: seq<Entry<Slot>>, path: seq<string>, offset: nat)
    requires Distinct(fields) && forall i :: 0 <= i < |fields| ==> Named(fields[i].value.tree)
    ensures PathsDiffer(FieldLeaves(fields, path, offset))
    decreases fields, 0
  {
    hide Leaves, Named;
    if fields != [] {
      var field := fields[0];
      var first, rest := LeavesOf(field, path, offset), FieldLeaves(fields[1..], path, offset);
      if field.value.offset.Some? {
        LeavesDiffer(field.value.tree, path + [field.key], offset + field.value.offset.value);
      }
      FieldLeavesDiffer(fields[1..], path, offset);
      forall i, j | 0 <= i < |first| && 0 <= j < |rest|
        ensures first[i].path != rest[j].path
      {
        LeavesReached(field.value.tree, path + [field.key], offset + field.value.offset.value, i);
        var k := FieldLeavesReached(fields[1..], path, offset, j);
        assert first[i].path[|path|] == (path + [field.key])[|path|] == field.key;
        assert rest[j].path[|path|] == rest[j].path[|path|..][0] == fields[k + 1].key;
      }
    }
  }

  /** Following tokens only meets names of the tree. */
  lemma {:induction false} ReachedIsPath(t: TypeTree, tokens: seq<string>, offset: nat, typ: PrimitiveType, at: nat)
    requires Named(t) && Reaches(t, tokens, offset, typ, at)
    ensures Path(tokens)
    decreases |tokens|
  {
    hide Reaches;
    if tokens != [] {
      var i := FirstStep(t, tokens, offset, typ, at);
      var slot := t.fields[i].value;
      ReachedIsPath(slot.tree, tokens[1..], offset + slot.offset.value, typ, at);
      assert tokens == [tokens[0]] + tokens[1..];
    }
  }

  /** What is reached in a tree in bounds lies inside the tree's extent. */
  lemma {:induction false} ReachedInside(t: TypeTree, tokens: seq<string>, offset: nat, typ: PrimitiveType, at: nat)
    requires InBounds(t) && Reaches(t, tokens, offset, typ, at)
    ensures offset <= at <= offset + t.Size()
    decreases |tokens|
  {
    hide Reaches;
    if tokens == [] {
      ReachedHere(t, offset, typ, at);
    } else {
      var i := FirstStep(t, tokens, offset, typ, at);
      var slot := t.fields[i].value;
      ReachedInside(slot.tree, tokens[1..], offset + slot.offset.value, typ, at);
    }
  }

  predicate Narrow(leaves: seq<Leaf>) {
    forall i :: 0 <= i < |leaves| ==> leaves[i].offset < U32_LIMIT
  }

  function EntriesOf(leaves: seq<Leaf>): (r: seq<Entry<Descriptor>>)
    requires Narrow(leaves)
    ensures |r| == |leaves|
    ensures forall i :: 0 <= i < |r| ==>
            r[i] == Entry(Dotted(leaves[i].path), Descriptor(leaves[i].typ, leaves[i].offset))
  {
    if leaves == [] then []
    else [Entry(Dotted(leaves[0].path), Descriptor(leaves[0].typ, leaves[0].offset))] + EntriesOf(leaves[1..])
  }

  lemma EntriesAppend(a: seq<Leaf>, b: seq<Leaf>)
    requires Narrow(a) && Narrow(b)
    ensures Narrow(a + b) && EntriesOf(a + b) == EntriesOf(a) + EntriesOf(b)
  {
  }

  lemma LeavesNarrow(t: TypeTree, path: seq<string>, offset: nat)
    requires InBounds(t) && offset + t.Size() < U32_LIMIT
    ensures Narrow(Leaves(t, path, offset))
  {
    hide Leaves, InBounds, Reaches;
    var leaves := Leaves(t, path, offset);
    forall k | 0 <= k < |leaves|
      ensures leaves[k].offset < U32_LIMIT
    {
      LeavesReached(t, path, offset, k);
      ReachedInside(t, leaves[k].path[|path|..], offset, leaves[k].typ, leaves[k].offset);
    }
  }

  /** The text of different paths is different, so no two leaves share a key. */
  lemma EntriesDistinct(t: TypeTree, path: seq<string>, offset: nat)
    requires Named(t) && Path(path) && Narrow(Leaves(t, path, offset))
    ensures Distinct(EntriesOf(Leaves(t, path, offset)))
  {
    hide Leaves, Named, Reaches;
    var leaves := Leaves(t, path, offset);
    LeavesDiffer(t, path, offset);
    forall i, j | 0 <= i < j < |leaves|
      ensures Dotted(leaves[i].path) != Dotted(leaves[j].path)
    {
      LeafIsPath(t, path, offset, i);
      LeafIsPath(t, path, offset, j);
      if Dotted(leaves[i].path) == Dotted(leaves[j].path) {
        DottedInjective(leaves[i].path, leaves[j].path);
      }
    }
  }

  lemma LeafIsPath(t: TypeTree, path: seq<string>, offset: nat, k: nat)
    requires Named(t) && Path(path) && k < |Leaves(t, path, offset)|
    ensures Path(Leaves(t, path, offset)[k].path)
  {
    hide Leaves, Named, Reaches;
    var leaf := Leaves(t, path, offset)[k];
    LeavesReached(t, path, offset, k);
    ReachedIsPath(t, leaf.path[|path|..], offset, leaf.typ, leaf.offset);
    assert leaf.path == path + leaf.path[|path|..];
  }

  /**
    * Flattening lists exactly the leaves, depth first, each under the text of its path; no sum of
    * offsets leaves 32 bits, and no placeholder is met.
    */
  lemma {:induction false} FlattenIsLeaves(t: TypeTree, path: seq<string>, offset: nat)
    requires Named(t) && NoCompound(t) && InBounds(t) && Path(path) && offset + t.Size() < U32_LIMIT
    ensures Narrow(Leaves(t, path, offset))
    ensures FromTree(t, offset, Dotted(path)) == Ok(EntriesOf(Leaves(t, path, offset)))
    decreases t, 1
  {
    hide Offsets, PrimitiveOf, Dotted, FieldsFromTree;
    LeavesNarrow(t, path, offset);
    if t.Struct? && !IsTime(t) {
      EntriesDistinct(t, path, offset);
      FlattenFieldsIsLeaves([], t.fields, t.size, path, offset);
      assert [] + EntriesOf(FieldLeaves(t.fields, path, offset)) == EntriesOf(FieldLeaves(t.fields, path, offset));
    } else {
      assert FromTree(t, offset, Dotted(path)).value == EntriesOf(Leaves(t, path, offset));
    }
  }

  predicate GoodField(field: Entry<Slot>, size: nat) {
    && Token(field.key) && Named(field.value.tree) && NoCompound(field.value.tree) && InBounds(field.value.tree)
    && (field.value.offset.Some? ==> field.value.offset.value + field.value.tree.Size() <= size)
  }

  lemma FlattenFieldIsLeaves(field: Entry<Slot>, size: nat, path: seq<string>, offset: nat)
    requires GoodField(field, size) && Path(path) && offset + size < U32_LIMIT
    ensures Narrow(LeavesOf(field, path, offset))
    ensures FieldFromTree(field, offset, Dotted(path)) == Ok(EntriesOf(LeavesOf(field, path, offset)))
    decreases field, 2
  {
    hide Leaves, FromTree, Dotted, Named, NoCompound, InBounds;
    if field.value.offset.Some? {
      DottedChild(path, field.key);
      FlattenIsLeaves(field.value.tree, path + [field.key], offset + field.value.offset.value);
    }
  }

  lemma {:induction false} FlattenFieldsIsLeaves(
    m: seq<Entry<Descriptor>>, fields: seq<Entry<Slot>>, size: nat, path: seq<string>, offset: nat)
    requires Path(path) && offset + size < U32_LIMIT
    requires forall i :: 0 <= i < |fields| ==> GoodField(fields[i], size)
    requires Narrow(FieldLeaves(fields, path, offset))
    requires Distinct(m + EntriesOf(FieldLeaves(fields, path, offset)))
    ensures FieldsFromTree(m, fields, offset, Dotted(path)) == Ok(m + EntriesOf(FieldLeaves(fields, path, offset)))
    decreases fields, 0
  {
    hide LeavesOf, FieldFromTree, Dotted, GoodField, Append, EntriesOf, Narrow, Distinct;
    if fields == [] {
      assert FieldLeaves(fields, path, offset) == [];
      NoEntries(m);
    } else {
      var first, rest := LeavesOf(fields[0], path, offset), FieldLeaves(fields[1..], path, offset);
      FlattenFieldIsLeaves(fields[0], size, path, offset);
      AppendEntries(m, first, rest);
      FlattenFieldsIsLeaves(m + EntriesOf(first), fields[1..], size, path, offset);
    }
  }

  lemma NoEntries(m: seq<Entry<Descriptor>>)
    ensures m + EntriesOf([]) == m
  {
  }

  lemma AppendEntries(m: seq<Entry<Descriptor>>, first: seq<Leaf>, rest: seq<Leaf>)
    requires Narrow(first + rest) && Distinct(m + EntriesOf(first + rest))
    ensures Narrow(first) && Narrow(rest)
    ensures Append(m, EntriesOf(first)) == m + EntriesOf(first)
    ensures Distinct(m + EntriesOf(first) + EntriesOf(rest))
    ensures m + EntriesOf(first) + EntriesOf(rest) == m + EntriesOf(first + rest)
  {
    hide EntriesOf, Append;
    forall i | 0 <= i < |first|
      ensures first[i].offset < U32_LIMIT
    {
      assert first[i] == (first + rest)[i];
    }
    forall i | 0 <= i < |rest|
      ensures rest[i].offset < U32_LIMIT
    {
      assert rest[i] == (first + rest)[|first| + i];
    }
    EntriesAppend(first, rest);
    var all := m + EntriesOf(first) + EntriesOf(rest);
    assert all == m + EntriesOf(first + rest);
    assert m + EntriesOf(first) == all[..|m| + |first|];
    AppendDisjoint(m, EntriesOf(first));
  }

  // ---- The two decoders agree --------------------------------------------------------------

  /** A value of the tree, as the flattened map gives it.  Nodes the tree leaves undecoded become raw bytes. */
  function Widened(lib: Library, node: SymbolTree, raw: seq<byte>): PrimitiveValue {
    match node
    case Int(n) => VInt(n)
    case Dint(n) => VInt(n)
    case Sint(n) => VInt(n)
    case Lint(n) => VInt(n)
    case Usint(n) => VUint(n)
    case Uint(n) => VUint(n)
    case Udint(n) => VUint(n)
    case Ulint(n) => VUint(n)
    case Real(f) => VFloat(lib.widen(f))
    case Lreal(f) => VFloat(f)
    case Real80(f) => VFloat(f)
    case String(text) => VString(text)
    case Bool(b) => VBool(b)
    case Void(bytes) => VVoid(bytes)
    case Array(_) => VVoid(raw)
    case Unknown => VVoid(raw)
    case Struct(_) => if Timestamp(lib, node).Some? then VTimestamp(Timestamp(lib, node).value) else VMalformed
    case Malformed => VMalformed
    case Missing => VMalformed
  }

  lemma ScalarAgrees(lib: Library, kind: ScalarKind, data: seq<byte>, raw: seq<byte>)
    ensures Widened(lib, DecodeScalar(lib, kind, data), raw) == WidenScalar(lib, kind, data)
  {
    hide Bytes.U16, Bytes.U32, Bytes.U64, Signed;
  }

  /** A payload that covers a tree in bounds is decoded without a slice out of range. */
  lemma {:induction false} DecodeInBounds(lib: Library, data: seq<byte>, t: TypeTree, offset: nat)
    requires InBounds(t) && offset + t.Size() <= |data|
    ensures FromBytes(lib, data, t, offset).Ok?
    decreases t, 1
  {
    hide DecodeScalar, Words, FieldsFromBytes;
    if t.Struct? {
      DecodeFieldsInBounds(lib, data, t.fields, t.size, offset);
    }
  }

  lemma {:induction false} DecodeFieldsInBounds(
    lib: Library, data: seq<byte>, fields: seq<Entry<Slot>>, size: nat, offset: nat)
    requires offset + size <= |data|
    requires forall i :: 0 <= i < |fields| ==>
               && InBounds(fields[i].value.tree)
               && (fields[i].value.offset.Some? ==> fields[i].value.offset.value + fields[i].value.tree.Size() <= size)
    ensures FieldsFromBytes(lib, data, fields, offset).Ok?
    decreases fields, 0
  {
    hide FromBytes, InBounds;
    if fields != [] {
      var slot := fields[0].value;
      if slot.offset.Some? {
        DecodeInBounds(lib, data, slot.tree, offset + slot.offset.value);
      }
      DecodeFieldsInBounds(lib, data, fields[1..], size, offset);
    }
  }

  lemma LeafAgrees(lib: Library, data: seq<byte>, t: TypeTree, offset: u32)
    requires !t.Struct? && !t.Compound? && !t.Missing? && offset + t.Size() <= |data|
    ensures FromBytes(lib, data, t, offset).Ok?
    ensures ReadFromBytes(lib, Descriptor(PrimitiveOf(t), offset), data)
         == Ok(Widened(lib, FromBytes(lib, data, t, offset).value, data[offset..offset + t.Size()]))
  {
    hide DecodeScalar, WidenScalar, Words, FieldsFromBytes;
    assert data[offset..][..t.Size()] == data[offset..offset + t.Size()];
    if t.Scalar? {
      ScalarAgrees(lib, t.kind, data[offset..], data[offset..offset + t.Size()]);
    }
  }

  /** The word a field of a time structure holds, in the tree and at its offset. */
  lemma TimeWord(lib: Library, data: seq<byte>, fields: seq<Entry<Slot>>, size: nat, offset: nat, i: nat)
    requires ValidTime(fields) && i < |fields| && Distinct(fields)
    requires InBounds(TypeTree.Struct(fields, size)) && offset + size <= |data|
    requires FieldsFromBytes(lib, data, fields, offset).Ok?
    ensures var children := FieldsFromBytes(lib, data, fields, offset).value;
            GetUint(children, fields[i].key).Some?
            && WordAt(data[offset..], Offsets(fields)[i]) == Ok(GetUint(children, fields[i].key).value)
  {
    hide Bytes.U16, FieldsFromBytes, Get;
    var children := FieldsFromBytes(lib, data, fields, offset).value;
    forall j | 0 <= j < |fields|
      ensures |children| == |fields| && children[j].key == fields[j].key
    {
      FieldsInOrder(lib, data, fields, offset, j);
    }
    FieldsInOrder(lib, data, fields, offset, i);
    GetAt(children, i);
    var c := fields[i].value.offset.value;
    assert fields[i].value.tree.Size() == 2;
    assert data[offset + c..][..2] == data[offset..][c..c + 2];
  }

  lemma MomentAgrees(lib: Library, data: seq<byte>, fields: seq<Entry<Slot>>, keys: seq<string>, size: nat, offset: nat)
    requires |keys| == |fields| == 8 && forall i :: 0 <= i < 8 ==> fields[i].key == keys[i]
    requires ValidTime(fields) && Distinct(fields)
    requires InBounds(TypeTree.Struct(fields, size)) && offset + size <= |data|
    requires FieldsFromBytes(lib, data, fields, offset).Ok?
    ensures var children := FieldsFromBytes(lib, data, fields, offset).value;
            MomentOf(children, keys).Some?
                && ReadMoment(Offsets(fields), data[offset..]) == Ok(MomentOf(children, keys).value)
  {
    hide Offsets, WordAt, GetUint, FieldsFromBytes, InBounds, ValidTime;
    TimeWord(lib, data, fields, size, offset, 0);
    TimeWord(lib, data, fields, size, offset, 1);
    TimeWord(lib, data, fields, size, offset, 3);
    TimeWord(lib, data, fields, size, offset, 4);
    TimeWord(lib, data, fields, size, offset, 5);
    TimeWord(lib, data, fields, size, offset, 6);
    TimeWord(lib, data, fields, size, offset, 7);
  }

  lemma TimeAgrees(lib: Library, data: seq<byte>, t: TypeTree, offset: u32)
    requires IsTime(t) && ValidTime(t.fields) && DistinctNames(t) && InBounds(t) && offset + t.Size() <= |data|
    requires FromBytes(lib, data, t, offset).Ok?
    ensures |t.fields| == 8
    ensures ReadFromBytes(lib, Descriptor(PTime(Offsets(t.fields)), offset), data)
         == Ok(Widened(lib, FromBytes(lib, data, t, offset).value, []))
  {
    hide Offsets, MomentOf, ReadMoment, FieldsFromBytes, ValidTime;
    assert |t.fields| == |Keys(t.fields)| == 8;
    assert forall i :: 0 <= i < 8 ==> t.fields[i].key == Keys(t.fields)[i];
    assert t == TypeTree.Struct(t.fields, t.size);
    MomentAgrees(lib, data, t.fields, TIME_KEYS, t.size, offset);
  }

  /** The bytes a leaf of the flattened map covers. */
  function RawOf(data: seq<byte>, typ: PrimitiveType, at: nat): seq<byte> {
    if typ.PVoid? && at + typ.size <= |data| then data[at..at + typ.size] else []
  }

  /**
    * Along any path, the flattened reading gives the widened value of the tree's node.
    */
  lemma {:induction false} ReadingsAgree(
    lib: Library, data: seq<byte>, t: TypeTree, tokens: seq<string>, offset: nat, typ: PrimitiveType, at: nat)
    requires DistinctNames(t) && InBounds(t) && offset + t.Size() <= |data| && at < U32_LIMIT
    requires FromBytes(lib, data, t, offset).Ok? && Reaches(t, tokens, offset, typ, at)
    ensures typ.PTime? ==> |typ.offsets| == 8
    ensures ReadFromBytes(lib, Descriptor(typ, at), data)
         == Ok(Widened(lib, Lookup(FromBytes(lib, data, t, offset).value, tokens), RawOf(data, typ, at)))
    decreases |tokens|
  {
    hide ReadFromBytes, Widened, FromBytes, DistinctNames, InBounds, Reaches, RawOf, Get;
    if tokens == [] {
      ReachedHere(t, offset, typ, at);
      NodeAgrees(lib, data, t, offset, typ);
    } else {
      var i := StepDown(lib, data, t, tokens, offset, typ, at);
      var slot := t.fields[i].value;
      ReadingsAgree(lib, data, slot.tree, tokens[1..], offset + slot.offset.value, typ, at);
    }
  }

  /** A path of at least one token goes down through one placed field, in the type and in the tree. */
  lemma StepDown(
    lib: Library, data: seq<byte>, t: TypeTree, tokens: seq<string>, offset: nat, typ: PrimitiveType, at: nat)
    returns (i: nat)
    requires DistinctNames(t) && InBounds(t) && offset + t.Size() <= |data|
    requires tokens != [] && FromBytes(lib, data, t, offset).Ok? && Reaches(t, tokens, offset, typ, at)
    ensures t.Struct? && i < |t.fields| && t.fields[i].value.offset.Some?
    ensures var slot := t.fields[i].value;
            var below := offset + slot.offset.value;
            && DistinctNames(slot.tree) && InBounds(slot.tree) && below + slot.tree.Size() <= |data|
            && Reaches(slot.tree, tokens[1..], below, typ, at)
            && FromBytes(lib, data, slot.tree, below).Ok?
            && Lookup(FromBytes(lib, data, t, offset).value, tokens)
            == Lookup(FromBytes(lib, data, slot.tree, below).value, tokens[1..])
  {
    hide FieldsFromBytes, Get, Reaches;
    i := FirstStep(t, tokens, offset, typ, at);
    ChildAt(lib, data, t.fields, offset, i);
  }

  lemma NodeAgrees(lib: Library, data: seq<byte>, t: TypeTree, offset: u32, typ: PrimitiveType)
    requires DistinctNames(t) && InBounds(t) && offset + t.Size() <= |data|
    requires FromBytes(lib, data, t, offset).Ok? && Reaches(t, [], offset, typ, offset)
    ensures typ.PTime? ==> |typ.offsets| == 8
    ensures ReadFromBytes(lib, Descriptor(typ, offset), data)
         == Ok(Widened(lib, FromBytes(lib, data, t, offset).value, RawOf(data, typ, offset)))
  {
    hide ReadFromBytes, FieldsFromBytes, DecodeScalar, RawOf;
    if IsTime(t) {
      TimeAgrees(lib, data, t, offset);
      WidenedStruct(lib, FromBytes(lib, data, t, offset).value, RawOf(data, typ, offset));
    } else {
      hide Widened;
      LeafAgrees(lib, data, t, offset);
      RawMatters(lib, data, t, offset);
    }
  }

  lemma ChildAt(lib: Library, data: seq<byte>, fields: seq<Entry<Slot>>, offset: nat, i: nat)
    requires FieldsFromBytes(lib, data, fields, offset).Ok? && i < |fields| && Distinct(fields)
    requires fields[i].value.offset.Some?
    ensures FromBytes(lib, data, fields[i].value.tree, offset + fields[i].value.offset.value).Ok?
    ensures Get(FieldsFromBytes(lib, data, fields, offset).value, fields[i].key)
         == Some(FromBytes(lib, data, fields[i].value.tree, offset + fields[i].value.offset.value).value)
  {
    hide FromBytes, FieldsFromBytes, Get;
    var children := FieldsFromBytes(lib, data, fields, offset).value;
    forall j | 0 <= j < |fields|
      ensures |children| == |fields| && children[j].key == fields[j].key
    {
      FieldsInOrder(lib, data, fields, offset, j);
    }
    FieldsInOrder(lib, data, fields, offset, i);
    GetAt(children, i);
  }

  lemma WidenedStruct(lib: Library, node: SymbolTree, raw: seq<byte>)
    requires node.Struct?
    ensures Widened(lib, node, raw) == Widened(lib, node, [])
  {
  }

  lemma RawMatters(lib: Library, data: seq<byte>, t: TypeTree, offset: nat)
    requires !t.Struct? && !t.Compound? && !t.Missing? && offset + t.Size() <= |data|
    requires FromBytes(lib, data, t, offset).Ok?
    ensures Widened(lib, FromBytes(lib, data, t, offset).value, data[offset..offset + t.Size()])
         == Widened(lib, FromBytes(lib, data, t, offset).value, RawOf(data, PrimitiveOf(t), offset))
  {
    hide Words, FieldsFromBytes, DecodeScalar;
    if t.Scalar? {
      ScalarAgrees(lib, t.kind, data[offset..], []);
      ScalarAgrees(lib, t.kind, data[offset..], data[offset..offset + t.Size()]);
    }
  }
}
