/**
  * The keys of a flattened map for trees with any names: what becomes of leaves whose keys
  * coincide, and which keys lead back to their leaf in the tree.
  */
module LeafKeys {
  import opened Outcomes
  import opened Bytes
  import opened Strings
  import opened IndexMaps
  import opened TypeTrees
  import opened SymbolTrees
  import opened SymbolMaps
  import opened Flattening
  import opened Meaning

  // ---- The key of a path -------------------------------------------------------------------

  /** The text the flattening makes of a path, name by name; an empty text is dropped at its front. */
  function KeyOf(tokens: seq<string>): string {
    if tokens == [] then "" else ChildPath(KeyOf(tokens[..|tokens| - 1]), tokens[|tokens| - 1])
  }

  lemma KeyOfChild(tokens: seq<string>, name: string)
    ensures KeyOf(tokens + [name]) == ChildPath(KeyOf(tokens), name)
  {
    assert (tokens + [name])[..|tokens|] == tokens;
  }

  /** Only an empty first name makes a difference to joining the names with dots. */
  lemma {:induction false} KeyIsDotted(tokens: seq<string>)
    requires tokens != [] && tokens[0] != ""
    ensures KeyOf(tokens) == Dotted(tokens) && KeyOf(tokens) != ""
  {
    var front, last := tokens[..|tokens| - 1], tokens[|tokens| - 1];
    if front == [] {
      assert tokens == [last];
    } else {
      KeyIsDotted(front);
      JoinSnoc(front, last, '.');
      assert tokens == front + [last];
    }
  }

  lemma {:induction false} KeySkipsEmpty(tokens: seq<string>)
    requires tokens != [] && tokens[0] == ""
    ensures KeyOf(tokens) == KeyOf(tokens[1..])
  {
    if |tokens| > 1 {
      KeySkipsEmpty(tokens[..|tokens| - 1]);
      assert tokens[..|tokens| - 1][1..] == tokens[1..][..|tokens| - 2];
    }
  }

  lemma {:induction false} KeyHasFewParts(tokens: seq<string>)
    requires tokens != [] && AllFree(tokens, '.')
    ensures |Split(KeyOf(tokens), '.')| <= |tokens|
  {
    hide Split, KeyOf;
    if tokens[0] != "" {
      KeyIsDotted(tokens);
      SplitJoin(tokens, '.');
    } else {
      KeySkipsEmpty(tokens);
      if |tokens| > 1 {
        KeyHasFewParts(tokens[1..]);
      } else {
        assert KeyOf(tokens[1..]) == "" by { NoKey(tokens[1..]); }
        SplitFree("", '.');
      }
    }
  }

  lemma NoKey(tokens: seq<string>)
    requires tokens == []
    ensures KeyOf(tokens) == ""
  {
  }

  /**
    * Splitting the key of a path at its dots gives the path back exactly when no name on it has a dot,
    * and it does not start with an empty name and go on.
    */
  lemma KeySplitsIff(tokens: seq<string>)
    requires tokens != []
    ensures Split(KeyOf(tokens), '.') == tokens <==> AllFree(tokens, '.') && (tokens[0] != "" || |tokens| == 1)
  {
    hide Split, KeyOf, Join;
    JoinSplit(KeyOf(tokens), '.');
    if AllFree(tokens, '.') {
      if tokens[0] != "" {
        KeyIsDotted(tokens);
        SplitJoin(tokens, '.');
      } else {
        KeySkipsEmpty(tokens);
        if |tokens| > 1 {
          KeyHasFewParts(tokens[1..]);
        } else {
          NoKey(tokens[1..]);
          SplitFree("", '.');
        }
      }
    }
  }

  // ---- The flattened map for any names -----------------------------------------------------

  function KeyedEntries(leaves: seq<Leaf>): (r: seq<Entry<Descriptor>>)
    requires Narrow(leaves)
    ensures |r| == |leaves|
    ensures forall i :: 0 <= i < |r| ==>
            r[i] == Entry(KeyOf(leaves[i].path), Descriptor(leaves[i].typ, leaves[i].offset))
  {
    if leaves == [] then []
    else [Entry(KeyOf(leaves[0].path), Descriptor(leaves[0].typ, leaves[0].offset))] + KeyedEntries(leaves[1..])
  }

  lemma KeyedAppend(a: seq<Leaf>, b: seq<Leaf>)
    requires Narrow(a + b)
    ensures Narrow(a) && Narrow(b) && KeyedEntries(a + b) == KeyedEntries(a) + KeyedEntries(b)
  {
    forall i | 0 <= i < |a|
      ensures a[i].offset < U32_LIMIT
    {
      assert a[i] == (a + b)[i];
    }
    forall i | 0 <= i < |b|
      ensures b[i].offset < U32_LIMIT
    {
      assert b[i] == (a + b)[|a| + i];
    }
  }

  /** Whatever the names are: the leaves, depth first, are put into the map one by one under their keys. */
  lemma {:induction false} FlattenInserts(t: TypeTree, path: seq<string>, offset: nat)
    requires NoCompound(t) && InBounds(t) && offset + t.Size() < U32_LIMIT
    ensures Narrow(Leaves(t, path, offset))
    ensures FromTree(t, offset, KeyOf(path)) == Ok(Append([], KeyedEntries(Leaves(t, path, offset))))
    decreases t, 1
  {
    hide Offsets, PrimitiveOf, KeyOf, FieldsFromTree;
    LeavesNarrow(t, path, offset);
    if t.Struct? && !IsTime(t) {
      FlattenFieldsInserts([], t.fields, t.size, path, offset);
    } else {
      var leaves := Leaves(t, path, offset);
      assert |leaves| <= 1;
      if leaves != [] {
        AppendOne(KeyedEntries(leaves));
      }
    }
  }

  lemma AppendOne<V>(entries: seq<Entry<V>>)
    requires |entries| == 1
    ensures Append([], entries) == entries
  {
    assert entries[1..] == [] && entries == [Entry(entries[0].key, entries[0].value)];
  }

  predicate PlacedInside(field: Entry<Slot>, size: nat) {
    && NoCompound(field.value.tree) && InBounds(field.value.tree)
    && (field.value.offset.Some? ==> field.value.offset.value + field.value.tree.Size() <= size)
  }

  lemma FlattenFieldInserts(field: Entry<Slot>, size: nat, path: seq<string>, offset: nat)
    requires PlacedInside(field, size) && offset + size < U32_LIMIT
    ensures Narrow(LeavesOf(field, path, offset))
    ensures FieldFromTree(field, offset, KeyOf(path)) == Ok(Append([], KeyedEntries(LeavesOf(field, path, offset))))
    decreases field, 2
  {
    hide Leaves, FromTree, KeyOf, NoCompound, InBounds;
    if field.value.offset.Some? {
      KeyOfChild(path, field.key);
      FlattenInserts(field.value.tree, path + [field.key], offset + field.value.offset.value);
    }
  }

  lemma {:induction false} FlattenFieldsInserts(
    m: seq<Entry<Descriptor>>, fields: seq<Entry<Slot>>, size: nat, path: seq<string>, offset: nat)
    requires offset + size < U32_LIMIT && forall i :: 0 <= i < |fields| ==> PlacedInside(fields[i], size)
    requires Narrow(FieldLeaves(fields, path, offset))
    ensures FieldsFromTree(m, fields, offset, KeyOf(path))
         == Ok(Append(m, KeyedEntries(FieldLeaves(fields, path, offset))))
    decreases fields, 0
  {
    hide LeavesOf, FieldFromTree, KeyOf, PlacedInside, KeyedEntries, Narrow, Distinct;
    if fields == [] {
      NoKeyedEntries(m);
    } else {
      var first, rest := LeavesOf(fields[0], path, offset), FieldLeaves(fields[1..], path, offset);
      FlattenFieldInserts(fields[0], size, path, offset);
      KeyedAppend(first, rest);
      AppendMade(m, KeyedEntries(first));
      FlattenFieldsInserts(Append(m, KeyedEntries(first)), fields[1..], size, path, offset);
      AppendBoth(m, KeyedEntries(first), KeyedEntries(rest));
    }
  }

  lemma NoKeyedEntries(m: seq<Entry<Descriptor>>)
    ensures Narrow([]) && Append(m, KeyedEntries([])) == m
  {
  }

  lemma AppendMade<V>(m: seq<Entry<V>>, entries: seq<Entry<V>>)
    ensures Append(m, Append([], entries)) == Append(m, entries)
  {
    AppendMap(m, [], entries);
  }

  // ---- Which leaf a key holds --------------------------------------------------------------

  /** No later leaf has the same key. */
  predicate LastLeaf(leaves: seq<Leaf>, k: nat)
    requires k < |leaves|
  {
    forall j :: k < j < |leaves| ==> KeyOf(leaves[j].path) != KeyOf(leaves[k].path)
  }

  predicate KeysDiffer(leaves: seq<Leaf>) {
    forall i, j :: 0 <= i < j < |leaves| ==> KeyOf(leaves[i].path) != KeyOf(leaves[j].path)
  }

  /**
    * For every tree with distinct names in each struct, dots or not: neither decoder panics, every
    * leaf's key is in the map, and it holds the widened value of the last leaf with that key.
    */
  lemma KeysHoldLastLeaf(lib: Library, data: seq<byte>, t: TypeTree, k: nat)
    requires DistinctNames(t) && NoCompound(t) && InBounds(t) && t.Size() < U32_LIMIT && t.Size() <= |data|
    requires k < |Leaves(t, [], 0)| && LastLeaf(Leaves(t, [], 0), k)
    ensures FromBytes(lib, data, t, 0).Ok?
    ensures FromTree(t, 0, "").Ok? && Readable(FromTree(t, 0, "").value)
    ensures MapFromBytes(lib, data, FromTree(t, 0, "").value).Ok?
    ensures var leaf := Leaves(t, [], 0)[k];
            var node := Lookup(FromBytes(lib, data, t, 0).value, leaf.path);
            Get(MapFromBytes(lib, data, FromTree(t, 0, "").value).value, KeyOf(leaf.path))
            == Some(Widened(lib, node, RawOf(data, leaf.typ, leaf.offset)))
  {
    hide FromBytes, FromTree, MapFromBytes, ReadFromBytes, Leaves, Reaches, DistinctNames, NoCompound, InBounds;
    hide Widened, Lookup, RawOf, KeyOf, Get, Append;
    var leaves := Leaves(t, [], 0);
    DecodeInBounds(lib, data, t, 0);
    FlattenInserts(t, [], 0);
    NoKey([]);
    var entries, flat := KeyedEntries(leaves), FromTree(t, 0, "").value;
    AppendDistinct([], entries);
    forall i | 0 <= i < |leaves|
      ensures LeafReads(lib, data, t, leaves[i])
    {
      LeavesReached(t, [], 0, i);
      assert leaves[i].path[0..] == leaves[i].path;
      ReadingsAgree(lib, data, t, leaves[i].path, 0, leaves[i].typ, leaves[i].offset);
    }
    var values := ReadEntries(lib, data, t, flat, leaves);
    AppendGet([], entries, entries[k].key);
    assert LastOf(entries, k);
    assert Get(flat, entries[k].key) == Some(entries[k].value);
    var i :| 0 <= i < |flat| && flat[i] == entries[k];
    assert Reads(lib, data, flat[i], values[i]);
    GetAt(values, i);
  }

  predicate LeafReads(lib: Library, data: seq<byte>, t: TypeTree, leaf: Leaf) {
    && leaf.offset < U32_LIMIT && (leaf.typ.PTime? ==> |leaf.typ.offsets| == 8)
    && FromBytes(lib, data, t, 0).Ok?
    && ReadFromBytes(lib, Descriptor(leaf.typ, leaf.offset), data)
    == Ok(Widened(lib, Lookup(FromBytes(lib, data, t, 0).value, leaf.path), RawOf(data, leaf.typ, leaf.offset)))
  }

  /** Reading a map that was made of leaves reads each of its entries. */
  lemma ReadEntries(lib: Library, data: seq<byte>, t: TypeTree, flat: seq<Entry<Descriptor>>, leaves: seq<Leaf>)
    returns (values: seq<Entry<PrimitiveValue>>)
    requires Narrow(leaves) && flat == Append([], KeyedEntries(leaves)) && Distinct(flat)
    requires forall i :: 0 <= i < |leaves| ==> LeafReads(lib, data, t, leaves[i])
    ensures |values| == |flat| && Distinct(values) && Readable(flat) && MapFromBytes(lib, data, flat) == Ok(values)
    ensures forall i :: 0 <= i < |flat| ==> Reads(lib, data, flat[i], values[i])
  {
    hide FromBytes, MapFromBytes, ReadFromBytes, Widened, Lookup, RawOf, KeyOf, Append;
    var entries := KeyedEntries(leaves);
    forall i | 0 <= i < |flat|
      ensures flat[i].value.typ.PTime? ==> |flat[i].value.typ.offsets| == 8
      ensures ReadFromBytes(lib, flat[i].value, data).Ok?
    {
      AppendOnly([], entries, i);
      var j :| 0 <= j < |entries| && entries[j] == flat[i];
      assert LeafReads(lib, data, t, leaves[j]);
    }
    values := seq(|flat|, i requires 0 <= i < |flat| && ReadableEntry(lib, data, flat[i]) =>
      Entry(flat[i].key, ReadFromBytes(lib, flat[i].value, data).value));
    MapInOrder(lib, data, flat, values);
  }

  predicate ReadableEntry(lib: Library, data: seq<byte>, e: Entry<Descriptor>) {
    (e.value.typ.PTime? ==> |e.value.typ.offsets| == 8) && ReadFromBytes(lib, e.value, data).Ok?
  }

  /** The map has one entry per leaf exactly when no two leaves have the same key. */
  lemma EntryPerLeafIff(t: TypeTree)
    requires NoCompound(t) && InBounds(t) && t.Size() < U32_LIMIT
    ensures FromTree(t, 0, "").Ok?
    ensures |FromTree(t, 0, "").value| == |Leaves(t, [], 0)| <==> KeysDiffer(Leaves(t, [], 0))
  {
    hide FromTree, Leaves, NoCompound, InBounds, KeyOf, Append;
    var leaves := Leaves(t, [], 0);
    FlattenInserts(t, [], 0);
    NoKey([]);
    var entries := KeyedEntries(leaves);
    AppendSize([], entries);
    assert [] + entries == entries;
    if Distinct(entries) {
      forall i, j | 0 <= i < j < |leaves|
        ensures KeyOf(leaves[i].path) != KeyOf(leaves[j].path)
      {
        assert entries[i].key != entries[j].key;
      }
    }
  }

  /**
    * Looking up the key of a leaf follows the leaf's own path exactly when no name on that path has a
    * dot, and the path does not start with an empty name and go on.
    */
  lemma KeyLeadsBackIff(t: TypeTree, tokens: seq<string>, typ: PrimitiveType, at: nat)
    requires NoCompound(t) && InBounds(t) && t.Size() < U32_LIMIT
    requires tokens != [] && Reaches(t, tokens, 0, typ, at)
    ensures FromTree(t, 0, "").Ok? && Has(FromTree(t, 0, "").value, KeyOf(tokens))
    ensures Split(KeyOf(tokens), '.') == tokens <==> AllFree(tokens, '.') && (tokens[0] != "" || |tokens| == 1)
  {
    hide FromTree, Leaves, Reaches, NoCompound, InBounds, KeyOf, Append, Get, Split;
    KeySplitsIff(tokens);
    var leaves := Leaves(t, [], 0);
    FlattenInserts(t, [], 0);
    NoKey([]);
    ReachedIsLeaf(t, [], tokens, 0, typ, at);
    assert [] + tokens == tokens;
    var k :| 0 <= k < |leaves| && leaves[k] == Leaf(tokens, typ, at);
    LeafHasKey(leaves, k);
  }

  lemma LeafHasKey(leaves: seq<Leaf>, k: nat)
    requires Narrow(leaves) && k < |leaves|
    ensures Has(Append([], KeyedEntries(leaves)), KeyOf(leaves[k].path))
    decreases |leaves| - k
  {
    hide KeyOf, Append, Get;
    if LastLeaf(leaves, k) {
      assert LastOf(KeyedEntries(leaves), k);
      AppendGet([], KeyedEntries(leaves), KeyOf(leaves[k].path));
    } else {
      var j :| k < j < |leaves| && KeyOf(leaves[j].path) == KeyOf(leaves[k].path);
      LeafHasKey(leaves, j);
    }
  }

  // ---- A name with a dot -------------------------------------------------------------------

  const BYTE_LEAF := TypeTree.Scalar(ScalarKind.Usint)
  const DOTTED_TREE := TypeTree.Struct([Entry("a.b", Slot(BYTE_LEAF, Some(0)))], 1)

  /** A name with a dot: the map's key does not lead to the node in the tree. */
  lemma DotsHideLeaves(lib: Library, data: seq<byte>)
    requires |data| == 1
    ensures InBounds(DOTTED_TREE) && NoCompound(DOTTED_TREE)
    ensures FromTree(DOTTED_TREE, 0, "") == Ok([Entry("a.b", Descriptor(PScalar(ScalarKind.Usint), 0))])
    ensures FromBytes(lib, data, DOTTED_TREE, 0).Ok?
    ensures Lookup(FromBytes(lib, data, DOTTED_TREE, 0).value, Split("a.b", '.')) == SymbolTree.Missing
  {
    DottedFlat();
    DottedDecoded(lib, data);
    hide FromTree, FromBytes;
    SplitPrefix("a", "b", '.');
    assert "a" + ['.'] + "b" == "a.b";
    assert Split("a.b", '.')[0] == "a";
  }

  lemma DottedFlat()
    ensures FromTree(DOTTED_TREE, 0, "") == Ok([Entry("a.b", Descriptor(PScalar(ScalarKind.Usint), 0))])
  {
    hide Insert;
    var fields, flat := DOTTED_TREE.fields, [Entry("a.b", Descriptor(PScalar(ScalarKind.Usint), 0))];
    assert fields[1..] == [] && |Keys(fields)| == 1 && flat[1..] == [];
    InsertNew([], "a.b", Descriptor(PScalar(ScalarKind.Usint), 0));
    assert [] + flat == flat;
    assert Append([], flat) == Append(flat, []) == flat;
    assert FieldFromTree(fields[0], 0, "") == Ok(flat);
    assert FieldsFromTree([], fields, 0, "") == FieldsFromTree(flat, [], 0, "");
  }

  lemma DottedDecoded(lib: Library, data: seq<byte>)
    requires |data| == 1
    ensures FromBytes(lib, data, DOTTED_TREE, 0) == Ok(SymbolTree.Struct([Entry("a.b", SymbolTree.Usint(data[0]))]))
  {
    var fields := DOTTED_TREE.fields;
    assert data[0..] == data && fields[1..] == [];
    assert FieldFromBytes(lib, data, fields[0].value, 0) == Ok(SymbolTree.Usint(data[0]));
    assert FieldsFromBytes(lib, data, [], 0) == Ok([]);
    assert [Entry("a.b", SymbolTree.Usint(data[0]))] + [] == [Entry("a.b", SymbolTree.Usint(data[0]))];
  }
}
