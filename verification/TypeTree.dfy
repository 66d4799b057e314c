/** Type trees: the structure of a symbol, built from the type inventory. */
module TypeTrees {
  import opened Outcomes
  import opened Bytes
  import opened Strings
  import opened IndexMaps
  import opened TypeInfo

  datatype ScalarKind = Int | Dint | Real | Lreal | Sint | Usint | Uint | Udint | Lint | Ulint | Real80 | Bool {
    function Width(): nat {
      match this
      case Int => 2
      case Dint => 4
      case Real => 4
      case Lreal => 8
      case Sint => 1
      case Usint => 1
      case Uint => 2
      case Udint => 4
      case Lint => 8
      case Ulint => 8
      case Real80 => 10
      case Bool => 1
    }
  }

  datatype Slot = Slot(tree: TypeTree, offset: Option<u32>)

  datatype TypeTree =
    | Struct(fields: seq<Entry<Slot>>, size: nat)
    | Array(elem: TypeTree, size: nat)
    | Void(size: nat)
    | Scalar(kind: ScalarKind)
    | String(size: nat)
    | Wstring(size: nat)
    | Compound(size: nat)
    | Unknown(size: nat)
    | Missing
  {
    function Size(): nat {
      match this
      case Scalar(kind) => kind.Width()
      case Missing => 0
      case _ => size
    }
  }

  function FromTypeId(typeId: u32, size: nat): TypeTree {
    match typeId
    case 0 => Void(size)
    case 2 => Scalar(Int)
    case 3 => Scalar(Dint)
    case 4 => Scalar(Real)
    case 5 => Scalar(Lreal)
    case 16 => Scalar(Sint)
    case 17 => Scalar(Usint)
    case 18 => Scalar(Uint)
    case 19 => Scalar(Udint)
    case 20 => Scalar(Lint)
    case 21 => Scalar(Ulint)
    case 30 => String(size)
    case 31 => Wstring(size)
    case 32 => Scalar(Real80)
    case 33 => Scalar(Bool)
    case 65 => Compound(size)
    case _ => Unknown(size)
  }

  // ---- What a good tree is -----------------------------------------------------------------

  /** No placeholder is left at any depth. */
  predicate NoCompound(t: TypeTree) {
    match t
    case Struct(fields, _) => forall i :: 0 <= i < |fields| ==> NoCompound(fields[i].value.tree)
    case Array(elem, _) => NoCompound(elem)
    case Compound(_) => false
    case _ => true
  }

  /** Every field that is placed inside its struct ends inside it. */
  predicate InBounds(t: TypeTree) {
    match t
    case Struct(fields, size) =>
      forall i :: 0 <= i < |fields| ==>
        && InBounds(fields[i].value.tree)
        && (fields[i].value.offset.Some? ==> fields[i].value.offset.value + fields[i].value.tree.Size() <= size)
    case _ => true
  }

  // ---- Acyclic inventories -----------------------------------------------------------------

  /** A rank that decreases along compound fields. */
  ghost predicate Ranked(types: TypeMap, rank: map<string, nat>) {
    forall name :: name in types ==>
      && name in rank
      && Below(types[name].fields, types, rank, rank[name])
  }

  ghost predicate Below(fields: seq<Field>, types: TypeMap, rank: map<string, nat>, bound: nat) {
    forall i :: 0 <= i < |fields| && fields[i].baseType == COMPOUND && fields[i].typ in types ==>
      fields[i].typ in rank && rank[fields[i].typ] < bound
  }

  /** The construction for a type of the given name needs at most `depth` nested calls. */
  predicate Ends(types: TypeMap, name: string, depth: nat)
    decreases depth
  {
    name in types ==>
      && depth > 0
      && forall i :: 0 <= i < |types[name].fields| && types[name].fields[i].baseType == COMPOUND ==>
           Ends(types, types[name].fields[i].typ, depth - 1)
  }

  lemma {:induction false} EndsAbove(types: TypeMap, name: string, depth: nat, more: nat)
    requires Ends(types, name, depth) && depth <= more
    ensures Ends(types, name, more)
    decreases depth
  {
    if name in types {
      forall i | 0 <= i < |types[name].fields| && types[name].fields[i].baseType == COMPOUND
        ensures Ends(types, types[name].fields[i].typ, more - 1)
      {
        EndsAbove(types, types[name].fields[i].typ, depth - 1, more - 1);
      }
    }
  }

  lemma {:induction false} RankedEnds(types: TypeMap, rank: map<string, nat>, name: string)
    requires Ranked(types, rank) && name in types
    ensures Ends(types, name, rank[name] + 1)
    decreases rank[name]
  {
    var fields := types[name].fields;
    assert Below(fields, types, rank, rank[name]);
    forall i | 0 <= i < |fields| && fields[i].baseType == COMPOUND
      ensures Ends(types, fields[i].typ, rank[name])
    {
      if fields[i].typ in types {
        RankedEnds(types, rank, fields[i].typ);
        EndsAbove(types, fields[i].typ, rank[fields[i].typ] + 1, rank[name]);
      }
    }
  }

  /** The least depth that is enough. */
  ghost function Least(types: TypeMap, name: string, depth: nat): (d: nat)
    requires Ends(types, name, depth)
    ensures Ends(types, name, d) && d <= depth
    ensures forall e: nat :: Ends(types, name, e) ==> d <= e
  {
    if depth > 0 && Ends(types, name, depth - 1) then Least(types, name, depth - 1)
    else
      assert forall e: nat :: Ends(types, name, e) ==> depth <= e by {
        forall e: nat | Ends(types, name, e)
          ensures depth <= e
        {
          if e < depth {
            EndsAbove(types, name, e, depth - 1);
          }
        }
      }
      depth
  }

  ghost predicate AllEnd(types: TypeMap) {
    forall name :: name in types ==> exists depth :: Ends(types, name, depth)
  }

  /** The construction ends for every type exactly when the inventory is acyclic. */
  lemma EndsIffRanked(types: TypeMap)
    ensures AllEnd(types) <==> exists rank :: Ranked(types, rank)
  {
    if AllEnd(types) {
      ghost var rank := map name | name in types :: DepthOf(types, name);
      forall name | name in types
        ensures Below(types[name].fields, types, rank, rank[name])
      {
        var fields := types[name].fields;
        forall i | 0 <= i < |fields| && fields[i].baseType == COMPOUND && fields[i].typ in types
          ensures rank[fields[i].typ] < rank[name]
        {
          assert Ends(types, name, rank[name]);
          assert Ends(types, fields[i].typ, rank[name] - 1);
        }
      }
      assert Ranked(types, rank);
    }
    forall rank | Ranked(types, rank)
      ensures AllEnd(types)
    {
      forall name | name in types
        ensures exists depth :: Ends(types, name, depth)
      {
        RankedEnds(types, rank, name);
      }
    }
  }

  ghost function DepthOf(types: TypeMap, name: string): (d: nat)
    requires AllEnd(types) && name in types
    ensures Ends(types, name, d)
    ensures forall e: nat :: Ends(types, name, e) ==> d <= e
  {
    var depth :| Ends(types, name, depth);
    Least(types, name, depth)
  }

  // ---- Construction ------------------------------------------------------------------------

  ghost function Height(typeName: string, types: TypeMap, rank: map<string, nat>): nat
    requires Ranked(types, rank)
  {
    if typeName in types then rank[typeName] + 1 else 0
  }

  /** `None` stands for the error that the type of a compound is not in the inventory. */
  function Build(
    baseType: u32, size: nat, typeName: string, types: TypeMap, ghost rank: map<string, nat>): Option<TypeTree>
    requires Ranked(types, rank)
    decreases if baseType == COMPOUND then Height(typeName, types, rank) else 0, 0
  {
    var tree := FromTypeId(baseType, size);
    if tree.Compound? then
      if typeName !in types then None
      else if types[typeName].fields != [] then
        Some(Struct(BuildFields([], types[typeName].fields, types, rank, rank[typeName]), types[typeName].size))
      else Some(Array(Scalar(Usint), size))
    else Some(tree)
  }

  /** A field whose type is unknown still gets its place, as raw bytes. */
  function BuildField(field: Field, types: TypeMap, ghost rank: map<string, nat>): Slot
    requires Ranked(types, rank)
    decreases if field.baseType == COMPOUND then Height(field.typ, types, rank) else 0, 1
  {
    match Build(field.baseType, field.size, field.typ, types, rank)
    case Some(tree) => Slot(tree, field.offset)
    case None => Slot(Unknown(field.size), field.offset)
  }

  function BuildFields(
    done: seq<Entry<Slot>>, fields: seq<Field>, types: TypeMap, ghost rank: map<string, nat>, ghost bound: nat)
    : seq<Entry<Slot>>
    requires Ranked(types, rank) && Below(fields, types, rank, bound)
    decreases bound, 2, |fields|
  {
    if fields == [] then done
    else BuildFields(Insert(done, fields[0].name, BuildField(fields[0], types, rank)), fields[1..], types, rank, bound)
  }

  /** Fields may share a name; the tree's entries never do. */
  lemma {:induction false} BuildFieldsDistinct(
    done: seq<Entry<Slot>>, fields: seq<Field>, types: TypeMap, rank: map<string, nat>, bound: nat)
    requires Ranked(types, rank) && Below(fields, types, rank, bound) && Distinct(done)
    ensures Distinct(BuildFields(done, fields, types, rank, bound))
    decreases |fields|
  {
    hide BuildField, Insert;
    if fields != [] {
      var f := fields[0];
      InsertDistinct(done, f.name, BuildField(f, types, rank));
      BuildFieldsDistinct(Insert(done, f.name, BuildField(f, types, rank)), fields[1..], types, rank, bound);
    }
  }

  /** Of several fields with one name the last is kept. */
  lemma {:induction false} BuildFieldsKeepLast(
    done: seq<Entry<Slot>>, fields: seq<Field>, types: TypeMap, rank: map<string, nat>, bound: nat, name: string)
    requires Ranked(types, rank) && Below(fields, types, rank, bound)
    ensures (forall j :: 0 <= j < |fields| ==> fields[j].name != name) ==>
              Get(BuildFields(done, fields, types, rank, bound), name) == Get(done, name)
    ensures forall j :: 0 <= j < |fields| && LastField(fields, j, name) ==>
              Get(BuildFields(done, fields, types, rank, bound), name) == Some(BuildField(fields[j], types, rank))
    decreases |fields|
  {
    hide BuildField, Insert, Get;
    if fields != [] {
      var f, more := fields[0], fields[1..];
      var slot := BuildField(f, types, rank);
      InsertGet(done, f.name, slot, name);
      BuildFieldsKeepLast(Insert(done, f.name, slot), more, types, rank, bound, name);
      assert forall j :: 1 <= j < |fields| ==> fields[j] == more[j - 1];
      forall j | 0 <= j < |fields| && LastField(fields, j, name)
        ensures Get(BuildFields(done, fields, types, rank, bound), name) == Some(BuildField(fields[j], types, rank))
      {
        assert j > 0 ==> LastField(more, j - 1, name);
      }
    }
  }

  predicate LastField(fields: seq<Field>, j: nat, name: string)
    requires j < |fields|
  {
    fields[j].name == name && forall k :: j < k < |fields| ==> fields[k].name != name
  }

  /** Every entry of the tree was there or belongs to one of the fields. */
  lemma {:induction false} BuildFieldsOrigin(
    done: seq<Entry<Slot>>, fields: seq<Field>, types: TypeMap, rank: map<string, nat>, bound: nat, i: nat)
    requires Ranked(types, rank) && Below(fields, types, rank, bound)
    requires i < |BuildFields(done, fields, types, rank, bound)|
    ensures var e := BuildFields(done, fields, types, rank, bound)[i];
            || e in done
            || exists j :: 0 <= j < |fields| && e == Entry(fields[j].name, BuildField(fields[j], types, rank))
    decreases |fields|
  {
    hide BuildField, Insert;
    if fields != [] {
      var f := fields[0];
      var done' := Insert(done, f.name, BuildField(f, types, rank));
      BuildFieldsOrigin(done', fields[1..], types, rank, bound, i);
      var e := BuildFields(done, fields, types, rank, bound)[i];
      if e in done' {
        var k :| 0 <= k < |done'| && done'[k] == e;
        InsertOnly(done, f.name, BuildField(f, types, rank), k);
      } else {
        var j :| 0 <= j < |fields[1..]| && e == Entry(fields[1..][j].name, BuildField(fields[1..][j], types, rank));
        assert fields[j + 1] == fields[1..][j];
      }
    }
  }

  /** Construction fails exactly for a compound whose own type is absent. */
  lemma BuildFailsIff(baseType: u32, size: nat, typeName: string, types: TypeMap, rank: map<string, nat>)
    requires Ranked(types, rank)
    ensures Build(baseType, size, typeName, types, rank) == None <==> baseType == COMPOUND && typeName !in types
  {
  }

  lemma FromTypeIdKinds(typeId: u32, size: nat)
    ensures FromTypeId(typeId, size).Compound? <==> typeId == COMPOUND
    ensures InBounds(FromTypeId(typeId, size))
    ensures typeId != COMPOUND ==> NoCompound(FromTypeId(typeId, size))
  {
  }

  /** What is built holds no compound placeholder at any depth. */
  lemma {:induction false} BuildEliminatesCompound(
    baseType: u32, size: nat, typeName: string, types: TypeMap, rank: map<string, nat>)
    requires Ranked(types, rank)
    ensures Build(baseType, size, typeName, types, rank).Some? ==>
              NoCompound(Build(baseType, size, typeName, types, rank).value)
    decreases if baseType == COMPOUND then Height(typeName, types, rank) else 0
  {
    hide FromTypeId, BuildFields, Insert;
    FromTypeIdKinds(baseType, size);
    if baseType == COMPOUND && typeName in types && types[typeName].fields != [] {
      var fields, bound := types[typeName].fields, rank[typeName];
      var built := BuildFields([], fields, types, rank, bound);
      forall i | 0 <= i < |built|
        ensures NoCompound(built[i].value.tree)
      {
        BuildFieldsOrigin([], fields, types, rank, bound, i);
        var j :| 0 <= j < |fields| && built[i] == Entry(fields[j].name, BuildField(fields[j], types, rank));
        var f := fields[j];
        BuildEliminatesCompound(f.baseType, f.size, f.typ, types, rank);
      }
    }
  }

  // ---- Bounds ------------------------------------------------------------------------------

  /** The bytes a field takes up: a struct's size is its type's, whatever size the field declares. */
  function Extent(f: Field, types: TypeMap): nat {
    var tree := FromTypeId(f.baseType, f.size);
    if tree.Compound? && f.typ in types && types[f.typ].fields != [] then types[f.typ].size else tree.Size()
  }

  /** Every field of every type in the inventory ends inside its type. */
  predicate Fits(types: TypeMap) {
    forall name :: name in types ==> FieldsFit(types[name].fields, types[name].size, types)
  }

  predicate FieldsFit(fields: seq<Field>, size: nat, types: TypeMap) {
    forall i :: 0 <= i < |fields| && fields[i].offset.Some? ==>
        fields[i].offset.value + Extent(fields[i], types) <= size
  }

  lemma BuildFieldExtent(f: Field, types: TypeMap, rank: map<string, nat>)
    requires Ranked(types, rank)
    ensures BuildField(f, types, rank).tree.Size() == Extent(f, types)
    ensures BuildField(f, types, rank).offset == f.offset
  {
    hide BuildFields;
  }

  /** From an inventory that fits, only trees in bounds are built. */
  lemma {:induction false} BuildInBounds(
    baseType: u32, size: nat, typeName: string, types: TypeMap, rank: map<string, nat>)
    requires Ranked(types, rank) && Fits(types)
    ensures Build(baseType, size, typeName, types, rank).Some? ==>
              InBounds(Build(baseType, size, typeName, types, rank).value)
    decreases if baseType == COMPOUND then Height(typeName, types, rank) else 0
  {
    hide FromTypeId, BuildFields, Insert;
    FromTypeIdKinds(baseType, size);
    if baseType == COMPOUND && typeName in types && types[typeName].fields != [] {
      var fields, bound := types[typeName].fields, rank[typeName];
      assert FieldsFit(fields, types[typeName].size, types);
      var built := BuildFields([], fields, types, rank, bound);
      forall i | 0 <= i < |built|
        ensures InBounds(built[i].value.tree)
        ensures built[i].value.offset.Some? ==>
                built[i].value.offset.value + built[i].value.tree.Size() <= types[typeName].size
      {
        BuildFieldsOrigin([], fields, types, rank, bound, i);
        var j :| 0 <= j < |fields| && built[i] == Entry(fields[j].name, BuildField(fields[j], types, rank));
        var f := fields[j];
        BuildFieldExtent(f, types, rank);
        BuildInBounds(f.baseType, f.size, f.typ, types, rank);
      }
    }
  }

  predicate NamesDiffer(fields: seq<Field>) {
    forall i, j :: 0 <= i < j < |fields| ==> fields[i].name != fields[j].name
  }

  lemma {:induction false} BuildFieldsInOrder(
    done: seq<Entry<Slot>>, fields: seq<Field>, types: TypeMap, rank: map<string, nat>, bound: nat, j: nat)
    requires Ranked(types, rank) && Below(fields, types, rank, bound) && NamesDiffer(fields)
    requires forall i :: 0 <= i < |fields| ==> !Has(done, fields[i].name)
    requires j < |done| + |fields|
    ensures |BuildFields(done, fields, types, rank, bound)| == |done| + |fields|
    ensures BuildFields(done, fields, types, rank, bound)[j]
         == if j < |done| then done[j] else Entry(fields[j - |done|].name, BuildField(fields[j - |done|], types, rank))
    decreases |fields|
  {
    hide BuildField, Insert;
    if fields != [] {
      var f := fields[0];
      var slot := BuildField(f, types, rank);
      InsertNew(done, f.name, slot);
      BuildFieldsInOrder(done + [Entry(f.name, slot)], fields[1..], types, rank, bound, j);
    }
  }

  /** Conversely, when no type repeats a field name, trees in bounds only come from types that fit. */
  lemma InBoundsNeedsFits(size: nat, typeName: string, types: TypeMap, rank: map<string, nat>)
    requires Ranked(types, rank) && typeName in types && NamesDiffer(types[typeName].fields)
    requires Build(COMPOUND, size, typeName, types, rank).Some?
    requires InBounds(Build(COMPOUND, size, typeName, types, rank).value)
    ensures FieldsFit(types[typeName].fields, types[typeName].size, types)
  {
    hide BuildFields, BuildField, Extent;
    var fields, bound := types[typeName].fields, rank[typeName];
    if fields != [] {
      var built := BuildFields([], fields, types, rank, bound);
      forall j | 0 <= j < |fields| && fields[j].offset.Some?
        ensures fields[j].offset.value + Extent(fields[j], types) <= types[typeName].size
      {
        BuildFieldsInOrder([], fields, types, rank, bound, j);
        BuildFieldExtent(fields[j], types, rank);
        assert built[j].value.offset == fields[j].offset;
      }
    }
  }

  /**
    * The declared field sizes alone do not bound the reads: an INT field declared one byte long
    * fits a one-byte struct, but is read as two bytes.
    */
  lemma DeclaredSizesAreNotEnough()
    ensures var f := Field("x", "INT", Some(0), 1, [], 2, 0, "", None);
            var t := Type("T", "", "", 1, [], [f], COMPOUND, 0, None, None, None, None);
            && f.offset.value + f.size <= t.size
            && Ranked(map["T" := t], map["T" := 0])
            && Build(COMPOUND, 1, "T", map["T" := t], map["T" := 0]).Some?
            && !InBounds(Build(COMPOUND, 1, "T", map["T" := t], map["T" := 0]).value)
  {
    var f := Field("x", "INT", Some(0), 1, [], 2, 0, "", None);
    var t := Type("T", "", "", 1, [], [f], COMPOUND, 0, None, None, None, None);
    var types, rank := map["T" := t], map["T" := 0];
    assert Ranked(types, rank);
    assert BuildField(f, types, rank) == Slot(Scalar(Int), Some(0));
    assert Insert([], f.name, BuildField(f, types, rank)) == [Entry("x", Slot(Scalar(Int), Some(0)))];
    assert [f][1..] == [];
    assert BuildFields([], [f], types, rank, 0)
           == BuildFields([Entry("x", Slot(Scalar(Int), Some(0)))], [], types, rank, 0);
    var tree := Build(COMPOUND, 1, "T", types, rank).value;
    assert tree.fields[0].value.tree.Size() == 2;
  }

  // ---- Looking up a child ------------------------------------------------------------------

  function Walk(t: TypeTree, tokens: seq<string>): TypeTree
    decreases |tokens|
  {
    if tokens == [] then t
    else if t.Struct? && Get(t.fields, tokens[0]).Some? then Walk(Get(t.fields, tokens[0]).value.tree, tokens[1..])
    else Missing
  }

  /** A child keeps what its tree had. */
  lemma {:induction false} WalkKeeps(t: TypeTree, tokens: seq<string>)
    ensures NoCompound(t) ==> NoCompound(Walk(t, tokens))
    ensures InBounds(t) ==> InBounds(Walk(t, tokens))
    decreases |tokens|
  {
    if tokens != [] && t.Struct? && Get(t.fields, tokens[0]).Some? {
      var slot := Get(t.fields, tokens[0]).value;
      var i :| 0 <= i < |t.fields| && t.fields[i] == Entry(tokens[0], slot);
      assert t.fields[i].value.tree == slot.tree;
      WalkKeeps(slot.tree, tokens[1..]);
    }
  }

  method GetChild(tree: TypeTree, path: string) returns (child: TypeTree)
    ensures child == Walk(tree, Split(path, '.'))
  {
    hide Get, Split;
    var tokens := Split(path, '.');
    child := tree;
    for i := 0 to |tokens|
      invariant Walk(tree, tokens) == Walk(child, tokens[i..])
    {
      assert tokens[i..][1..] == tokens[i + 1..];
      if child.Struct? && Get(child.fields, tokens[i]).Some? {
        child := Get(child.fields, tokens[i]).value.tree;
      } else {
        return Missing;
      }
    }
    assert tokens[|tokens|..] == [];
  }

  /** The construction as the source writes it: a recursion that fills a map in a loop. */
  method TryFromTypeOrField(baseType: u32, size: nat, typeName: string, types: TypeMap, ghost rank: map<string, nat>)
    returns (r: Option<TypeTree>)
    requires Ranked(types, rank)
    ensures r == Build(baseType, size, typeName, types, rank)
    decreases if baseType == COMPOUND then Height(typeName, types, rank) else 0
  {
    hide FromTypeId, Insert;
    FromTypeIdKinds(baseType, size);
    var tree := FromTypeId(baseType, size);
    if tree.Compound? {
      if typeName !in types {
        return None;
      }
      var treeType := types[typeName];
      if treeType.fields != [] {
        var structMap: seq<Entry<Slot>> := [];
        ghost var bound := rank[typeName];
        assert Below(treeType.fields, types, rank, bound);
        for i := 0 to |treeType.fields|
          invariant Below(treeType.fields[i..], types, rank, bound)
          invariant BuildFields([], treeType.fields, types, rank, bound)
                 == BuildFields(structMap, treeType.fields[i..], types, rank, bound)
        {
          var field := treeType.fields[i];
          assert treeType.fields[i..][0] == field && treeType.fields[i..][1..] == treeType.fields[i + 1..];
          var child := TryFromTypeOrField(field.baseType, field.size, field.typ, types, rank);
          var slot := Slot(if child.Some? then child.value else Unknown(field.size), field.offset);
          structMap := Insert(structMap, field.name, slot);
        }
        tree := Struct(structMap, treeType.size);
      } else {
        tree := Array(Scalar(Usint), size);
      }
    }
    r := Some(tree);
  }
}
