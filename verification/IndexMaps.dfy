/** Insertion-ordered maps, as sequences of entries with distinct keys. */
module IndexMaps {
  import opened Outcomes

  datatype Entry<+V> = Entry(key: string, value: V)

  function Keys<V>(m: seq<Entry<V>>): (ks: seq<string>)
    ensures |ks| == |m| && forall i :: 0 <= i < |m| ==> ks[i] == m[i].key
  {
    if m == [] then [] else [m[0].key] + Keys(m[1..])
  }

  predicate Distinct<V>(m: seq<Entry<V>>) {
    forall i, j :: 0 <= i < j < |m| ==> m[i].key != m[j].key
  }

  predicate Has<V>(m: seq<Entry<V>>, key: string) {
    exists i :: 0 <= i < |m| && m[i].key == key
  }

  function Get<V>(m: seq<Entry<V>>, key: string): (r: Option<V>)
    ensures r.Some? <==> Has(m, key)
    ensures r.Some? ==> exists i :: 0 <= i < |m| && m[i] == Entry(key, r.value)
  {
    if m == [] then None
    else if m[0].key == key then
      assert m[0] == Entry(key, m[0].value);
      Some(m[0].value)
    else
      var r := Get(m[1..], key);
      assert forall i :: 0 <= i < |m[1..]| ==> m[1..][i] == m[i + 1];
      assert forall i :: 1 <= i < |m| ==> m[i] == m[1..][i - 1];
      r
  }

  /** A key that is there keeps its place and gets the new value; a new key goes to the end. */
  function Insert<V>(m: seq<Entry<V>>, key: string, value: V): seq<Entry<V>> {
    if m == [] then [Entry(key, value)]
    else if m[0].key == key then [Entry(key, value)] + m[1..]
    else [m[0]] + Insert(m[1..], key, value)
  }

  /** Inserts every entry of another map, in its order. */
  function Append<V>(m: seq<Entry<V>>, other: seq<Entry<V>>): seq<Entry<V>>
    decreases |other|
  {
    if other == [] then m else Append(Insert(m, other[0].key, other[0].value), other[1..])
  }

  lemma {:induction false} InsertNew<V>(m: seq<Entry<V>>, key: string, value: V)
    requires !Has(m, key)
    ensures Insert(m, key, value) == m + [Entry(key, value)]
  {
    if m != [] {
      assert m[0].key != key;
      assert forall i :: 0 <= i < |m[1..]| ==> m[1..][i] == m[i + 1];
      InsertNew(m[1..], key, value);
    }
  }

  /** Nothing gets into a map by insertion but the new entry. */
  lemma {:induction false} InsertOnly<V>(m: seq<Entry<V>>, key: string, value: V, i: nat)
    requires i < |Insert(m, key, value)|
    ensures var e := Insert(m, key, value)[i];
            e == Entry(key, value) || e in m
  {
    if m != [] && m[0].key != key && i > 0 {
      InsertOnly(m[1..], key, value, i - 1);
      assert forall j :: 0 <= j < |m[1..]| ==> m[1..][j] == m[j + 1];
    }
  }

  lemma {:induction false} InsertDistinct<V>(m: seq<Entry<V>>, key: string, value: V)
    requires Distinct(m)
    ensures Distinct(Insert(m, key, value))
  {
    if Has(m, key) {
      var i :| 0 <= i < |m| && m[i].key == key;
      InsertReplaces(m, i, key, value);
    } else {
      InsertNew(m, key, value);
    }
  }

  lemma {:induction false} InsertReplaces<V>(m: seq<Entry<V>>, i: nat, key: string, value: V)
    requires Distinct(m) && i < |m| && m[i].key == key
    ensures Insert(m, key, value) == m[i := Entry(key, value)]
  {
    if i > 0 {
      assert m[0].key != key;
      InsertReplaces(m[1..], i - 1, key, value);
    }
  }

  /** Appending a map with other keys is concatenation. */
  lemma {:induction false} AppendDisjoint<V>(m: seq<Entry<V>>, other: seq<Entry<V>>)
    requires Distinct(m + other)
    ensures Append(m, other) == m + other
    decreases |other|
  {
    if other == [] {
      assert m + other == m;
    } else {
      var e := other[0];
      assert forall i :: 0 <= i < |m| ==> (m + other)[i] == m[i];
      assert (m + other)[|m|] == e;
      InsertNew(m, e.key, e.value);
      assert m + [e] + other[1..] == m + other;
      AppendDisjoint(m + [e], other[1..]);
    }
  }

  lemma {:induction false} GetAt<V>(m: seq<Entry<V>>, i: nat)
    requires Distinct(m) && i < |m|
    ensures Get(m, m[i].key) == Some(m[i].value)
  {
    if i > 0 {
      assert forall j :: 0 <= j < |m[1..]| ==> m[1..][j] == m[j + 1];
      GetAt(m[1..], i - 1);
    }
  }

  // ---- Appending entries that may share keys -----------------------------------------------

  lemma {:induction false} InsertGet<V>(m: seq<Entry<V>>, key: string, value: V, other: string)
    ensures Get(Insert(m, key, value), other) == if other == key then Some(value) else Get(m, other)
  {
    if m != [] && m[0].key != key {
      InsertGet(m[1..], key, value, other);
    }
  }

  lemma {:induction false} InsertTwice<V>(m: seq<Entry<V>>, key: string, first: V, second: V)
    ensures Insert(Insert(m, key, first), key, second) == Insert(m, key, second)
  {
    if m != [] && m[0].key != key {
      InsertTwice(m[1..], key, first, second);
    }
  }

  /** A key that is there can be given its value before or after another key's. */
  lemma {:induction false} InsertCommutes<V>(m: seq<Entry<V>>, key: string, value: V, other: string, more: V)
    requires Get(m, key).Some? && key != other
    ensures Insert(Insert(m, other, more), key, value) == Insert(Insert(m, key, value), other, more)
  {
    if m[0].key != key && m[0].key != other {
      InsertCommutes(m[1..], key, value, other, more);
    }
  }

  lemma {:induction false} InsertBehind<V>(m: seq<Entry<V>>, key: string, value: V, others: seq<Entry<V>>)
    requires Get(m, key).Some? && forall i :: 0 <= i < |others| ==> others[i].key != key
    ensures Insert(Append(m, others), key, value) == Append(Insert(m, key, value), others)
    decreases |others|
  {
    hide Get, Insert;
    if others != [] {
      var e := others[0];
      InsertCommutes(m, key, value, e.key, e.value);
      InsertGet(m, e.key, e.value, key);
      InsertBehind(Insert(m, e.key, e.value), key, value, others[1..]);
    }
  }

  lemma {:induction false} AppendInsert<V>(m: seq<Entry<V>>, d: seq<Entry<V>>, key: string, value: V)
    requires Distinct(d)
    ensures Append(m, Insert(d, key, value)) == Insert(Append(m, d), key, value)
    decreases |d|
  {
    hide Get;
    if d != [] {
      var e := d[0];
      if e.key == key {
        assert ([Entry(key, value)] + d[1..])[1..] == d[1..];
        InsertGet(m, key, e.value, key);
        InsertBehind(Insert(m, key, e.value), key, value, d[1..]);
        InsertTwice(m, key, e.value, value);
      } else {
        assert ([e] + Insert(d[1..], key, value))[1..] == Insert(d[1..], key, value);
        AppendInsert(Insert(m, e.key, e.value), d[1..], key, value);
      }
    }
  }

  /** Appending a map is appending, in order, everything it was made from. */
  lemma {:induction false} AppendMap<V>(m: seq<Entry<V>>, d: seq<Entry<V>>, entries: seq<Entry<V>>)
    requires Distinct(d)
    ensures Append(m, Append(d, entries)) == Append(Append(m, d), entries)
    decreases |entries|
  {
    hide Insert;
    if entries != [] {
      var e := entries[0];
      InsertDistinct(d, e.key, e.value);
      AppendInsert(m, d, e.key, e.value);
      AppendMap(m, Insert(d, e.key, e.value), entries[1..]);
    }
  }

  lemma {:induction false} AppendBoth<V>(m: seq<Entry<V>>, first: seq<Entry<V>>, second: seq<Entry<V>>)
    ensures Append(Append(m, first), second) == Append(m, first + second)
    decreases |first|
  {
    hide Insert;
    if first == [] {
      assert first + second == second;
    } else {
      assert (first + second)[1..] == first[1..] + second;
      AppendBoth(Insert(m, first[0].key, first[0].value), first[1..], second);
    }
  }

  lemma {:induction false} AppendDistinct<V>(m: seq<Entry<V>>, entries: seq<Entry<V>>)
    requires Distinct(m)
    ensures Distinct(Append(m, entries))
    decreases |entries|
  {
    hide Insert;
    if entries != [] {
      InsertDistinct(m, entries[0].key, entries[0].value);
      AppendDistinct(Insert(m, entries[0].key, entries[0].value), entries[1..]);
    }
  }

  /** Nothing gets into a map by appending but the appended entries. */
  lemma {:induction false} AppendOnly<V>(m: seq<Entry<V>>, entries: seq<Entry<V>>, i: nat)
    requires i < |Append(m, entries)|
    ensures Append(m, entries)[i] in m || Append(m, entries)[i] in entries
    decreases |entries|
  {
    hide Insert;
    if entries != [] {
      var e := entries[0];
      var m' := Insert(m, e.key, e.value);
      AppendOnly(m', entries[1..], i);
      if Append(m, entries)[i] in m' {
        var j :| 0 <= j < |m'| && m'[j] == Append(m, entries)[i];
        InsertOnly(m, e.key, e.value, j);
      }
    }
  }

  /** Of several entries with one key, the last one stays. */
  lemma {:induction false} AppendGet<V>(m: seq<Entry<V>>, entries: seq<Entry<V>>, key: string)
    ensures (forall i :: 0 <= i < |entries| ==> entries[i].key != key) ==> Get(Append(m, entries), key) == Get(m, key)
    ensures forall i :: 0 <= i < |entries| && LastOf(entries, i) && entries[i].key == key ==>
              Get(Append(m, entries), key) == Some(entries[i].value)
    decreases |entries|
  {
    hide Insert, Get;
    if entries != [] {
      var e := entries[0];
      InsertGet(m, e.key, e.value, key);
      AppendGet(Insert(m, e.key, e.value), entries[1..], key);
      assert forall i :: 1 <= i < |entries| ==> entries[i] == entries[1..][i - 1];
      forall i | 0 <= i < |entries| && LastOf(entries, i) && entries[i].key == key
        ensures Get(Append(m, entries), key) == Some(entries[i].value)
      {
        if i > 0 {
          assert LastOf(entries[1..], i - 1);
        }
      }
    }
  }

  /** No later entry has the same key. */
  predicate LastOf<V>(entries: seq<Entry<V>>, i: nat)
    requires i < |entries|
  {
    forall j :: i < j < |entries| ==> entries[j].key != entries[i].key
  }

  lemma {:induction false} InsertSize<V>(m: seq<Entry<V>>, key: string, value: V)
    ensures |Insert(m, key, value)| == if Has(m, key) then |m| else |m| + 1
  {
    if Has(m, key) {
      if m[0].key != key {
        var i :| 0 <= i < |m| && m[i].key == key;
        assert m[1..][i - 1].key == key;
        InsertSize(m[1..], key, value);
      }
    } else {
      InsertNew(m, key, value);
    }
  }

  /** Every appended entry adds one to the map exactly when no key comes twice. */
  lemma {:induction false} AppendSize<V>(m: seq<Entry<V>>, entries: seq<Entry<V>>)
    requires Distinct(m)
    ensures |Append(m, entries)| <= |m| + |entries|
    ensures |Append(m, entries)| == |m| + |entries| <==> Distinct(m + entries)
    decreases |entries|
  {
    hide Insert;
    if entries == [] {
      assert m + entries == m;
    } else {
      var e := entries[0];
      InsertSize(m, e.key, e.value);
      InsertDistinct(m, e.key, e.value);
      AppendSize(Insert(m, e.key, e.value), entries[1..]);
      if Has(m, e.key) {
        var i :| 0 <= i < |m| && m[i].key == e.key;
        assert (m + entries)[i].key == (m + entries)[|m|].key;
      } else {
        InsertNew(m, e.key, e.value);
        assert m + [e] + entries[1..] == m + entries;
      }
    }
  }
}
