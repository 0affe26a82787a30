/**
 The two-key map of src/multi_map.rs: two hash indexes whose keys and values are
 raw pointers into the same heap boxes. `Rows`-level functions are the meaning;
 the class works on a pointer heap, where reading a pointer needs a live box.
 */
module MultiMap {
  import opened Basics

  datatype Row<K1, K2, V> = Row(k1: K1, k2: K2, v: V)

  // ----- Meaning: a finite set of rows, injective in both keys -----

  ghost predicate Injective<K1(!new), K2(!new), V(!new)>(rows: set<Row<K1, K2, V>>) {
    forall a, b :: a in rows && b in rows && (a.k1 == b.k1 || a.k2 == b.k2) ==> a == b
  }

  ghost predicate Has1<K1, K2, V>(rows: set<Row<K1, K2, V>>, k1: K1) { exists r :: r in rows && r.k1 == k1 }

  ghost predicate Has2<K1, K2, V>(rows: set<Row<K1, K2, V>>, k2: K2) { exists r :: r in rows && r.k2 == k2 }

  ghost function At1<K1, K2, V>(rows: set<Row<K1, K2, V>>, k1: K1): Option<V> {
    if Has1(rows, k1) then (var r :| r in rows && r.k1 == k1; Some(r.v)) else None
  }

  ghost function At2<K1, K2, V>(rows: set<Row<K1, K2, V>>, k2: K2): Option<V> {
    if Has2(rows, k2) then (var r :| r in rows && r.k2 == k2; Some(r.v)) else None
  }

  ghost function Inserted<K1, K2, V>(rows: set<Row<K1, K2, V>>, k1: K1, k2: K2, v: V): set<Row<K1, K2, V>> {
    if Has1(rows, k1) || Has2(rows, k2) then rows else rows + {Row(k1, k2, v)}
  }

  ghost function Without1<K1, K2, V>(rows: set<Row<K1, K2, V>>, k1: K1): set<Row<K1, K2, V>> {
    set r | r in rows && r.k1 != k1
  }

  ghost function Without2<K1, K2, V>(rows: set<Row<K1, K2, V>>, k2: K2): set<Row<K1, K2, V>> {
    set r | r in rows && r.k2 != k2
  }

  ghost function Written1<K1, K2, V>(rows: set<Row<K1, K2, V>>, k1: K1, v: V): set<Row<K1, K2, V>> {
    set r | r in rows :: if r.k1 == k1 then r.(v := v) else r
  }

  ghost function Written2<K1, K2, V>(rows: set<Row<K1, K2, V>>, k2: K2, v: V): set<Row<K1, K2, V>> {
    set r | r in rows :: if r.k2 == k2 then r.(v := v) else r
  }

  /** Both indexes find a row that is there. */
  lemma RowIsFound<K1(!new), K2(!new), V(!new)>(rows: set<Row<K1, K2, V>>, r: Row<K1, K2, V>)
    requires Injective(rows) && r in rows
    ensures At1(rows, r.k1) == Some(r.v) && At2(rows, r.k2) == Some(r.v)
  {
  }

  lemma OperationsKeepInjective<K1(!new), K2(!new), V(!new)>(rows: set<Row<K1, K2, V>>, k1: K1, k2: K2, v: V)
    requires Injective(rows)
    ensures Injective(Inserted(rows, k1, k2, v))
    ensures Injective(Without1(rows, k1)) && Injective(Without2(rows, k2))
    ensures Injective(Written1(rows, k1, v)) && Injective(Written2(rows, k2, v))
  {
  }

  /** A write through one key is what the other key reads, and nothing else changes. */
  lemma WriteIsSeenByBoth<K1(!new), K2(!new), V(!new)>(rows: set<Row<K1, K2, V>>, r: Row<K1, K2, V>, v: V)
    requires Injective(rows) && r in rows
    ensures Written1(rows, r.k1, v) == Written2(rows, r.k2, v) == rows - {r} + {r.(v := v)}
    ensures At1(Written2(rows, r.k2, v), r.k1) == Some(v)
    ensures At2(Written1(rows, r.k1, v), r.k2) == Some(v)
  {
    assert r.(v := v) in Written1(rows, r.k1, v) by { assert r in rows; }
    assert r.(v := v) in Written2(rows, r.k2, v) by { assert r in rows; }
    forall q | q in rows - {r} ensures q in Written1(rows, r.k1, v) && q in Written2(rows, r.k2, v) {
      assert q.k1 != r.k1 && q.k2 != r.k2;
    }
    OperationsKeepInjective(rows, r.k1, r.k2, v);
    RowIsFound(Written1(rows, r.k1, v), r.(v := v));
  }

  lemma NothingToWrite1<K1(!new), K2(!new), V(!new)>(rows: set<Row<K1, K2, V>>, k1: K1, v: V)
    requires !Has1(rows, k1)
    ensures Written1(rows, k1, v) == rows
  {
    assert forall r :: r in rows ==> (if r.k1 == k1 then r.(v := v) else r) == r;
  }

  lemma NothingToWrite2<K1(!new), K2(!new), V(!new)>(rows: set<Row<K1, K2, V>>, k2: K2, v: V)
    requires !Has2(rows, k2)
    ensures Written2(rows, k2, v) == rows
  {
    assert forall r :: r in rows ==> (if r.k2 == k2 then r.(v := v) else r) == r;
  }

  /** Removing through either key removes the same row from both indexes. */
  lemma RemoveIsSeenByBoth<K1(!new), K2(!new), V(!new)>(rows: set<Row<K1, K2, V>>, r: Row<K1, K2, V>)
    requires Injective(rows) && r in rows
    ensures Without1(rows, r.k1) == Without2(rows, r.k2) == rows - {r}
    ensures At1(rows - {r}, r.k1) == None && At2(rows - {r}, r.k2) == None
  {
    assert forall q :: q in rows - {r} ==> q.k1 != r.k1 && q.k2 != r.k2;
  }

  /** Insert and remove undo each other. */
  lemma RemoveUndoesInsert<K1(!new), K2(!new), V(!new)>(rows: set<Row<K1, K2, V>>, k1: K1, k2: K2, v: V)
    requires Injective(rows) && !Has1(rows, k1) && !Has2(rows, k2)
    ensures Without1(Inserted(rows, k1, k2, v), k1) == rows == Without2(Inserted(rows, k1, k2, v), k2)
  {
    OperationsKeepInjective(rows, k1, k2, v);
    RemoveIsSeenByBoth(Inserted(rows, k1, k2, v), Row(k1, k2, v));
    assert rows + {Row(k1, k2, v)} - {Row(k1, k2, v)} == rows;
  }

  // ----- The map itself -----

  type Ptr = nat

  /** An index entry: the hashed key points to `key`, the stored item to `item`. */
  datatype Entry = Entry(key: Ptr, item: Ptr)

  /** Both indexes point at exactly the live boxes, and no two boxes share a key. */
  ghost predicate Linked<K1(!new), K2(!new), V(!new)>(
      heap: map<Ptr, Row<K1, K2, V>>, map1: set<Entry>, map2: set<Entry>) {
    && (forall e :: e in map1 ==> e.key == e.item && e.item in heap)
    && (forall e :: e in map2 ==> e.key == e.item && e.item in heap)
    && (forall p :: p in heap ==> Entry(p, p) in map1 && Entry(p, p) in map2)
    && (forall p, q :: p in heap && q in heap && (heap[p].k1 == heap[q].k1 || heap[p].k2 == heap[q].k2) ==> p == q)
  }

  /** Each index, read on its own, reaches exactly the rows. */
  lemma IndexesAgree<K1(!new), K2(!new), V(!new)>(
      heap: map<Ptr, Row<K1, K2, V>>, map1: set<Entry>, map2: set<Entry>)
    requires Linked(heap, map1, map2)
    ensures (set e | e in map1 :: heap[e.item]) == heap.Values == (set e | e in map2 :: heap[e.item])
    ensures Injective(heap.Values)
  {
    forall r | r in heap.Values
      ensures r in (set e | e in map1 :: heap[e.item]) && r in (set e | e in map2 :: heap[e.item])
    {
      var p :| p in heap && heap[p] == r;
      assert Entry(p, p).item == p;
    }
  }

  lemma NewBox<K1(!new), K2(!new), V(!new)>(
      heap: map<Ptr, Row<K1, K2, V>>, map1: set<Entry>, map2: set<Entry>, r: Row<K1, K2, V>, at: Ptr)
    requires Linked(heap, map1, map2) && at !in heap
    requires !Has1(heap.Values, r.k1) && !Has2(heap.Values, r.k2)
    ensures Linked(heap[at := r], map1 + {Entry(at, at)}, map2 + {Entry(at, at)})
    ensures heap[at := r].Values == heap.Values + {r} && |heap[at := r]| == |heap| + 1
  {
    NewLinks(heap, map1, map2, r, at);
    ValuesAfterInsert(heap, r, at);
    assert heap[at := r].Keys == heap.Keys + {at};
  }

  lemma NewLinks<K1(!new), K2(!new), V(!new)>(
      heap: map<Ptr, Row<K1, K2, V>>, map1: set<Entry>, map2: set<Entry>, r: Row<K1, K2, V>, at: Ptr)
    requires Linked(heap, map1, map2) && at !in heap
    requires !Has1(heap.Values, r.k1) && !Has2(heap.Values, r.k2)
    ensures Linked(heap[at := r], map1 + {Entry(at, at)}, map2 + {Entry(at, at)})
  {
    forall p | p in heap ensures heap[p].k1 != r.k1 && heap[p].k2 != r.k2 {
      assert heap[p] in heap.Values;
    }
  }

  lemma ValuesAfterInsert<K1(!new), K2(!new), V(!new)>(
      heap: map<Ptr, Row<K1, K2, V>>, r: Row<K1, K2, V>, at: Ptr)
    requires at !in heap
    ensures heap[at := r].Values == heap.Values + {r}
  {
    var heap' := heap[at := r];
    assert heap'[at] == r;
    forall q | q in heap.Values ensures q in heap'.Values {
      var p :| p in heap && heap[p] == q;
      assert heap'[p] == q;
    }
  }

  lemma WrittenBox<K1(!new), K2(!new), V(!new)>(
      heap: map<Ptr, Row<K1, K2, V>>, map1: set<Entry>, map2: set<Entry>, p: Ptr, v: V)
    requires Linked(heap, map1, map2) && p in heap
    ensures var r, heap' := heap[p], heap[p := heap[p].(v := v)];
            && Linked(heap', map1, map2) && |heap'| == |heap|
            && heap'.Values == Written1(heap.Values, r.k1, v) == Written2(heap.Values, r.k2, v)
  {
    RowsInjective(heap, map1, map2);
    WriteIsSeenByBoth(heap.Values, heap[p], v);
    ValuesAfterWrite(heap, p, v);
    LinkedAfterWrite(heap, map1, map2, p, v);
  }

  lemma LinkedAfterWrite<K1(!new), K2(!new), V(!new)>(
      heap: map<Ptr, Row<K1, K2, V>>, map1: set<Entry>, map2: set<Entry>, p: Ptr, v: V)
    requires Linked(heap, map1, map2) && p in heap
    ensures Linked(heap[p := heap[p].(v := v)], map1, map2) && |heap[p := heap[p].(v := v)]| == |heap|
  {
    assert heap[p := heap[p].(v := v)].Keys == heap.Keys;
  }

  lemma RowsInjective<K1(!new), K2(!new), V(!new)>(
      heap: map<Ptr, Row<K1, K2, V>>, map1: set<Entry>, map2: set<Entry>)
    requires Linked(heap, map1, map2)
    ensures Injective(heap.Values) && forall p :: p in heap ==> heap[p] in heap.Values
  {
  }

  lemma ValuesAfterWrite<K1(!new), K2(!new), V(!new)>(heap: map<Ptr, Row<K1, K2, V>>, p: Ptr, v: V)
    requires p in heap && forall q :: q in heap && heap[q].k1 == heap[p].k1 ==> q == p
    ensures heap[p := heap[p].(v := v)].Values == heap.Values - {heap[p]} + {heap[p].(v := v)}
  {
    var heap' := heap[p := heap[p].(v := v)];
    assert heap'[p] == heap[p].(v := v);
    forall r | r in heap.Values - {heap[p]} ensures r in heap'.Values {
      var q :| q in heap && heap[q] == r;
      assert heap'[q] == r;
    }
  }

  lemma FreedBox<K1(!new), K2(!new), V(!new)>(
      heap: map<Ptr, Row<K1, K2, V>>, map1: set<Entry>, map2: set<Entry>, p: Ptr)
    requires Linked(heap, map1, map2) && p in heap
    ensures Linked(heap - {p}, map1 - {Entry(p, p)}, map2 - {Entry(p, p)})
    ensures (heap - {p}).Values == Without1(heap.Values, heap[p].k1) == Without2(heap.Values, heap[p].k2)
    ensures At1(heap.Values, heap[p].k1) == Some(heap[p].v) == At2(heap.Values, heap[p].k2)
  {
    var r, heap' := heap[p], heap - {p};
    IndexesAgree(heap, map1, map2);
    assert r in heap.Values;
    RowIsFound(heap.Values, r);
    RemoveIsSeenByBoth(heap.Values, r);
    forall q | q in heap.Values - {r} ensures q in heap'.Values {
      var o :| o in heap && heap[o] == q;
      assert heap'[o] == q;
    }
  }

  class MultiMap<K1(==, !new), K2(==, !new), V(==, !new)> {
    var heap: map<Ptr, Row<K1, K2, V>>  // the live boxes
    var map1: set<Entry>
    var map2: set<Entry>
    ghost var boxed: nat  // Box::new calls so far
    ghost var freed: nat  // boxes dropped so far

    /** Hashing or comparing keys may read through any key pointer of an index. */
    ghost predicate KeysLive(index: set<Entry>)
      reads this
    {
      forall e :: e in index ==> e.key in heap
    }

    ghost predicate Valid()
      reads this
    {
      Linked(heap, map1, map2) && boxed == freed + |heap|
    }

    ghost function Rows(): set<Row<K1, K2, V>>
      reads this
    {
      heap.Values
    }

    constructor ()
      ensures Valid() && Rows() == {} && boxed == 0
    {
      heap, map1, map2, boxed, freed := map[], {}, {}, 0, 0;
    }

    /** `map1.get(k1)`: the entry whose key reads as `k1`. */
    method Find1(k1: K1) returns (found: Option<Entry>)
      requires KeysLive(map1)
      ensures found.Some? ==> found.value in map1 && heap[found.value.key].k1 == k1
      ensures found.None? ==> forall e :: e in map1 ==> heap[e.key].k1 != k1
    {
      found := None;
      if e :| e in map1 && heap[e.key].k1 == k1 {
        found := Some(e);
      }
    }

    /** `map2.get(k2)`: the entry whose key reads as `k2`. */
    method Find2(k2: K2) returns (found: Option<Entry>)
      requires KeysLive(map2)
      ensures found.Some? ==> found.value in map2 && heap[found.value.key].k2 == k2
      ensures found.None? ==> forall e :: e in map2 ==> heap[e.key].k2 != k2
    {
      found := None;
      if e :| e in map2 && heap[e.key].k2 == k2 {
        found := Some(e);
      }
    }

    /** Dropping a box: only a live one can be freed. */
    method Free(p: Ptr)
      requires p in heap
      modifies this`heap, this`freed
      ensures heap == old(heap) - {p} && freed == old(freed) + 1
      ensures |old(heap)| == |heap| + 1
    {
      assert heap.Keys == (heap - {p}).Keys + {p};
      heap := heap - {p};
      freed := freed + 1;
    }

    lemma Absent1(k1: K1)
      requires Valid() && forall e :: e in map1 ==> heap[e.key].k1 != k1
      ensures !Has1(Rows(), k1) && Without1(Rows(), k1) == Rows()
    {
      forall r | r in Rows() ensures r.k1 != k1 {
        var p :| p in heap && heap[p] == r;
        assert Entry(p, p) in map1;
      }
    }

    lemma Absent2(k2: K2)
      requires Valid() && forall e :: e in map2 ==> heap[e.key].k2 != k2
      ensures !Has2(Rows(), k2) && Without2(Rows(), k2) == Rows()
    {
      forall r | r in Rows() ensures r.k2 != k2 {
        var p :| p in heap && heap[p] == r;
        assert Entry(p, p) in map2;
      }
    }

    lemma Present1(e: Entry)
      requires Valid() && e in map1
      ensures Has1(Rows(), heap[e.key].k1)
    {
      assert heap[e.key] in Rows();
    }

    lemma Present2(e: Entry)
      requires Valid() && e in map2
      ensures Has2(Rows(), heap[e.key].k2)
    {
      assert heap[e.key] in Rows();
    }

    /** `at` is the address the allocator picks; any address without a live box will do. */
    method Insert(k1: K1, k2: K2, v: V, at: Ptr) returns (ok: bool)
      requires Valid() && at !in heap
      modifies this
      ensures Valid()
      ensures ok <==> !Has1(old(Rows()), k1) && !Has2(old(Rows()), k2)
      ensures Rows() == Inserted(old(Rows()), k1, k2, v)
      ensures boxed == old(boxed) + (if ok then 1 else 0) && freed == old(freed)
      ensures !ok ==> heap == old(heap) && map1 == old(map1) && map2 == old(map2)
    {
      var e1 := Find1(k1);
      var e2 := Find2(k2);
      if e1.Some? {
        Present1(e1.value);
        ok := false;
      } else if e2.Some? {
        Present2(e2.value);
        ok := false;
      } else {
        Absent1(k1);
        Absent2(k2);
        NewBox(heap, map1, map2, Row(k1, k2, v), at);
        heap := heap[at := Row(k1, k2, v)];
        boxed := boxed + 1;
        map1 := map1 + {Entry(at, at)};
        map2 := map2 + {Entry(at, at)};
        ok := true;
      }
    }

    method Get1(k1: K1) returns (v: Option<V>)
      requires Valid()
      ensures v == At1(Rows(), k1)
    {
      var found := Find1(k1);
      if found.Some? {
        v := Some(heap[found.value.item].v);
        FreedBox(heap, map1, map2, found.value.item);
      } else {
        v := None;
        Absent1(k1);
      }
    }

    method Get2(k2: K2) returns (v: Option<V>)
      requires Valid()
      ensures v == At2(Rows(), k2)
    {
      var found := Find2(k2);
      if found.Some? {
        v := Some(heap[found.value.item].v);
        FreedBox(heap, map1, map2, found.value.item);
      } else {
        v := None;
        Absent2(k2);
      }
    }

    /** The mutable lookup by key 1, and `v` stored through the reference it returns. */
    method Write1(k1: K1, v: V) returns (ok: bool)
      requires Valid()
      modifies this`heap
      ensures Valid() && ok == Has1(old(Rows()), k1) && Rows() == Written1(old(Rows()), k1, v)
    {
      var found := Find1(k1);
      if found.Some? {
        var p := found.value.item;
        assert heap[p] in Rows();
        WrittenBox(heap, map1, map2, p, v);
        heap := heap[p := heap[p].(v := v)];
        ok := true;
      } else {
        Absent1(k1);
        NothingToWrite1(Rows(), k1, v);
        ok := false;
      }
    }

    /** The mutable lookup by key 2, and `v` stored through the reference it returns. */
    method Write2(k2: K2, v: V) returns (ok: bool)
      requires Valid()
      modifies this`heap
      ensures Valid() && ok == Has2(old(Rows()), k2) && Rows() == Written2(old(Rows()), k2, v)
    {
      var found := Find2(k2);
      if found.Some? {
        var p := found.value.item;
        assert heap[p] in Rows();
        WrittenBox(heap, map1, map2, p, v);
        heap := heap[p := heap[p].(v := v)];
        ok := true;
      } else {
        Absent2(k2);
        NothingToWrite2(Rows(), k2, v);
        ok := false;
      }
    }

    /** The index entry goes first, the other index while the box still lives, the box last. */
    method Remove1(k1: K1) returns (v: Option<V>)
      requires Valid()
      modifies this
      ensures Valid()
      ensures v == At1(old(Rows()), k1) && Rows() == Without1(old(Rows()), k1)
      ensures boxed == old(boxed) && freed == old(freed) + (if v.Some? then 1 else 0)
    {
      var found := Find1(k1);
      if found.Some? {
        var p := found.value.item;
        FreedBox(heap, map1, map2, p);
        map1 := map1 - {found.value};
        v := Some(heap[p].v);
        var twin := Find2(heap[p].k2);
        assert twin == Some(Entry(p, p)) by { assert Entry(p, p) in map2; }
        map2 := map2 - {twin.value};
        Free(p);
      } else {
        Absent1(k1);
        v := None;
      }
    }

    method Remove2(k2: K2) returns (v: Option<V>)
      requires Valid()
      modifies this
      ensures Valid()
      ensures v == At2(old(Rows()), k2) && Rows() == Without2(old(Rows()), k2)
      ensures boxed == old(boxed) && freed == old(freed) + (if v.Some? then 1 else 0)
    {
      var found := Find2(k2);
      if found.Some? {
        var p := found.value.item;
        FreedBox(heap, map1, map2, p);
        map2 := map2 - {found.value};
        v := Some(heap[p].v);
        var twin := Find1(heap[p].k1);
        assert twin == Some(Entry(p, p)) by { assert Entry(p, p) in map1; }
        map1 := map1 - {twin.value};
        Free(p);
      } else {
        Absent2(k2);
        v := None;
      }
    }

    /** Every box ever boxed has been freed, each while it was live: exactly once. */
    method Drop()
      requires Valid()
      modifies this
      ensures Valid() && heap == map[] && map1 == {} && map2 == {}
      ensures boxed == old(boxed) && freed == boxed
    {
      map1 := {};
      while map2 != {}
        invariant map1 == {} && boxed == old(boxed) == freed + |heap|
        invariant forall e :: e in map2 ==> e.key == e.item && e.item in heap
        invariant forall p :: p in heap ==> Entry(p, p) in map2
        decreases |map2|
      {
        var e :| e in map2;
        map2 := map2 - {e};
        Free(e.item);
      }
      assert heap.Keys == {};
      assert heap == map[];
    }
  }
}
