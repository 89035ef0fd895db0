/**
 * The identity-preserving projection from a shared list of records to
 * view items (`deriveArray` and its inline copies).  A cache maps an id to
 * the record last seen under it and the item built for it.  A record that
 * is the very same reference as the cached one gets the cached item back;
 * any other record gets a rebuilt item: its own fields over the old item's
 * local properties.
 */
module Projection {
  import opened Wrappers
  import opened Graph

  datatype Entry<F> = Entry(record: Record<F>, item: ViewItem<F>)
  type Cache<F> = map<Id, Entry<F>>

  /** Every entry is filed under its record's id, and so is its item. */
  predicate Coherent<F>(cache: Cache<F>) {
    forall k :: k in cache ==> cache[k].record.id == k && cache[k].item.id == k
  }

  /** The cached entry holds this very record. */
  predicate Unchanged<F>(cache: Cache<F>, r: Record<F>) {
    r.id in cache && cache[r.id].record == r
  }

  /** The local properties an item rebuilt for `id` inherits. */
  function LocalOf<F>(cache: Cache<F>, id: Id): Local {
    if id in cache then cache[id].item.local else NO_LOCAL
  }

  /** The item for `r`: the cached one, or `{ ...cached?.item, ...r, id }`. */
  function ItemFor<F>(cache: Cache<F>, r: Record<F>): (item: ViewItem<F>)
    reads r
    ensures Unchanged(cache, r) ==> item == cache[r.id].item
    ensures !Unchanged(cache, r) ==> item == ViewItem(r.id, r.fields, LocalOf(cache, r.id))
    ensures Coherent(cache) ==> item.id == r.id
  {
    if Unchanged(cache, r) then cache[r.id].item else ViewItem(r.id, r.fields, LocalOf(cache, r.id))
  }

  /** The cache after visiting `r`: untouched on reuse, otherwise re-filed. */
  function Visit<F>(cache: Cache<F>, r: Record<F>): Cache<F>
    reads r
  {
    if Unchanged(cache, r) then cache else cache[r.id := Entry(r, ItemFor(cache, r))]
  }

  /**
   * The `map` pass of the projection over `rs`, left to right: the cache
   * after it and the items, in order.  The provider's inline copy is
   * exactly this pass.
   */
  function Walk<F>(cache: Cache<F>, rs: seq<Record<F>>): (Cache<F>, seq<ViewItem<F>>)
    reads rs
  {
    if rs == [] then (cache, [])
    else
      var prev := Walk(cache, rs[..|rs| - 1]);
      var r := rs[|rs| - 1];
      (Visit(prev.0, r), prev.1 + [ItemFor(prev.0, r)])
  }

  /**
   * `deriveArray`: the pass, then the purge of every id that was cached
   * before and is not in the snapshot.
   */
  function Derived<F>(cache: Cache<F>, rs: seq<Record<F>>): (Cache<F>, seq<ViewItem<F>>)
    reads rs
  {
    var w := Walk(cache, rs);
    (w.0 - (cache.Keys - Ids(rs)), w.1)
  }

  /**
   * The shape of the pass: one item per record, in order, each carrying its
   * record's id; the keys grow by exactly the snapshot's ids; every entry
   * holds a record of the snapshot or is left as it was.
   */
  lemma {:induction false} WalkShape<F>(cache: Cache<F>, rs: seq<Record<F>>)
    requires Coherent(cache)
    ensures var w := Walk(cache, rs);
      && |w.1| == |rs|
      && (forall i :: 0 <= i < |rs| ==> w.1[i].id == rs[i].id)
      && Coherent(w.0)
      && w.0.Keys == cache.Keys + Ids(rs)
      && (forall k :: k in cache && k !in Ids(rs) ==> w.0[k] == cache[k])
      && (forall k :: k in w.0 && k in Ids(rs) ==> w.0[k].record in rs)
  {
    WalkItemIds(cache, rs);
    WalkKeys(cache, rs);
    WalkLeavesOthers(cache, rs);
    WalkFilesFromSnapshot(cache, rs);
  }

  /** One item per record, carrying that record's id. */
  lemma {:induction false} WalkItemIds<F>(cache: Cache<F>, rs: seq<Record<F>>)
    requires Coherent(cache)
    ensures |Walk(cache, rs).1| == |rs|
    ensures forall i :: 0 <= i < |rs| ==> Walk(cache, rs).1[i].id == rs[i].id
  {
    if rs != [] {
      var front := rs[..|rs| - 1];
      WalkItemIds(cache, front);
      WalkKeys(cache, front);
      var p := Walk(cache, front);
      var w := Walk(cache, rs);
      forall i | 0 <= i < |rs|
        ensures w.1[i].id == rs[i].id
      {
        if i < |front| {
          assert w.1[i] == p.1[i];
        }
      }
    }
  }

  /** The pass keeps the cache coherent and adds exactly the snapshot's ids. */
  lemma {:induction false} WalkKeys<F>(cache: Cache<F>, rs: seq<Record<F>>)
    requires Coherent(cache)
    ensures Coherent(Walk(cache, rs).0)
    ensures Walk(cache, rs).0.Keys == cache.Keys + Ids(rs)
  {
    if rs != [] {
      var front := rs[..|rs| - 1];
      WalkKeys(cache, front);
      assert rs == front + [rs[|rs| - 1]];
      assert Ids(rs) == Ids(front) + {rs[|rs| - 1].id};
    }
  }

  /** An id the snapshot does not hold keeps its entry. */
  lemma {:induction false} WalkLeavesOthers<F>(cache: Cache<F>, rs: seq<Record<F>>)
    ensures forall k :: k in cache && k !in Ids(rs) ==> k in Walk(cache, rs).0 && Walk(cache, rs).0[k] == cache[k]
  {
    if rs != [] {
      var front := rs[..|rs| - 1];
      WalkLeavesOthers(cache, front);
      assert rs == front + [rs[|rs| - 1]];
      assert Ids(rs) == Ids(front) + {rs[|rs| - 1].id};
    }
  }

  /** An entry under a snapshot id holds a record of the snapshot. */
  lemma {:induction false} WalkFilesFromSnapshot<F>(cache: Cache<F>, rs: seq<Record<F>>)
    ensures forall k :: k in Walk(cache, rs).0 && k in Ids(rs) ==> Walk(cache, rs).0[k].record in rs
  {
    if rs != [] {
      var front := rs[..|rs| - 1];
      var r := rs[|rs| - 1];
      WalkFilesFromSnapshot(cache, front);
      assert rs == front + [r];
      assert Ids(rs) == Ids(front) + {r.id};
      var p := Walk(cache, front);
      var w := Walk(cache, rs);
      forall k | k in w.0 && k in Ids(rs)
        ensures w.0[k].record in rs
      {
        if k != r.id {
          assert k in Ids(front) && w.0[k] == p.0[k];
        }
      }
    }
  }

  /** The item the pass produces at position `i` is the one for the cache built so far. */
  lemma {:induction false} WalkAt<F>(cache: Cache<F>, rs: seq<Record<F>>, i: int)
    requires 0 <= i < |rs|
    ensures |Walk(cache, rs).1| == |rs|
    ensures Walk(cache, rs).1[i] == ItemFor(Walk(cache, rs[..i]).0, rs[i])
  {
    var front := rs[..|rs| - 1];
    assert rs[..|rs| - 1][..i] == rs[..i] by {
      if i < |rs| - 1 {
        assert rs[..|rs| - 1][..i] == rs[..i];
      }
    }
    if i < |rs| - 1 {
      WalkAt(cache, front, i);
      assert front[i] == rs[i];
    } else {
      WalkLength(cache, front);
    }
  }

  lemma {:induction false} WalkLength<F>(cache: Cache<F>, rs: seq<Record<F>>)
    ensures |Walk(cache, rs).1| == |rs|
  {
    if rs != [] {
      WalkLength(cache, rs[..|rs| - 1]);
    }
  }

  /** The pass never changes the entry of an id it has not reached. */
  lemma FrontUnvisited<F>(cache: Cache<F>, rs: seq<Record<F>>, i: int)
    requires Coherent(cache) && DistinctIds(rs) && 0 <= i < |rs|
    ensures rs[i].id !in Ids(rs[..i])
    ensures var c := Walk(cache, rs[..i]).0;
      (rs[i].id in c <==> rs[i].id in cache) && (rs[i].id in cache ==> c[rs[i].id] == cache[rs[i].id])
  {
    WalkShape(cache, rs[..i]);
  }

  /**
   * Identity reuse: with distinct ids, a record that is the same reference
   * as the cached one yields exactly the cached item.
   */
  lemma ReuseUnchangedRecord<F>(cache: Cache<F>, rs: seq<Record<F>>, i: int)
    requires Coherent(cache) && DistinctIds(rs) && 0 <= i < |rs|
    requires Unchanged(cache, rs[i])
    ensures |Derived(cache, rs).1| == |rs|
    ensures Derived(cache, rs).1[i] == cache[rs[i].id].item
  {
    WalkAt(cache, rs, i);
    FrontUnvisited(cache, rs, i);
  }

  /**
   * Rebuild: any other record yields its own fields over the old item's
   * local properties (`selected`, `measured`), or none when it is new.
   */
  lemma RebuildChangedRecord<F>(cache: Cache<F>, rs: seq<Record<F>>, i: int)
    requires Coherent(cache) && DistinctIds(rs) && 0 <= i < |rs|
    requires !Unchanged(cache, rs[i])
    ensures |Derived(cache, rs).1| == |rs|
    ensures Derived(cache, rs).1[i] == ViewItem(rs[i].id, rs[i].fields, LocalOf(cache, rs[i].id))
  {
    WalkAt(cache, rs, i);
    FrontUnvisited(cache, rs, i);
  }

  /** After the projection, the cache holds exactly the snapshot's ids. */
  lemma DerivedKeys<F>(cache: Cache<F>, rs: seq<Record<F>>)
    requires Coherent(cache)
    ensures Derived(cache, rs).0.Keys == Ids(rs)
    ensures Coherent(Derived(cache, rs).0)
    ensures |Derived(cache, rs).1| == |rs|
    ensures forall i :: 0 <= i < |rs| ==> Derived(cache, rs).1[i].id == rs[i].id
  {
    WalkShape(cache, rs);
  }

  /** The provider's pass never drops an entry: it only adds or re-files. */
  lemma WalkNeverShrinks<F>(cache: Cache<F>, rs: seq<Record<F>>)
    requires Coherent(cache)
    ensures cache.Keys <= Walk(cache, rs).0.Keys
  {
    WalkShape(cache, rs);
  }

  /** After the pass, each id of the snapshot is filed with its (last) record. */
  lemma {:induction false} WalkFilesRecords<F>(cache: Cache<F>, rs: seq<Record<F>>)
    requires DistinctIds(rs)
    ensures forall i :: 0 <= i < |rs| ==> Unchanged(Walk(cache, rs).0, rs[i])
  {
    if rs != [] {
      var front := rs[..|rs| - 1];
      WalkFilesRecords(cache, front);
      forall i | 0 <= i < |rs|
        ensures Unchanged(Walk(cache, rs).0, rs[i])
      {
        if i < |rs| - 1 {
          assert front[i] == rs[i];
          assert rs[i].id != rs[|rs| - 1].id;
        }
      }
    }
  }

  /**
   * Projecting the same snapshot twice changes nothing the second time: the
   * same items come back and the cache is as the first pass left it.
   */
  lemma DeriveIdempotent<F>(cache: Cache<F>, rs: seq<Record<F>>)
    requires Coherent(cache) && DistinctIds(rs)
    ensures Derived(Derived(cache, rs).0, rs) == Derived(cache, rs)
  {
    var d := Derived(cache, rs);
    DerivedKeys(cache, rs);
    WalkFilesRecords(cache, rs);
    WalkShape(cache, rs);
    assert forall i :: 0 <= i < |rs| ==> Unchanged(d.0, rs[i]) by {
      forall i | 0 <= i < |rs|
        ensures Unchanged(d.0, rs[i])
      {
        assert rs[i].id in Ids(rs);
      }
    }
    WalkReusesAll(d.0, rs);
    var w := Walk(d.0, rs);
    forall i | 0 <= i < |rs|
      ensures w.1[i] == d.1[i]
    {
      RebuildOrReuse(cache, rs, i);
    }
    assert w.1 == d.1;
    assert d.0.Keys - Ids(rs) == {};
    assert w.0 - (d.0.Keys - Ids(rs)) == d.0;
  }

  /** The item at `i` is what the final cache files under its id. */
  lemma RebuildOrReuse<F>(cache: Cache<F>, rs: seq<Record<F>>, i: int)
    requires Coherent(cache) && DistinctIds(rs) && 0 <= i < |rs|
    ensures |Derived(cache, rs).1| == |rs|
    ensures rs[i].id in Derived(cache, rs).0
    ensures Derived(cache, rs).1[i] == Derived(cache, rs).0[rs[i].id].item
  {
    WalkAt(cache, rs, i);
    FrontUnvisited(cache, rs, i);
    DerivedKeys(cache, rs);
    ItemFiledAt(cache, rs, i);
  }

  /**
   * Reuse writes nothing: after the projection, a record that was cached as
   * the same reference still has exactly its old entry, item included.
   */
  lemma ReuseKeepsEntry<F>(cache: Cache<F>, rs: seq<Record<F>>, i: int)
    requires Coherent(cache) && DistinctIds(rs) && 0 <= i < |rs|
    requires Unchanged(cache, rs[i])
    ensures rs[i].id in Derived(cache, rs).0
    ensures Derived(cache, rs).0[rs[i].id] == cache[rs[i].id]
  {
    ItemFiledAt(cache, rs, i);
    FrontUnvisited(cache, rs, i);
    assert rs[i].id in Ids(rs);
  }

  /**
   * Identity across snapshots: a record that appears in two successive
   * snapshots, at any positions, gets the very same item from both
   * projections.
   */
  lemma IdentityAcrossSnapshots<F>(cache: Cache<F>, rs1: seq<Record<F>>, rs2: seq<Record<F>>, i: int, j: int)
    requires Coherent(cache) && DistinctIds(rs1) && DistinctIds(rs2)
    requires 0 <= i < |rs1| && 0 <= j < |rs2| && rs1[i] == rs2[j]
    ensures |Derived(cache, rs1).1| == |rs1|
    ensures |Derived(Derived(cache, rs1).0, rs2).1| == |rs2|
    ensures Derived(Derived(cache, rs1).0, rs2).1[j] == Derived(cache, rs1).1[i]
  {
    var d := Derived(cache, rs1);
    DerivedKeys(cache, rs1);
    WalkFilesRecords(cache, rs1);
    assert rs1[i].id in Ids(rs1);
    assert Unchanged(d.0, rs2[j]);
    RebuildOrReuse(cache, rs1, i);
    ReuseUnchangedRecord(d.0, rs2, j);
  }

  /** What the pass files under `rs[i].id` at step `i` stays there to the end. */
  lemma {:induction false} ItemFiledAt<F>(cache: Cache<F>, rs: seq<Record<F>>, i: int)
    requires Coherent(cache) && DistinctIds(rs) && 0 <= i < |rs|
    ensures rs[i].id in Walk(cache, rs).0
    ensures Walk(cache, rs).0[rs[i].id] == Visit(Walk(cache, rs[..i]).0, rs[i])[rs[i].id]
  {
    var front := rs[..|rs| - 1];
    if i == |rs| - 1 {
      assert rs[..i] == front;
    } else {
      assert front[..i] == rs[..i];
      assert front[i] == rs[i];
      ItemFiledAt(cache, front, i);
      assert rs[|rs| - 1].id != rs[i].id;
    }
  }

  /** When every record is filed unchanged, the pass leaves the cache alone. */
  lemma {:induction false} WalkReusesAll<F>(cache: Cache<F>, rs: seq<Record<F>>)
    requires forall i :: 0 <= i < |rs| ==> Unchanged(cache, rs[i])
    ensures Walk(cache, rs).0 == cache
    ensures |Walk(cache, rs).1| == |rs|
    ensures forall i :: 0 <= i < |rs| ==> rs[i].id in cache && Walk(cache, rs).1[i] == cache[rs[i].id].item
  {
    if rs != [] {
      var front := rs[..|rs| - 1];
      WalkReusesAll(cache, front);
      forall i | 0 <= i < |rs| - 1
        ensures Walk(cache, rs).1[i] == cache[rs[i].id].item
      {
        assert front[i] == rs[i];
      }
    }
  }

  /** The cache of one flow's nodes or edges, as a mutable `Map`. */
  class ProjectionCache<F> {
    var entries: Cache<F>

    ghost predicate Valid()
      reads this
    {
      Coherent(entries)
    }

    constructor ()
      ensures Valid() && entries == map[]
    {
      entries := map[];
    }

    /** The records the cache refers to (the ones a `position` change may write). */
    ghost function Records(): set<Record<F>>
      reads this
    {
      set k | k in entries :: entries[k].record
    }

    /** The provider's projection (provider.tsx:61-84): the pass, without a purge. */
    method Refresh(rs: seq<Record<F>>) returns (items: seq<ViewItem<F>>)
      requires Valid()
      modifies this
      ensures Valid()
      ensures (entries, items) == Walk(old(entries), rs)
    {
      var cache := entries;
      items := [];
      var i := 0;
      while i < |rs|
        invariant 0 <= i <= |rs|
        invariant (cache, items) == Walk(entries, rs[..i])
      {
        assert rs[..i + 1][..i] == rs[..i];
        var r := rs[i];
        assert Walk(entries, rs[..i + 1]) == (Visit(cache, r), items + [ItemFor(cache, r)]);
        if r.id in cache && cache[r.id].record == r {
          items := items + [cache[r.id].item];
        } else {
          var local := if r.id in cache then cache[r.id].item.local else NO_LOCAL;
          var item := ViewItem(r.id, r.fields, local);
          cache := cache[r.id := Entry(r, item)];
          items := items + [item];
        }
        i := i + 1;
      }
      assert rs[..|rs|] == rs;
      WalkShape(entries, rs);
      entries := cache;
    }

    /** `deriveArray` (app-store.tsx:80-103): the pass, then the purge. */
    method Derive(rs: seq<Record<F>>) returns (items: seq<ViewItem<F>>)
      requires Valid()
      modifies this
      ensures Valid()
      ensures (entries, items) == Derived(old(entries), rs)
      ensures entries.Keys == Ids(rs)
    {
      var before := entries;
      items := Refresh(rs);
      var cache := entries;
      var stale := before.Keys - Ids(rs);
      ghost var purged: set<Id> := {};
      while stale != {}
        invariant stale !! purged
        invariant stale + purged == before.Keys - Ids(rs)
        invariant cache == entries - purged
        decreases stale
      {
        var k :| k in stale;
        cache := cache - {k};
        stale := stale - {k};
        purged := purged + {k};
      }
      DerivedKeys(before, rs);
      entries := cache;
    }
  }
}
