/**
 * The change-batch reducer (`onNodesChange` / `onEdgesChange`).  A batch
 * is applied change by change; a change whose id is not cached (or a move
 * without a position) skips just that change.  `select` and `dimensions`
 * replace the cached view item only; `position` writes the shared record;
 * `remove` drops the cache entry and splices the first record with that id
 * out of the shared list.
 */
module Reducer {
  import opened Wrappers
  import opened Graph
  import opened Projection

  /** A React Flow change; `Other` stands for the kinds the reducer ignores (`add`, `replace`). */
  datatype Change =
    | Resize(id: Id, dimensions: Option<Dimensions>)
    | Move(id: Id, position: Option<Position>)
    | Select(id: Id, selected: bool)
    | Remove(id: Id)
    | Other(id: Id)

  /** `findIndex`: the first position holding `id`, or -1. */
  function IndexOf<F>(rs: seq<Record<F>>, id: Id): (index: int)
    ensures -1 <= index < |rs|
    ensures index == -1 <==> id !in Ids(rs)
    ensures index >= 0 ==> rs[index].id == id && forall j :: 0 <= j < index ==> rs[j].id != id
  {
    if rs == [] then -1
    else if rs[0].id == id then 0
    else
      var k := IndexOf(rs[1..], id);
      assert Ids(rs) == {rs[0].id} + Ids(rs[1..]) by {
        assert rs == [rs[0]] + rs[1..];
      }
      if k == -1 then -1 else k + 1
  }

  /** `splice(i, 1)`: the list without position `i`. */
  function Splice<T>(s: seq<T>, i: int): (r: seq<T>)
    requires 0 <= i < |s|
    ensures |r| == |s| - 1
    ensures forall j :: 0 <= j < i ==> r[j] == s[j]
    ensures forall j :: i <= j < |r| ==> r[j] == s[j + 1]
  {
    s[..i] + s[i + 1..]
  }

  /** The cache and the shared list a batch works on. */
  datatype Batch<F> = Batch(cache: Cache<F>, list: seq<Record<F>>)

  function WithSelected<F>(item: ViewItem<F>, selected: bool): ViewItem<F> {
    item.(local := item.local.(selected := Some(selected)))
  }

  function WithMeasured<F>(item: ViewItem<F>, measured: Option<Dimensions>): ViewItem<F> {
    item.(local := item.local.(measured := measured))
  }

  /** The `select` and `remove` cases, which nodes and edges share. */
  function SharedStep<F>(b: Batch<F>, c: Change): Batch<F> {
    match c
    case Select(id, selected) =>
      if id in b.cache then
        b.(cache := b.cache[id := b.cache[id].(item := WithSelected(b.cache[id].item, selected))])
      else b
    case Remove(id) =>
      var index := IndexOf(b.list, id);
      Batch(b.cache - {id}, if index == -1 then b.list else Splice(b.list, index))
    case _ => b
  }

  /** The edge reducer: `select` and `remove` only. */
  function ReduceEdges<F>(b: Batch<F>, changes: seq<Change>): Batch<F> {
    if changes == [] then b
    else SharedStep(ReduceEdges(b, changes[..|changes| - 1]), changes[|changes| - 1])
  }

  /**
   * The node reducer's state: the batch, the fields of the records the cache
   * refers to, and whether a cached item was re-measured.
   */
  datatype NodeBatch = NodeBatch(batch: Batch<NodeFields>, fields: map<Record<NodeFields>, NodeFields>, resized: bool)

  function NodeStep(s: NodeBatch, c: Change): NodeBatch {
    var cache := s.batch.cache;
    match c
    case Resize(id, dimensions) =>
      if id in cache then
        NodeBatch(s.batch.(cache := cache[id := cache[id].(item := WithMeasured(cache[id].item, dimensions))]),
                  s.fields, true)
      else s
    case Move(id, position) =>
      // the record is always among `fields` when the batch starts from a cache snapshot
      if position.None? || id !in cache || cache[id].record !in s.fields then s
      else
        var r := cache[id].record;
        s.(fields := s.fields[r := s.fields[r].(position := position.value)])
    case _ => s.(batch := SharedStep(s.batch, c))
  }

  function ReduceNodes(s: NodeBatch, changes: seq<Change>): NodeBatch {
    if changes == [] then s
    else NodeStep(ReduceNodes(s, changes[..|changes| - 1]), changes[|changes| - 1])
  }

  /** A batch writes fields of the records it started with, and of no others. */
  lemma {:induction false} ReduceKeepsRecords(s: NodeBatch, changes: seq<Change>)
    ensures ReduceNodes(s, changes).fields.Keys == s.fields.Keys
  {
    if changes != [] {
      ReduceKeepsRecords(s, changes[..|changes| - 1]);
    }
  }

  /** The fields of the records a cache refers to, as they are now. */
  ghost function FieldsOf(pc: ProjectionCache<NodeFields>): map<Record<NodeFields>, NodeFields>
    reads pc, pc.Records()
  {
    map r | r in pc.Records() :: r.fields
  }

  /** `findIndex` over the shared list. */
  method FindIndex<F>(list: SharedList<F>, id: Id) returns (index: int)
    ensures index == IndexOf(list.items, id)
  {
    var i := 0;
    while i < |list.items|
      invariant 0 <= i <= |list.items|
      invariant forall j :: 0 <= j < i ==> list.items[j].id != id
    {
      if list.items[i].id == id {
        return i;
      }
      i := i + 1;
    }
    return -1;
  }

  /** The `remove` case: drop the cache entry, splice the first record with the id. */
  method RemoveChange<F>(pc: ProjectionCache<F>, list: SharedList<F>, id: Id)
    requires pc.Valid()
    modifies pc, list
    ensures pc.Valid()
    ensures Batch(pc.entries, list.items) == SharedStep(Batch(old(pc.entries), old(list.items)), Remove(id))
  {
    pc.entries := pc.entries - {id};
    var index := FindIndex(list, id);
    if index != -1 {
      list.items := list.items[..index] + list.items[index + 1..];
    }
  }

  /** The `select` case: a fresh cached item with `selected` set. */
  method SelectChange<F>(pc: ProjectionCache<F>, id: Id, selected: bool)
    requires pc.Valid()
    modifies pc
    ensures pc.Valid()
    ensures pc.entries == SharedStep(Batch(old(pc.entries), []), Select(id, selected)).cache
  {
    if id in pc.entries {
      var cached := pc.entries[id];
      pc.entries := pc.entries[id := cached.(item := WithSelected(cached.item, selected))];
    }
  }

  /**
   * One change of a node batch, the body of the `forEach` callback
   * (app-store.tsx:214-252).  `fields` tracks the records' fields.
   */
  method NodeChange(pc: ProjectionCache<NodeFields>, list: SharedList<NodeFields>, c: Change,
                    ghost fields: map<Record<NodeFields>, NodeFields>, resized: bool)
    returns (ghost fields': map<Record<NodeFields>, NodeFields>, resized': bool)
    requires pc.Valid()
    requires forall k :: k in pc.entries ==> pc.entries[k].record in fields
    requires forall r :: r in fields ==> r.fields == fields[r]
    modifies pc, list, fields.Keys
    ensures pc.Valid()
    ensures NodeBatch(Batch(pc.entries, list.items), fields', resized')
            == NodeStep(NodeBatch(Batch(old(pc.entries), old(list.items)), fields, resized), c)
    ensures fields'.Keys == fields.Keys
    ensures forall k :: k in pc.entries ==> pc.entries[k].record in fields'
    ensures forall r :: r in fields' ==> r.fields == fields'[r]
  {
    fields', resized' := fields, resized;
    match c {
      case Resize(id, dimensions) =>
        if id in pc.entries {
          var cached := pc.entries[id];
          pc.entries := pc.entries[id := cached.(item := WithMeasured(cached.item, dimensions))];
          resized' := true;
        }
      case Move(id, position) =>
        if position.Some? && id in pc.entries {
          var r := pc.entries[id].record;
          r.fields := r.fields.(position := position.value);
          fields' := fields[r := r.fields];
        }
      case Select(id, selected) =>
        SelectChange(pc, id, selected);
      case Remove(id) =>
        RemoveChange(pc, list, id);
      case Other(_) =>
    }
  }

  /**
   * `onNodesChange` (app-store.tsx:206-253): the batch, left to right.
   * The result says whether a cached item was re-measured.
   */
  method ApplyNodeChanges(pc: ProjectionCache<NodeFields>, list: SharedList<NodeFields>, changes: seq<Change>)
    returns (dimensionChanged: bool)
    requires pc.Valid()
    modifies pc, list, pc.Records()
    ensures pc.Valid()
    ensures var post := ReduceNodes(NodeBatch(Batch(old(pc.entries), old(list.items)), old(FieldsOf(pc)), false), changes);
      && pc.entries == post.batch.cache && list.items == post.batch.list && dimensionChanged == post.resized
      && forall r :: r in post.fields ==> r.fields == post.fields[r]
  {
    ghost var start := NodeBatch(Batch(pc.entries, list.items), FieldsOf(pc), false);
    ghost var fields := start.fields;
    ghost var records := pc.Records();
    assert fields.Keys == records;
    dimensionChanged := false;
    var i := 0;
    while i < |changes|
      invariant 0 <= i <= |changes|
      invariant pc.Valid()
      invariant NodeBatch(Batch(pc.entries, list.items), fields, dimensionChanged) == ReduceNodes(start, changes[..i])
      invariant fields.Keys == records
      invariant forall k :: k in pc.entries ==> pc.entries[k].record in fields
      invariant forall r :: r in fields ==> r.fields == fields[r]
    {
      assert changes[..i + 1][..i] == changes[..i];
      fields, dimensionChanged := NodeChange(pc, list, changes[i], fields, dimensionChanged);
      i := i + 1;
    }
    assert changes[..|changes|] == changes;
  }

  /** `onEdgesChange` (app-store.tsx:261-288): `select` and `remove`, left to right. */
  method ApplyEdgeChanges(pc: ProjectionCache<EdgeFields>, list: SharedList<EdgeFields>, changes: seq<Change>)
    requires pc.Valid()
    modifies pc, list
    ensures pc.Valid()
    ensures Batch(pc.entries, list.items) == ReduceEdges(Batch(old(pc.entries), old(list.items)), changes)
  {
    var i := 0;
    while i < |changes|
      invariant 0 <= i <= |changes|
      invariant pc.Valid()
      invariant Batch(pc.entries, list.items) == ReduceEdges(Batch(old(pc.entries), old(list.items)), changes[..i])
    {
      assert changes[..i + 1][..i] == changes[..i];
      match changes[i] {
      case Select(id, selected) =>
        SelectChange(pc, id, selected);
      case Remove(id) =>
        RemoveChange(pc, list, id);
      case _ =>
      }
      i := i + 1;
    }
    assert changes[..|changes|] == changes;
  }
}

module ReducerProperties {
  import opened Wrappers
  import opened Graph
  import opened Projection
  import opened Reducer

  predicate IsLocalChange(c: Change) {
    c.Select? || c.Resize? || c.Other?
  }

  /**
   * `select` and `dimensions` touch only cached view items: the shared list,
   * the records' fields and which record each id is filed under stay as
   * they were.
   */
  lemma {:induction false} LocalChangesKeepShared(s: NodeBatch, changes: seq<Change>)
    requires forall i :: 0 <= i < |changes| ==> IsLocalChange(changes[i])
    ensures var t := ReduceNodes(s, changes);
      && t.batch.list == s.batch.list && t.fields == s.fields
      && t.batch.cache.Keys == s.batch.cache.Keys
      && forall k :: k in t.batch.cache ==> t.batch.cache[k].record == s.batch.cache[k].record
  {
    if changes != [] {
      LocalChangesKeepShared(s, changes[..|changes| - 1]);
    }
  }

  /**
   * `position` writes only the shared record, and only its position: the
   * cache, the list, and every record's kind and data stay as they were.
   */
  lemma {:induction false} MovesWriteOnlyPositions(s: NodeBatch, changes: seq<Change>)
    requires forall i :: 0 <= i < |changes| ==> changes[i].Move?
    ensures var t := ReduceNodes(s, changes);
      && t.batch == s.batch && t.resized == s.resized
      && t.fields.Keys == s.fields.Keys
      && forall r :: r in t.fields ==> t.fields[r].kind == s.fields[r].kind && t.fields[r].data == s.fields[r].data
  {
    if changes != [] {
      MovesWriteOnlyPositions(s, changes[..|changes| - 1]);
    }
  }

  /** A move puts its position on the record filed under its id. */
  lemma MoveSetsPosition(s: NodeBatch, id: Id, p: Position)
    requires id in s.batch.cache && s.batch.cache[id].record in s.fields
    ensures var r := s.batch.cache[id].record;
      NodeStep(s, Move(id, Some(p))).fields[r] == s.fields[r].(position := p)
  {
  }

  /**
   * Changes naming uncached ids (other than `remove`) and moves without a
   * position are skipped one by one: the batch leaves everything as it was.
   */
  lemma {:induction false} UnknownChangesSkipped(s: NodeBatch, changes: seq<Change>)
    requires forall i :: 0 <= i < |changes| ==>
      !changes[i].Remove? && (changes[i].id !in s.batch.cache || changes[i] == Move(changes[i].id, None))
    ensures ReduceNodes(s, changes) == s
  {
    if changes != [] {
      UnknownChangesSkipped(s, changes[..|changes| - 1]);
    }
  }

  /**
   * `remove`: the id leaves the cache; the list loses the first record with
   * that id when there is one and is untouched otherwise; with distinct ids
   * no record with that id remains.
   */
  lemma RemoveEffect<F>(b: Batch<F>, id: Id)
    ensures var t := SharedStep(b, Remove(id));
      && id !in t.cache && t.cache == b.cache - {id}
      && (id !in Ids(b.list) ==> t.list == b.list)
      && (id in Ids(b.list) ==> |t.list| == |b.list| - 1)
      && Ids(t.list) <= Ids(b.list)
      && (DistinctIds(b.list) ==> id !in Ids(t.list) && DistinctIds(t.list))
  {
    var index := IndexOf(b.list, id);
    if index != -1 {
      var t := Splice(b.list, index);
      forall r | r in t
        ensures r in b.list && (DistinctIds(b.list) ==> r.id != id)
      {
        var j :| 0 <= j < |t| && t[j] == r;
        if j < index {
          assert r == b.list[j];
        } else {
          assert r == b.list[j + 1];
        }
      }
      if DistinctIds(b.list) {
        forall i, j | 0 <= i < j < |t|
          ensures t[i].id != t[j].id
        {
          var i' := if i < index then i else i + 1;
          var j' := if j < index then j else j + 1;
          assert t[i] == b.list[i'] && t[j] == b.list[j'];
        }
      }
    }
  }

  /** Repeating a `remove` changes nothing more, when ids are distinct. */
  lemma RemoveIdempotent<F>(b: Batch<F>, id: Id)
    requires DistinctIds(b.list)
    ensures SharedStep(SharedStep(b, Remove(id)), Remove(id)) == SharedStep(b, Remove(id))
  {
    RemoveEffect(b, id);
    var t := SharedStep(b, Remove(id));
    RemoveEffect(t, id);
  }

  /**
   * The edge reducer only ever shrinks: the cache keeps a subset of its
   * ids, each under the same record, and the list keeps a subset of its
   * records.
   */
  lemma {:induction false} EdgeBatchShrinks<F>(b: Batch<F>, changes: seq<Change>)
    ensures var t := ReduceEdges(b, changes);
      && t.cache.Keys <= b.cache.Keys
      && (forall k :: k in t.cache ==> t.cache[k].record == b.cache[k].record)
      && (forall r :: r in t.list ==> r in b.list)
  {
    if changes != [] {
      var front := changes[..|changes| - 1];
      EdgeBatchShrinks(b, front);
      var m := ReduceEdges(b, front);
      var c := changes[|changes| - 1];
      if c.Remove? {
        var index := IndexOf(m.list, c.id);
        if index != -1 {
          forall r | r in Splice(m.list, index)
            ensures r in m.list
          {
            var j :| 0 <= j < |Splice(m.list, index)| && Splice(m.list, index)[j] == r;
            if j >= index {
              assert r == m.list[j + 1];
            }
          }
        }
      }
    }
  }

  /**
   * A `dimensions` change on a cached node followed by a re-derivation of
   * the same snapshot: the node's item carries the new `measured`, keeps the
   * record's fields as they were cached, and the record is untouched.
   */
  lemma ResizeThenDerive(s: NodeBatch, rs: seq<Record<NodeFields>>, i: int, d: Option<Dimensions>)
    requires Coherent(s.batch.cache) && DistinctIds(rs) && 0 <= i < |rs|
    requires Unchanged(s.batch.cache, rs[i])
    ensures var t := NodeStep(s, Resize(rs[i].id, d));
      && t.fields == s.fields && t.resized
      && |Derived(t.batch.cache, rs).1| == |rs|
      && Derived(t.batch.cache, rs).1[i] == WithMeasured(s.batch.cache[rs[i].id].item, d)
  {
    var t := NodeStep(s, Resize(rs[i].id, d));
    assert Coherent(t.batch.cache);
    assert Unchanged(t.batch.cache, rs[i]);
    ReuseUnchangedRecord(t.batch.cache, rs, i);
  }
}
