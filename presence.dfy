/**
 * The presence collector and publisher.  A feed keeps, per author, the
 * latest entry; the collector keeps the entries that have a value and an
 * author, are not the local user's and are fresh enough, decodes them and
 * gives each its author's colour.  The publisher appends one entry to the
 * local user's stream.
 */
module Presence {
  import opened Wrappers
  import opened Text
  import opened PresenceCodec
  import opened Colors

  /** Entries older than this many milliseconds are dropped. */
  const CURSOR_MAX_AGE: int := 10000
  const CONNECTION_MAX_AGE: int := 5000

  /** One author's latest feed entry: `value`, `author` and `madeAt` (in ms). */
  datatype FeedEntry<V> = FeedEntry(value: Option<V>, author: Option<string>, madeAt: int)

  /** A live presence record: the author, its colour and the decoded payload. */
  datatype Presence<P> = Presence(user: string, color: string, payload: P)

  /** `!entry.value` for a string feed: the empty string is falsy. */
  predicate NonEmpty(s: string) {
    s != ""
  }

  /** A feed of structured values: an object is always truthy. */
  predicate Always<V>(v: V) {
    true
  }

  /**
   * The collector's filter: a (truthy) value and an author, not the local
   * user, and an age `now - madeAt` of at most `maxAge` (the source drops
   * only ages strictly greater).
   */
  predicate IsLive<V>(e: FeedEntry<V>, truthy: V -> bool, userId: Option<string>, now: int, maxAge: int) {
    && e.value.Some? && truthy(e.value.value)
    && e.author.Some?
    && Some(e.author.value) != userId
    && now - e.madeAt <= maxAge
  }

  /** The entries the collector keeps, in feed order. */
  function LiveEntries<V>(latest: seq<FeedEntry<V>>, truthy: V -> bool, userId: Option<string>, now: int, maxAge: int)
    : (live: seq<FeedEntry<V>>)
    ensures |live| <= |latest|
    ensures forall i :: 0 <= i < |live| ==> IsLive(live[i], truthy, userId, now, maxAge)
  {
    if latest == [] then []
    else
      var last := latest[|latest| - 1];
      LiveEntries(latest[..|latest| - 1], truthy, userId, now, maxAge)
        + (if IsLive(last, truthy, userId, now, maxAge) then [last] else [])
  }

  /** An entry is collected exactly when it is in the feed and passes the filter. */
  lemma {:induction false} LiveEntriesExactly<V>(latest: seq<FeedEntry<V>>, truthy: V -> bool, userId: Option<string>,
                                                  now: int, maxAge: int, e: FeedEntry<V>)
    ensures e in LiveEntries(latest, truthy, userId, now, maxAge) <==> e in latest && IsLive(e, truthy, userId, now, maxAge)
  {
    if latest != [] {
      LiveEntriesExactly(latest[..|latest| - 1], truthy, userId, now, maxAge, e);
      assert latest == latest[..|latest| - 1] + [latest[|latest| - 1]];
    }
  }

  /** The local user's entry never shows, however recent. */
  lemma SelfNeverCollected<V>(latest: seq<FeedEntry<V>>, truthy: V -> bool, user: string, now: int, maxAge: int)
    ensures forall e :: e in LiveEntries(latest, truthy, Some(user), now, maxAge) ==> e.author != Some(user)
  {
  }

  /**
   * Freshness: an entry with a value, by another author, at most `maxAge`
   * old (or made after `now`) is collected.
   */
  lemma FreshEntryCollected<V>(latest: seq<FeedEntry<V>>, truthy: V -> bool, userId: Option<string>,
                               now: int, maxAge: int, e: FeedEntry<V>)
    requires e in latest
    requires e.value.Some? && truthy(e.value.value) && e.author.Some? && Some(e.author.value) != userId
    requires now - e.madeAt <= maxAge
    ensures e in LiveEntries(latest, truthy, userId, now, maxAge)
  {
    LiveEntriesExactly(latest, truthy, userId, now, maxAge, e);
  }

  /** Staleness: an entry older than `maxAge` is dropped whatever it holds. */
  lemma StaleEntryDropped<V>(latest: seq<FeedEntry<V>>, truthy: V -> bool, userId: Option<string>,
                             now: int, maxAge: int, e: FeedEntry<V>)
    requires now - e.madeAt > maxAge
    ensures e !in LiveEntries(latest, truthy, userId, now, maxAge)
  {
    LiveEntriesExactly(latest, truthy, userId, now, maxAge, e);
  }

  /** A published cursor is never the empty (falsy) string. */
  lemma SerializedCursorNonEmpty(c: CursorPayload)
    ensures NonEmpty(SerializeCursor(c))
  {
    var parts := [NumToString(c.position.x), NumToString(c.position.y), if c.dragging then "1" else "0"];
    assert SerializeCursor(c) == parts[0] + [SEP] + Join(parts[1..], SEP);
  }

  /**
   * End to end: a cursor another user published within the last 10 s is
   * collected, and its entry decodes to exactly the cursor published.
   */
  lemma PublishedCursorCollected(latest: seq<FeedEntry<string>>, c: CursorPayload, author: string,
                                 userId: Option<string>, now: int, madeAt: int)
    requires FeedEntry(Some(SerializeCursor(c)), Some(author), madeAt) in latest
    requires Some(author) != userId && now - madeAt <= CURSOR_MAX_AGE
    ensures var live := LiveEntries(latest, NonEmpty, userId, now, CURSOR_MAX_AGE);
      exists i :: 0 <= i < |live| && live[i].author == Some(author) && live[i].value.Some?
                  && DeserializeCursor(live[i].value.value) == c
  {
    var e := FeedEntry(Some(SerializeCursor(c)), Some(author), madeAt);
    SerializedCursorNonEmpty(c);
    LiveEntriesExactly(latest, NonEmpty, userId, now, CURSOR_MAX_AGE, e);
    CursorRoundTrip(c);
    var live := LiveEntries(latest, NonEmpty, userId, now, CURSOR_MAX_AGE);
    var i :| 0 <= i < |live| && live[i] == e;
  }

  /**
   * The output for `live` given the colours in `colors`: one record per live
   * entry, in order, with the decoded payload.
   */
  ghost predicate Describes<V, P>(out: seq<Presence<P>>, live: seq<FeedEntry<V>>, decode: V -> P, colors: map<string, string>)
  {
    && |out| == |live|
    && forall i :: 0 <= i < |out| ==>
         && live[i].author.Some? && live[i].value.Some?
         && out[i].user == live[i].author.value
         && out[i].payload == decode(live[i].value.value)
         && out[i].user in colors && out[i].color == colors[out[i].user]
  }

  /** Colours that were given stay given, so a description survives a growing colour map. */
  lemma DescribesUnderMoreColors<V, P>(out: seq<Presence<P>>, live: seq<FeedEntry<V>>, decode: V -> P,
                                       colors: map<string, string>, colors': map<string, string>)
    requires Describes(out, live, decode, colors)
    requires forall u :: u in colors ==> u in colors' && colors'[u] == colors[u]
    ensures Describes(out, live, decode, colors')
  {
  }

  /** Collecting one more live entry extends the description by its record. */
  lemma DescribesAppend<V, P>(out: seq<Presence<P>>, live: seq<FeedEntry<V>>, decode: V -> P,
                              colors: map<string, string>, e: FeedEntry<V>)
    requires Describes(out, live, decode, colors)
    requires e.author.Some? && e.value.Some? && e.author.value in colors
    ensures Describes(out + [Presence(e.author.value, colors[e.author.value], decode(e.value.value))], live + [e],
                      decode, colors)
  {
  }

  /** The authors of `entries`, in order (entries without one are skipped). */
  function AuthorsOf<V>(entries: seq<FeedEntry<V>>): (authors: seq<string>)
    ensures |authors| <= |entries|
    ensures (forall i :: 0 <= i < |entries| ==> entries[i].author.Some?) ==>
      |authors| == |entries| && forall i :: 0 <= i < |entries| ==> authors[i] == entries[i].author.value
  {
    if entries == [] then []
    else
      var last := entries[|entries| - 1];
      AuthorsOf(entries[..|entries| - 1]) + (if last.author.Some? then [last.author.value] else [])
  }

  /**
   * The users the round-robin allocator has coloured after collecting
   * `latest`: the earlier ones, then each live author not yet coloured, in
   * feed order.
   */
  ghost function ColouredAfter<V>(order: seq<string>, latest: seq<FeedEntry<V>>, truthy: V -> bool,
                                  userId: Option<string>, now: int, maxAge: int): seq<string>
  {
    if latest == [] then order
    else
      var prev := ColouredAfter(order, latest[..|latest| - 1], truthy, userId, now, maxAge);
      var e := latest[|latest| - 1];
      if IsLive(e, truthy, userId, now, maxAge) && e.author.value !in prev then prev + [e.author.value] else prev
  }

  lemma LiveEntriesStep<V>(latest: seq<FeedEntry<V>>, truthy: V -> bool, userId: Option<string>, now: int, maxAge: int,
                           e: FeedEntry<V>)
    ensures LiveEntries(latest + [e], truthy, userId, now, maxAge)
         == LiveEntries(latest, truthy, userId, now, maxAge) + (if IsLive(e, truthy, userId, now, maxAge) then [e] else [])
  {
    assert (latest + [e])[..|latest|] == latest;
  }

  lemma AuthorsOfStep<V>(entries: seq<FeedEntry<V>>, e: FeedEntry<V>)
    ensures AuthorsOf(entries + [e]) == AuthorsOf(entries) + (if e.author.Some? then [e.author.value] else [])
  {
    assert (entries + [e])[..|entries|] == entries;
  }

  /** A new user is coloured after the known ones exactly when neither list holds it yet. */
  lemma FirstSeenStep(users: seq<string>, u: string, known: seq<string>)
    ensures var prev := known + FirstSeen(users, known);
      known + FirstSeen(users + [u], known) == if u !in prev then prev + [u] else prev
  {
    assert (users + [u])[..|users|] == users;
    var f := FirstSeen(users, known);
    assert u in known + f <==> u in known || u in f;
  }

  /**
   * The allocator colours exactly the live authors it did not know, each
   * once, in the order of their first live entry.
   */
  lemma {:induction false} ColouredAfterIsFirstSeen<V>(order: seq<string>, latest: seq<FeedEntry<V>>, truthy: V -> bool,
                                                       userId: Option<string>, now: int, maxAge: int)
    ensures ColouredAfter(order, latest, truthy, userId, now, maxAge)
         == order + FirstSeen(AuthorsOf(LiveEntries(latest, truthy, userId, now, maxAge)), order)
  {
    if latest != [] {
      var front := latest[..|latest| - 1];
      var e := latest[|latest| - 1];
      assert latest == front + [e];
      ColouredAfterIsFirstSeen(order, front, truthy, userId, now, maxAge);
      var live := LiveEntries(front, truthy, userId, now, maxAge);
      LiveEntriesStep(front, truthy, userId, now, maxAge, e);
      if IsLive(e, truthy, userId, now, maxAge) {
        assert LiveEntries(latest, truthy, userId, now, maxAge) == live + [e];
        AuthorsOfStep(live, e);
        assert AuthorsOf(live + [e]) == AuthorsOf(live) + [e.author.value];
        FirstSeenStep(AuthorsOf(live), e.author.value, order);
      } else {
        assert LiveEntries(latest, truthy, userId, now, maxAge) == live;
      }
    }
  }


  /**
   * After a collection the allocator holds a colour for a user exactly when
   * it held one before or the user wrote a live entry: no other user is
   * coloured.
   */
  lemma ColouredUsers<V>(palette: seq<string>, order: seq<string>, latest: seq<FeedEntry<V>>, truthy: V -> bool,
                         userId: Option<string>, now: int, maxAge: int, colorMap: map<string, string>, u: string)
    requires RoundRobin(palette, ColouredAfter(order, latest, truthy, userId, now, maxAge), colorMap)
    ensures u in colorMap <==> u in order || u in AuthorsOf(LiveEntries(latest, truthy, userId, now, maxAge))
  {
    ColouredAfterIsFirstSeen(order, latest, truthy, userId, now, maxAge);
    var f := FirstSeen(AuthorsOf(LiveEntries(latest, truthy, userId, now, maxAge)), order);
    assert u in order + f <==> u in order || u in f;
  }

  /** One live entry: its author's colour, then its record appended to the output. */
  method Admit<V, P>(alloc: ColorAllocator, out: seq<Presence<P>>, ghost live: seq<FeedEntry<V>>, decode: V -> P,
                     entry: FeedEntry<V>)
    returns (out': seq<Presence<P>>)
    requires alloc.Valid() && Describes(out, live, decode, alloc.colorMap)
    requires entry.author.Some? && entry.value.Some?
    modifies alloc
    ensures alloc.Valid()
    ensures Describes(out', live + [entry], decode, alloc.colorMap)
    ensures forall u :: u in old(alloc.colorMap) ==> u in alloc.colorMap && alloc.colorMap[u] == old(alloc.colorMap[u])
    ensures alloc.order
            == if entry.author.value in old(alloc.order) then old(alloc.order) else old(alloc.order) + [entry.author.value]
  {
    ghost var colors := alloc.colorMap;
    var color := alloc.GetUserColor(entry.author.value);
    DescribesUnderMoreColors(out, live, decode, colors, alloc.colorMap);
    DescribesAppend(out, live, decode, alloc.colorMap, entry);
    out' := out + [Presence(entry.author.value, color, decode(entry.value.value))];
  }

  /** One step of the reduce: `entry` is collected when it is live, and skipped otherwise. */
  method CollectEntry<V, P>(alloc: ColorAllocator, out: seq<Presence<P>>, ghost seen: seq<FeedEntry<V>>,
                            entry: FeedEntry<V>, truthy: V -> bool, decode: V -> P, userId: Option<string>,
                            now: int, maxAge: int, ghost order: seq<string>)
    returns (out': seq<Presence<P>>)
    requires alloc.Valid() && Describes(out, LiveEntries(seen, truthy, userId, now, maxAge), decode, alloc.colorMap)
    requires alloc.order == ColouredAfter(order, seen, truthy, userId, now, maxAge)
    modifies alloc
    ensures alloc.Valid()
    ensures Describes(out', LiveEntries(seen + [entry], truthy, userId, now, maxAge), decode, alloc.colorMap)
    ensures forall u :: u in old(alloc.colorMap) ==> u in alloc.colorMap && alloc.colorMap[u] == old(alloc.colorMap[u])
    ensures alloc.order == ColouredAfter(order, seen + [entry], truthy, userId, now, maxAge)
  {
    assert (seen + [entry])[..|seen|] == seen;
    LiveEntriesStep(seen, truthy, userId, now, maxAge, entry);
    out' := out;
    if entry.value.Some? && truthy(entry.value.value) && entry.author.Some? {
      if Some(entry.author.value) != userId && now - entry.madeAt <= maxAge {
        out' := Admit(alloc, out, LiveEntries(seen, truthy, userId, now, maxAge), decode, entry);
      }
    }
  }

  /**
   * The `reduce` over `Object.values(feed.perAccount)` of the store's
   * `setCursors`/`setConnections` and of the connection context, with the
   * round-robin `getUserColor`.  `latest` is that array, in its order.
   */
  method Collect<V, P>(alloc: ColorAllocator, latest: seq<FeedEntry<V>>, truthy: V -> bool, decode: V -> P,
                       userId: Option<string>, now: int, maxAge: int)
    returns (out: seq<Presence<P>>)
    requires alloc.Valid()
    modifies alloc
    ensures alloc.Valid()
    ensures Describes(out, LiveEntries(latest, truthy, userId, now, maxAge), decode, alloc.colorMap)
    ensures forall u :: u in old(alloc.colorMap) ==> u in alloc.colorMap && alloc.colorMap[u] == old(alloc.colorMap[u])
    ensures alloc.order == ColouredAfter(old(alloc.order), latest, truthy, userId, now, maxAge)
  {
    out := [];
    var i := 0;
    while i < |latest|
      invariant 0 <= i <= |latest|
      invariant alloc.Valid()
      invariant Describes(out, LiveEntries(latest[..i], truthy, userId, now, maxAge), decode, alloc.colorMap)
      invariant forall u :: u in old(alloc.colorMap) ==> u in alloc.colorMap && alloc.colorMap[u] == old(alloc.colorMap[u])
      invariant alloc.order == ColouredAfter(old(alloc.order), latest[..i], truthy, userId, now, maxAge)
    {
      assert latest[..i + 1] == latest[..i] + [latest[i]];
      out := CollectEntry(alloc, out, latest[..i], latest[i], truthy, decode, userId, now, maxAge, old(alloc.order));
      i := i + 1;
    }
    assert latest[..|latest|] == latest;
  }

  /** `setCursors` (cursors.ts:34-68, app-store.tsx:415-449): no feed gives no cursors. */
  method SetCursors(alloc: ColorAllocator, feed: Option<seq<FeedEntry<string>>>, userId: Option<string>, now: int)
    returns (cursors: seq<Presence<CursorPayload>>)
    requires alloc.Valid()
    modifies alloc
    ensures alloc.Valid()
    ensures feed.None? ==> cursors == [] && alloc.colorMap == old(alloc.colorMap) && alloc.order == old(alloc.order)
    ensures feed.Some? ==>
      && Describes(cursors, LiveEntries(feed.value, NonEmpty, userId, now, CURSOR_MAX_AGE), DeserializeCursor, alloc.colorMap)
      && alloc.order == ColouredAfter(old(alloc.order), feed.value, NonEmpty, userId, now, CURSOR_MAX_AGE)
    ensures forall u :: u in old(alloc.colorMap) ==> u in alloc.colorMap && alloc.colorMap[u] == old(alloc.colorMap[u])
  {
    if feed.None? {
      return [];
    }
    cursors := Collect(alloc, feed.value, NonEmpty, DeserializeCursor, userId, now, CURSOR_MAX_AGE);
  }

  /** `setConnections` (connections.ts:53-95, app-store.tsx:457-499): no feed gives no connections. */
  method SetConnections(alloc: ColorAllocator, feed: Option<seq<FeedEntry<string>>>, userId: Option<string>, now: int)
    returns (connections: seq<Presence<Connection>>)
    requires alloc.Valid()
    modifies alloc
    ensures alloc.Valid()
    ensures feed.None? ==> connections == [] && alloc.colorMap == old(alloc.colorMap) && alloc.order == old(alloc.order)
    ensures feed.Some? ==>
      && Describes(connections, LiveEntries(feed.value, NonEmpty, userId, now, CONNECTION_MAX_AGE), DeserializeConnection,
                   alloc.colorMap)
      && alloc.order == ColouredAfter(old(alloc.order), feed.value, NonEmpty, userId, now, CONNECTION_MAX_AGE)
    ensures forall u :: u in old(alloc.colorMap) ==> u in alloc.colorMap && alloc.colorMap[u] == old(alloc.colorMap[u])
  {
    if feed.None? {
      return [];
    }
    connections := Collect(alloc, feed.value, NonEmpty, DeserializeConnection, userId, now, CONNECTION_MAX_AGE);
  }

  /** The connection context stores structured values and copies their fields (no codec). */
  function CopyConnection(c: Connection): Connection {
    c
  }

  /** The connection context's collector (connections-context.tsx:56-92): structured values, no decoding. */
  method ContextConnections(alloc: ColorAllocator, feed: Option<seq<FeedEntry<Connection>>>, userId: Option<string>,
                            now: int)
    returns (connections: seq<Presence<Connection>>)
    requires alloc.Valid()
    modifies alloc
    ensures alloc.Valid()
    ensures feed.None? ==> connections == [] && alloc.colorMap == old(alloc.colorMap) && alloc.order == old(alloc.order)
    ensures feed.Some? ==>
      && Describes(connections, LiveEntries(feed.value, Always, userId, now, CONNECTION_MAX_AGE), CopyConnection,
                   alloc.colorMap)
      && alloc.order == ColouredAfter(old(alloc.order), feed.value, Always, userId, now, CONNECTION_MAX_AGE)
    ensures forall u :: u in old(alloc.colorMap) ==> u in alloc.colorMap && alloc.colorMap[u] == old(alloc.colorMap[u])
  {
    if feed.None? {
      return [];
    }
    connections := Collect(alloc, feed.value, Always, CopyConnection, userId, now, CONNECTION_MAX_AGE);
  }

  /** The cursor payload as the cursor context stores it, structured. */
  datatype CursorValue = CursorValue(x: int, y: int, dragging: bool)

  /**
   * The cursor context's collector (cursors-context.tsx:60-94): the same
   * filter with a 10 s window, a random but memoised colour per author.
   */
  method ContextCursors(memo: RandomColorMemo, feed: Option<seq<FeedEntry<CursorValue>>>, userId: Option<string>,
                        now: int)
    returns (cursors: seq<Presence<CursorValue>>)
    requires memo.Valid()
    modifies memo
    ensures memo.Valid()
    ensures feed.None? ==> cursors == [] && memo.colorMap == old(memo.colorMap)
    ensures feed.Some? ==>
      Describes(cursors, LiveEntries(feed.value, Always, userId, now, CURSOR_MAX_AGE), (v: CursorValue) => v,
                memo.colorMap)
    ensures forall i :: 0 <= i < |cursors| ==> cursors[i].color in memo.palette
    ensures forall u :: u in old(memo.colorMap) ==> u in memo.colorMap && memo.colorMap[u] == old(memo.colorMap[u])
  {
    if feed.None? {
      return [];
    }
    var latest := feed.value;
    cursors := [];
    var i := 0;
    while i < |latest|
      invariant 0 <= i <= |latest|
      invariant memo.Valid()
      invariant Describes(cursors, LiveEntries(latest[..i], Always, userId, now, CURSOR_MAX_AGE), (v: CursorValue) => v,
                          memo.colorMap)
      invariant forall u :: u in old(memo.colorMap) ==> u in memo.colorMap && memo.colorMap[u] == old(memo.colorMap[u])
    {
      var entry := latest[i];
      assert latest[..i + 1] == latest[..i] + [entry];
      assert latest[..i + 1][..i] == latest[..i];
      ghost var live := LiveEntries(latest[..i], Always, userId, now, CURSOR_MAX_AGE);
      if entry.value.Some? && entry.author.Some? {
        if Some(entry.author.value) != userId && now - entry.madeAt <= CURSOR_MAX_AGE {
          ghost var colors := memo.colorMap;
          var color := memo.ColorOf(entry.author.value);
          DescribesUnderMoreColors(cursors, live, (v: CursorValue) => v, colors, memo.colorMap);
          DescribesAppend(cursors, live, (v: CursorValue) => v, memo.colorMap, entry);
          cursors := cursors + [Presence(entry.author.value, color, entry.value.value)];
        }
      }
      i := i + 1;
    }
    assert latest[..|latest|] == latest;
  }

  /** The local user's own stream in a feed: what this session has appended. */
  class FeedStream<V> {
    var appended: seq<V>

    constructor ()
      ensures appended == []
    {
      appended := [];
    }

    method Push(v: V)
      modifies this
      ensures appended == old(appended) + [v]
    {
      appended := appended + [v];
    }
  }

  /** `updateCursor` (cursors.ts:69-75): one serialised entry, nothing without a feed. */
  method UpdateCursor(feed: FeedStream?<string>, cursor: CursorPayload)
    modifies feed
    ensures feed != null ==> feed.appended == old(feed.appended) + [SerializeCursor(cursor)]
  {
    if feed == null {
      return;
    }
    feed.Push(SerializeCursor(cursor));
  }

  /** `updateConnection` (connections.ts:96-113): the connection, or the clearing sentinel. */
  method UpdateConnection(feed: FeedStream?<string>, connection: Option<Connection>)
    modifies feed
    ensures feed != null ==>
      feed.appended == old(feed.appended) + [SerializeConnection(connection.GetOr(CLEARING_SENTINEL))]
  {
    if feed == null {
      return;
    }
    if connection.Some? {
      feed.Push(SerializeConnection(connection.value));
    } else {
      feed.Push(SerializeConnection(CLEARING_SENTINEL));
    }
  }

  /** The context's `updateConnection` (connections-context.tsx:94-121) appends the structured value. */
  method UpdateConnectionValue(feed: FeedStream?<Connection>, connection: Option<Connection>)
    modifies feed
    ensures feed != null ==> feed.appended == old(feed.appended) + [connection.GetOr(CLEARING_SENTINEL)]
  {
    if feed == null {
      return;
    }
    feed.Push(connection.GetOr(CLEARING_SENTINEL));
  }

  /** The context's `updateCursor` (cursors-context.tsx:96-112) appends the structured value. */
  method UpdateCursorValue(feed: FeedStream?<CursorValue>, x: int, y: int, dragging: bool)
    modifies feed
    ensures feed != null ==> feed.appended == old(feed.appended) + [CursorValue(x, y, dragging)]
  {
    if feed == null {
      return;
    }
    feed.Push(CursorValue(x, y, dragging));
  }
}
