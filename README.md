# xyflow multiplayer: the Jazz ↔ React Flow core, modelled in Dafny

The multiplayer example keeps a flow (a graph of nodes and edges) in a shared
Jazz document and renders it with React Flow. Several iterations of the same
state layer exist side by side: a single zustand store (`app-store.tsx`), a store
split into slices (`app-store.ts`, `flow.ts`, `cursors.ts`, `connections.ts`),
a vanilla store per flow (`flow-store.ts`), a plain React provider (`provider.tsx`)
and split React contexts (`app-context.tsx`, `flow-context.tsx`,
`cursors-context.tsx`, `connections-context.tsx`). This project models their
common core and proves properties of it:

- **Projection cache** (`Projection`): `deriveArray` turns the shared records into
  the view items React Flow renders. It reuses the cached item when the record
  is the very same reference, and otherwise rebuilds the item: the record's fields
  over the old item's local properties (`selected`, `measured`). It then purges
  the cache entries of records that are gone. Records are Dafny objects, so
  "the same reference" is reference equality. `ProjectionCache` is the mutable
  `Map`, and `Walk`/`Derived` are the functions that specify it.
- **Change-batch reducer** (`Reducer`, `ReducerProperties`): `onNodesChange` and
  `onEdgesChange` apply a batch left to right. `select` and `dimensions` replace
  the cached item only. `position` writes the shared record in place. `remove`
  drops the cache entry and splices the first record with that id out of the
  shared list. Any change whose id is not cached is skipped, and so is any other
  change kind.
- **Edits** (`Editing`): `addNode`, `addEdge`, `onConnect` and `updateNodeData` on
  the shared lists.
- **Stores** (`Stores`): each iteration's wiring of projection, reducer and
  edits. This covers the zustand flow slice with its re-projection after a
  re-measure, the per-flow store, the flow context, and the provider, whose
  projection never purges.
- **Presence wire format** (`Text`, `PresenceCodec`): cursors and in-progress
  connections are published as `/`-joined strings. The model includes
  JavaScript's `split`/`join`, `${number}` and `Number(s)` for optionally
  signed integers and NaN.
- **Presence collection** (`Presence`): the reducer over the latest entry of
  every account's feed. It keeps other users' truthy entries no older than
  10 s (cursors) or 5 s (connections). Each is decoded and coloured.
- **Colours** (`Colors`): the memoised round-robin palette allocator and the
  cursor context's random-but-stable colour.
- **Throttle** (`Throttle`): the trailing-edge `useThrottle` hook that rate-limits
  publishing. The clock and the timer are inputs.
- **Flow lifecycle** (`Lifecycle`): create, join (with its three outcomes and the
  loading flag), exit, and the derived `activeFlowId`.

All files are verified together. Each module is one `.dfy` file, and
`wrappers.dfy` holds the `Option` type.

Some functions only encode a JavaScript expression, and they have no row of
their own. What they compute is stated in the rows of the members that use them:

- `Wrappers.OrDefault` is `s || d` for an optional string.
- `Wrappers.NonEmptyOrAbsent` is `s || undefined` for an optional string, used
  for handles and for the optional segments of the connection codec.
- `Projection.ItemFor` is the item of one `deriveArray` step: the cached item or
  `{ ...cached?.item, ...record, id }`.
- `Lifecycle.DerivedActiveFlowId` is app-context.tsx's
  `root?.activeFlow?.id || null || undefined`. How each lifecycle step changes it
  is stated on `Lifecycle.Session`.

## Model

| member | source | states |
|---|---|---|
| Text.Split | src/state/jazz/cursors.ts:13-19 | `split` always yields at least one part, and no part contains the separator |
| Text.NumRoundTrip | src/state/jazz/cursors.ts:7-19 | `Number(\`${x}\`)` gives back every integer and NaN |
| Text.NumToString | src/state/jazz/cursors.ts:7-11 | a printed number is "NaN" exactly for NaN, and otherwise a minus sign exactly for negatives followed by decimal digits; it never contains `/` |
| Text.ParseNumber | src/state/jazz/cursors.ts:13-19 | `Number(s)` is 0 for the empty string and a non-negative number for a run of digits, and a signed run of digits is a number; any number read comes from a string whose characters after the first are all digits, and a negative one from a leading `-` |
| Text.PlusSign | src/state/jazz/cursors.ts:13-19 | a leading `+` is accepted and does not change the value |
| Text.DecimalRoundTrip | src/state/jazz/cursors.ts:7-19 | reading back the decimal digits of a natural number gives the number |
| Text.SplitJoin | src/state/jazz/connections.ts:6-34 | splitting a join gives the parts back when no part contains the separator |
| Text.SplitAtFirstSeparator | src/state/jazz/connections.ts:14-24 | splitting at the first separator yields the separator-free head, then the split of the rest |
| Text.SplitWithoutSeparator | src/state/jazz/cursors.ts:13-14 | a string without the separator splits into itself alone |
| PresenceCodec.SerializeCursor | src/state/jazz/cursors.ts:7-11 | a cursor is written as exactly three segments, the last being "1" exactly when the user is dragging |
| PresenceCodec.DeserializeCursor | src/state/jazz/cursors.ts:13-19 | a value with fewer than two segments has a NaN y, and one with fewer than three is never dragging |
| PresenceCodec.SerializeConnection | src/state/jazz/connections.ts:6-12 | a connection whose fields are wire-safe is written as exactly eight segments, its source first |
| PresenceCodec.DeserializeConnection | src/state/jazz/connections.ts:14-34 | whatever the input, the result is wire-safe: no field holds `/`, and every present optional field is non-empty |
| PresenceCodec.CursorRoundTrip | src/state/jazz/cursors.ts:7-19 | a cursor decodes to itself after encoding, NaN coordinates included, and its wire form has exactly three segments |
| PresenceCodec.DraggingFlag | src/state/jazz/cursors.ts:13-19 | only a third segment equal to "1" reads as dragging, and the position is read back unchanged |
| PresenceCodec.TruncatedCursor | src/state/jazz/cursors.ts:13-19 | a value without `/` is read as the x coordinate alone, with a NaN y and not dragging |
| PresenceCodec.ConnectionRoundTrip | src/state/jazz/connections.ts:6-34 | a connection whose fields hold no `/` and whose present optional fields are non-empty decodes to itself, and its wire form has eight segments |
| PresenceCodec.DecodeReencode | src/state/jazz/connections.ts:6-34 | re-encoding a decoded connection and decoding it again gives the same connection |
| PresenceCodec.TruncatedConnection | src/state/jazz/connections.ts:14-34 | a value without `/` is read as the source alone, with every optional field absent and a NaN position |
| PresenceCodec.EmptyOptionalIsAbsent | src/state/jazz/connections.ts:6-12 | an optional field that is present but empty is encoded exactly like an absent one |
| PresenceCodec.ClearingSentinelDecodes | src/state/jazz/connections.ts:96-113 | the clearing entry decodes to an empty source, sourceType "source", every optional field absent, at (0,0) |
| Colors.SlotsCycle | src/state/jazz/app-store.tsx:153-158 | eight users in a row get eight different palette slots, and the slot sequence repeats every eight users |
| Colors.RoundRobinCycle | src/state/jazz/app-store.tsx:153-158 | in an allocator's colour map, users fewer than eight apart in first-seen order have different colours, and users exactly eight apart share one (both palettes have eight distinct colours) |
| Colors.RoundRobinDetermined | src/state/jazz/app-store.tsx:178-183 | the colour map is determined by the order in which users were first seen: two maps consistent with the same order are equal |
| Colors.FirstSeen | src/state/jazz/app-store.tsx:178-183 | the users of a list not already known, each once: everyone listed is either known or in the result, and nothing else is |
| Colors.ColorAllocator.NextColor | src/state/jazz/app-store.tsx:153-158 | the index advances by one and wraps to 0 at the end of the palette, and the colour is the palette entry at the new index |
| Colors.ColorAllocator.GetUserColor | src/state/jazz/app-store.tsx:178-183 | a known user keeps their colour and nothing changes; a new user is the (n+1)-th distinct user and gets palette slot (n+1) mod 8, memoised; the k-th user always holds slot k mod 8 (invariant) |
| Colors.RoundRobinExtends | src/state/jazz/app-store.tsx:178-183 | giving a new user the next slot keeps every earlier user's colour, so the k-th user keeps slot k mod 8 |
| Colors.RandomColorMemo.ColorOf | src/state/jazz/cursors-context.tsx:77-82 | a user's colour is some palette colour, picked once and then kept |
| Presence.LiveEntries | src/state/jazz/cursors.ts:34-68 | every collected entry has a truthy value and an author, is not the local user's, and is no older than the maximum age |
| Presence.LiveEntriesExactly | src/state/jazz/cursors.ts:34-68 | an entry is collected if and only if it is in the feed and passes all four tests |
| Presence.SelfNeverCollected | src/state/jazz/cursors.ts:50-52 | the local user's own entries are never collected |
| Presence.FreshEntryCollected | src/state/jazz/cursors.ts:46-52 | another user's truthy entry made at most `maxAge` ms ago is collected |
| Presence.StaleEntryDropped | src/state/jazz/cursors.ts:42-50 | an entry older than `maxAge` ms is never collected |
| Presence.SerializedCursorNonEmpty | src/state/jazz/cursors.ts:7-11 | an encoded cursor is never the empty (falsy) string |
| Presence.PublishedCursorCollected | src/state/jazz/cursors.ts:34-68 | a cursor another user published at most 10 s ago is collected under that user and decodes to exactly the cursor published |
| Presence.Collect | src/state/jazz/app-store.tsx:415-449 | the output lists the live entries in feed order, each with its author, its decoded payload and that author's allocated colour; colours already given do not change; the allocator's first-seen order becomes the old order followed by each live author not yet coloured, in feed order, so (by `RoundRobinDetermined`) its whole colour map is fixed |
| Presence.CollectEntry | src/state/jazz/cursors.ts:45-62 | one step of the reduce: a live entry is appended with its author's colour and colours its author if new; any other entry changes neither the output nor the allocator |
| Presence.ColouredAfterIsFirstSeen | src/state/jazz/cursors.ts:45-62 | the users the collector colours are the known ones followed by `FirstSeen` of the live entries' authors |
| Presence.ColouredUsers | src/state/jazz/cursors.ts:45-62 | after a collection a user holds a colour exactly when they held one before or wrote a live entry; no other user is coloured |
| Presence.SetCursors | src/state/jazz/cursors.ts:34-68 | no feed gives no cursors and leaves the allocator as it was; otherwise the cursors are the live entries over the feed with the 10 s maximum age, decoded by `deserializeCursor`, and the allocator colours exactly the new live authors in feed order, keeping earlier colours |
| Presence.SetConnections | src/state/jazz/connections.ts:53-95 | no feed gives no connections and leaves the allocator as it was; otherwise the connections are the live entries over the feed with the 5 s maximum age, decoded by `deserializeConnection`, and the allocator colours exactly the new live authors in feed order, keeping earlier colours |
| Presence.ContextConnections | src/state/jazz/connections-context.tsx:56-92 | the context's collector gives the live structured connections of other users, copied, with allocated colours; no feed leaves the allocator as it was, otherwise it colours exactly the new live authors in feed order and keeps earlier colours |
| Presence.ContextCursors | src/state/jazz/cursors-context.tsx:60-94 | the context's collector gives the live cursors of other users, each with a palette colour that stays stable per user |
| Presence.UpdateCursor | src/state/jazz/cursors.ts:69-75 | publishing appends exactly the encoded cursor to the user's stream, and nothing happens without a feed |
| Presence.UpdateConnection | src/state/jazz/connections.ts:96-113 | publishing appends the encoded connection, or the encoded clearing sentinel when there is none |
| Presence.UpdateConnectionValue | src/state/jazz/connections-context.tsx:94-121 | the context appends the structured connection, or the clearing sentinel |
| Presence.UpdateCursorValue | src/state/jazz/cursors-context.tsx:96-112 | the context appends the structured cursor |
| Throttle.SpacedSpan | src/lib/useThrottle.ts:24-57 | with consecutive publishes at least `delay` apart, publishes i..j span at least (j-i)·delay |
| Throttle.WindowBound | src/lib/useThrottle.ts:24-57 | publishes inside a window of w ms number at most w/delay + 1 |
| Throttle.Throttle.Call | src/lib/useThrottle.ts:24-57 | a call at least `delay` after the last publish publishes at once with its arguments and disarms the timer; an earlier call publishes nothing and arms the timer for lastUpdateTime + delay; either way the latest arguments are kept and publishes stay `delay` apart |
| Throttle.Throttle.Fire | src/lib/useThrottle.ts:47-53 | the due timer publishes the latest arguments at the firing time and disarms |
| Throttle.Throttle.Dispose | src/lib/useThrottle.ts:60-67 | unmounting drops the pending call and publishes nothing |
| Throttle.Burst | src/lib/useThrottle.ts:41-53 | a burst of calls inside one delay period publishes exactly once, with the last call's arguments |
| Projection.WalkShape | src/state/jazz/app-store.tsx:85-96 | the pass yields one item per record with that record's id, keeps the cache coherent, files every record's id and leaves other entries alone |
| Projection.WalkItemIds | src/state/jazz/app-store.tsx:85-96 | the pass yields exactly one item per record, carrying that record's id |
| Projection.WalkKeys | src/state/jazz/app-store.tsx:85-96 | the pass keeps the cache coherent and adds exactly the snapshot's ids to its keys |
| Projection.WalkLeavesOthers | src/state/jazz/app-store.tsx:85-96 | an id the snapshot does not hold keeps its entry through the pass |
| Projection.WalkFilesFromSnapshot | src/state/jazz/app-store.tsx:93-94 | every entry under a snapshot id holds a record of the snapshot after the pass |
| Projection.WalkAt | src/state/jazz/app-store.tsx:85-96 | the i-th item is the item for the i-th record against the cache left by the first i records |
| Projection.WalkLength | src/state/jazz/app-store.tsx:85 | the pass yields exactly one item per record |
| Projection.FrontUnvisited | src/state/jazz/app-store.tsx:85-96 | with distinct ids, the i-th record sees exactly the original cache entry for its id |
| Projection.ReuseUnchangedRecord | src/state/jazz/app-store.tsx:88-91 | a record that is the very reference cached gets the cached item back, unchanged |
| Projection.RebuildChangedRecord | src/state/jazz/app-store.tsx:93-94 | a new or replaced record gets an item made of its own id and fields plus the old item's `selected`/`measured` |
| Projection.DerivedKeys | src/state/jazz/app-store.tsx:80-103 | after `deriveArray` the cache holds exactly the ids of the current records, stays coherent, and item i has record i's id |
| Projection.WalkNeverShrinks | src/state/jazz/provider.tsx:61-84 | the provider's pass (no purge) never drops a cache entry |
| Projection.WalkFilesRecords | src/state/jazz/app-store.tsx:93-94 | after the pass every current record is cached under its id as the very same reference |
| Projection.DeriveIdempotent | src/state/jazz/app-store.tsx:80-103 | deriving twice from the same records equals deriving once: same cache, same items |
| Projection.RebuildOrReuse | src/state/jazz/app-store.tsx:88-95 | every derived item is the item the new cache holds for that record's id |
| Projection.ItemFiledAt | src/state/jazz/app-store.tsx:94 | the entry for record i is the one filed when record i was visited |
| Projection.WalkReusesAll | src/state/jazz/app-store.tsx:88-91 | when every record is the cached reference, the pass changes nothing and returns the cached items |
| Projection.ReuseKeepsEntry | src/state/jazz/app-store.tsx:88-91 | a record that is the cached reference keeps exactly its old cache entry through `deriveArray`: reuse writes nothing |
| Projection.IdentityAcrossSnapshots | src/state/jazz/app-store.tsx:80-103 | a record present in two successive snapshots, at any positions, gets the very same item from both projections |
| Projection.ProjectionCache.Refresh | src/state/jazz/provider.tsx:61-84 | the cache and the items are exactly those of the projection pass from the old cache |
| Projection.ProjectionCache.Derive | src/state/jazz/app-store.tsx:80-103 | the cache and the items are exactly `Derived` from the old cache, and the cache holds exactly the current ids |
| Reducer.IndexOf | src/state/jazz/app-store.tsx:244-246 | `findIndex` is -1 exactly when no record has the id; otherwise it is the first position holding it |
| Reducer.Splice | src/state/jazz/app-store.tsx:247-249 | `splice(i, 1)` keeps the elements before i, shifts the rest down by one and is one shorter |
| Reducer.FindIndex | src/state/jazz/app-store.tsx:244-246 | the loop finds exactly `IndexOf` |
| Reducer.RemoveChange | src/state/jazz/app-store.tsx:242-251 | `remove` leaves the cache and the list exactly as `SharedStep` says |
| Reducer.SelectChange | src/state/jazz/app-store.tsx:235-240 | `select` leaves the cache exactly as `SharedStep` says |
| Reducer.NodeChange | src/state/jazz/app-store.tsx:214-252 | one change leaves the cache, the list, the records' fields and the re-measure flag exactly as `NodeStep` says |
| Reducer.ApplyNodeChanges | src/state/jazz/app-store.tsx:206-253 | the batch leaves the cache, the list and every cached record's fields exactly as `ReduceNodes` says |
| Reducer.ApplyEdgeChanges | src/state/jazz/app-store.tsx:261-288 | the batch leaves the cache and the list exactly as `ReduceEdges` says |
| ReducerProperties.LocalChangesKeepShared | src/state/jazz/app-store.tsx:216-240 | `select` and `dimensions` never touch the shared list or any record, and keep every id filed under the same record |
| ReducerProperties.MovesWriteOnlyPositions | src/state/jazz/app-store.tsx:227-233 | `position` changes leave the cache and the list alone and change no record's type or data |
| ReducerProperties.MoveSetsPosition | src/state/jazz/app-store.tsx:227-233 | a move of a cached node writes exactly that position into its record |
| ReducerProperties.UnknownChangesSkipped | src/state/jazz/app-store.tsx:217-237 | changes to ids that are not cached, and moves without a position, change nothing |
| ReducerProperties.RemoveEffect | src/state/jazz/app-store.tsx:242-251 | `remove` drops the id from the cache, shortens the list by one exactly when the id is in it, and with distinct ids leaves no record with that id |
| ReducerProperties.RemoveIdempotent | src/state/jazz/app-store.tsx:242-251 | removing an id twice equals removing it once |
| ReducerProperties.EdgeBatchShrinks | src/state/jazz/app-store.tsx:261-288 | an edge batch only removes cache entries and records, and never adds or re-files one |
| ReducerProperties.ResizeThenDerive | src/state/jazz/app-store.tsx:216-225 | after a re-measure of an unchanged record, re-deriving yields the cached item with the new `measured` |
| Editing.MergeData | src/state/jazz/app-store.tsx:349 | `{...old, ...newData}` has both key sets; new keys win and other old keys stay |
| Editing.NewNodeFields | src/state/jazz/app-store.tsx:313-320 | an added node has its type or the default, its position, and its data or the "New Node" label |
| Editing.NewEdgeFields | src/state/jazz/app-store.tsx:329-338 | an added edge has its type or "default", its endpoints, and its handles either as given or with empty ones made absent |
| Editing.AddNode | src/state/jazz/app-store.tsx:307-322 | exactly one fresh record with those fields is appended |
| Editing.AddEdge | src/state/jazz/app-store.tsx:323-341 | exactly one fresh record with those fields is appended |
| Editing.Connect | src/state/jazz/app-store.tsx:289-306 | without a source or a target nothing changes; otherwise one fresh "default" edge with empty handles made absent is appended |
| Editing.UpdateNodeData | src/state/jazz/app-store.tsx:342-351 | the first record with the id gets the merged data and keeps its other fields; no other record changes, and an unknown id changes nothing |
| Editing.UpdateNodeDataSyncing | src/state/jazz/flow-context.tsx:256-273 | as `UpdateNodeData`, and the cached item of that id, if any, gets the merged data |
| Lifecycle.Session.SetRoot | src/state/jazz/app-store.tsx:184-186 | the root is replaced at any time, even while a join is loading, and nothing else changes |
| Lifecycle.Session.BeginJoin | src/state/jazz/app-store.tsx:385-390 | an empty id or no root gives false and changes nothing; otherwise loading starts, the error is cleared and the current root is the one the load will write to |
| Lifecycle.Session.ResolveJoin | src/state/jazz/app-store.tsx:391-408 | not found sets "Invalid flow code" and a throw sets "Failed to join flow", both keeping the active flow and the derived `activeFlowId`; success makes the flow active in the root read when the join started, clears the error and, for a non-empty id, makes the derived `activeFlowId` that id; loading ends in every case |
| Lifecycle.Session.JoinFlow | src/state/jazz/app-store.tsx:385-409 | the whole join: true exactly when the flow loads, with the errors and the active flow as in `ResolveJoin`; the derived `activeFlowId` becomes the joined flow's id, or is unchanged when the join fails |
| Lifecycle.Session.ExitFlow | src/state/jazz/app-store.tsx:410-414 | with a root, no flow is active afterwards, and the derived `activeFlowId` is absent |
| Lifecycle.Session.ExitFlowClearingId | src/state/jazz/app-store.ts:127-132 | with a root, no flow is active and both the stored and the derived `activeFlowId` are absent; without one nothing changes |
| Lifecycle.Session.CreateFlow | src/state/jazz/app-store.tsx:352-384 | with a root, a fresh empty flow named "New Flow" becomes active and the derived `activeFlowId` is its id (absent for an empty id); without one nothing happens |
| Stores.ProjectFlow | src/state/jazz/flow.ts:75-93 | both lists are derived through their caches, which afterwards hold exactly the current ids |
| Stores.FlowSlice.SetJazzFlow | src/state/jazz/flow.ts:75-93 | no flow empties the arrays and keeps the caches; a flow becomes current and both arrays are `deriveArray` of its lists |
| Stores.FlowSlice.OnNodesChange | src/state/jazz/flow.ts:94-148 | without a flow nothing changes, no record included; otherwise the batch acts as `ReduceNodes` on the cache, the list and the records; without a re-measure the arrays, the edge cache and `activeFlowId` stay as they were, and after one both arrays are re-derived from the updated caches |
| Stores.FlowSlice.OnEdgesChange | src/state/jazz/flow.ts:149-176 | without a flow nothing changes; otherwise the batch acts as `ReduceEdges` |
| Stores.FlowSlice.OnConnect | src/state/jazz/flow.ts:177-194 | as `Editing.Connect` on the current flow's edges: one fresh edge with the given id, or nothing without a source or a target; nothing without a flow |
| Stores.FlowSlice.AddNode | src/state/jazz/flow.ts:195-210 | one fresh node with the given id, whose type defaults to "text", is appended to the current flow |
| Stores.FlowSlice.AddEdge | src/state/jazz/flow.ts:211-229 | one fresh edge with the given id and empty handles made absent is appended to the current flow |
| Stores.FlowSlice.UpdateNodeData | src/state/jazz/flow.ts:230-239 | the current flow's node with that id gets the merged data and keeps its other fields; no other record changes |
| Stores.FlowStore.Snapshot | src/state/jazz/flow-store.ts:61-73 | the store keeps the flow and the `deriveArray` projection of both lists |
| Stores.FlowStore.OnNodesChange | src/state/jazz/flow-store.ts:81-135 | before the first snapshot nothing changes, no record included; otherwise the batch acts as `ReduceNodes` on the cache, the list and the records, and nothing is re-derived |
| Stores.FlowStore.OnEdgesChange | src/state/jazz/flow-store.ts:136-164 | the batch acts as `ReduceEdges` |
| Stores.FlowStore.AddNode | src/state/jazz/flow-store.ts:182-195 | one fresh node with the given id, whose type defaults to "default", is appended |
| Stores.FlowStore.AddEdge | src/state/jazz/flow-store.ts:196-211 | one fresh edge with the given id is appended with its handles as given |
| Stores.FlowStore.UpdateNodeData | src/state/jazz/flow-store.ts:212-219 | the node with that id gets the merged data and keeps its other fields; no other record changes |
| Stores.FlowContext.Project | src/state/jazz/flow-context.tsx:53-105 | no active id or a flow still loading gives `undefined`; an unavailable flow gives `null`; a loaded flow gives its id, its name and both derived lists |
| Stores.FlowContext.OnNodesChange | src/state/jazz/flow-context.tsx:108-153 | without a flow nothing changes, no record included; otherwise the batch acts as `ReduceNodes` on the cache, the list and the records |
| Stores.FlowContext.OnEdgesChange | src/state/jazz/flow-context.tsx:155-185 | without a flow nothing changes; otherwise the batch acts as `ReduceEdges` |
| Stores.FlowContext.UpdateNodeData | src/state/jazz/flow-context.tsx:256-273 | the node with that id gets the merged data and keeps its other fields, and its cached item, if any, gets the same data; no other record and no other cache entry changes, and an unknown id changes nothing |
| Stores.CollaborationProvider.CurrentFlow | src/state/jazz/provider.tsx:55-103 | null without an active flow; otherwise both lists go through the pass without a purge |
| Stores.CollaborationProvider.OnNodesChange | src/state/jazz/provider.tsx:106-151 | without an active flow nothing changes, no record included; otherwise the batch acts as `ReduceNodes` on the cache, the list and the records |
| Stores.CollaborationProvider.OnEdgesChange | src/state/jazz/provider.tsx:153-183 | without an active flow nothing changes; otherwise the batch acts as `ReduceEdges` |

Where the iterations differ, the model follows each one's code:

- The provider never purges its caches, so `CurrentFlow` uses `Walk`, which can only
  grow the cache (`WalkNeverShrinks`).
- `addNode` defaults the type to "text" in the slice store and to "default" in the
  per-flow store, the context and the provider.
- Every `onConnect` turns empty handles into absent ones. `addEdge` does so in
  app-store.tsx and flow.ts, and stores the handles as given in flow-store.ts,
  flow-context.tsx and provider.tsx.
- Only flow-context.tsx's `updateNodeData` also updates the cached item.
- Only app-store.ts's `exitFlow` clears `activeFlowId`.
- app-context.tsx derives `activeFlowId` from the root instead of storing it.
- The two round-robin palettes hold the same eight colours in different orders
  (`STORE_PALETTE`, `SLICE_PALETTE`).

`onConnect` is the same in every iteration once a flow is present. So are the
codecs, which are copied verbatim into app-store.tsx (lines 105-147).

## Left out

- The Jazz engine: loading, subscriptions, `Group` permissions, the schema classes
  and the synchronisation between peers. A shared list is a sequence of records,
  and loading a flow is an input (`LoadOutcome`).
- A record written in place is assumed to stay the same reference until Jazz
  re-emits it. In the model a moved node's record is the same object, so its
  cached item is reused until a re-measure or a new snapshot replaces it.
- React and zustand wiring: re-renders, `useMemo`/`useCallback` dependencies, the
  `new Map(cache)` copies that exist only to trigger renders, and the UI
  components (nodes, edges, context menus, cursor smoothing, the connection
  edge's geometry).
- `Date.now()`, `setTimeout` and `clearTimeout` are parameters: `now` and the
  explicit `Fire`. A timer firing before it is due is excluded by `Fire`'s
  precondition.
- `Math.random()` in the cursor context is an arbitrary choice of palette slot.
- JavaScript numbers beyond integers and NaN (fractions, exponents, Infinity,
  -0) are not modelled.
- Text.ParseNumber: reads `0x`, `0b` and `0o` prefixed strings (`Number("0x1A")`
  is 26), strings with surrounding whitespace, fractions, exponents and
  "Infinity" as NaN, where JavaScript reads them as numbers.
- Text.NumToString: prints every digit of an integer, where JavaScript switches
  to exponent form from 1e21 on and cannot hold integers beyond 2^53 exactly.
- PresenceCodec.DeserializeConnection: for a value without any `/`, the model gives
  `sourceType` "" where JavaScript gives `undefined`. The declared type has no
  absent `sourceType`.
- The feed's `perAccount` object is given as the sequence `Object.values` would
  enumerate. Iteration order and entry ids are not modelled.
- Overlapping `joinFlow` calls (a second join while one is loading) are excluded
  by `BeginJoin`'s precondition.
- flow-store.ts sets `includesDimensionChange` (line 89) and reads it only to
  reach an empty branch (lines 132-134). flow-context.tsx keeps no such flag. So
  `FlowStore.OnNodesChange` and `FlowContext.OnNodesChange` drop the re-measure
  flag that `ApplyNodeChanges` returns.
- `createFlow` of provider.tsx and app-context.tsx, and the `joinFlow` variants that
  use a flow code, are covered by `Lifecycle.Session`. Their extra `console`
  logging and the creation of the empty cursor and connection containers are not
  modelled.
- Change kinds other than `select`, `dimensions`, `position` and `remove` are
  `Other` and are ignored, as in the source.
