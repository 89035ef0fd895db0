/**
 * The iterations of the state layer, each wiring the projection cache, the
 * reducer and the edits to its own notion of "the current flow":
 *  - `FlowSlice`: the zustand store of app-store.tsx and its flow slice in
 *    flow.ts, which re-derives after a re-measure;
 *  - `FlowStore`: the per-flow store of flow-store.ts, fed by snapshots;
 *  - `FlowContext`: the React context of flow-context.tsx;
 *  - `CollaborationProvider`: provider.tsx, whose projection never purges.
 */
module Stores {
  import opened Wrappers
  import opened Graph
  import opened Projection
  import opened Reducer
  import opened Editing
  import opened Lifecycle

  /** The flow as the views see it. */
  datatype FlowState = FlowState(id: Id, name: string, nodes: seq<ViewItem<NodeFields>>, edges: seq<ViewItem<EdgeFields>>)

  /** The node list's batch after `changes`, from the current cache and list. */
  ghost function NodeOutcome(pc: ProjectionCache<NodeFields>, list: SharedList<NodeFields>, changes: seq<Change>): NodeBatch
    reads pc, list, pc.Records()
  {
    ReduceNodes(NodeBatch(Batch(pc.entries, list.items), FieldsOf(pc), false), changes)
  }

  /** `deriveArray` over a flow's nodes, then over its edges. */
  method ProjectFlow(nodeCache: ProjectionCache<NodeFields>, edgeCache: ProjectionCache<EdgeFields>, flow: Flow)
    returns (nodes: seq<ViewItem<NodeFields>>, edges: seq<ViewItem<EdgeFields>>)
    requires nodeCache.Valid() && edgeCache.Valid()
    modifies nodeCache, edgeCache
    ensures nodeCache.Valid() && edgeCache.Valid()
    ensures (nodeCache.entries, nodes) == Derived(old(nodeCache.entries), flow.nodes.items)
    ensures (edgeCache.entries, edges) == Derived(old(edgeCache.entries), flow.edges.items)
    ensures nodeCache.entries.Keys == Ids(flow.nodes.items) && edgeCache.entries.Keys == Ids(flow.edges.items)
  {
    nodes := nodeCache.Derive(flow.nodes.items);
    edges := edgeCache.Derive(flow.edges.items);
  }

  class FlowSlice {
    var jazzFlow: Flow?
    var activeFlowId: Option<Id>
    var nodes: seq<ViewItem<NodeFields>>
    var edges: seq<ViewItem<EdgeFields>>
    const nodeCache: ProjectionCache<NodeFields>
    const edgeCache: ProjectionCache<EdgeFields>

    ghost predicate Valid()
      reads this, nodeCache, edgeCache
    {
      nodeCache.Valid() && edgeCache.Valid()
    }

    constructor ()
      ensures Valid() && fresh(nodeCache) && fresh(edgeCache)
      ensures jazzFlow == null && activeFlowId == None && nodes == [] && edges == []
      ensures nodeCache.entries == map[] && edgeCache.entries == map[]
    {
      jazzFlow := null;
      activeFlowId := None;
      nodes := [];
      edges := [];
      nodeCache := new ProjectionCache();
      edgeCache := new ProjectionCache();
    }

    /**
     * `setJazzFlow` (flow.ts:75-93): no flow empties the arrays and leaves
     * the caches and the current flow alone; a flow is projected and
     * becomes the current one.
     */
    method SetJazzFlow(flow: Flow?)
      requires Valid()
      modifies this, nodeCache, edgeCache
      ensures Valid()
      ensures flow == null ==>
        && nodes == [] && edges == [] && jazzFlow == old(jazzFlow) && activeFlowId == old(activeFlowId)
        && nodeCache.entries == old(nodeCache.entries) && edgeCache.entries == old(edgeCache.entries)
      ensures flow != null ==>
        && jazzFlow == flow && activeFlowId == Some(flow.id)
        && (nodeCache.entries, nodes) == Derived(old(nodeCache.entries), flow.nodes.items)
        && (edgeCache.entries, edges) == Derived(old(edgeCache.entries), flow.edges.items)
    {
      if flow == null {
        nodes := [];
        edges := [];
        return;
      }
      activeFlowId := Some(flow.id);
      jazzFlow := flow;
      nodes, edges := ProjectFlow(nodeCache, edgeCache, flow);
    }

    /**
     * `onNodesChange` (flow.ts:94-148): the batch, then, when a cached
     * item was re-measured, the same flow is projected again.
     */
    method OnNodesChange(changes: seq<Change>)
      requires Valid()
      modifies this, nodeCache, edgeCache
      modifies if jazzFlow != null then nodeCache.Records() else {}
      modifies if jazzFlow != null then {jazzFlow.nodes} else {}
      ensures Valid() && jazzFlow == old(jazzFlow)
      ensures old(jazzFlow) == null ==>
        && nodeCache.entries == old(nodeCache.entries) && edgeCache.entries == old(edgeCache.entries)
        && nodes == old(nodes) && edges == old(edges) && activeFlowId == old(activeFlowId)
      ensures old(jazzFlow) != null ==>
        var post := old(NodeOutcome(nodeCache, jazzFlow.nodes, changes));
        && jazzFlow.nodes.items == post.batch.list
        && (forall r :: r in post.fields ==> r.fields == post.fields[r])
        && (!post.resized ==>
              && nodeCache.entries == post.batch.cache && edgeCache.entries == old(edgeCache.entries)
              && nodes == old(nodes) && edges == old(edges) && activeFlowId == old(activeFlowId))
        && (post.resized ==>
              && activeFlowId == Some(jazzFlow.id)
              && (nodeCache.entries, nodes) == Derived(post.batch.cache, jazzFlow.nodes.items)
              && (edgeCache.entries, edges) == Derived(old(edgeCache.entries), jazzFlow.edges.items))
    {
      if jazzFlow == null {
        return;
      }
      ghost var post := NodeOutcome(nodeCache, jazzFlow.nodes, changes);
      ReduceKeepsRecords(NodeBatch(Batch(nodeCache.entries, jazzFlow.nodes.items), FieldsOf(nodeCache), false), changes);
      var resized := ApplyBatch(changes);
      if resized {
        SetJazzFlow(jazzFlow);
      }
    }

    /** The batch part of `onNodesChange` on the current flow's node list. */
    method ApplyBatch(changes: seq<Change>) returns (resized: bool)
      requires Valid() && jazzFlow != null
      modifies nodeCache, nodeCache.Records(), jazzFlow.nodes
      ensures Valid()
      ensures var post := old(NodeOutcome(nodeCache, jazzFlow.nodes, changes));
        && nodeCache.entries == post.batch.cache && jazzFlow.nodes.items == post.batch.list
        && resized == post.resized
        && forall r :: r in post.fields ==> r.fields == post.fields[r]
    {
      resized := ApplyNodeChanges(nodeCache, jazzFlow.nodes, changes);
    }

    /** `onEdgesChange` (flow.ts:149-176). */
    method OnEdgesChange(changes: seq<Change>)
      requires Valid()
      modifies edgeCache, if jazzFlow != null then {jazzFlow.edges} else {}
      ensures Valid()
      ensures old(jazzFlow) == null ==> edgeCache.entries == old(edgeCache.entries)
      ensures old(jazzFlow) != null ==>
        Batch(edgeCache.entries, jazzFlow.edges.items)
        == ReduceEdges(Batch(old(edgeCache.entries), old(jazzFlow.edges.items)), changes)
    {
      if jazzFlow == null {
        return;
      }
      ApplyEdgeChanges(edgeCache, jazzFlow.edges, changes);
    }

    /** `onConnect` (flow.ts:177-194). */
    method OnConnect(freshId: Id, source: Id, target: Id, sourceHandle: Option<string>, targetHandle: Option<string>)
      modifies if jazzFlow != null then {jazzFlow.edges} else {}
      ensures jazzFlow != null && (source == "" || target == "") ==> jazzFlow.edges.items == old(jazzFlow.edges.items)
      ensures jazzFlow != null && source != "" && target != "" ==>
        && |jazzFlow.edges.items| == |old(jazzFlow.edges.items)| + 1
        && jazzFlow.edges.items[..|old(jazzFlow.edges.items)|] == old(jazzFlow.edges.items)
        && fresh(jazzFlow.edges.items[|old(jazzFlow.edges.items)|])
        && jazzFlow.edges.items[|old(jazzFlow.edges.items)|].id == freshId
        && jazzFlow.edges.items[|old(jazzFlow.edges.items)|].fields
           == NewEdgeFields(None, source, target, sourceHandle, targetHandle, true)
    {
      if jazzFlow == null {
        return;
      }
      Connect(jazzFlow.edges, freshId, source, target, sourceHandle, targetHandle);
    }

    /** `addNode` (flow.ts:195-210): the type defaults to "text". */
    method AddNode(freshId: Id, kind: Option<string>, position: Position, data: Option<NodeData>)
      modifies if jazzFlow != null then {jazzFlow.nodes} else {}
      ensures jazzFlow != null ==>
        && |jazzFlow.nodes.items| == |old(jazzFlow.nodes.items)| + 1
        && jazzFlow.nodes.items[..|old(jazzFlow.nodes.items)|] == old(jazzFlow.nodes.items)
        && fresh(jazzFlow.nodes.items[|old(jazzFlow.nodes.items)|])
        && jazzFlow.nodes.items[|old(jazzFlow.nodes.items)|].id == freshId
        && jazzFlow.nodes.items[|old(jazzFlow.nodes.items)|].fields == NewNodeFields(kind, position, data, "text")
    {
      if jazzFlow == null {
        return;
      }
      var r := Editing.AddNode(jazzFlow.nodes, freshId, kind, position, data, "text");
    }

    /** `addEdge` (flow.ts:211-229): empty handles become absent. */
    method AddEdge(freshId: Id, kind: Option<string>, source: Id, target: Id,
                   sourceHandle: Option<string>, targetHandle: Option<string>)
      modifies if jazzFlow != null then {jazzFlow.edges} else {}
      ensures jazzFlow != null ==>
        && |jazzFlow.edges.items| == |old(jazzFlow.edges.items)| + 1
        && jazzFlow.edges.items[..|old(jazzFlow.edges.items)|] == old(jazzFlow.edges.items)
        && fresh(jazzFlow.edges.items[|old(jazzFlow.edges.items)|])
        && jazzFlow.edges.items[|old(jazzFlow.edges.items)|].id == freshId
        && jazzFlow.edges.items[|old(jazzFlow.edges.items)|].fields
           == NewEdgeFields(kind, source, target, sourceHandle, targetHandle, true)
    {
      if jazzFlow == null {
        return;
      }
      var r := Editing.AddEdge(jazzFlow.edges, freshId, kind, source, target, sourceHandle, targetHandle, true);
    }

    /** `updateNodeData` (flow.ts:230-239). */
    method UpdateNodeData(nodeId: Id, newData: NodeData)
      modifies if jazzFlow != null then set r | r in jazzFlow.nodes.items else {}
      ensures jazzFlow != null ==>
        var index := IndexOf(jazzFlow.nodes.items, nodeId);
        && (index != -1 ==>
              jazzFlow.nodes.items[index].fields
              == old(jazzFlow.nodes.items[index].fields).(data := MergeData(old(jazzFlow.nodes.items[index].fields.data), newData)))
        && forall r :: r in jazzFlow.nodes.items && (index == -1 || r != jazzFlow.nodes.items[index]) ==> r.fields == old(r.fields)
    {
      if jazzFlow == null {
        return;
      }
      var found := Editing.UpdateNodeData(jazzFlow.nodes, nodeId, newData);
    }
  }

  /** The per-flow store of flow-store.ts; `rawState` is the latest snapshot. */
  class FlowStore {
    var rawState: Flow?
    var id: Id
    var name: string
    var nodes: seq<ViewItem<NodeFields>>
    var edges: seq<ViewItem<EdgeFields>>
    const nodeCache: ProjectionCache<NodeFields>
    const edgeCache: ProjectionCache<EdgeFields>

    ghost predicate Valid()
      reads this, nodeCache, edgeCache
    {
      nodeCache.Valid() && edgeCache.Valid()
    }

    constructor ()
      ensures Valid() && fresh(nodeCache) && fresh(edgeCache)
      ensures rawState == null && id == "" && name == "" && nodes == [] && edges == []
    {
      rawState := null;
      id := "";
      name := "";
      nodes := [];
      edges := [];
      nodeCache := new ProjectionCache();
      edgeCache := new ProjectionCache();
    }

    /** The subscription callback (flow-store.ts:61-73): project the snapshot and keep it. */
    method Snapshot(flow: Flow)
      requires Valid()
      modifies this, nodeCache, edgeCache
      ensures Valid()
      ensures rawState == flow && id == flow.id && name == flow.name
      ensures (nodeCache.entries, nodes) == Derived(old(nodeCache.entries), flow.nodes.items)
      ensures (edgeCache.entries, edges) == Derived(old(edgeCache.entries), flow.edges.items)
      ensures nodeCache.entries.Keys == Ids(flow.nodes.items) && edgeCache.entries.Keys == Ids(flow.edges.items)
    {
      rawState := flow;
      id := flow.id;
      name := flow.name;
      nodes, edges := ProjectFlow(nodeCache, edgeCache, flow);
    }

    /**
     * `onNodesChange` (flow-store.ts:81-135): the batch; nothing is
     * re-projected, and before the first snapshot nothing happens.
     */
    method OnNodesChange(changes: seq<Change>)
      requires Valid()
      modifies nodeCache, if rawState != null then nodeCache.Records() else {}
      modifies if rawState != null then {rawState.nodes} else {}
      ensures Valid()
      ensures old(rawState) == null ==> nodeCache.entries == old(nodeCache.entries)
      ensures old(rawState) != null ==>
        var post := old(NodeOutcome(nodeCache, rawState.nodes, changes));
        && nodeCache.entries == post.batch.cache && rawState.nodes.items == post.batch.list
        && forall r :: r in post.fields ==> r.fields == post.fields[r]
    {
      if rawState == null {
        return;
      }
      var _ := ApplyNodeChanges(nodeCache, rawState.nodes, changes);
    }

    /** `onEdgesChange` (flow-store.ts:136-164). */
    method OnEdgesChange(changes: seq<Change>)
      requires Valid()
      modifies edgeCache, if rawState != null then {rawState.edges} else {}
      ensures Valid()
      ensures old(rawState) == null ==> edgeCache.entries == old(edgeCache.entries)
      ensures old(rawState) != null ==>
        Batch(edgeCache.entries, rawState.edges.items)
        == ReduceEdges(Batch(old(edgeCache.entries), old(rawState.edges.items)), changes)
    {
      if rawState == null {
        return;
      }
      ApplyEdgeChanges(edgeCache, rawState.edges, changes);
    }

    /** `addNode` (flow-store.ts:182-195): here the type defaults to "default". */
    method AddNode(freshId: Id, kind: Option<string>, position: Position, data: Option<NodeData>)
      modifies if rawState != null then {rawState.nodes} else {}
      ensures rawState != null ==>
        && |rawState.nodes.items| == |old(rawState.nodes.items)| + 1
        && rawState.nodes.items[..|old(rawState.nodes.items)|] == old(rawState.nodes.items)
        && fresh(rawState.nodes.items[|old(rawState.nodes.items)|])
        && rawState.nodes.items[|old(rawState.nodes.items)|].id == freshId
        && rawState.nodes.items[|old(rawState.nodes.items)|].fields == NewNodeFields(kind, position, data, "default")
    {
      if rawState == null {
        return;
      }
      var r := Editing.AddNode(rawState.nodes, freshId, kind, position, data, "default");
    }

    /** `addEdge` (flow-store.ts:196-211): the handles are stored as given. */
    method AddEdge(freshId: Id, kind: Option<string>, source: Id, target: Id,
                   sourceHandle: Option<string>, targetHandle: Option<string>)
      modifies if rawState != null then {rawState.edges} else {}
      ensures rawState != null ==>
        && |rawState.edges.items| == |old(rawState.edges.items)| + 1
        && rawState.edges.items[..|old(rawState.edges.items)|] == old(rawState.edges.items)
        && fresh(rawState.edges.items[|old(rawState.edges.items)|])
        && rawState.edges.items[|old(rawState.edges.items)|].id == freshId
        && rawState.edges.items[|old(rawState.edges.items)|].fields
           == NewEdgeFields(kind, source, target, sourceHandle, targetHandle, false)
    {
      if rawState == null {
        return;
      }
      var r := Editing.AddEdge(rawState.edges, freshId, kind, source, target, sourceHandle, targetHandle, false);
    }

    /** `updateNodeData` (flow-store.ts:212-219). */
    method UpdateNodeData(nodeId: Id, newData: NodeData)
      modifies if rawState != null then set r | r in rawState.nodes.items else {}
      ensures rawState != null ==>
        var index := IndexOf(rawState.nodes.items, nodeId);
        && (index != -1 ==>
              rawState.nodes.items[index].fields
              == old(rawState.nodes.items[index].fields).(data := MergeData(old(rawState.nodes.items[index].fields.data), newData)))
        && forall r :: r in rawState.nodes.items && (index == -1 || r != rawState.nodes.items[index]) ==> r.fields == old(r.fields)
    {
      if rawState == null {
        return;
      }
      var found := Editing.UpdateNodeData(rawState.nodes, nodeId, newData);
    }
  }

  /** What `useCoState` gives for the active flow: still loading, unavailable, or loaded. */
  datatype Loadable = Loading | Unavailable | Loaded(flow: Flow)

  /** The context's flow state: `undefined`, `null`, or a projected flow. */
  datatype Projected = Undefined | Null | Ready(state: FlowState)

  /** The React context of flow-context.tsx: its two caches. */
  class FlowContext {
    const nodeCache: ProjectionCache<NodeFields>
    const edgeCache: ProjectionCache<EdgeFields>

    ghost predicate Valid()
      reads this, nodeCache, edgeCache
    {
      nodeCache.Valid() && edgeCache.Valid()
    }

    constructor ()
      ensures Valid() && fresh(nodeCache) && fresh(edgeCache)
      ensures nodeCache.entries == map[] && edgeCache.entries == map[]
    {
      nodeCache := new ProjectionCache();
      edgeCache := new ProjectionCache();
    }

    /**
     * `currentFlow` (flow-context.tsx:53-105): `undefined` without an
     * active flow id, the raw state passed through while it is not loaded,
     * and otherwise the projection of both lists.
     */
    method Project(activeFlowId: Option<Id>, raw: Loadable) returns (p: Projected)
      requires Valid()
      modifies nodeCache, edgeCache
      ensures Valid()
      ensures activeFlowId.None? || !raw.Loaded? ==>
        nodeCache.entries == old(nodeCache.entries) && edgeCache.entries == old(edgeCache.entries)
      ensures activeFlowId.None? ==> p == Undefined
      ensures activeFlowId.Some? && raw.Loading? ==> p == Undefined
      ensures activeFlowId.Some? && raw.Unavailable? ==> p == Null
      ensures activeFlowId.Some? && raw.Loaded? ==>
        var flow := raw.flow;
        var n := Derived(old(nodeCache.entries), flow.nodes.items);
        var e := Derived(old(edgeCache.entries), flow.edges.items);
        && nodeCache.entries == n.0 && edgeCache.entries == e.0
        && p == Ready(FlowState(flow.id, flow.name, n.1, e.1))
    {
      if activeFlowId.None? {
        return Undefined;
      }
      match raw {
        case Loading =>
          return Undefined;
        case Unavailable =>
          return Null;
        case Loaded(flow) =>
          var nodes, edges := ProjectFlow(nodeCache, edgeCache, flow);
          return Ready(FlowState(flow.id, flow.name, nodes, edges));
      }
    }

    /** `onNodesChange` (flow-context.tsx:108-153): the batch, with no re-projection. */
    method OnNodesChange(raw: Flow?, changes: seq<Change>)
      requires Valid()
      modifies nodeCache, if raw != null then nodeCache.Records() else {}
      modifies if raw != null then {raw.nodes} else {}
      ensures Valid()
      ensures raw == null ==> nodeCache.entries == old(nodeCache.entries)
      ensures raw != null ==>
        var post := old(NodeOutcome(nodeCache, raw.nodes, changes));
        && nodeCache.entries == post.batch.cache && raw.nodes.items == post.batch.list
        && forall r :: r in post.fields ==> r.fields == post.fields[r]
    {
      if raw == null {
        return;
      }
      var _ := ApplyNodeChanges(nodeCache, raw.nodes, changes);
    }

    /** `onEdgesChange` (flow-context.tsx:155-185). */
    method OnEdgesChange(raw: Flow?, changes: seq<Change>)
      requires Valid()
      modifies edgeCache, if raw != null then {raw.edges} else {}
      ensures Valid()
      ensures raw == null ==> edgeCache.entries == old(edgeCache.entries)
      ensures raw != null ==>
        Batch(edgeCache.entries, raw.edges.items) == ReduceEdges(Batch(old(edgeCache.entries), old(raw.edges.items)), changes)
    {
      if raw == null {
        return;
      }
      ApplyEdgeChanges(edgeCache, raw.edges, changes);
    }

    /** `updateNodeData` (flow-context.tsx:256-273): merge into the record, then sync the cached item. */
    method UpdateNodeData(raw: Flow?, nodeId: Id, newData: NodeData)
      requires Valid()
      modifies nodeCache, if raw != null then set r | r in raw.nodes.items else {}
      ensures Valid()
      ensures raw == null ==> nodeCache.entries == old(nodeCache.entries)
      ensures raw != null ==>
        var index := IndexOf(raw.nodes.items, nodeId);
        && (index == -1 ==> nodeCache.entries == old(nodeCache.entries))
        && (index != -1 ==>
              && raw.nodes.items[index].fields
                 == old(raw.nodes.items[index].fields).(data := MergeData(old(raw.nodes.items[index].fields.data), newData))
              && (nodeId !in old(nodeCache.entries) ==> nodeCache.entries == old(nodeCache.entries))
              && (nodeId in old(nodeCache.entries) ==>
                    var e := old(nodeCache.entries)[nodeId];
                    nodeCache.entries
                    == old(nodeCache.entries)[nodeId := e.(item := e.item.(fields := e.item.fields.(data := raw.nodes.items[index].fields.data)))]))
        && forall r :: r in raw.nodes.items && (index == -1 || r != raw.nodes.items[index]) ==> r.fields == old(r.fields)
    {
      if raw == null {
        return;
      }
      UpdateNodeDataSyncing(nodeCache, raw.nodes, nodeId, newData);
    }
  }

  /** provider.tsx's collaboration provider: its two caches. */
  class CollaborationProvider {
    const nodeCache: ProjectionCache<NodeFields>
    const edgeCache: ProjectionCache<EdgeFields>

    ghost predicate Valid()
      reads this, nodeCache, edgeCache
    {
      nodeCache.Valid() && edgeCache.Valid()
    }

    constructor ()
      ensures Valid() && fresh(nodeCache) && fresh(edgeCache)
      ensures nodeCache.entries == map[] && edgeCache.entries == map[]
    {
      nodeCache := new ProjectionCache();
      edgeCache := new ProjectionCache();
    }

    /**
     * `currentFlow` (provider.tsx:55-103): null without an active flow;
     * otherwise the projection pass over both lists, with no purge.
     */
    method CurrentFlow(root: Root?) returns (state: Option<FlowState>)
      requires Valid()
      modifies nodeCache, edgeCache
      ensures Valid()
      ensures root == null || root.activeFlow == null ==>
        && state == None
        && nodeCache.entries == old(nodeCache.entries) && edgeCache.entries == old(edgeCache.entries)
      ensures root != null && root.activeFlow != null ==>
        var flow := root.activeFlow;
        var n := Walk(old(nodeCache.entries), flow.nodes.items);
        var e := Walk(old(edgeCache.entries), flow.edges.items);
        && nodeCache.entries == n.0 && edgeCache.entries == e.0
        && state == Some(FlowState(flow.id, flow.name, n.1, e.1))
    {
      if root == null || root.activeFlow == null {
        return None;
      }
      var flow := root.activeFlow;
      var nodes := nodeCache.Refresh(flow.nodes.items);
      var edges := edgeCache.Refresh(flow.edges.items);
      return Some(FlowState(flow.id, flow.name, nodes, edges));
    }

    /** `onNodesChange` (provider.tsx:106-151). */
    method OnNodesChange(root: Root?, changes: seq<Change>)
      requires Valid()
      modifies nodeCache, if root != null && root.activeFlow != null then nodeCache.Records() else {}
      modifies if root != null && root.activeFlow != null then {root.activeFlow.nodes} else {}
      ensures Valid()
      ensures root == null || root.activeFlow == null ==> nodeCache.entries == old(nodeCache.entries)
      ensures root != null && root.activeFlow != null ==>
        var post := old(NodeOutcome(nodeCache, root.activeFlow.nodes, changes));
        && nodeCache.entries == post.batch.cache && root.activeFlow.nodes.items == post.batch.list
        && forall r :: r in post.fields ==> r.fields == post.fields[r]
    {
      if root == null || root.activeFlow == null {
        return;
      }
      var _ := ApplyNodeChanges(nodeCache, root.activeFlow.nodes, changes);
    }

    /** `onEdgesChange` (provider.tsx:153-183). */
    method OnEdgesChange(root: Root?, changes: seq<Change>)
      requires Valid()
      modifies edgeCache, if root != null && root.activeFlow != null then {root.activeFlow.edges} else {}
      ensures Valid()
      ensures root == null || root.activeFlow == null ==> edgeCache.entries == old(edgeCache.entries)
      ensures root != null && root.activeFlow != null ==>
        Batch(edgeCache.entries, root.activeFlow.edges.items)
        == ReduceEdges(Batch(old(edgeCache.entries), old(root.activeFlow.edges.items)), changes)
    {
      if root == null || root.activeFlow == null {
        return;
      }
      ApplyEdgeChanges(edgeCache, root.activeFlow.edges, changes);
    }
  }
}
