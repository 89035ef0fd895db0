/**
 * The edits every iteration offers on the shared lists: adding a node,
 * adding an edge, connecting two handles and merging new data into a node.
 * Jazz allocates record ids; here the new id is an input.
 */
module Editing {
  import opened Wrappers
  import opened Graph
  import opened Projection
  import opened Reducer

  const NEW_NODE_LABEL: string := "New Node"
  const DEFAULT_EDGE_KIND: string := "default"

  /** The data of a node added without any: `{ label: "New Node" }`. */
  const DEFAULT_NODE_DATA: NodeData := map["label" := Text(NEW_NODE_LABEL)]

  /** `{ ...old, ...newData }`: every new key wins, every other old key stays. */
  function MergeData(old_: NodeData, newData: NodeData): (merged: NodeData)
    ensures merged.Keys == old_.Keys + newData.Keys
    ensures forall k :: k in newData ==> merged[k] == newData[k]
    ensures forall k :: k in old_ && k !in newData ==> merged[k] == old_[k]
  {
    old_ + newData
  }

  /**
   * The fields of an added node: its type, or `defaultKind` when absent or
   * empty; its position; its data, or the "New Node" label when absent.
   */
  function NewNodeFields(kind: Option<string>, position: Position, data: Option<NodeData>, defaultKind: string)
    : (fields: NodeFields)
    ensures fields.position == position
    ensures fields.kind == (if kind.Some? && kind.value != "" then kind.value else defaultKind)
    ensures data.Some? ==> fields.data == data.value
    ensures data.None? ==> fields.data == DEFAULT_NODE_DATA && fields.data["label"] == Text("New Node")
  {
    NodeFields(OrDefault(kind, defaultKind), position, data.GetOr(DEFAULT_NODE_DATA))
  }

  /**
   * The fields of an added edge.  Every `onConnect`, and `addEdge` in
   * app-store.tsx and flow.ts, turn empty handles into absent ones
   * (`|| undefined`); `addEdge` in flow-store.ts, flow-context.tsx and
   * provider.tsx stores them as given.
   */
  function NewEdgeFields(kind: Option<string>, source: Id, target: Id, sourceHandle: Option<string>,
                         targetHandle: Option<string>, normaliseHandles: bool)
    : (fields: EdgeFields)
    ensures fields.kind == (if kind.Some? && kind.value != "" then kind.value else DEFAULT_EDGE_KIND)
    ensures fields.source == source && fields.target == target
    ensures normaliseHandles ==> fields.sourceHandle == NonEmptyOrAbsent(sourceHandle)
                                 && fields.targetHandle == NonEmptyOrAbsent(targetHandle)
    ensures !normaliseHandles ==> fields.sourceHandle == sourceHandle && fields.targetHandle == targetHandle
    ensures normaliseHandles ==> fields.sourceHandle != Some("") && fields.targetHandle != Some("")
  {
    if normaliseHandles then
      EdgeFields(OrDefault(kind, DEFAULT_EDGE_KIND), source, NonEmptyOrAbsent(sourceHandle), target,
                 NonEmptyOrAbsent(targetHandle))
    else
      EdgeFields(OrDefault(kind, DEFAULT_EDGE_KIND), source, sourceHandle, target, targetHandle)
  }

  /** `addNode`: a fresh record at the end of the node list. */
  method AddNode(list: SharedList<NodeFields>, freshId: Id, kind: Option<string>, position: Position,
                 data: Option<NodeData>, defaultKind: string)
    returns (r: Record<NodeFields>)
    modifies list
    ensures fresh(r) && r.id == freshId
    ensures r.fields == NewNodeFields(kind, position, data, defaultKind)
    ensures list.items == old(list.items) + [r]
  {
    r := new Record(freshId, NewNodeFields(kind, position, data, defaultKind));
    list.Push(r);
  }

  /** `addEdge`: a fresh record at the end of the edge list. */
  method AddEdge(list: SharedList<EdgeFields>, freshId: Id, kind: Option<string>, source: Id, target: Id,
                 sourceHandle: Option<string>, targetHandle: Option<string>, normaliseHandles: bool)
    returns (r: Record<EdgeFields>)
    modifies list
    ensures fresh(r) && r.id == freshId
    ensures r.fields == NewEdgeFields(kind, source, target, sourceHandle, targetHandle, normaliseHandles)
    ensures list.items == old(list.items) + [r]
  {
    r := new Record(freshId, NewEdgeFields(kind, source, target, sourceHandle, targetHandle, normaliseHandles));
    list.Push(r);
  }

  /**
   * `onConnect`: without a source or a target nothing happens; otherwise a
   * "default" edge with normalised handles is appended.
   */
  method Connect(list: SharedList<EdgeFields>, freshId: Id, source: Id, target: Id,
                 sourceHandle: Option<string>, targetHandle: Option<string>)
    modifies list
    ensures source == "" || target == "" ==> list.items == old(list.items)
    ensures source != "" && target != "" ==>
      && |list.items| == |old(list.items)| + 1
      && list.items[..|old(list.items)|] == old(list.items)
      && fresh(list.items[|old(list.items)|])
      && list.items[|old(list.items)|].id == freshId
      && list.items[|old(list.items)|].fields == NewEdgeFields(None, source, target, sourceHandle, targetHandle, true)
  {
    if source == "" || target == "" {
      return;
    }
    var r := AddEdge(list, freshId, Some(DEFAULT_EDGE_KIND), source, target, sourceHandle, targetHandle, true);
  }

  /**
   * `updateNodeData`: merge `newData` into the first record with the id; no
   * other record changes, and an unknown id changes nothing.
   */
  method UpdateNodeData(list: SharedList<NodeFields>, nodeId: Id, newData: NodeData)
    returns (found: Option<Record<NodeFields>>)
    modifies set r | r in list.items
    ensures var index := IndexOf(list.items, nodeId);
      && (index == -1 ==> found == None)
      && (index != -1 ==>
            && found == Some(list.items[index])
            && list.items[index].fields == old(list.items[index].fields).(data := MergeData(old(list.items[index].fields.data), newData)))
    ensures forall r :: r in list.items && Some(r) != found ==> r.fields == old(r.fields)
  {
    var index := FindIndex(list, nodeId);
    if index == -1 {
      return None;
    }
    var r := list.items[index];
    r.fields := r.fields.(data := MergeData(r.fields.data, newData));
    found := Some(r);
  }

  /**
   * flow-context.tsx's `updateNodeData` also copies the merged data into
   * the cached item of that id, when there is one.
   */
  method UpdateNodeDataSyncing(pc: ProjectionCache<NodeFields>, list: SharedList<NodeFields>, nodeId: Id,
                               newData: NodeData)
    requires pc.Valid()
    modifies pc, set r | r in list.items
    ensures pc.Valid()
    ensures var index := IndexOf(list.items, nodeId);
      && (index == -1 ==> pc.entries == old(pc.entries))
      && (index != -1 ==>
            && list.items[index].fields == old(list.items[index].fields).(data := MergeData(old(list.items[index].fields.data), newData))
            && (nodeId !in old(pc.entries) ==> pc.entries == old(pc.entries))
            && (nodeId in old(pc.entries) ==>
                  var e := old(pc.entries)[nodeId];
                  pc.entries == old(pc.entries)[nodeId := e.(item := e.item.(fields := e.item.fields.(data := list.items[index].fields.data)))]))
    ensures var index := IndexOf(list.items, nodeId);
      forall r :: r in list.items && (index == -1 || r != list.items[index]) ==> r.fields == old(r.fields)
  {
    var found := UpdateNodeData(list, nodeId, newData);
    if found.Some? && nodeId in pc.entries {
      var e := pc.entries[nodeId];
      pc.entries := pc.entries[nodeId := e.(item := e.item.(fields := e.item.fields.(data := found.value.fields.data)))];
    }
  }
}
