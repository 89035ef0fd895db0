/**
 * The flow lifecycle: the account root's active flow, and joining,
 * creating and leaving a flow.  Loading a flow is asynchronous; it is
 * modelled as `BeginJoin` followed by `ResolveJoin` with the load's outcome.
 */
module Lifecycle {
  import opened Wrappers
  import opened Graph

  const INVALID_FLOW_CODE: string := "Invalid flow code"
  const FAILED_TO_JOIN: string := "Failed to join flow"
  const NEW_FLOW_NAME: string := "New Flow"

  /** What loading a flow by id gives: nothing, the flow, or an exception. */
  datatype LoadOutcome = NotFound | Found(flow: Flow) | Throws

  /** The account root: the flow the user is in, if any. */
  class Root {
    var activeFlow: Flow?

    constructor ()
      ensures activeFlow == null
    {
      activeFlow := null;
    }
  }

  /**
   * `activeFlowId` as app-context.tsx derives it (`id || null || undefined`):
   * present exactly when there is a root with an active flow whose id is
   * not empty, and then that id.
   */
  function DerivedActiveFlowId(root: Root?): (id: Option<Id>)
    reads root
    ensures id.Some? <==> root != null && root.activeFlow != null && root.activeFlow.id != ""
    ensures id.Some? ==> id.value == root.activeFlow.id
  {
    if root != null && root.activeFlow != null && root.activeFlow.id != "" then Some(root.activeFlow.id) else None
  }

  /**
   * The session state the stores and contexts keep beside the root:
   * `isLoading`, `error` and `activeFlowId`.  While a load is in flight,
   * `joining` is the id being loaded and `joinTarget` the root that
   * `joinFlow` read when it started, which is the one the loaded flow is
   * written to even if `setRoot` has replaced the root meanwhile.
   */
  class Session {
    var root: Root?
    var isLoading: bool
    var error: Option<string>
    var activeFlowId: Option<Id>
    var joinTarget: Root?
    ghost var joining: Option<Id>

    ghost predicate Valid()
      reads this
    {
      && (isLoading <==> joining.Some?)
      && (joining.Some? ==> joinTarget != null && joining.value != "")
    }

    constructor ()
      ensures Valid()
      ensures root == null && !isLoading && error == None && activeFlowId == None && joining == None
    {
      root := null;
      isLoading := false;
      error := None;
      activeFlowId := None;
      joinTarget := null;
      joining := None;
    }

    /** `setRoot`: replaces the root at any time, a load in flight included. */
    method SetRoot(r: Root?)
      requires Valid()
      modifies this
      ensures Valid()
      ensures root == r && isLoading == old(isLoading) && error == old(error) && activeFlowId == old(activeFlowId)
      ensures joining == old(joining) && joinTarget == old(joinTarget)
    {
      root := r;
    }

    /**
     * The synchronous start of `joinFlow` (app-store.tsx:385-390): an empty
     * id or no root gives false and changes nothing; otherwise loading
     * starts, the error is cleared and the current root is the target.
     */
    method BeginJoin(flowId: Id) returns (started: bool)
      requires Valid() && joining == None
      modifies this
      ensures Valid()
      ensures started <==> flowId != "" && old(root) != null
      ensures !started ==> isLoading == old(isLoading) && error == old(error) && joining == old(joining)
                           && joinTarget == old(joinTarget)
      ensures started ==> isLoading && error == None && joining == Some(flowId) && joinTarget == root
      ensures root == old(root) && activeFlowId == old(activeFlowId)
    {
      if flowId == "" || root == null {
        return false;
      }
      isLoading := true;
      error := None;
      joining := Some(flowId);
      joinTarget := root;
      return true;
    }

    /**
     * The load settles (app-store.tsx:391-408): not found sets "Invalid
     * flow code" and keeps the active flow; a throw sets "Failed to join
     * flow"; success makes the flow active in the target root and clears
     * the error.  Loading ends in every case.
     */
    method ResolveJoin(outcome: LoadOutcome) returns (joined: bool)
      requires Valid() && joining.Some?
      modifies this, joinTarget
      ensures Valid() && !isLoading && joining == None
      ensures root == old(root) && activeFlowId == old(activeFlowId)
      ensures joined <==> outcome.Found?
      ensures var target := old(joinTarget);
        && (outcome.NotFound? ==> error == Some(INVALID_FLOW_CODE) && target.activeFlow == old(target.activeFlow))
        && (outcome.Throws? ==> error == Some(FAILED_TO_JOIN) && target.activeFlow == old(target.activeFlow))
        && (outcome.Found? ==> error == None && target.activeFlow == outcome.flow)
        && (outcome.Found? && outcome.flow.id != "" ==> DerivedActiveFlowId(target) == Some(outcome.flow.id))
        && (!outcome.Found? ==> DerivedActiveFlowId(target) == old(DerivedActiveFlowId(target)))
    {
      var target := joinTarget;
      match outcome {
        case NotFound =>
          error := Some(INVALID_FLOW_CODE);
          joined := false;
        case Found(flow) =>
          target.activeFlow := flow;
          error := None;
          joined := true;
        case Throws =>
          error := Some(FAILED_TO_JOIN);
          joined := false;
      }
      isLoading := false;
      joining := None;
      joinTarget := null;
    }

    /** `joinFlow` as one step, with no `setRoot` in between: the start, then the load's outcome. */
    method JoinFlow(flowId: Id, outcome: LoadOutcome) returns (joined: bool)
      requires Valid() && joining == None
      modifies this, root
      ensures Valid() && joining == None && isLoading == old(isLoading)
      ensures root == old(root) && activeFlowId == old(activeFlowId)
      ensures flowId == "" || root == null ==> !joined && error == old(error) && (root != null ==> root.activeFlow == old(root.activeFlow))
      ensures flowId != "" && root != null ==>
        && (joined <==> outcome.Found?)
        && (outcome.NotFound? ==> error == Some(INVALID_FLOW_CODE) && root.activeFlow == old(root.activeFlow))
        && (outcome.Throws? ==> error == Some(FAILED_TO_JOIN) && root.activeFlow == old(root.activeFlow))
        && (outcome.Found? ==> error == None && root.activeFlow == outcome.flow)
      ensures joined && outcome.flow.id != "" ==> DerivedActiveFlowId(root) == Some(outcome.flow.id)
      ensures !joined ==> DerivedActiveFlowId(root) == old(DerivedActiveFlowId(root))
    {
      var started := BeginJoin(flowId);
      if !started {
        return false;
      }
      joined := ResolveJoin(outcome);
    }
    /** `exitFlow` (app-store.tsx:410-414, provider.tsx, app-context.tsx): leave the active flow. */
    method ExitFlow()
      requires Valid()
      modifies root
      ensures root != null ==> root.activeFlow == null
      ensures DerivedActiveFlowId(root) == None
    {
      if root == null {
        return;
      }
      root.activeFlow := null;
    }

    /** `exitFlow` of app-store.ts: also forgets `activeFlowId`; without a root, nothing. */
    method ExitFlowClearingId()
      requires Valid()
      modifies this, root
      ensures Valid()
      ensures root == old(root) && isLoading == old(isLoading) && error == old(error) && joining == old(joining)
      ensures old(root) == null ==> activeFlowId == old(activeFlowId)
      ensures old(root) != null ==> root.activeFlow == null && activeFlowId == None
      ensures DerivedActiveFlowId(root) == None
    {
      if root == null {
        return;
      }
      root.activeFlow := null;
      activeFlowId := None;
    }

    /** `createFlow`: a fresh, empty "New Flow" becomes active; without a root, nothing. */
    method CreateFlow(freshId: Id) returns (flow: Flow?)
      requires Valid()
      modifies root
      ensures root == null ==> flow == null
      ensures root != null ==>
        && flow != null && fresh(flow) && root.activeFlow == flow
        && flow.id == freshId && flow.name == NEW_FLOW_NAME && flow.nodes.items == [] && flow.edges.items == []
      ensures root != null ==> DerivedActiveFlowId(root) == (if freshId != "" then Some(freshId) else None)
      ensures root == null ==> DerivedActiveFlowId(root) == None
    {
      if root == null {
        return null;
      }
      flow := new Flow(freshId, NEW_FLOW_NAME);
      root.activeFlow := flow;
    }
  }
}
