/**
 * The shared document's graph: records of a shared list (each a reference
 * with a stable id and fields that writes update in place), the flow that
 * holds the node and edge lists, and the view items React Flow renders.
 */
module Graph {
  import opened Wrappers

  type Id = string

  datatype Position = Position(x: int, y: int)
  datatype Dimensions = Dimensions(width: int, height: int)

  /** A value inside a node's `data` object. */
  datatype DataValue = Text(text: string) | Flag(flag: bool) | Number(number: int)
  type NodeData = map<string, DataValue>

  /** The shared fields of a node record (`type`, `position`, `data`). */
  datatype NodeFields = NodeFields(kind: string, position: Position, data: NodeData)

  /** The shared fields of an edge record; absent handles are `None`. */
  datatype EdgeFields = EdgeFields(kind: string, source: Id, sourceHandle: Option<string>,
                                   target: Id, targetHandle: Option<string>)

  /** A record of a shared list: "the same record" is reference equality. */
  class Record<F> {
    const id: Id
    var fields: F

    constructor (id: Id, fields: F)
      ensures this.id == id && this.fields == fields
    {
      this.id := id;
      this.fields := fields;
    }
  }

  /** A shared, ordered list of records. */
  class SharedList<F> {
    var items: seq<Record<F>>

    constructor ()
      ensures items == []
    {
      items := [];
    }

    method Push(r: Record<F>)
      modifies this
      ensures items == old(items) + [r]
    {
      items := items + [r];
    }
  }

  /** A flow document: a name and its node and edge lists. */
  class Flow {
    const id: Id
    var name: string
    const nodes: SharedList<NodeFields>
    const edges: SharedList<EdgeFields>

    constructor (id: Id, name: string)
      ensures this.id == id && this.name == name
      ensures fresh(nodes) && fresh(edges) && nodes.items == [] && edges.items == []
    {
      this.id := id;
      this.name := name;
      nodes := new SharedList();
      edges := new SharedList();
    }
  }

  /** The ids of a list of records. */
  function Ids<F>(rs: seq<Record<F>>): set<Id> {
    set r | r in rs :: r.id
  }

  /** No two records of the list share an id. */
  predicate DistinctIds<F>(rs: seq<Record<F>>) {
    forall i, j :: 0 <= i < j < |rs| ==> rs[i].id != rs[j].id
  }

  /**
   * The view-only properties React Flow keeps on an item: `selected` and
   * `measured`.  `None` is an absent (or `undefined`) property.
   */
  datatype Local = Local(selected: Option<bool>, measured: Option<Dimensions>)

  const NO_LOCAL := Local(None, None)

  /** A view item: the record's id and fields, plus the local properties. */
  datatype ViewItem<F> = ViewItem(id: Id, fields: F, local: Local)
}
