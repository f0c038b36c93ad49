/** The storage engine as a state machine: in-memory stores, indexes, histories and pages,
    and what each operation does to them. */
module Engine {
  import opened Wrappers
  import opened Graph
  import opened Indexes
  import opened Pages
  import Tables
  import V = Versions
  import S = Subgraphs
  import H = HyperEdges

  datatype NodeStore = NodeStore(nodes: map<nat, NodeRecord>, next: nat, pageOf: map<nat, nat>, index: Manager)

  /** `headerNext` is the next id in the file header. It lags behind after a failed create. */
  datatype EdgeStore = EdgeStore(edges: map<nat, EdgeRecord>, next: nat, headerNext: nat, pageOf: map<nat, nat>, index: Manager)

  datatype State = State(
    node: NodeStore, edge: EdgeStore, history: V.History, sub: S.SubgraphStore, hyper: H.HyperEdgeStore,
    catalog: seq<Byte>, versioning: bool, store: Store)

  datatype Op =
    | CreateNode(labels: seq<nat>, props: Props)
    | UpdateNode(id: nat, props: Props)
    | DeleteNode(id: nat)
    | CreateEdge(start: nat, end: nat, relType: nat, props: Props)
    | UpdateEdge(id: nat, props: Props)
    | DeleteEdge(id: nat)
    | CreateNodeIndex(name: string, tag: nat, key: nat)
    | CreateEdgeIndex(name: string, tag: nat, key: nat)
    | DropIndex(name: string)
    | CreateSubgraph(props: Props, anchor: Option<int>)
    | AddMember(id: nat, node: nat)
    | RemoveMember(id: nat, node: nat)
    | DeleteSubgraph(id: nat)
    | CreateHyperEdge(relType: nat, sources: seq<Entity>, targets: seq<Entity>, props: Props)
    | DeleteHyperEdge(id: nat)
    | SetCatalog(bytes: seq<Byte>)
    | RunCheckpoint
    | Reopen

  /** A new database. */
  function Empty(versioning: bool): State {
    State(NodeStore(map[], 1, map[], map[]), EdgeStore(map[], 1, 1, map[], map[]),
          V.NO_HISTORY, S.Fresh(1), H.Fresh(1), [], versioning, EMPTY_STORE)
  }

  // ---------------------------------------------------------------------------
  // Entities as the indexes see them
  // ---------------------------------------------------------------------------

  function NodeEntities(nodes: map<nat, NodeRecord>): Entities {
    map id | id in nodes :: Indexed(nodes[id].labels, nodes[id].props)
  }

  function EdgeEntities(edges: map<nat, EdgeRecord>): Entities {
    map id | id in edges :: Indexed([edges[id].relType], edges[id].props)
  }

  // ---------------------------------------------------------------------------
  // Nodes
  // ---------------------------------------------------------------------------

  function CreatingNode(e: State, pick: Picker, labels: seq<nat>, props: Props): State {
    var id := e.node.next;
    var r := NodeRecord(id, labels, props);
    e.(node := NodeStore(e.node.nodes[id := r], id + 1,
                         e.node.pageOf[id := AppendPage(e.store, NodeData, NodeRec(r, false))],
                         OnCreate(e.node.index, pick, labels, props, id)),
       store := Append(e.store, NodeData, NodeRec(r, false)))
  }

  /** The snapshot taken before an update. */
  function SnapshotNode(e: State, state: NodeRecord): State {
    if e.versioning
    then e.(history := V.Snapshot(e.history, state.id, state),
            store := Append(e.store, VersionData, VersionRec(state.id, V.NextSeq(e.history, state.id), state)))
    else e
  }

  /** Puts a node's record, or its tombstone, where the page map says. */
  function RewriteNode(e: State, r: NodeRecord, deleted: bool): State {
    if r.id in e.node.pageOf
    then e.(store := Rewrite(e.store, NodeData, e.node.pageOf[r.id], r.id, NodeRec(r, deleted)))
    else e.(node := e.node.(pageOf := e.node.pageOf[r.id := AppendPage(e.store, NodeData, NodeRec(r, deleted))]),
            store := Append(e.store, NodeData, NodeRec(r, deleted)))
  }

  function SetNode(e: State, pick: Picker, state: NodeRecord, props: Props): State {
    e.(node := e.node.(nodes := e.node.nodes[state.id := state.(props := props)],
                       index := OnUpdate(e.node.index, pick, state.labels, state.props, props, state.id)))
  }

  function UpdatingNode(e: State, pick: Picker, id: nat, props: Props): State {
    if id !in e.node.nodes then e
    else
      var state := e.node.nodes[id];
      RewriteNode(SetNode(SnapshotNode(e, state), pick, state, props), state.(props := props), false)
  }

  predicate Touches(r: EdgeRecord, node: nat) {
    r.start == node || r.end == node
  }

  /** The ids of the edges that go with a node. */
  function Incident(edges: map<nat, EdgeRecord>, node: nat): set<nat> {
    set id | id in edges && Touches(edges[id], node)
  }

  /** The cascade: the edges go from the store, not from the edge indexes or pages. */
  function DropIncident(e: State, node: nat): State {
    e.(edge := e.edge.(edges := e.edge.edges - Incident(e.edge.edges, node)))
  }

  function DropNode(e: State, pick: Picker, state: NodeRecord): State {
    e.(node := e.node.(nodes := e.node.nodes - {state.id},
                       index := OnDelete(e.node.index, pick, state.labels, state.props, state.id)))
  }

  /** The cascade comes first, even when there is no such node. */
  function DeletingNode(e: State, pick: Picker, id: nat): State {
    if id !in e.node.nodes then DropIncident(e, id)
    else RewriteNode(DropNode(DropIncident(e, id), pick, e.node.nodes[id]), e.node.nodes[id], true)
  }

  // ---------------------------------------------------------------------------
  // Edges
  // ---------------------------------------------------------------------------

  /** A failed create has used up an id already, but the header does not know. */
  function CreatingEdge(e: State, pick: Picker, start: nat, end: nat, relType: nat, props: Props): State {
    var id := e.edge.next;
    if start !in e.node.nodes || end !in e.node.nodes then e.(edge := e.edge.(next := id + 1))
    else
      var r := EdgeRecord(id, start, end, relType, props);
      e.(edge := EdgeStore(e.edge.edges[id := r], id + 1, id + 1,
                           e.edge.pageOf[id := AppendPage(e.store, EdgeData, EdgeRec(r, false))],
                           OnCreate(e.edge.index, pick, [relType], props, id)),
         store := Append(e.store, EdgeData, EdgeRec(r, false)))
  }

  function RewriteEdge(e: State, r: EdgeRecord, deleted: bool): State {
    if r.id in e.edge.pageOf
    then e.(store := Rewrite(e.store, EdgeData, e.edge.pageOf[r.id], r.id, EdgeRec(r, deleted)))
    else e.(edge := e.edge.(pageOf := e.edge.pageOf[r.id := AppendPage(e.store, EdgeData, EdgeRec(r, deleted))]),
            store := Append(e.store, EdgeData, EdgeRec(r, deleted)))
  }

  function UpdatingEdge(e: State, pick: Picker, id: nat, props: Props): State {
    if id !in e.edge.edges then e
    else
      var state := e.edge.edges[id];
      RewriteEdge(e.(edge := e.edge.(edges := e.edge.edges[id := state.(props := props)],
                                     index := OnUpdate(e.edge.index, pick, [state.relType], state.props, props, id))),
                  state.(props := props), false)
  }

  function DeletingEdge(e: State, pick: Picker, id: nat): State {
    if id !in e.edge.edges then e
    else
      var state := e.edge.edges[id];
      RewriteEdge(e.(edge := e.edge.(edges := e.edge.edges - {id},
                                     index := OnDelete(e.edge.index, pick, [state.relType], state.props, id))),
                  state, true)
  }

  // ---------------------------------------------------------------------------
  // Indexes
  // ---------------------------------------------------------------------------

  function CreatingNodeIndex(e: State, pick: Picker, name: string, tag: nat, key: nat): State {
    match CreateIndex(e.node.index, pick, name, tag, key, NodeEntities(e.node.nodes), e.node.next)
    case Some(m) => e.(node := e.node.(index := m))
    case None => e
  }

  function CreatingEdgeIndex(e: State, pick: Picker, name: string, tag: nat, key: nat): State {
    match CreateIndex(e.edge.index, pick, name, tag, key, EdgeEntities(e.edge.edges), e.edge.next)
    case Some(m) => e.(edge := e.edge.(index := m))
    case None => e
  }

  /** A node index of this name goes; failing that, an edge index. */
  function DroppingIndex(e: State, name: string): State {
    if name in e.node.index then e.(node := e.node.(index := e.node.index - {name}))
    else e.(edge := e.edge.(index := e.edge.index - {name}))
  }

  // ---------------------------------------------------------------------------
  // Subgraphs and hyperedges
  // ---------------------------------------------------------------------------

  function SubRecord(s: S.SubgraphStore, id: nat): Record
    requires id in s.subs
  {
    SubgraphRec(s.subs[id], S.Members(s, id))
  }

  function CreatingSubgraph(e: State, props: Props, anchor: Option<int>): State {
    var s := S.Create(e.sub, anchor, props);
    e.(sub := s, store := Append(e.store, SubgraphData, SubRecord(s, e.sub.next)))
  }

  function AddingMember(e: State, id: nat, node: nat): State {
    if id !in e.sub.subs || node !in e.node.nodes then e
    else
      var s := S.AddMember(e.sub, id, node);
      e.(sub := s, store := Append(e.store, SubgraphData, SubRecord(s, id)))
  }

  function CreatingHyperEdge(e: State, relType: nat, sources: seq<Entity>, targets: seq<Entity>, props: Props): State {
    e.(hyper := H.Create(e.hyper, relType, sources, targets, props),
       store := Append(e.store, HyperEdgeData, HyperEdgeRec(HyperEdgeRecord(e.hyper.next, relType, sources, targets, props))))
  }

  // ---------------------------------------------------------------------------
  // Closing and opening
  // ---------------------------------------------------------------------------

  function NodesOf(records: map<nat, Record>): map<nat, NodeRecord> {
    map id | id in records && records[id].NodeRec? :: records[id].node
  }

  function EdgesOf(records: map<nat, Record>): map<nat, EdgeRecord> {
    map id | id in records && records[id].EdgeRec? :: records[id].edge
  }

  /** The engine that opening this file gives. Index managers start empty. */
  function Opened(s: Store, nextNode: nat, nextEdge: nat, nextSub: nat, nextHyper: nat, versioning: bool): State {
    var nodes, edges := Loaded(s, NodeData), Loaded(s, EdgeData);
    State(NodeStore(NodesOf(Tables.LoadRecords(nodes)), nextNode, Tables.LoadPages(nodes), map[]),
          EdgeStore(EdgesOf(Tables.LoadRecords(edges)), nextEdge, nextEdge, Tables.LoadPages(edges), map[]),
          V.Replay(Loaded(s, VersionData)),
          S.Replay(Loaded(s, SubgraphData), nextSub),
          H.Replay(Loaded(s, HyperEdgeData), nextHyper),
          LoadCatalog(s).GetOr([]), versioning, s)
  }

  /** Clean close, then open. */
  function Reopening(e: State): State {
    Opened(Reopened(SaveCatalog(e.store, e.catalog)), e.node.next, e.edge.headerNext, e.sub.next, e.hyper.next, e.versioning)
  }

  // ---------------------------------------------------------------------------
  // Steps and runs
  // ---------------------------------------------------------------------------

  function Step(e: State, pick: Picker, op: Op): State {
    match op
    case CreateNode(labels, props) => CreatingNode(e, pick, labels, props)
    case UpdateNode(id, props) => UpdatingNode(e, pick, id, props)
    case DeleteNode(id) => DeletingNode(e, pick, id)
    case CreateEdge(start, end, relType, props) => CreatingEdge(e, pick, start, end, relType, props)
    case UpdateEdge(id, props) => UpdatingEdge(e, pick, id, props)
    case DeleteEdge(id) => DeletingEdge(e, pick, id)
    case CreateNodeIndex(name, tag, key) => CreatingNodeIndex(e, pick, name, tag, key)
    case CreateEdgeIndex(name, tag, key) => CreatingEdgeIndex(e, pick, name, tag, key)
    case DropIndex(name) => DroppingIndex(e, name)
    case CreateSubgraph(props, anchor) => CreatingSubgraph(e, props, anchor)
    case AddMember(id, node) => AddingMember(e, id, node)
    case RemoveMember(id, node) => e.(sub := S.RemoveMember(e.sub, id, node))
    case DeleteSubgraph(id) => e.(sub := S.Delete(e.sub, id))
    case CreateHyperEdge(relType, sources, targets, props) => CreatingHyperEdge(e, relType, sources, targets, props)
    case DeleteHyperEdge(id) => e.(hyper := H.Delete(e.hyper, id))
    case SetCatalog(bytes) => e.(catalog := bytes)
    case RunCheckpoint => e.(store := Checkpoint(e.store))
    case Reopen => Reopening(e)
  }

  function Run(e: State, pick: Picker, ops: seq<Op>): State {
    if ops == [] then e else Step(Run(e, pick, ops[..|ops| - 1]), pick, ops[|ops| - 1])
  }

  lemma OneMore(e: State, pick: Picker, front: seq<Op>, op: Op)
    ensures Run(e, pick, front + [op]) == Step(Run(e, pick, front), pick, op)
    ensures (front + [op])[..|front|] == front
  {
    hide Step;
    assert (front + [op])[..|front|] == front;
  }
}
