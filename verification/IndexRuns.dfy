/** Indexed queries over whole sessions: from opening to closing, with any mix of operations. */
module IndexRuns {
  import opened Wrappers
  import opened Graph
  import opened Ordering
  import opened Indexes
  import opened IndexProofs
  import opened Pages
  import opened Engine

  // ---------------------------------------------------------------------------
  // Sessions
  // ---------------------------------------------------------------------------

  ghost predicate IdsBelow(e: State) {
    && (forall id | id in e.node.nodes :: id < e.node.next && e.node.nodes[id].id == id)
    && (forall id | id in e.edge.edges :: id < e.edge.next && e.edge.edges[id].id == id)
  }

  /** An engine just opened: no indexes yet, ids below the next. */
  ghost predicate JustOpened(e: State) {
    e.node.index == map[] && e.edge.index == map[] && IdsBelow(e)
  }

  predicate Session(ops: seq<Op>) {
    forall i | 0 <= i < |ops| :: !ops[i].Reopen?
  }

  /** An index is created only on a pair that has none. */
  predicate OnFreePair(e: State, op: Op) {
    && (op.CreateNodeIndex? && op.name !in e.node.index ==> Matching(e.node.index, op.tag, op.key) == {})
    && (op.CreateEdgeIndex? && op.name !in e.edge.index ==> Matching(e.edge.index, op.tag, op.key) == {})
  }

  predicate OnePerPair(e: State, pick: Picker, ops: seq<Op>) {
    ops == [] || (OnePerPair(e, pick, ops[..|ops| - 1]) && OnFreePair(Run(e, pick, ops[..|ops| - 1]), ops[|ops| - 1]))
  }

  /** The edges an operation removes without telling the edge indexes. */
  function Forgotten(e: State, op: Op): set<nat> {
    if op.DeleteNode? then Incident(e.edge.edges, op.id) else {}
  }

  function ForgottenBy(e: State, pick: Picker, ops: seq<Op>): set<nat> {
    if ops == [] then {}
    else ForgottenBy(e, pick, ops[..|ops| - 1]) + Forgotten(Run(e, pick, ops[..|ops| - 1]), ops[|ops| - 1])
  }

  lemma OneMoreFree(e: State, pick: Picker, front: seq<Op>, op: Op)
    ensures var t := Run(e, pick, front);
            && Run(e, pick, front + [op]) == Step(t, pick, op)
            && (OnePerPair(e, pick, front + [op]) <==> OnePerPair(e, pick, front) && OnFreePair(t, op))
            && ForgottenBy(e, pick, front + [op]) == ForgottenBy(e, pick, front) + Forgotten(t, op)
  {
    hide Step, OnFreePair, Forgotten, Run;
    OneMore(e, pick, front, op);
  }

  // ---------------------------------------------------------------------------
  // The invariant
  // ---------------------------------------------------------------------------

  ghost predicate NodeIndexOk(n: NodeStore) {
    && AllExact(n.index, NodeEntities(n.nodes), {})
    && forall id | id in n.nodes :: id < n.next && n.nodes[id].id == id
  }

  ghost predicate EdgeIndexOk(n: EdgeStore, stale: set<nat>) {
    && AllExact(n.index, EdgeEntities(n.edges), stale)
    && (forall id | id in n.edges :: id < n.next && n.edges[id].id == id)
    && (forall id | id in stale :: id < n.next && id !in n.edges)
  }

  ghost predicate IndexOk(e: State, stale: set<nat>) {
    NodeIndexOk(e.node) && EdgeIndexOk(e.edge, stale)
  }

  lemma OpenedIndexOk(e: State)
    requires JustOpened(e)
    ensures IndexOk(e, {})
  {
    assert forall name :: name !in e.node.index && name !in e.edge.index;
    hide NodeEntities, EdgeEntities;
  }

  /** Rewriting a page does not concern the indexes. */
  lemma RewritesKeepIndexes(e: State, n: NodeRecord, r: EdgeRecord, deleted: bool)
    ensures var t := RewriteNode(e, n, deleted);
            t.node.index == e.node.index && t.node.nodes == e.node.nodes && t.node.next == e.node.next && t.edge == e.edge
    ensures var t := RewriteEdge(e, r, deleted);
            t.edge.index == e.edge.index && t.edge.edges == e.edge.edges && t.edge.next == e.edge.next && t.node == e.node
    ensures SnapshotNode(e, n).node == e.node && SnapshotNode(e, n).edge == e.edge
  {
    hide Append, Rewrite, AppendPage;
  }

  lemma SameIndexes(e: State, t: State, stale: set<nat>)
    requires IndexOk(e, stale)
    requires t.node.index == e.node.index && t.node.nodes == e.node.nodes && t.node.next == e.node.next
    requires t.edge.index == e.edge.index && t.edge.edges == e.edge.edges && t.edge.next >= e.edge.next
    ensures IndexOk(t, stale)
  {
    hide AllExact, NodeEntities, EdgeEntities;
  }

  lemma CreateNodeIndexed(e: State, pick: Picker, labels: seq<nat>, props: Props)
    requires NodeIndexOk(e.node) && ValidPicker(pick)
    ensures NodeIndexOk(CreatingNode(e, pick, labels, props).node)
  {
    hide AllExact, OnCreate, Append, AppendPage;
    var id := e.node.next;
    CreateKeepsExact(e.node.index, pick, NodeEntities(e.node.nodes), {}, id, Indexed(labels, props));
    assert NodeEntities(e.node.nodes[id := NodeRecord(id, labels, props)]) == NodeEntities(e.node.nodes)[id := Indexed(labels, props)];
  }

  lemma UpdateNodeIndexed(e: State, pick: Picker, id: nat, props: Props)
    requires NodeIndexOk(e.node) && ValidPicker(pick) && id in e.node.nodes
    ensures NodeIndexOk(SetNode(e, pick, e.node.nodes[id], props).node)
  {
    hide AllExact, OnUpdate;
    var state := e.node.nodes[id];
    var ents := NodeEntities(e.node.nodes);
    UpdateKeepsExact(e.node.index, pick, ents, {}, id, props);
    assert NodeEntities(e.node.nodes[id := state.(props := props)]) == ents[id := ents[id].(props := props)];
  }

  lemma DeleteNodeIndexed(e: State, pick: Picker, id: nat)
    requires NodeIndexOk(e.node) && ValidPicker(pick) && id in e.node.nodes
    ensures NodeIndexOk(DropNode(e, pick, e.node.nodes[id]).node)
  {
    hide AllExact, OnDelete;
    DeleteKeepsExact(e.node.index, pick, NodeEntities(e.node.nodes), {}, id);
    assert NodeEntities(e.node.nodes - {id}) == NodeEntities(e.node.nodes) - {id};
  }

  lemma CreateEdgeIndexed(n: EdgeStore, stale: set<nat>, pick: Picker, r: EdgeRecord)
    requires EdgeIndexOk(n, stale) && ValidPicker(pick) && r.id == n.next
    ensures EdgeIndexOk(n.(edges := n.edges[r.id := r], next := r.id + 1, index := OnCreate(n.index, pick, [r.relType], r.props, r.id)), stale)
  {
    hide AllExact, OnCreate;
    CreateKeepsExact(n.index, pick, EdgeEntities(n.edges), stale, r.id, Indexed([r.relType], r.props));
    assert EdgeEntities(n.edges[r.id := r]) == EdgeEntities(n.edges)[r.id := Indexed([r.relType], r.props)];
  }

  lemma UpdateEdgeIndexed(n: EdgeStore, stale: set<nat>, pick: Picker, id: nat, props: Props)
    requires EdgeIndexOk(n, stale) && ValidPicker(pick) && id in n.edges
    ensures var state := n.edges[id];
            EdgeIndexOk(n.(edges := n.edges[id := state.(props := props)],
                           index := OnUpdate(n.index, pick, [state.relType], state.props, props, id)), stale)
  {
    hide AllExact, OnUpdate;
    var state := n.edges[id];
    var ents := EdgeEntities(n.edges);
    UpdateKeepsExact(n.index, pick, ents, stale, id, props);
    assert EdgeEntities(n.edges[id := state.(props := props)]) == ents[id := ents[id].(props := props)];
  }

  lemma DeleteEdgeIndexed(n: EdgeStore, stale: set<nat>, pick: Picker, id: nat)
    requires EdgeIndexOk(n, stale) && ValidPicker(pick) && id in n.edges
    ensures var state := n.edges[id];
            EdgeIndexOk(n.(edges := n.edges - {id}, index := OnDelete(n.index, pick, [state.relType], state.props, id)), stale)
  {
    hide AllExact, OnDelete;
    DeleteKeepsExact(n.index, pick, EdgeEntities(n.edges), stale, id);
    assert EdgeEntities(n.edges - {id}) == EdgeEntities(n.edges) - {id};
  }

  lemma CascadeIndexed(n: EdgeStore, stale: set<nat>, gone: set<nat>)
    requires EdgeIndexOk(n, stale) && gone <= n.edges.Keys
    ensures EdgeIndexOk(n.(edges := n.edges - gone), stale + gone)
  {
    hide AllExact;
    ForgetMakesStale(n.index, EdgeEntities(n.edges), stale, gone);
    assert EdgeEntities(n.edges - gone) == EdgeEntities(n.edges) - gone;
  }

  lemma NodeOpIndexed(e: State, stale: set<nat>, pick: Picker, op: Op)
    requires IndexOk(e, stale) && ValidPicker(pick)
    requires op.CreateNode? || op.UpdateNode? || op.DeleteNode?
    ensures IndexOk(Step(e, pick, op), stale + Forgotten(e, op))
  {
    hide NodeIndexOk, EdgeIndexOk, Append, AppendPage, Rewrite, RewriteNode, SnapshotNode, OnCreate, OnUpdate, OnDelete;
    match op
    case CreateNode(labels, props) =>
      CreateNodeIndexed(e, pick, labels, props);
      assert stale + {} == stale;
    case UpdateNode(id, props) =>
      assert stale + {} == stale;
      if id in e.node.nodes {
        var state := e.node.nodes[id];
        UpdateNodeIndexed(e, pick, id, props);
        var s := SnapshotNode(e, state);
        RewritesKeepIndexes(e, state, ANY_EDGE, false);
        var t := SetNode(s, pick, state, props);
        RewritesKeepIndexes(t, state.(props := props), ANY_EDGE, false);
        SameIndexes(SetNode(e, pick, state, props), Step(e, pick, op), stale);
      }
    case DeleteNode(id) =>
      var gone := Incident(e.edge.edges, id);
      CascadeIndexed(e.edge, stale, gone);
      if id in e.node.nodes {
        DeleteNodeIndexed(e, pick, id);
        var t := DropNode(DropIncident(e, id), pick, e.node.nodes[id]);
        RewritesKeepIndexes(t, e.node.nodes[id], ANY_EDGE, true);
        SameIndexes(t, Step(e, pick, op), stale + gone);
      }
  }

  const ANY_EDGE := EdgeRecord(0, 0, 0, 0, [])

  const ANY_NODE := NodeRecord(0, [], [])

  lemma EdgeOpIndexed(e: State, stale: set<nat>, pick: Picker, op: Op)
    requires IndexOk(e, stale) && ValidPicker(pick)
    requires op.CreateEdge? || op.UpdateEdge? || op.DeleteEdge?
    ensures IndexOk(Step(e, pick, op), stale)
  {
    hide NodeIndexOk, Append, AppendPage, Rewrite, RewriteEdge, OnCreate, OnUpdate, OnDelete, AllExact, EdgeEntities;
    match op
    case CreateEdge(start, end, relType, props) =>
      var r := EdgeRecord(e.edge.next, start, end, relType, props);
      CreateEdgeIndexed(e.edge, stale, pick, r);
    case UpdateEdge(id, props) =>
      if id in e.edge.edges {
        var state := e.edge.edges[id];
        UpdateEdgeIndexed(e.edge, stale, pick, id, props);
        var n := e.edge.(edges := e.edge.edges[id := state.(props := props)],
                         index := OnUpdate(e.edge.index, pick, [state.relType], state.props, props, id));
        RewritesKeepIndexes(e.(edge := n), ANY_NODE, state.(props := props), false);
        SameIndexes(e.(edge := n), Step(e, pick, op), stale);
      }
    case DeleteEdge(id) =>
      if id in e.edge.edges {
        var state := e.edge.edges[id];
        DeleteEdgeIndexed(e.edge, stale, pick, id);
        var n := e.edge.(edges := e.edge.edges - {id}, index := OnDelete(e.edge.index, pick, [state.relType], state.props, id));
        RewritesKeepIndexes(e.(edge := n), ANY_NODE, state, true);
        SameIndexes(e.(edge := n), Step(e, pick, op), stale);
      }
  }

  lemma IndexOpIndexed(e: State, stale: set<nat>, pick: Picker, op: Op)
    requires IndexOk(e, stale) && ValidPicker(pick) && OnFreePair(e, op)
    requires op.CreateNodeIndex? || op.CreateEdgeIndex? || op.DropIndex?
    ensures IndexOk(Step(e, pick, op), stale)
  {
    hide AllExact, CreateIndex, NodeEntities, EdgeEntities;
    match op
    case CreateNodeIndex(name, tag, key) =>
      NameTaken(e.node.index, pick, name, tag, key, NodeEntities(e.node.nodes), e.node.next);
      if name !in e.node.index {
        EntitiesBelow(e);
        CreateIndexKeepsExact(e.node.index, pick, name, tag, key, NodeEntities(e.node.nodes), e.node.next, {});
      }
    case CreateEdgeIndex(name, tag, key) =>
      NameTaken(e.edge.index, pick, name, tag, key, EdgeEntities(e.edge.edges), e.edge.next);
      if name !in e.edge.index {
        EntitiesBelow(e);
        CreateIndexKeepsExact(e.edge.index, pick, name, tag, key, EdgeEntities(e.edge.edges), e.edge.next, stale);
      }
    case DropIndex(name) =>
      DropKeepsExact(e.node.index, NodeEntities(e.node.nodes), {}, name);
      DropKeepsExact(e.edge.index, EdgeEntities(e.edge.edges), stale, name);
  }

  lemma NameTaken(m: Manager, pick: Picker, name: string, tag: nat, key: nat, ents: Entities, next: nat)
    ensures CreateIndex(m, pick, name, tag, key, ents, next).None? <==> name in m
  {
  }

  lemma EntitiesBelow(e: State)
    requires NodeIndexOk(e.node)
    ensures forall id | id in NodeEntities(e.node.nodes) :: id < e.node.next
    ensures forall id :: id in EdgeEntities(e.edge.edges) <==> id in e.edge.edges
  {
    hide AllExact;
  }

  lemma StepIndexed(e: State, stale: set<nat>, pick: Picker, op: Op)
    requires IndexOk(e, stale) && ValidPicker(pick) && OnFreePair(e, op) && !op.Reopen?
    ensures IndexOk(Step(e, pick, op), stale + Forgotten(e, op))
  {
    hide IndexOk, OnFreePair, CreatingNode, UpdatingNode, DeletingNode, CreatingEdge, UpdatingEdge, DeletingEdge,
         CreatingNodeIndex, CreatingEdgeIndex, DroppingIndex, Reopening, Append, Checkpoint, SubRecord, Incident;
    if !op.DeleteNode? {
      assert stale + Forgotten(e, op) == stale;
    }
    if op.CreateNode? || op.UpdateNode? || op.DeleteNode? {
      NodeOpIndexed(e, stale, pick, op);
    } else if op.CreateEdge? || op.UpdateEdge? || op.DeleteEdge? {
      EdgeOpIndexed(e, stale, pick, op);
    } else if op.CreateNodeIndex? || op.CreateEdgeIndex? || op.DropIndex? {
      IndexOpIndexed(e, stale, pick, op);
    } else {
      SameIndexes(e, Step(e, pick, op), stale);
    }
  }

  lemma {:induction false} RunIndexed(e: State, stale: set<nat>, pick: Picker, ops: seq<Op>)
    requires IndexOk(e, stale) && ValidPicker(pick) && Session(ops) && OnePerPair(e, pick, ops)
    ensures IndexOk(Run(e, pick, ops), stale + ForgottenBy(e, pick, ops))
  {
    hide IndexOk, OnFreePair, Step, Forgotten;
    if ops == [] {
      assert stale + ForgottenBy(e, pick, ops) == stale;
    } else {
      var front, last := ops[..|ops| - 1], ops[|ops| - 1];
      RunIndexed(e, stale, pick, front);
      StepIndexed(Run(e, pick, front), stale + ForgottenBy(e, pick, front), pick, last);
      assert stale + ForgottenBy(e, pick, front) + Forgotten(Run(e, pick, front), last) == stale + ForgottenBy(e, pick, ops);
    }
  }

  // ---------------------------------------------------------------------------
  // Queries
  // ---------------------------------------------------------------------------

  function FindNodes(e: State, pick: Picker, tag: nat, key: nat, v: Value): seq<nat> {
    ScanByProperty(e.node.index, pick, NodeEntities(e.node.nodes), e.node.next, tag, key, v)
  }

  function FindNodesInRange(e: State, pick: Picker, tag: nat, key: nat, min: Value, max: Value): Option<set<nat>> {
    ScanByRange(e.node.index, pick, NodeEntities(e.node.nodes), e.node.next, tag, key, min, max)
  }

  function FindEdges(e: State, pick: Picker, tag: nat, key: nat, v: Value): seq<nat> {
    ScanByProperty(e.edge.index, pick, EdgeEntities(e.edge.edges), e.edge.next, tag, key, v)
  }

  /** The ids of the nodes that carry the label and exactly this value under the key. */
  function NodesWith(e: State, tag: nat, key: nat, v: Value): set<nat> {
    set id | id in e.node.nodes && tag in e.node.nodes[id].labels && (key, v) in e.node.nodes[id].props
  }

  function EdgesWith(e: State, tag: nat, key: nat, v: Value): set<nat> {
    set id | id in e.edge.edges && e.edge.edges[id].relType == tag && (key, v) in e.edge.edges[id].props
  }

  /** The ids of the nodes that carry the label and a value equal to this one. */
  function NodesEqual(e: State, tag: nat, key: nat, v: Value): set<nat> {
    set id | id in e.node.nodes && tag in e.node.nodes[id].labels && HasEqual(e.node.nodes[id].props, key, v)
  }

  function EdgesEqual(e: State, tag: nat, key: nat, v: Value): set<nat> {
    set id | id in e.edge.edges && e.edge.edges[id].relType == tag && HasEqual(e.edge.edges[id].props, key, v)
  }

  /** What a query asks for: by value where there is an index on the pair, else by equality. */
  function NodesSought(e: State, tag: nat, key: nat, v: Value): set<nat> {
    if Matching(e.node.index, tag, key) == {} then NodesEqual(e, tag, key, v) else NodesWith(e, tag, key, v)
  }

  function EdgesSought(e: State, tag: nat, key: nat, v: Value): set<nat> {
    if Matching(e.edge.index, tag, key) == {} then EdgesEqual(e, tag, key, v) else EdgesWith(e, tag, key, v)
  }

  /** For a value without NaN and zeros the two are the same. */
  lemma DefiniteSought(e: State, tag: nat, key: nat, v: Value)
    requires Definite(v)
    ensures NodesEqual(e, tag, key, v) == NodesWith(e, tag, key, v)
    ensures EdgesEqual(e, tag, key, v) == EdgesWith(e, tag, key, v)
  {
    hide HasEqual;
    forall props
      ensures HasEqual(props, key, v) <==> (key, v) in props
    {
      DefiniteFinds(Indexed([tag], props), tag, key, v);
      assert tag in [tag];
    }
  }

  lemma NodeQueryExact(e: State, stale: set<nat>, pick: Picker, tag: nat, key: nat, v: Value)
    requires IndexOk(e, stale) && ValidPicker(pick)
    ensures Ids(FindNodes(e, pick, tag, key, v)) == NodesSought(e, tag, key, v)
  {
    hide AllExact, ScanByProperty, HasEqual, Matching;
    LookupFinds(e.node.index, pick, NodeEntities(e.node.nodes), {}, e.node.next, tag, key, v);
  }

  lemma NodeScanIs(e: State, tag: nat, key: nat, v: Value)
    requires NodeIndexOk(e.node)
    ensures Ids(LinearScan(NodeEntities(e.node.nodes), tag, key, v, e.node.next)) == NodesEqual(e, tag, key, v)
  {
    hide AllExact, LinearScan, HasEqual;
    LinearScanIds(NodeEntities(e.node.nodes), tag, key, v, e.node.next);
  }

  /** Node index equals scan: in every session that keeps to one index per pair, a query finds
      exactly the nodes that the linear scan finds, unless there is an index and some node's
      value is equal to the one sought without being it, or is it without being equal. A range
      query answers as the linear scan does, except that an upside-down range panics when there
      is an index. */
  lemma NodeIndexIsScan(e: State, pick: Picker, ops: seq<Op>, tag: nat, key: nat, v: Value, min: Value, max: Value)
    requires JustOpened(e) && ValidPicker(pick) && Session(ops) && OnePerPair(e, pick, ops)
    ensures var t := Run(e, pick, ops);
            var scan := Ids(LinearScan(NodeEntities(t.node.nodes), tag, key, v, t.node.next));
            && Ids(FindNodes(t, pick, tag, key, v)) == NodesSought(t, tag, key, v)
            && (Ids(FindNodes(t, pick, tag, key, v)) == scan
                <==> Matching(t.node.index, tag, key) == {} || NodesWith(t, tag, key, v) == NodesEqual(t, tag, key, v))
            && (Definite(v) ==> NodesWith(t, tag, key, v) == NodesEqual(t, tag, key, v))
            && (FindNodesInRange(t, pick, tag, key, min, max)
                == Some(LinearRange(NodeEntities(t.node.nodes), tag, key, min, max, t.node.next))
                <==> Compare(min, max) <= 0 || Matching(t.node.index, tag, key) == {})
  {
    hide JustOpened, Run, OnePerPair, Session, FindNodes, NodesWith, NodesEqual, ScanByRange, AllExact, Matching,
         LinearRange, LinearScan, NodeEntities, EdgeIndexOk, ForgottenBy, Definite;
    OpenedIndexOk(e);
    RunIndexed(e, {}, pick, ops);
    var t := Run(e, pick, ops);
    NodeQueryExact(t, {} + ForgottenBy(e, pick, ops), pick, tag, key, v);
    NodeScanIs(t, tag, key, v);
    if Definite(v) {
      DefiniteSought(t, tag, key, v);
    }
    EntitiesBelow(t);
    RangeIsScan(t.node.index, pick, NodeEntities(t.node.nodes), t.node.next, tag, key, min, max);
  }
}
