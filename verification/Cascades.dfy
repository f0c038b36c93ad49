/** Edge lookups after cascades: deleting a node removes its edges without telling the edge
    indexes, so an index goes on answering with them. Which ones, and for how long. */
module Cascades {
  import opened Graph
  import opened Ordering
  import opened Indexes
  import opened IndexProofs
  import opened Pages
  import opened Engine
  import opened IndexRuns

  type Edges = map<nat, EdgeRecord>

  /** The edges that go with a node, as they were. */
  function Removed(edges: Edges, node: nat): Edges {
    edges - (edges.Keys - Incident(edges, node))
  }

  /** What the index on a pair still knows of removed edges after an operation from `e` to `t`. */
  function RememberedAfter(e: State, t: State, known: Edges, op: Op, tag: nat, key: nat): Edges {
    if Matching(t.edge.index, tag, key) == {} then map[]
    else if op.DeleteNode? then known + Removed(e.edge.edges, op.id)
    else known
  }

  /** The edges removed by cascades since the index that now serves the pair was created. */
  function Remembered(e: State, pick: Picker, ops: seq<Op>, tag: nat, key: nat): Edges {
    if ops == [] then map[]
    else
      var front := ops[..|ops| - 1];
      RememberedAfter(Run(e, pick, front), Run(e, pick, ops), Remembered(e, pick, front, tag, key), ops[|ops| - 1], tag, key)
  }

  /** The edges among them with the type and the property. */
  function Carrying(edges: Edges, tag: nat, key: nat, v: Value): set<nat> {
    set id | id in edges && edges[id].relType == tag && (key, v) in edges[id].props
  }

  ghost predicate PairOk(n: EdgeStore, tag: nat, key: nat, known: Edges) {
    && (forall id | id in known :: id < n.next && id !in n.edges)
    && (Matching(n.index, tag, key) == {} ==> known.Keys == {})
    && forall name | name in Matching(n.index, tag, key) :: Exact(n.index[name], EdgeEntities(n.edges + known), {})
  }

  ghost predicate Tidy(n: EdgeStore) {
    UniquePairs(n.index) && forall id | id in n.edges :: id < n.next
  }

  // ---------------------------------------------------------------------------
  // Each operation
  // ---------------------------------------------------------------------------

  lemma EntitiesWith(edges: Edges, known: Edges, id: nat, r: EdgeRecord)
    requires id !in known
    ensures EdgeEntities(edges[id := r] + known) == EdgeEntities(edges + known)[id := Indexed([r.relType], r.props)]
  {
  }

  lemma EntitiesWithout(edges: Edges, known: Edges, id: nat)
    requires id !in known
    ensures EdgeEntities(edges - {id} + known) == EdgeEntities(edges + known) - {id}
  {
  }

  lemma EntityOf(edges: Edges, known: Edges, id: nat)
    requires id !in known
    ensures id in EdgeEntities(edges + known) <==> id in edges
    ensures id in edges ==> EdgeEntities(edges + known)[id] == Indexed([edges[id].relType], edges[id].props)
  {
  }

  lemma CreateEdgePair(n: EdgeStore, tag: nat, key: nat, known: Edges, pick: Picker, r: EdgeRecord, n': EdgeStore)
    requires PairOk(n, tag, key, known) && Tidy(n) && ValidPicker(pick) && r.id == n.next
    requires n'.edges == n.edges[r.id := r] && n'.next == r.id + 1
    requires n'.index == OnCreate(n.index, pick, [r.relType], r.props, r.id)
    ensures PairOk(n', tag, key, known)
  {
    hide OnCreate, Exact, EdgeEntities, SameShape, Has, UniquePairs, Matching;
    OnCreateHas(n.index, pick, [r.relType], r.props, r.id);
    SameMatching(n.index, n'.index, tag, key);
    var all := EdgeEntities(n.edges + known);
    EntityOf(n.edges, known, r.id);
    EntitiesWith(n.edges, known, r.id, r);
    forall name | name in Matching(n'.index, tag, key)
      ensures Exact(n'.index[name], all[r.id := Indexed([r.relType], r.props)], {})
    {
      CreateKeepsIndex(n.index, pick, all, {}, r.id, Indexed([r.relType], r.props), name);
    }
  }

  lemma UpdateEdgePair(n: EdgeStore, tag: nat, key: nat, known: Edges, pick: Picker, id: nat, props: Props, n': EdgeStore)
    requires PairOk(n, tag, key, known) && Tidy(n) && ValidPicker(pick) && id in n.edges
    requires n'.edges == n.edges[id := n.edges[id].(props := props)] && n'.next == n.next
    requires n'.index == OnUpdate(n.index, pick, [n.edges[id].relType], n.edges[id].props, props, id)
    ensures PairOk(n', tag, key, known)
  {
    hide OnUpdate, Exact, EdgeEntities, SameShape, Has, UniquePairs, Matching;
    OnUpdateHas(n.index, pick, [n.edges[id].relType], n.edges[id].props, props, id);
    SameMatching(n.index, n'.index, tag, key);
    var all := EdgeEntities(n.edges + known);
    EntityOf(n.edges, known, id);
    EntitiesWith(n.edges, known, id, n.edges[id].(props := props));
    forall name | name in Matching(n'.index, tag, key)
      ensures Exact(n'.index[name], all[id := all[id].(props := props)], {})
    {
      UpdateKeepsIndex(n.index, pick, all, {}, id, props, name);
    }
  }

  lemma DeleteEdgePair(n: EdgeStore, tag: nat, key: nat, known: Edges, pick: Picker, id: nat, n': EdgeStore)
    requires PairOk(n, tag, key, known) && Tidy(n) && ValidPicker(pick) && id in n.edges
    requires n'.edges == n.edges - {id} && n'.next == n.next
    requires n'.index == OnDelete(n.index, pick, [n.edges[id].relType], n.edges[id].props, id)
    ensures PairOk(n', tag, key, known)
  {
    hide OnDelete, Exact, EdgeEntities, SameShape, Has, UniquePairs, Matching;
    OnDeleteHas(n.index, pick, [n.edges[id].relType], n.edges[id].props, id);
    SameMatching(n.index, n'.index, tag, key);
    var all := EdgeEntities(n.edges + known);
    EntityOf(n.edges, known, id);
    EntitiesWithout(n.edges, known, id);
    forall name | name in Matching(n'.index, tag, key)
      ensures Exact(n'.index[name], all - {id}, {})
    {
      DeleteKeepsIndex(n.index, pick, all, {}, id, name);
    }
  }

  lemma CascadePair(n: EdgeStore, tag: nat, key: nat, known: Edges, node: nat)
    requires PairOk(n, tag, key, known) && Tidy(n)
    ensures Matching(n.index, tag, key) != {} ==>
              PairOk(n.(edges := n.edges - Incident(n.edges, node)), tag, key, known + Removed(n.edges, node))
  {
    assert (n.edges - Incident(n.edges, node)) + (known + Removed(n.edges, node)) == n.edges + known;
    hide Exact, EdgeEntities;
  }

  lemma CreateIndexPair(n: EdgeStore, tag: nat, key: nat, known: Edges, pick: Picker, name: string, onTag: nat, onKey: nat, n': EdgeStore)
    requires PairOk(n, tag, key, known) && Tidy(n) && ValidPicker(pick)
    requires name !in n.index && Matching(n.index, onTag, onKey) == {}
    requires n' == n.(index := CreateIndex(n.index, pick, name, onTag, onKey, EdgeEntities(n.edges), n.next).value)
    ensures PairOk(n', tag, key, known)
  {
    var ents := EdgeEntities(n.edges);
    CreateIndexHas(n.index, pick, name, onTag, onKey, ents, n.next);
    SameMatching(n.index[name := Index(onTag, onKey, map[])], n'.index, tag, key);
    assert (onTag, onKey) == (tag, key) ==> n.edges + known == n.edges;
    hide CreateIndex, EdgeEntities, Has, SameShape;
    forall other | other in Matching(n'.index, tag, key)
      ensures Exact(n'.index[other], EdgeEntities(n.edges + known), {})
    {
      if other != name {
        assert other in Matching(n.index, tag, key);
        assert Exact(n.index[other], EdgeEntities(n.edges + known), {});
      }
    }
  }

  lemma DropPair(n: EdgeStore, tag: nat, key: nat, known: Edges, gone: set<string>)
    requires PairOk(n, tag, key, known)
    ensures var n' := n.(index := n.index - gone);
            PairOk(n', tag, key, if Matching(n'.index, tag, key) == {} then map[] else known)
  {
    var n' := n.(index := n.index - gone);
    assert forall name | name in Matching(n'.index, tag, key) :: name in Matching(n.index, tag, key);
    hide Exact, EdgeEntities;
  }

  /** Operations that leave the edge store as it is. */
  predicate EdgesAlone(op: Op) {
    !op.DeleteNode? && !op.CreateEdge? && !op.UpdateEdge? && !op.DeleteEdge? && !op.CreateEdgeIndex? && !op.DropIndex?
    && !op.Reopen?
  }

  lemma EdgesAloneSame(e: State, pick: Picker, op: Op)
    requires EdgesAlone(op)
    ensures Step(e, pick, op).edge == e.edge
  {
    hide Append, AppendPage, Rewrite, OnCreate, OnUpdate, OnDelete, CreateIndex, SubRecord, Incident, Checkpoint;
  }

  lemma EdgeStepPair(e: State, tag: nat, key: nat, known: Edges, pick: Picker, op: Op)
    requires PairOk(e.edge, tag, key, known) && Tidy(e.edge) && ValidPicker(pick)
    requires op.CreateEdge? || op.UpdateEdge? || op.DeleteEdge?
    ensures PairOk(Step(e, pick, op).edge, tag, key, known)
  {
    var n' := Step(e, pick, op).edge;
    hide PairOk, Tidy, Append, AppendPage, Rewrite, OnCreate, OnUpdate, OnDelete;
    match op
    case CreateEdge(start, end, relType, props) =>
      if start in e.node.nodes && end in e.node.nodes {
        CreateEdgePair(e.edge, tag, key, known, pick, EdgeRecord(e.edge.next, start, end, relType, props), n');
      } else {
        PairOkNext(e.edge, n', tag, key, known);
      }
    case UpdateEdge(id, props) =>
      if id in e.edge.edges {
        UpdateEdgePair(e.edge, tag, key, known, pick, id, props, n');
      }
    case DeleteEdge(id) =>
      if id in e.edge.edges {
        DeleteEdgePair(e.edge, tag, key, known, pick, id, n');
      }
  }

  lemma PairOkNext(n: EdgeStore, n': EdgeStore, tag: nat, key: nat, known: Edges)
    requires PairOk(n, tag, key, known) && n'.edges == n.edges && n'.index == n.index && n'.next >= n.next
    ensures PairOk(n', tag, key, known)
  {
    hide Exact, EdgeEntities, Matching;
  }

  lemma DeleteStepPair(e: State, tag: nat, key: nat, known: Edges, pick: Picker, id: nat)
    requires PairOk(e.edge, tag, key, known) && Tidy(e.edge)
    ensures Step(e, pick, DeleteNode(id)).edge == e.edge.(edges := e.edge.edges - Incident(e.edge.edges, id))
    ensures var t := Step(e, pick, DeleteNode(id));
            PairOk(t.edge, tag, key, RememberedAfter(e, t, known, DeleteNode(id), tag, key))
  {
    hide PairOk, Tidy, Append, AppendPage, Rewrite, OnDelete, Incident, Matching, Removed;
    CascadePair(e.edge, tag, key, known, id);
    if Matching(e.edge.index, tag, key) == {} {
      NothingServes(Step(e, pick, DeleteNode(id)).edge, tag, key);
    }
  }

  lemma NothingServes(n: EdgeStore, tag: nat, key: nat)
    requires Matching(n.index, tag, key) == {}
    ensures PairOk(n, tag, key, map[])
  {
    hide Exact, EdgeEntities, Matching;
  }

  lemma PairStep(e: State, stale: set<nat>, tag: nat, key: nat, known: Edges, pick: Picker, op: Op)
    requires IndexOk(e, stale) && PairOk(e.edge, tag, key, known) && ValidPicker(pick) && OnFreePair(e, op) && !op.Reopen?
    ensures var t := Step(e, pick, op);
            PairOk(t.edge, tag, key, RememberedAfter(e, t, known, op, tag, key))
  {
    var t := Step(e, pick, op);
    assert Tidy(e.edge);
    hide IndexOk, PairOk, Tidy, CreatingNode, UpdatingNode, DeletingNode, CreatingEdge, UpdatingEdge, DeletingEdge,
         CreatingNodeIndex, Reopening, Append, Checkpoint, SubRecord, Incident, CreateIndex, Matching, EdgeEntities;
    if Matching(t.edge.index, tag, key) == {} {
      NothingServes(t.edge, tag, key);
    } else if op.DeleteNode? {
      DeleteStepPair(e, tag, key, known, pick, op.id);
    } else if op.CreateEdge? || op.UpdateEdge? || op.DeleteEdge? {
      EdgeStepPair(e, tag, key, known, pick, op);
    } else if op.CreateEdgeIndex? {
      NameTaken(e.edge.index, pick, op.name, op.tag, op.key, EdgeEntities(e.edge.edges), e.edge.next);
      if op.name !in e.edge.index {
        CreateIndexPair(e.edge, tag, key, known, pick, op.name, op.tag, op.key, t.edge);
      }
    } else if op.DropIndex? {
      DropPair(e.edge, tag, key, known, if op.name in e.node.index then {} else {op.name});
      assert e.edge.index - {} == e.edge.index;
    } else {
      EdgesAloneSame(e, pick, op);
    }
  }

  lemma {:induction false} PairRun(e: State, pick: Picker, ops: seq<Op>, tag: nat, key: nat)
    requires JustOpened(e) && ValidPicker(pick) && Session(ops) && OnePerPair(e, pick, ops)
    ensures IndexOk(Run(e, pick, ops), ForgottenBy(e, pick, ops))
    ensures PairOk(Run(e, pick, ops).edge, tag, key, Remembered(e, pick, ops, tag, key))
    ensures Remembered(e, pick, ops, tag, key).Keys <= ForgottenBy(e, pick, ops)
  {
    hide IndexOk, PairOk, OnFreePair, Step, JustOpened, Matching;
    OpenedIndexOk(e);
    RunIndexed(e, {}, pick, ops);
    assert {} + ForgottenBy(e, pick, ops) == ForgottenBy(e, pick, ops);
    if ops == [] {
      NothingIndexed(e, tag, key);
    } else {
      var front := ops[..|ops| - 1];
      PairRun(e, pick, front, tag, key);
      PairStep(Run(e, pick, front), ForgottenBy(e, pick, front), tag, key, Remembered(e, pick, front, tag, key), pick, ops[|ops| - 1]);
    }
  }

  lemma NothingIndexed(e: State, tag: nat, key: nat)
    requires JustOpened(e)
    ensures PairOk(e.edge, tag, key, map[])
  {
    assert Matching(e.edge.index, tag, key) == {} by {
      assert forall name :: name !in e.edge.index;
    }
    NothingServes(e.edge, tag, key);
  }

  // ---------------------------------------------------------------------------
  // Lookups
  // ---------------------------------------------------------------------------

  lemma PairQuery(e: State, stale: set<nat>, tag: nat, key: nat, known: Edges, pick: Picker, v: Value)
    requires IndexOk(e, stale) && PairOk(e.edge, tag, key, known) && ValidPicker(pick)
    ensures Ids(FindEdges(e, pick, tag, key, v)) == EdgesSought(e, tag, key, v) + Carrying(known, tag, key, v)
  {
    hide LinearScan, AllExact, Has, HasEqual;
    var found := Find(e.edge.index, pick, tag, key);
    if found.None? {
      LinearScanIds(EdgeEntities(e.edge.edges), tag, key, v, e.edge.next);
      assert Carrying(known, tag, key, v) == {};
    } else {
      assert found.value in Matching(e.edge.index, tag, key);
      LookupExact(e.edge.index[found.value], EdgeEntities(e.edge.edges + known), v);
      CarryingIds(e.edge.edges + known, tag, key, v);
      assert Carrying(e.edge.edges + known, tag, key, v) == EdgesWith(e, tag, key, v) + Carrying(known, tag, key, v);
    }
  }

  lemma LookupExact(ix: Index, ents: Entities, v: Value)
    requires Exact(ix, ents, {})
    ensures Ids(Lookup(ix, v)) == set id | id in ents && Holds(ents[id], ix.tag, ix.key, v)
  {
    assert forall id :: id in Lookup(ix, v) <==> Has(ix, v, id);
    assert forall id :: id in ents && Holds(ents[id], ix.tag, ix.key, v) <==> Has(ix, v, id);
  }

  lemma CarryingIds(edges: Edges, tag: nat, key: nat, v: Value)
    ensures var ents := EdgeEntities(edges);
            Carrying(edges, tag, key, v) == set id | id in ents && Holds(ents[id], tag, key, v)
  {
  }

  /** Main result. In every session with one index per pair, an edge lookup returns the edges
      sought, and with them exactly the carrying edges that cascades removed since the index
      was created. So it is exact if and only if there are none of these. */
  lemma EdgeLookupExactly(e: State, pick: Picker, ops: seq<Op>, tag: nat, key: nat, v: Value)
    requires JustOpened(e) && ValidPicker(pick) && Session(ops) && OnePerPair(e, pick, ops)
    ensures var t := Run(e, pick, ops);
            var found, ghosts := Ids(FindEdges(t, pick, tag, key, v)), Carrying(Remembered(e, pick, ops, tag, key), tag, key, v);
            && found == EdgesSought(t, tag, key, v) + ghosts && ghosts <= ForgottenBy(e, pick, ops)
            && (found == EdgesSought(t, tag, key, v) <==> ghosts == {})
            && (Definite(v) ==> EdgesEqual(t, tag, key, v) == EdgesWith(t, tag, key, v))
  {
    PairRun(e, pick, ops, tag, key);
    var t, known := Run(e, pick, ops), Remembered(e, pick, ops, tag, key);
    assert forall id | id in known :: id !in t.edge.edges;
    hide JustOpened, Run, OnePerPair, Session, FindEdges, IndexOk, PairOk, Remembered, ForgottenBy, HasEqual, Matching, Definite;
    PairQuery(t, ForgottenBy(e, pick, ops), tag, key, known, pick, v);
    assert Carrying(known, tag, key, v) * EdgesSought(t, tag, key, v) == {};
    if Definite(v) {
      DefiniteSought(t, tag, key, v);
    }
  }

  /** Where no cascade took an edge so far, deleting a node keeps an edge lookup exact if and
      only if no index serves the pair or none of the node's edges carries the type and the
      property. */
  lemma CascadeExactly(e: State, pick: Picker, id: nat, tag: nat, key: nat, v: Value)
    requires IndexOk(e, {}) && ValidPicker(pick)
    ensures var t := Step(e, pick, DeleteNode(id));
            Ids(FindEdges(t, pick, tag, key, v)) == EdgesSought(t, tag, key, v) <==>
              Matching(e.edge.index, tag, key) == {}
              || forall x | x in Incident(e.edge.edges, id) ::
                   !(e.edge.edges[x].relType == tag && (key, v) in e.edge.edges[x].props)
  {
    var t := Step(e, pick, DeleteNode(id));
    var known := RememberedAfter(e, t, map[], DeleteNode(id), tag, key);
    hide IndexOk, FindEdges, Step, Tidy, Matching, Incident, Forgotten;
    NoneRemembered(e, tag, key);
    DeleteStepPair(e, tag, key, map[], pick, id);
    NodeOpIndexed(e, {}, pick, DeleteNode(id));
    PairQuery(t, {} + Forgotten(e, DeleteNode(id)), tag, key, known, pick, v);
    NotAmongLive(t.edge, tag, key, known, v);
    CascadeCarrying(e.edge.edges, id, tag, key, v);
    assert EdgesWith(t, tag, key, v) == Carrying(t.edge.edges, tag, key, v);
    assert map[] + Removed(e.edge.edges, id) == Removed(e.edge.edges, id);
    hide PairOk, EdgesWith, Carrying;
  }

  lemma NotAmongLive(n: EdgeStore, tag: nat, key: nat, known: Edges, v: Value)
    requires PairOk(n, tag, key, known)
    ensures Carrying(known, tag, key, v) * Carrying(n.edges, tag, key, v) == {}
    ensures Matching(n.index, tag, key) == {} ==> Carrying(known, tag, key, v) == {}
  {
    hide Exact, EdgeEntities, Matching;
  }

  lemma CascadeCarrying(edges: Edges, id: nat, tag: nat, key: nat, v: Value)
    ensures Carrying(Removed(edges, id), tag, key, v) == {} <==>
      forall x | x in Incident(edges, id) :: !(edges[x].relType == tag && (key, v) in edges[x].props)
  {
    assert forall x | x in Incident(edges, id) :: x in Removed(edges, id);
    assert forall x | x in Incident(edges, id) && edges[x].relType == tag && (key, v) in edges[x].props ::
      x in Carrying(Removed(edges, id), tag, key, v);
  }

  lemma NoneRemembered(e: State, tag: nat, key: nat)
    requires IndexOk(e, {})
    ensures PairOk(e.edge, tag, key, map[]) && Tidy(e.edge)
  {
    assert e.edge.edges + map[] == e.edge.edges;
    hide Exact, EdgeEntities;
  }

  /** A run that makes it fail: a node, an index on edges, a loop edge that carries the type and
      the property, and the node deleted. */
  function LoopAndDelete(e: State, name: string, tag: nat, key: nat, v: Value): seq<Op> {
    Loop(e, name, tag, key, v) + [DeleteNode(e.node.next)]
  }

  function Loop(e: State, name: string, tag: nat, key: nat, v: Value): seq<Op> {
    [CreateNode([], []), CreateEdgeIndex(name, tag, key), CreateEdge(e.node.next, e.node.next, tag, [(key, v)])]
  }

  lemma LoopRun(e: State, pick: Picker, name: string, tag: nat, key: nat, v: Value)
    requires JustOpened(e) && ValidPicker(pick)
    ensures var ops := Loop(e, name, tag, key, v);
            var t := Run(e, pick, ops);
            && OnePerPair(e, pick, ops) && ForgottenBy(e, pick, ops) == {}
            && Matching(t.edge.index, tag, key) != {}
            && e.edge.next in t.edge.edges
            && t.edge.edges[e.edge.next] == EdgeRecord(e.edge.next, e.node.next, e.node.next, tag, [(key, v)])
  {
    var ops := Loop(e, name, tag, key, v);
    var one, two := [] + [ops[0]], [ops[0], ops[1]];
    assert Run(e, pick, []) == e && OnePerPair(e, pick, []) && ForgottenBy(e, pick, []) == {};
    OneMoreFree(e, pick, [], ops[0]);
    OneMoreFree(e, pick, one, ops[1]);
    OneMoreFree(e, pick, two, ops[2]);
    assert one + [ops[1]] == two && two + [ops[2]] == ops;
    NoIndexAtOpen(e, tag, key, name);
    var a := Run(e, pick, one);
    hide Append, AppendPage, OnCreate, CreateIndex, JustOpened, Run, OnePerPair, Matching, ForgottenBy;
    assert a.edge == e.edge;
    NewEdgeIndex(a, pick, name, tag, key);
    var b := Run(e, pick, two);
    OnCreateHas(b.edge.index, pick, [tag], [(key, v)], e.edge.next);
    SameMatching(b.edge.index, Run(e, pick, ops).edge.index, tag, key);
  }

  lemma NoIndexAtOpen(e: State, tag: nat, key: nat, name: string)
    requires JustOpened(e)
    ensures Matching(e.edge.index, tag, key) == {} && forall other :: other !in e.edge.index
    ensures forall id | id in e.edge.edges :: id < e.edge.next
  {
    assert forall other :: other !in e.edge.index;
  }

  lemma NewEdgeIndex(e: State, pick: Picker, name: string, tag: nat, key: nat)
    requires ValidPicker(pick) && forall other :: other !in e.edge.index
    requires forall id | id in e.edge.edges :: id < e.edge.next
    ensures var t := Step(e, pick, CreateEdgeIndex(name, tag, key));
            && t == e.(edge := e.edge.(index := t.edge.index)) && UniquePairs(t.edge.index)
            && Matching(t.edge.index, tag, key) != {}
  {
    var ents := EdgeEntities(e.edge.edges);
    CreateIndexHas(e.edge.index, pick, name, tag, key, ents, e.edge.next);
    var n := CreateIndex(e.edge.index, pick, name, tag, key, ents, e.edge.next).value;
    hide CreateIndex, Has, Exact, EdgeEntities;
    assert name in Matching(n, tag, key);
    NameTaken(e.edge.index, pick, name, tag, key, ents, e.edge.next);
  }

  lemma CascadeBreaks(e: State, pick: Picker, name: string, tag: nat, key: nat, v: Value)
    requires JustOpened(e) && ValidPicker(pick)
    ensures var ops := LoopAndDelete(e, name, tag, key, v);
            var t := Run(e, pick, ops);
            && Session(ops) && OnePerPair(e, pick, ops)
            && Ids(FindEdges(t, pick, tag, key, v)) != EdgesSought(t, tag, key, v)
  {
    hide *;
    var front := Loop(e, name, tag, key, v);
    LoopSession(e, name, tag, key, v);
    OneMoreFree(e, pick, front, DeleteNode(e.node.next));
    LoopRun(e, pick, name, tag, key, v);
    var t := Run(e, pick, front);
    assert IndexOk(t, {}) by {
      OpenedIndexOk(e);
      RunIndexed(e, {}, pick, front);
      assert {} + ForgottenBy(e, pick, front) == {};
    }
    DeletesAreFree(t, e.node.next);
    LoopTouches(t, e.node.next, e.edge.next);
    CascadeExactly(t, pick, e.node.next, tag, key, v);
    assert (key, v) in [(key, v)];
  }

  lemma LoopSession(e: State, name: string, tag: nat, key: nat, v: Value)
    ensures LoopAndDelete(e, name, tag, key, v) == Loop(e, name, tag, key, v) + [DeleteNode(e.node.next)]
    ensures Session(LoopAndDelete(e, name, tag, key, v)) && Session(Loop(e, name, tag, key, v))
  {
  }

  lemma DeletesAreFree(e: State, id: nat)
    ensures OnFreePair(e, DeleteNode(id))
  {
  }

  lemma LoopTouches(e: State, node: nat, id: nat)
    requires id in e.edge.edges && e.edge.edges[id].start == node
    ensures id in Incident(e.edge.edges, node)
  {
  }
}
