/** What a file keeps of an engine's data: alongside every run, the data that closing and
    opening would bring back. */
module Durability {
  import opened Graph
  import opened Indexes
  import opened Pages
  import opened PageChains
  import opened PageLogs
  import opened StoredLogs
  import opened Tables
  import opened Engine
  import V = Versions
  import S = Subgraphs
  import H = HyperEdges

  datatype Durable = Durable(
    nodes: map<nat, NodeRecord>, edges: map<nat, EdgeRecord>, history: V.History, sub: S.SubgraphStore, hyper: H.HyperEdgeStore)

  const NOTHING := Durable(map[], map[], V.NO_HISTORY, S.Fresh(1), H.Fresh(1))

  // ---------------------------------------------------------------------------
  // What each operation makes durable
  // ---------------------------------------------------------------------------

  function KeepSnapshot(e: State, d: Durable, state: NodeRecord): Durable {
    var n := V.NextSeq(e.history, state.id);
    if e.versioning && FitsPage(VersionRec(state.id, n, state))
    then d.(history := V.Load(d.history, state.id, n, state))
    else d
  }

  function KeepSub(d: Durable, s: S.SubgraphStore, id: nat): Durable
    requires id in s.subs
  {
    if FitsPage(SubRecord(s, id)) then d.(sub := S.Load(d.sub, s.subs[id], S.Members(s, id)).(next := s.next))
    else d.(sub := d.sub.(next := s.next))
  }

  function KeepHyper(d: Durable, r: HyperEdgeRecord): Durable {
    d.(hyper := if FitsPage(HyperEdgeRec(r)) then H.Load(d.hyper, r) else d.hyper.(next := r.id + 1))
  }

  function WithRecord<T>(m: map<nat, T>, id: nat, fits: bool, r: T): map<nat, T> {
    if fits then m[id := r] else m
  }

  /** The data on pages after an operation. A record too large for a page is not kept, nor are
      its updates; deleting a node keeps its edges; members and hyperedges are only added. */
  function Kept(e: State, d: Durable, op: Op): Durable {
    match op
    case CreateNode(labels, props) =>
      var r := NodeRecord(e.node.next, labels, props);
      d.(nodes := WithRecord(d.nodes, r.id, FitsPage(NodeRec(r, false)), r))
    case UpdateNode(id, props) =>
      if id !in e.node.nodes then d
      else
        var k := KeepSnapshot(e, d, e.node.nodes[id]);
        k.(nodes := WithRecord(d.nodes, id, id in d.nodes, e.node.nodes[id].(props := props)))
    case DeleteNode(id) => if id in e.node.nodes then d.(nodes := d.nodes - {id}) else d
    case CreateEdge(start, end, relType, props) =>
      if start !in e.node.nodes || end !in e.node.nodes then d
      else
        var r := EdgeRecord(e.edge.next, start, end, relType, props);
        d.(edges := WithRecord(d.edges, r.id, FitsPage(EdgeRec(r, false)), r))
    case UpdateEdge(id, props) =>
      if id !in e.edge.edges then d
      else d.(edges := WithRecord(d.edges, id, id in d.edges, e.edge.edges[id].(props := props)))
    case DeleteEdge(id) => if id in e.edge.edges then d.(edges := d.edges - {id}) else d
    case CreateSubgraph(props, anchor) => KeepSub(d, S.Create(e.sub, anchor, props), e.sub.next)
    case AddMember(id, node) =>
      if id !in e.sub.subs || node !in e.node.nodes then d else KeepSub(d, S.AddMember(e.sub, id, node), id)
    case CreateHyperEdge(relType, sources, targets, props) =>
      KeepHyper(d, HyperEdgeRecord(e.hyper.next, relType, sources, targets, props))
    case _ => d
  }

  // ---------------------------------------------------------------------------
  // Safe operations
  // ---------------------------------------------------------------------------

  ghost predicate SafeNode(e: State, r: NodeRecord, deleted: bool) {
    r.id in e.node.pageOf ==> RewriteSafe(e.store, e.node.pageOf[r.id], r.id, NodeRec(r, deleted))
  }

  ghost predicate SafeEdge(e: State, r: EdgeRecord, deleted: bool) {
    r.id in e.edge.pageOf ==> RewriteSafe(e.store, e.edge.pageOf[r.id], r.id, EdgeRec(r, deleted))
  }

  /** The page an operation rewrites, if any, is up to date and the rebuilt records fit. */
  ghost predicate SafeOp(e: State, op: Op) {
    match op
    case UpdateNode(id, props) => id in e.node.nodes ==> SafeNode(e, e.node.nodes[id].(props := props), false)
    case DeleteNode(id) => id in e.node.nodes ==> SafeNode(e, e.node.nodes[id], true)
    case UpdateEdge(id, props) => id in e.edge.edges ==> SafeEdge(e, e.edge.edges[id].(props := props), false)
    case DeleteEdge(id) => id in e.edge.edges ==> SafeEdge(e, e.edge.edges[id], true)
    case _ => true
  }

  // ---------------------------------------------------------------------------
  // The invariant
  // ---------------------------------------------------------------------------

  function NodeRecs(nodes: map<nat, NodeRecord>): map<nat, Record> {
    map id | id in nodes :: NodeRec(nodes[id], false)
  }

  function EdgeRecs(edges: map<nat, EdgeRecord>): map<nat, Record> {
    map id | id in edges :: EdgeRec(edges[id], false)
  }

  ghost predicate PagesMapped(pageOf: map<nat, nat>, own: Owners, f: Family) {
    forall id | id in pageOf :: pageOf[id] in own && own[pageOf[id]] == f
  }

  /** Nodes and their pages. `log` is the node log, meaningful while the chain is intact. */
  ghost predicate NodesPart(n: NodeStore, kept: map<nat, NodeRecord>, log: seq<Entry>, own: Owners, intact: bool) {
    && PagesMapped(n.pageOf, own, NodeData)
    && (forall id | id in n.nodes :: n.nodes[id].id == id && id in n.pageOf)
    && (intact ==>
          && TableOk(log, NodeRecs(kept), n.nodes.Keys, n.pageOf, n.next)
          && (forall id | id in n.nodes :: id < n.next)
          && (forall id | id in kept :: id in n.nodes && n.nodes[id] == kept[id]))
  }

  ghost predicate EdgesPart(n: EdgeStore, kept: map<nat, EdgeRecord>, log: seq<Entry>, own: Owners, intact: bool) {
    && PagesMapped(n.pageOf, own, EdgeData)
    && (forall id | id in n.edges :: n.edges[id].id == id && id in n.pageOf)
    && n.headerNext <= n.next
    && (intact ==>
          && TableOk(log, EdgeRecs(kept), n.edges.Keys, n.pageOf, n.headerNext)
          && (forall id | id in n.edges :: id < n.headerNext)
          && (forall id | id in kept && id in n.edges :: n.edges[id] == kept[id]))
  }

  /** The families that are only ever appended to. */
  ghost predicate LogsPart(e: State, d: Durable, versions: seq<Entry>, subs: seq<Entry>, hypers: seq<Entry>) {
    && V.Replay(versions) == d.history
    && S.Replay(subs, e.sub.next) == d.sub && S.Sound(e.sub) && S.Sound(d.sub) && d.sub.next == e.sub.next
    && H.Replay(hypers, e.hyper.next) == d.hyper && H.Sound(e.hyper) && H.Sound(d.hyper) && d.hyper.next == e.hyper.next
  }

  ghost predicate DurableOk(e: State, d: Durable, own: Owners, ch: Chains) {
    && Stored(e.store, own, ch)
    && SubgraphData in ch && HyperEdgeData in ch && VersionData in ch
    && NodesPart(e.node, d.nodes, LogOf(e.store, ch, NodeData), own, NodeData in ch)
    && EdgesPart(e.edge, d.edges, LogOf(e.store, ch, EdgeData), own, EdgeData in ch)
    && LogsPart(e, d, LogOf(e.store, ch, VersionData), LogOf(e.store, ch, SubgraphData), LogOf(e.store, ch, HyperEdgeData))
  }

  lemma EmptyParts(versioning: bool)
    ensures var e := Empty(versioning);
            NodesPart(e.node, map[], [], map[], true) && EdgesPart(e.edge, map[], [], map[], true) && LogsPart(e, NOTHING, [], [], [])
  {
  }

  lemma EmptyDurable(versioning: bool)
    ensures DurableOk(Empty(versioning), NOTHING, map[], NO_CHAINS)
  {
    hide Stored, LogOf, NodesPart, EdgesPart, LogsPart;
    StoredEmpty();
    EmptyParts(versioning);
  }

  // ---------------------------------------------------------------------------
  // Nodes
  // ---------------------------------------------------------------------------

  ghost predicate Grows(own: Owners, more: Owners) {
    forall p | p in own :: p in more && more[p] == own[p]
  }

  lemma NodesGrow(n: NodeStore, kept: map<nat, NodeRecord>, log: seq<Entry>, own: Owners, more: Owners, intact: bool)
    requires NodesPart(n, kept, log, own, intact) && Grows(own, more)
    ensures NodesPart(n, kept, log, more, intact)
  {
    hide TableOk;
  }

  lemma EdgesGrow(n: EdgeStore, kept: map<nat, EdgeRecord>, log: seq<Entry>, own: Owners, more: Owners, intact: bool)
    requires EdgesPart(n, kept, log, own, intact) && Grows(own, more)
    ensures EdgesPart(n, kept, log, more, intact)
  {
    hide TableOk;
  }

  lemma NodesTableCreate(n: NodeStore, kept: map<nat, NodeRecord>, log: seq<Entry>, r: NodeRecord, pid: nat)
    requires TableOk(log, NodeRecs(kept), n.nodes.Keys, n.pageOf, n.next) && r.id >= n.next
    ensures var live, pages := n.nodes[r.id := r].Keys, n.pageOf[r.id := pid];
            && TableOk(log + [(pid, NodeRec(r, false))], NodeRecs(kept[r.id := r]), live, pages, r.id + 1)
            && TableOk(log, NodeRecs(kept), live, pages, r.id + 1)
            && r.id !in kept
  {
    hide TableOk;
    CreateKeepsTable(log, NodeRecs(kept), n.nodes.Keys, n.pageOf, n.next, pid, NodeRec(r, false));
    TableIds(log, NodeRecs(kept), n.nodes.Keys, n.pageOf, n.next);
    assert r.id !in NodeRecs(kept);
    assert NodeRecs(kept[r.id := r]) == NodeRecs(kept)[r.id := NodeRec(r, false)];
    assert n.nodes[r.id := r].Keys == n.nodes.Keys + {r.id};
  }

  lemma NodesCreate(n: NodeStore, kept: map<nat, NodeRecord>, log: seq<Entry>, own: Owners, intact: bool, r: NodeRecord, pid: nat, index: Manager)
    requires NodesPart(n, kept, log, own, intact) && r.id == n.next
    requires pid in own && own[pid] == NodeData
    ensures var fits := FitsPage(NodeRec(r, false));
            NodesPart(NodeStore(n.nodes[r.id := r], r.id + 1, n.pageOf[r.id := pid], index),
                      WithRecord(kept, r.id, fits, r), log + (if fits then [(pid, NodeRec(r, false))] else []), own, intact)
  {
    hide TableOk, FitsPage, NodeRecs;
    if intact {
      NodesTableCreate(n, kept, log, r, pid);
      assert log + [] == log;
    }
  }

  lemma EdgesTableCreate(n: EdgeStore, kept: map<nat, EdgeRecord>, log: seq<Entry>, r: EdgeRecord, pid: nat)
    requires TableOk(log, EdgeRecs(kept), n.edges.Keys, n.pageOf, n.headerNext) && r.id >= n.headerNext
    ensures var live, pages := n.edges[r.id := r].Keys, n.pageOf[r.id := pid];
            && TableOk(log + [(pid, EdgeRec(r, false))], EdgeRecs(kept[r.id := r]), live, pages, r.id + 1)
            && TableOk(log, EdgeRecs(kept), live, pages, r.id + 1)
            && r.id !in kept
  {
    hide TableOk;
    CreateKeepsTable(log, EdgeRecs(kept), n.edges.Keys, n.pageOf, n.headerNext, pid, EdgeRec(r, false));
    TableIds(log, EdgeRecs(kept), n.edges.Keys, n.pageOf, n.headerNext);
    assert r.id !in EdgeRecs(kept);
    assert EdgeRecs(kept[r.id := r]) == EdgeRecs(kept)[r.id := EdgeRec(r, false)];
    assert n.edges[r.id := r].Keys == n.edges.Keys + {r.id};
  }

  lemma EdgesCreate(n: EdgeStore, kept: map<nat, EdgeRecord>, log: seq<Entry>, own: Owners, intact: bool, r: EdgeRecord, pid: nat, index: Manager)
    requires EdgesPart(n, kept, log, own, intact) && r.id == n.next
    requires pid in own && own[pid] == EdgeData
    ensures var fits := FitsPage(EdgeRec(r, false));
            EdgesPart(EdgeStore(n.edges[r.id := r], r.id + 1, r.id + 1, n.pageOf[r.id := pid], index),
                      WithRecord(kept, r.id, fits, r), log + (if fits then [(pid, EdgeRec(r, false))] else []), own, intact)
  {
    hide TableOk, FitsPage, EdgeRecs;
    if intact {
      EdgesTableCreate(n, kept, log, r, pid);
      assert log + [] == log;
    }
  }

  /** The record of a node replaced, or its tombstone written. */
  lemma NodesReplace(n: NodeStore, kept: map<nat, NodeRecord>, log: seq<Entry>, own: Owners, r: NodeRecord, deleted: bool, index: Manager)
    requires NodesPart(n, kept, log, own, true) && r.id in n.nodes
    ensures r.id in n.pageOf
    ensures var after := UpdateLog(log, n.pageOf[r.id], r.id, NodeRec(r, deleted));
            if deleted
            then NodesPart(n.(nodes := n.nodes - {r.id}, index := index), kept - {r.id}, after, own, true)
            else NodesPart(n.(nodes := n.nodes[r.id := r], index := index), WithRecord(kept, r.id, r.id in kept, r), after, own, true)
  {
    hide TableOk, UpdateLog;
    ReplaceKeepsTable(log, NodeRecs(kept), n.nodes.Keys, n.pageOf, n.next, NodeRec(r, deleted));
    if deleted {
      assert NodeRecs(kept - {r.id}) == NodeRecs(kept) - {r.id};
      assert (n.nodes - {r.id}).Keys == n.nodes.Keys - {r.id};
    } else {
      assert r.id in kept ==> NodeRecs(kept[r.id := r]) == NodeRecs(kept)[r.id := NodeRec(r, false)];
      assert n.nodes[r.id := r].Keys == n.nodes.Keys;
    }
  }

  lemma EdgesReplace(n: EdgeStore, kept: map<nat, EdgeRecord>, log: seq<Entry>, own: Owners, r: EdgeRecord, deleted: bool, index: Manager)
    requires EdgesPart(n, kept, log, own, true) && r.id in n.edges
    ensures r.id in n.pageOf
    ensures var after := UpdateLog(log, n.pageOf[r.id], r.id, EdgeRec(r, deleted));
            if deleted
            then EdgesPart(n.(edges := n.edges - {r.id}, index := index), kept - {r.id}, after, own, true)
            else EdgesPart(n.(edges := n.edges[r.id := r], index := index), WithRecord(kept, r.id, r.id in kept, r), after, own, true)
  {
    hide TableOk, UpdateLog;
    ReplaceKeepsTable(log, EdgeRecs(kept), n.edges.Keys, n.pageOf, n.headerNext, EdgeRec(r, deleted));
    if deleted {
      assert EdgeRecs(kept - {r.id}) == EdgeRecs(kept) - {r.id};
      assert (n.edges - {r.id}).Keys == n.edges.Keys - {r.id};
    } else {
      assert r.id in kept ==> EdgeRecs(kept[r.id := r]) == EdgeRecs(kept)[r.id := EdgeRec(r, false)];
      assert n.edges[r.id := r].Keys == n.edges.Keys;
    }
  }

  /** A chain that is not known to be intact asks less. */
  lemma NodesDamaged(n: NodeStore, m: NodeStore, kept: map<nat, NodeRecord>, other: map<nat, NodeRecord>,
                     log: seq<Entry>, after: seq<Entry>, own: Owners, intact: bool)
    requires NodesPart(n, kept, log, own, intact)
    requires m.pageOf == n.pageOf && forall id | id in m.nodes :: id in n.nodes && m.nodes[id].id == id
    ensures NodesPart(m, other, after, own, false)
  {
    hide TableOk;
  }

  lemma EdgesDamaged(n: EdgeStore, m: EdgeStore, kept: map<nat, EdgeRecord>, other: map<nat, EdgeRecord>,
                     log: seq<Entry>, after: seq<Entry>, own: Owners, intact: bool)
    requires EdgesPart(n, kept, log, own, intact)
    requires m.pageOf == n.pageOf && forall id | id in m.edges :: id in n.edges && m.edges[id].id == id
    requires m.headerNext == n.headerNext && m.next == n.next
    ensures EdgesPart(m, other, after, own, false)
  {
    hide TableOk;
  }

  /** The cascade forgets edges in memory only. */
  lemma EdgesForget(n: EdgeStore, kept: map<nat, EdgeRecord>, log: seq<Entry>, own: Owners, intact: bool, gone: set<nat>)
    requires EdgesPart(n, kept, log, own, intact)
    ensures EdgesPart(n.(edges := n.edges - gone), kept, log, own, intact)
  {
    if intact {
      ForgetKeepsTable(log, EdgeRecs(kept), n.edges.Keys, (n.edges - gone).Keys, n.pageOf, n.headerNext);
    }
    hide TableOk;
  }
}
