/** Each operation keeps the durable data in step with the live data. */
module DurableSteps {
  import opened Wrappers
  import opened Graph
  import opened Indexes
  import opened Links
  import opened Pages
  import opened PageChains
  import opened PageLogs
  import opened StoredLogs
  import opened Tables
  import opened Engine
  import opened Durability
  import V = Versions
  import S = Subgraphs
  import H = HyperEdges

  // ---------------------------------------------------------------------------
  // Appends
  // ---------------------------------------------------------------------------

  /** What an append does to the store and to all logs. */
  lemma AppendStep(s: Store, own: Owners, ch: Chains, f: Family, r: Record)
    requires Stored(s, own, ch) && FamilyOf(r) == f && f != CatalogData
    ensures var more, ch' := AppendOwners(own, s, f, r), AppendChains(s, f, r, ch);
            && Stored(Append(s, f, r), more, ch') && Grows(own, more) && ch'.Keys == ch.Keys
            && AppendPage(s, f, r) in more && more[AppendPage(s, f, r)] == f
            && (forall g | g != f :: LogOf(Append(s, f, r), ch', g) == LogOf(s, ch, g))
            && (f in ch ==> LogOf(Append(s, f, r), ch', f) == LogOf(s, ch, f) + Appended(s, f, r))
  {
    StoredAppend(s, own, ch, f, r);
    OwnedAppend(s, own, f, r);
    OwnersGrow(s, own, f, r);
    hide Owned, Append, AppendOwners, AppendChains, AppendPage, Appended, ChainStored, Covered;
    var ch' := AppendChains(s, f, r, ch);
    forall g | g != f
      ensures LogOf(Append(s, f, r), ch', g) == LogOf(s, ch, g)
    {
      if g in ch {
        assert LogOf(s, ch, g) + [] == LogOf(s, ch, g);
      }
    }
  }

  lemma CreateNodeKept(e: State, d: Durable, own: Owners, ch: Chains, pick: Picker, labels: seq<nat>, props: Props)
    returns (more: Owners, ch': Chains)
    requires DurableOk(e, d, own, ch)
    ensures DurableOk(CreatingNode(e, pick, labels, props), Kept(e, d, CreateNode(labels, props)), more, ch')
    ensures ch'.Keys == ch.Keys
  {
    hide Stored, TableOk, LogOf, EdgesPart, LogsPart, NodeRecs, Append, AppendOwners, AppendChains, AppendPage, FitsPage, OnCreate;
    var n := NodeRecord(e.node.next, labels, props);
    var r := NodeRec(n, false);
    more, ch' := AppendOwners(own, e.store, NodeData, r), AppendChains(e.store, NodeData, r, ch);
    AppendStep(e.store, own, ch, NodeData, r);
    NodesGrow(e.node, d.nodes, LogOf(e.store, ch, NodeData), own, more, NodeData in ch);
    EdgesGrow(e.edge, d.edges, LogOf(e.store, ch, EdgeData), own, more, EdgeData in ch);
    NodesCreate(e.node, d.nodes, LogOf(e.store, ch, NodeData), more, NodeData in ch, n,
                AppendPage(e.store, NodeData, r), OnCreate(e.node.index, pick, labels, props, n.id));
    LogsKept(e, CreatingNode(e, pick, labels, props), d, Kept(e, d, CreateNode(labels, props)), ch, ch');
  }

  /** Operations that do not append to the other families. */
  lemma LogsKept(e: State, t: State, d: Durable, k: Durable, ch: Chains, ch': Chains)
    requires LogsPart(e, d, LogOf(e.store, ch, VersionData), LogOf(e.store, ch, SubgraphData), LogOf(e.store, ch, HyperEdgeData))
    requires LogOf(t.store, ch', VersionData) == LogOf(e.store, ch, VersionData)
    requires LogOf(t.store, ch', SubgraphData) == LogOf(e.store, ch, SubgraphData)
    requires LogOf(t.store, ch', HyperEdgeData) == LogOf(e.store, ch, HyperEdgeData)
    requires t.sub == e.sub && t.hyper == e.hyper && k.history == d.history && k.sub == d.sub && k.hyper == d.hyper
    ensures LogsPart(t, k, LogOf(t.store, ch', VersionData), LogOf(t.store, ch', SubgraphData), LogOf(t.store, ch', HyperEdgeData))
  {
    hide LogOf, V.Replay, S.Replay, H.Replay, S.Sound, H.Sound;
  }

  lemma CreateEdgeKept(e: State, d: Durable, own: Owners, ch: Chains, pick: Picker, start: nat, end: nat, relType: nat, props: Props)
    returns (more: Owners, ch': Chains)
    requires DurableOk(e, d, own, ch)
    ensures DurableOk(CreatingEdge(e, pick, start, end, relType, props), Kept(e, d, CreateEdge(start, end, relType, props)), more, ch')
    ensures ch'.Keys == ch.Keys
  {
    hide Stored, TableOk, LogOf, NodesPart, LogsPart, EdgeRecs, Append, AppendOwners, AppendChains, AppendPage, FitsPage, OnCreate;
    var t, k := CreatingEdge(e, pick, start, end, relType, props), Kept(e, d, CreateEdge(start, end, relType, props));
    if start !in e.node.nodes || end !in e.node.nodes {
      more, ch' := own, ch;
      LogsKept(e, t, d, k, ch, ch');
    } else {
      var n := EdgeRecord(e.edge.next, start, end, relType, props);
      var r := EdgeRec(n, false);
      more, ch' := AppendOwners(own, e.store, EdgeData, r), AppendChains(e.store, EdgeData, r, ch);
      AppendStep(e.store, own, ch, EdgeData, r);
      NodesGrow(e.node, d.nodes, LogOf(e.store, ch, NodeData), own, more, NodeData in ch);
      EdgesGrow(e.edge, d.edges, LogOf(e.store, ch, EdgeData), own, more, EdgeData in ch);
      EdgesCreate(e.edge, d.edges, LogOf(e.store, ch, EdgeData), more, EdgeData in ch, n,
                  AppendPage(e.store, EdgeData, r), OnCreate(e.edge.index, pick, [relType], props, n.id));
      LogsKept(e, t, d, k, ch, ch');
    }
  }

  /** The snapshot before an update. */
  lemma SnapshotKept(e: State, d: Durable, own: Owners, ch: Chains, state: NodeRecord)
    returns (more: Owners, ch': Chains)
    requires DurableOk(e, d, own, ch)
    ensures DurableOk(SnapshotNode(e, state), KeepSnapshot(e, d, state), more, ch')
    ensures ch'.Keys == ch.Keys
  {
    hide Stored, TableOk, LogOf, NodesPart, EdgesPart, Append, AppendOwners, AppendChains, AppendPage, FitsPage,
         V.Replay, S.Replay, H.Replay, S.Sound, H.Sound, V.Load, V.Snapshot;
    if e.versioning {
      var n := V.NextSeq(e.history, state.id);
      var r := VersionRec(state.id, n, state);
      more, ch' := AppendOwners(own, e.store, VersionData, r), AppendChains(e.store, VersionData, r, ch);
      AppendStep(e.store, own, ch, VersionData, r);
      NodesGrow(e.node, d.nodes, LogOf(e.store, ch, NodeData), own, more, NodeData in ch);
      EdgesGrow(e.edge, d.edges, LogOf(e.store, ch, EdgeData), own, more, EdgeData in ch);
      V.ReplayAppend(LogOf(e.store, ch, VersionData), AppendPage(e.store, VersionData, r), state.id, n, state);
      assert LogOf(e.store, ch, VersionData) + [] == LogOf(e.store, ch, VersionData);
    } else {
      more, ch' := own, ch;
    }
  }

  // ---------------------------------------------------------------------------
  // Subgraphs and hyperedges
  // ---------------------------------------------------------------------------

  /** A subgraph record appended: the replayed store takes it up. */
  lemma SubAppended(e: State, d: Durable, own: Owners, ch: Chains, s: S.SubgraphStore, id: nat)
    returns (more: Owners, ch': Chains)
    requires DurableOk(e, d, own, ch)
    requires id in s.subs && id < s.next && s.subs[id].id == id && S.Sound(s) && s.next >= e.sub.next
    ensures DurableOk(e.(sub := s, store := Append(e.store, SubgraphData, SubRecord(s, id))), KeepSub(d, s, id), more, ch')
    ensures ch'.Keys == ch.Keys
  {
    hide Stored, TableOk, LogOf, NodesPart, EdgesPart, Append, AppendOwners, AppendChains, AppendPage, FitsPage,
         V.Replay, S.Replay, H.Replay, S.Sound, H.Sound, AddMany;
    var r := SubRecord(s, id);
    var log := LogOf(e.store, ch, SubgraphData);
    more, ch' := AppendOwners(own, e.store, SubgraphData, r), AppendChains(e.store, SubgraphData, r, ch);
    AppendStep(e.store, own, ch, SubgraphData, r);
    NodesGrow(e.node, d.nodes, LogOf(e.store, ch, NodeData), own, more, NodeData in ch);
    EdgesGrow(e.edge, d.edges, LogOf(e.store, ch, EdgeData), own, more, EdgeData in ch);
    S.ReplayFrom(log, e.sub.next, s.next);
    S.ReplayAppend(log, s.next, AppendPage(e.store, SubgraphData, r), s.subs[id], S.Members(s, id));
    SoundLater(d.sub, s.next);
    S.LoadStaysSound(d.sub.(next := s.next), s.subs[id], S.Members(s, id));
    assert log + [] == log;
  }

  lemma SoundLater(s: S.SubgraphStore, next: nat)
    requires S.Sound(s) && s.next <= next
    ensures S.Sound(s.(next := next))
  {
  }

  lemma CreateSubgraphKept(e: State, d: Durable, own: Owners, ch: Chains, props: Props, anchor: Option<int>)
    returns (more: Owners, ch': Chains)
    requires DurableOk(e, d, own, ch)
    ensures DurableOk(CreatingSubgraph(e, props, anchor), Kept(e, d, CreateSubgraph(props, anchor)), more, ch')
    ensures ch'.Keys == ch.Keys
  {
    hide Stored, LogOf, NodesPart, EdgesPart, Append, S.Sound, H.Sound, V.Replay, S.Replay, H.Replay, KeepSub;
    S.LoadRepeatsCreate(e.sub, anchor, props);
    more, ch' := SubAppended(e, d, own, ch, S.Create(e.sub, anchor, props), e.sub.next);
  }

  lemma AddMemberKept(e: State, d: Durable, own: Owners, ch: Chains, id: nat, node: nat)
    returns (more: Owners, ch': Chains)
    requires DurableOk(e, d, own, ch)
    ensures DurableOk(AddingMember(e, id, node), Kept(e, d, AddMember(id, node)), more, ch')
    ensures ch'.Keys == ch.Keys
  {
    hide Stored, LogOf, NodesPart, EdgesPart, Append, V.Replay, S.Replay, H.Replay, H.Sound, KeepSub, Mirrored, Add;
    if id !in e.sub.subs || node !in e.node.nodes {
      more, ch' := own, ch;
    } else {
      S.LoadRepeatsAdd(e.sub, id, node);
      more, ch' := SubAppended(e, d, own, ch, S.AddMember(e.sub, id, node), id);
    }
  }

  lemma HyperIds(h: H.HyperEdgeStore, r: HyperEdgeRecord)
    requires H.Sound(h) && r.id == h.next
    ensures H.Sound(H.Load(h, r)) && H.Sound(h.(next := r.id + 1)) && H.Load(h, r).next == r.id + 1
  {
    H.LoadStaysSound(h, r);
    hide Mirrored, AddMany;
  }

  lemma CreateHyperEdgeKept(e: State, d: Durable, own: Owners, ch: Chains,
                            relType: nat, sources: seq<Entity>, targets: seq<Entity>, props: Props)
    returns (more: Owners, ch': Chains)
    requires DurableOk(e, d, own, ch)
    ensures DurableOk(CreatingHyperEdge(e, relType, sources, targets, props),
                      Kept(e, d, CreateHyperEdge(relType, sources, targets, props)), more, ch')
    ensures ch'.Keys == ch.Keys
  {
    hide Stored, TableOk, LogOf, NodesPart, EdgesPart, Append, AppendOwners, AppendChains, AppendPage, FitsPage,
         V.Replay, S.Replay, H.Replay, S.Sound, H.Sound, AddMany, H.Create;
    var n := HyperEdgeRecord(e.hyper.next, relType, sources, targets, props);
    var r := HyperEdgeRec(n);
    var log := LogOf(e.store, ch, HyperEdgeData);
    more, ch' := AppendOwners(own, e.store, HyperEdgeData, r), AppendChains(e.store, HyperEdgeData, r, ch);
    AppendStep(e.store, own, ch, HyperEdgeData, r);
    NodesGrow(e.node, d.nodes, LogOf(e.store, ch, NodeData), own, more, NodeData in ch);
    EdgesGrow(e.edge, d.edges, LogOf(e.store, ch, EdgeData), own, more, EdgeData in ch);
    H.ReplayFrom(log, e.hyper.next, n.id + 1);
    H.ReplayAppend(log, n.id + 1, AppendPage(e.store, HyperEdgeData, r), n);
    H.LoadRepeatsCreate(e.hyper, relType, sources, targets, props);
    HyperIds(e.hyper, n);
    HyperIds(d.hyper, n);
    assert log + [] == log;
  }

  // ---------------------------------------------------------------------------
  // Rewrites
  // ---------------------------------------------------------------------------

  /** The chains that are intact after a rewrite. */
  function Intact(ch: Chains, f: Family, safe: bool): Chains {
    if safe then ch else ch - {f}
  }

  /** A safe rewrite keeps all chains; any rewrite keeps those of the other families. */
  lemma RewriteStep(s: Store, own: Owners, ch: Chains, f: Family, pid: nat, id: nat, r: Record)
    requires Stored(s, own, ch) && FamilyOf(r) == f && f != CatalogData && pid in own && own[pid] == f
    ensures var t, ch' := Rewrite(s, f, pid, id, r), Intact(ch, f, RewriteSafe(s, pid, id, r));
            && Stored(t, own, ch')
            && (forall g | g != f :: LogOf(t, ch', g) == LogOf(s, ch, g))
            && (f in ch' ==> LogOf(t, ch', f) == UpdateLog(LogOf(s, ch, f), pid, id, r))
  {
    hide ChainStored, Covered, Owned, Rewrite, RewriteSafe, UpdateLog, Entries;
    if f in ch && RewriteSafe(s, pid, id, r) {
      StoredRewrite(s, own, ch, f, pid, id, r);
    } else {
      StoredRewriteElsewhere(s, own, ch, f, pid, id, r);
      if f !in ch {
        assert ch - {f} == ch;
      }
    }
  }

  lemma NodesRewritten(n: NodeStore, kept: map<nat, NodeRecord>, log: seq<Entry>, after: seq<Entry>, own: Owners, intact: bool, safe: bool,
                       r: NodeRecord, deleted: bool, index: Manager)
    requires NodesPart(n, kept, log, own, intact) && r.id in n.nodes
    requires intact && safe ==> r.id in n.pageOf && after == UpdateLog(log, n.pageOf[r.id], r.id, NodeRec(r, deleted))
    ensures if deleted
            then NodesPart(n.(nodes := n.nodes - {r.id}, index := index), kept - {r.id}, after, own, intact && safe)
            else NodesPart(n.(nodes := n.nodes[r.id := r], index := index), WithRecord(kept, r.id, r.id in kept, r), after, own, intact && safe)
  {
    hide TableOk, NodeRecs, UpdateLog;
    if intact && safe {
      NodesReplace(n, kept, log, own, r, deleted, index);
    } else if deleted {
      NodesDamaged(n, n.(nodes := n.nodes - {r.id}, index := index), kept, kept - {r.id}, log, after, own, intact);
    } else {
      NodesDamaged(n, n.(nodes := n.nodes[r.id := r], index := index), kept, WithRecord(kept, r.id, r.id in kept, r), log, after, own, intact);
    }
  }

  lemma NodePage(n: NodeStore, kept: map<nat, NodeRecord>, log: seq<Entry>, own: Owners, intact: bool, id: nat)
    requires NodesPart(n, kept, log, own, intact) && id in n.nodes
    ensures id in n.pageOf && n.pageOf[id] in own && own[n.pageOf[id]] == NodeData
  {
    hide TableOk;
  }

  /** A node in memory replaced or removed, then its record on the page. */
  lemma NodeRewritten(e: State, d: Durable, own: Owners, ch: Chains, r: NodeRecord, deleted: bool, index: Manager)
    returns (ch': Chains)
    requires DurableOk(e, d, own, ch) && r.id in e.node.nodes
    ensures var nodes := if deleted then e.node.nodes - {r.id} else e.node.nodes[r.id := r];
            var kept := if deleted then d.nodes - {r.id} else WithRecord(d.nodes, r.id, r.id in d.nodes, r);
            DurableOk(RewriteNode(e.(node := e.node.(nodes := nodes, index := index)), r, deleted), d.(nodes := kept), own, ch')
    ensures SafeNode(e, r, deleted) ==> ch'.Keys == ch.Keys
    ensures ch'.Keys == ch.Keys || ch'.Keys == ch.Keys - {NodeData}
  {
    hide Stored, LogOf, NodesPart, EdgesPart, LogsPart, Rewrite, RewriteSafe, UpdateLog;
    var log := LogOf(e.store, ch, NodeData);
    NodePage(e.node, d.nodes, log, own, NodeData in ch, r.id);
    var pid, rec := e.node.pageOf[r.id], NodeRec(r, deleted);
    var safe := RewriteSafe(e.store, pid, r.id, rec);
    RewriteStep(e.store, own, ch, NodeData, pid, r.id, rec);
    ch' := Intact(ch, NodeData, safe);
    var after := LogOf(Rewrite(e.store, NodeData, pid, r.id, rec), ch', NodeData);
    NodesRewritten(e.node, d.nodes, log, after, own, NodeData in ch, safe, r, deleted, index);
    var nodes := if deleted then e.node.nodes - {r.id} else e.node.nodes[r.id := r];
    var kept := if deleted then d.nodes - {r.id} else WithRecord(d.nodes, r.id, r.id in d.nodes, r);
    LogsKept(e, RewriteNode(e.(node := e.node.(nodes := nodes, index := index)), r, deleted), d, d.(nodes := kept), ch, ch');
  }

  lemma EdgesRewritten(n: EdgeStore, kept: map<nat, EdgeRecord>, log: seq<Entry>, after: seq<Entry>, own: Owners, intact: bool, safe: bool,
                       r: EdgeRecord, deleted: bool, index: Manager)
    requires EdgesPart(n, kept, log, own, intact) && r.id in n.edges
    requires intact && safe ==> r.id in n.pageOf && after == UpdateLog(log, n.pageOf[r.id], r.id, EdgeRec(r, deleted))
    ensures if deleted
            then EdgesPart(n.(edges := n.edges - {r.id}, index := index), kept - {r.id}, after, own, intact && safe)
            else EdgesPart(n.(edges := n.edges[r.id := r], index := index), WithRecord(kept, r.id, r.id in kept, r), after, own, intact && safe)
  {
    hide TableOk, EdgeRecs, UpdateLog;
    if intact && safe {
      EdgesReplace(n, kept, log, own, r, deleted, index);
    } else if deleted {
      EdgesDamaged(n, n.(edges := n.edges - {r.id}, index := index), kept, kept - {r.id}, log, after, own, intact);
    } else {
      EdgesDamaged(n, n.(edges := n.edges[r.id := r], index := index), kept, WithRecord(kept, r.id, r.id in kept, r), log, after, own, intact);
    }
  }

  lemma EdgePage(n: EdgeStore, kept: map<nat, EdgeRecord>, log: seq<Entry>, own: Owners, intact: bool, id: nat)
    requires EdgesPart(n, kept, log, own, intact) && id in n.edges
    ensures id in n.pageOf && n.pageOf[id] in own && own[n.pageOf[id]] == EdgeData
  {
    hide TableOk;
  }

  lemma EdgeRewritten(e: State, d: Durable, own: Owners, ch: Chains, r: EdgeRecord, deleted: bool, index: Manager)
    returns (ch': Chains)
    requires DurableOk(e, d, own, ch) && r.id in e.edge.edges
    ensures var edges := if deleted then e.edge.edges - {r.id} else e.edge.edges[r.id := r];
            var kept := if deleted then d.edges - {r.id} else WithRecord(d.edges, r.id, r.id in d.edges, r);
            DurableOk(RewriteEdge(e.(edge := e.edge.(edges := edges, index := index)), r, deleted), d.(edges := kept), own, ch')
    ensures SafeEdge(e, r, deleted) ==> ch'.Keys == ch.Keys
    ensures ch'.Keys == ch.Keys || ch'.Keys == ch.Keys - {EdgeData}
  {
    hide Stored, LogOf, NodesPart, EdgesPart, LogsPart, Rewrite, RewriteSafe, UpdateLog;
    var log := LogOf(e.store, ch, EdgeData);
    EdgePage(e.edge, d.edges, log, own, EdgeData in ch, r.id);
    var pid, rec := e.edge.pageOf[r.id], EdgeRec(r, deleted);
    var safe := RewriteSafe(e.store, pid, r.id, rec);
    RewriteStep(e.store, own, ch, EdgeData, pid, r.id, rec);
    ch' := Intact(ch, EdgeData, safe);
    var after := LogOf(Rewrite(e.store, EdgeData, pid, r.id, rec), ch', EdgeData);
    EdgesRewritten(e.edge, d.edges, log, after, own, EdgeData in ch, safe, r, deleted, index);
    var edges := if deleted then e.edge.edges - {r.id} else e.edge.edges[r.id := r];
    var kept := if deleted then d.edges - {r.id} else WithRecord(d.edges, r.id, r.id in d.edges, r);
    LogsKept(e, RewriteEdge(e.(edge := e.edge.(edges := edges, index := index)), r, deleted), d, d.(edges := kept), ch, ch');
  }

  lemma SnapshotKeepsSafety(e: State, d: Durable, own: Owners, ch: Chains, state: NodeRecord, r: NodeRecord)
    requires DurableOk(e, d, own, ch) && r.id in e.node.nodes
    ensures SafeNode(SnapshotNode(e, state), r, false) == SafeNode(e, r, false)
  {
    hide TableOk, LogOf, EdgesPart, LogsPart, RewriteSafe, Append, Owned, ChainStored, Covered;
    if e.versioning {
      AppendKeepsSafety(e.store, own, VersionData, VersionRec(state.id, V.NextSeq(e.history, state.id), state),
                        e.node.pageOf[r.id], r.id, NodeRec(r, false));
    }
  }

  lemma UpdateNodeKept(e: State, d: Durable, own: Owners, ch: Chains, pick: Picker, id: nat, props: Props)
    returns (more: Owners, ch': Chains)
    requires DurableOk(e, d, own, ch)
    ensures DurableOk(UpdatingNode(e, pick, id, props), Kept(e, d, UpdateNode(id, props)), more, ch')
    ensures SafeOp(e, UpdateNode(id, props)) ==> ch'.Keys == ch.Keys
    ensures ch'.Keys == ch.Keys || ch'.Keys == ch.Keys - {NodeData}
  {
    hide DurableOk, SafeNode, RewriteNode, OnUpdate;
    if id !in e.node.nodes {
      more, ch' := own, ch;
    } else {
      var state := e.node.nodes[id];
      IdIs(e, d, own, ch, id);
      var r := state.(props := props);
      more, ch' := SnapshotKept(e, d, own, ch, state);
      SnapshotKeepsSafety(e, d, own, ch, state, r);
      ch' := NodeRewritten(SnapshotNode(e, state), KeepSnapshot(e, d, state), more, ch', r, false,
                           OnUpdate(e.node.index, pick, state.labels, state.props, props, id));
    }
  }

  lemma IdIs(e: State, d: Durable, own: Owners, ch: Chains, id: nat)
    requires DurableOk(e, d, own, ch)
    ensures id in e.node.nodes ==> e.node.nodes[id].id == id
    ensures id in e.edge.edges ==> e.edge.edges[id].id == id
  {
    hide Stored, TableOk, LogOf, LogsPart;
  }

  lemma CascadeKept(e: State, d: Durable, own: Owners, ch: Chains, node: nat)
    requires DurableOk(e, d, own, ch)
    ensures DurableOk(DropIncident(e, node), d, own, ch)
  {
    hide Stored, NodesPart, EdgesPart, LogOf;
    EdgesForget(e.edge, d.edges, LogOf(e.store, ch, EdgeData), own, EdgeData in ch, Incident(e.edge.edges, node));
    LogsKept(e, DropIncident(e, node), d, d, ch, ch);
  }

  lemma DeleteNodeKept(e: State, d: Durable, own: Owners, ch: Chains, pick: Picker, id: nat)
    returns (more: Owners, ch': Chains)
    requires DurableOk(e, d, own, ch)
    ensures DurableOk(DeletingNode(e, pick, id), Kept(e, d, DeleteNode(id)), more, ch')
    ensures SafeOp(e, DeleteNode(id)) ==> ch'.Keys == ch.Keys
    ensures ch'.Keys == ch.Keys || ch'.Keys == ch.Keys - {NodeData}
  {
    hide DurableOk, RewriteNode, OnDelete, RewriteSafe;
    CascadeKept(e, d, own, ch, id);
    more, ch' := own, ch;
    if id in e.node.nodes {
      IdIs(e, d, own, ch, id);
      var state := e.node.nodes[id];
      ch' := NodeRewritten(DropIncident(e, id), d, own, ch, state, true,
                           OnDelete(e.node.index, pick, state.labels, state.props, id));
    }
  }

  lemma UpdateEdgeKept(e: State, d: Durable, own: Owners, ch: Chains, pick: Picker, id: nat, props: Props)
    returns (more: Owners, ch': Chains)
    requires DurableOk(e, d, own, ch)
    ensures DurableOk(UpdatingEdge(e, pick, id, props), Kept(e, d, UpdateEdge(id, props)), more, ch')
    ensures SafeOp(e, UpdateEdge(id, props)) ==> ch'.Keys == ch.Keys
    ensures ch'.Keys == ch.Keys || ch'.Keys == ch.Keys - {EdgeData}
  {
    hide DurableOk, RewriteEdge, OnUpdate, RewriteSafe;
    more, ch' := own, ch;
    if id in e.edge.edges {
      IdIs(e, d, own, ch, id);
      var state := e.edge.edges[id];
      ch' := EdgeRewritten(e, d, own, ch, state.(props := props), false,
                           OnUpdate(e.edge.index, pick, [state.relType], state.props, props, id));
    }
  }

  lemma DeleteEdgeKept(e: State, d: Durable, own: Owners, ch: Chains, pick: Picker, id: nat)
    returns (more: Owners, ch': Chains)
    requires DurableOk(e, d, own, ch)
    ensures DurableOk(DeletingEdge(e, pick, id), Kept(e, d, DeleteEdge(id)), more, ch')
    ensures SafeOp(e, DeleteEdge(id)) ==> ch'.Keys == ch.Keys
    ensures ch'.Keys == ch.Keys || ch'.Keys == ch.Keys - {EdgeData}
  {
    hide DurableOk, RewriteEdge, OnDelete, RewriteSafe;
    more, ch' := own, ch;
    if id in e.edge.edges {
      IdIs(e, d, own, ch, id);
      var state := e.edge.edges[id];
      ch' := EdgeRewritten(e, d, own, ch, state, true, OnDelete(e.edge.index, pick, [state.relType], state.props, id));
    }
  }

  // ---------------------------------------------------------------------------
  // Memory only, checkpoint, and reopening
  // ---------------------------------------------------------------------------

  /** Operations that touch neither pages nor the tables. */
  ghost predicate SameData(e: State, t: State) {
    && t.store == e.store
    && t.node.nodes == e.node.nodes && t.node.pageOf == e.node.pageOf && t.node.next == e.node.next
    && t.edge.edges == e.edge.edges && t.edge.pageOf == e.edge.pageOf && t.edge.next == e.edge.next
    && t.edge.headerNext == e.edge.headerNext
    && t.sub.next == e.sub.next && t.hyper.next == e.hyper.next && S.Sound(t.sub) && H.Sound(t.hyper)
  }

  lemma SameDataKept(e: State, t: State, d: Durable, own: Owners, ch: Chains)
    requires DurableOk(e, d, own, ch) && SameData(e, t)
    ensures DurableOk(t, d, own, ch)
  {
    hide Stored, TableOk, LogOf, V.Replay, S.Replay, H.Replay, S.Sound, H.Sound;
  }

  lemma MemoryOpKept(e: State, d: Durable, own: Owners, ch: Chains, pick: Picker, op: Op)
    requires DurableOk(e, d, own, ch)
    requires op.CreateNodeIndex? || op.CreateEdgeIndex? || op.DropIndex? || op.SetCatalog?
             || op.RemoveMember? || op.DeleteSubgraph? || op.DeleteHyperEdge?
    ensures DurableOk(Step(e, pick, op), Kept(e, d, op), own, ch)
  {
    hide DurableOk, S.Sound, H.Sound, CreateIndex, S.RemoveMember, S.Delete, H.Delete,
         CreatingNode, UpdatingNode, DeletingNode, CreatingEdge, UpdatingEdge, DeletingEdge, CreatingSubgraph, AddingMember,
         CreatingHyperEdge, Reopening, Checkpoint, KeepSub, KeepHyper, KeepSnapshot;
    StoresSound(e, d, own, ch);
    if op.RemoveMember? {
      S.RemovalsStaySound(e.sub, op.id, op.node);
      SubKeepsNext(e.sub, op.id, op.node);
    } else if op.DeleteSubgraph? {
      S.RemovalsStaySound(e.sub, op.id, 0);
      SubKeepsNext(e.sub, op.id, 0);
    } else if op.DeleteHyperEdge? {
      H.DeleteStaysSound(e.hyper, op.id);
      HyperKeepsNext(e.hyper, op.id);
    }
    SameDataKept(e, Step(e, pick, op), d, own, ch);
  }

  lemma StoresSound(e: State, d: Durable, own: Owners, ch: Chains)
    requires DurableOk(e, d, own, ch)
    ensures S.Sound(e.sub) && H.Sound(e.hyper) && S.Sound(d.sub) && H.Sound(d.hyper)
  {
    hide Stored, NodesPart, EdgesPart, LogOf, S.Sound, H.Sound;
  }

  lemma SubKeepsNext(s: S.SubgraphStore, id: nat, node: nat)
    ensures S.RemoveMember(s, id, node).next == s.next && S.Delete(s, id).next == s.next
  {
  }

  lemma HyperKeepsNext(s: H.HyperEdgeStore, id: nat)
    ensures H.Delete(s, id).next == s.next
  {
  }

  lemma CheckpointKept(e: State, d: Durable, own: Owners, ch: Chains)
    requires DurableOk(e, d, own, ch)
    ensures DurableOk(e.(store := Checkpoint(e.store)), d, own, ch)
  {
    hide Stored, NodesPart, EdgesPart, Checkpoint, Entries;
    StoredCheckpoint(e.store, own, ch);
    LogsKept(e, e.(store := Checkpoint(e.store)), d, d, ch, ch);
  }

  /** All entries are of one family and on its pages. */
  ghost predicate OfFamily(log: seq<Entry>, own: Owners, f: Family) {
    forall k | 0 <= k < |log| :: FamilyOf(log[k].1) == f && log[k].0 in own && own[log[k].0] == f
  }

  lemma LoadedOwned(s: Store, own: Owners, f: Family)
    requires Owned(s, own)
    ensures OfFamily(Loaded(s, f), own, f)
  {
    if f in s.roots {
      WalkOwned(s.main, own, s.roots[f], s.pageCount);
    }
  }

  lemma {:induction false} LoadedFiled(log: seq<Entry>, own: Owners, f: Family)
    requires OfFamily(log, own, f)
    ensures LoadRecords(log).Keys == LoadPages(log).Keys
    ensures PagesMapped(LoadPages(log), own, f)
    ensures forall id | id in LoadRecords(log) ::
      FamilyOf(LoadRecords(log)[id]) == f && IdOf(LoadRecords(log)[id]) == id && !Deleted(LoadRecords(log)[id])
  {
    if log != [] {
      var front := log[..|log| - 1];
      assert forall k | 0 <= k < |front| :: front[k] == log[k];
      LoadedFiled(front, own, f);
    }
  }

  lemma NodesReloaded(n: NodeStore, kept: map<nat, NodeRecord>, log: seq<Entry>, own: Owners, more: Owners, loaded: seq<Entry>, intact: bool)
    requires NodesPart(n, kept, log, own, intact) && OfFamily(loaded, more, NodeData) && (intact ==> loaded == log)
    ensures var t := NodeStore(NodesOf(LoadRecords(loaded)), n.next, LoadPages(loaded), map[]);
            && NodesPart(t, kept, log, more, intact)
            && (intact ==> t.nodes == kept && t.pageOf == map id | id in kept && id in n.pageOf :: n.pageOf[id])
  {
    hide LoadRecords, LoadPages, TableOk;
    LoadedFiled(loaded, more, NodeData);
    if intact {
      LoadFindsTable(log, NodeRecs(kept), n.nodes.Keys, n.pageOf, n.next);
      ReloadKeepsTable(log, NodeRecs(kept), n.nodes.Keys, n.pageOf, n.next);
      assert NodesOf(NodeRecs(kept)) == kept;
      assert NodeRecs(kept).Keys == kept.Keys;
    }
  }

  lemma EdgesReloaded(n: EdgeStore, kept: map<nat, EdgeRecord>, log: seq<Entry>, own: Owners, more: Owners, loaded: seq<Entry>, intact: bool)
    requires EdgesPart(n, kept, log, own, intact) && OfFamily(loaded, more, EdgeData) && (intact ==> loaded == log)
    ensures var t := EdgeStore(EdgesOf(LoadRecords(loaded)), n.headerNext, n.headerNext, LoadPages(loaded), map[]);
            && EdgesPart(t, kept, log, more, intact)
            && (intact ==> t.edges == kept && t.pageOf == map id | id in kept && id in n.pageOf :: n.pageOf[id])
  {
    hide LoadRecords, LoadPages, TableOk;
    LoadedFiled(loaded, more, EdgeData);
    if intact {
      LoadFindsTable(log, EdgeRecs(kept), n.edges.Keys, n.pageOf, n.headerNext);
      ReloadKeepsTable(log, EdgeRecs(kept), n.edges.Keys, n.pageOf, n.headerNext);
      TableIds(log, EdgeRecs(kept), n.edges.Keys, n.pageOf, n.headerNext);
      assert EdgesOf(EdgeRecs(kept)) == kept;
      assert EdgeRecs(kept).Keys == kept.Keys;
    }
  }

  /** Closing and opening brings back the durable data. */
  lemma ReopenKept(e: State, d: Durable, own: Owners, ch: Chains)
    returns (more: Owners)
    requires DurableOk(e, d, own, ch)
    ensures DurableOk(Reopening(e), d, more, ch)
    ensures var t := Reopening(e);
            && t.history == d.history && t.sub == d.sub && t.hyper == d.hyper
            && (NodeData in ch ==> t.node.nodes == d.nodes
                                   && t.node.pageOf == map id | id in d.nodes && id in e.node.pageOf :: e.node.pageOf[id])
            && (EdgeData in ch ==> t.edge.edges == d.edges
                                   && t.edge.pageOf == map id | id in d.edges && id in e.edge.pageOf :: e.edge.pageOf[id])
  {
    hide ChainStored, Covered, TableOk, NodesPart, EdgesPart, Closed, LogOf, Loaded, LoadRecords, LoadPages, NodesOf, EdgesOf,
         V.Replay, S.Replay, H.Replay, S.Sound, H.Sound, LoadCatalog, SavedOwners, OfFamily, Owned;
    var s := Closed(e.store, e.catalog);
    more := SavedOwners(own, e.store, e.catalog);
    StoredClosed(e.store, own, ch, e.catalog);
    NoLog(e.store, s, ch);
    LoadedOwned(s, more, NodeData);
    LoadedOwned(s, more, EdgeData);
    NodesReloaded(e.node, d.nodes, LogOf(e.store, ch, NodeData), own, more, Loaded(s, NodeData), NodeData in ch);
    EdgesReloaded(e.edge, d.edges, LogOf(e.store, ch, EdgeData), own, more, Loaded(s, EdgeData), EdgeData in ch);
    ClosedIs(e);
  }

  lemma NoLog(s: Store, t: Store, ch: Chains)
    ensures forall g | g !in ch :: LogOf(s, ch, g) == LogOf(t, ch, g)
  {
  }

  lemma ClosedIs(e: State)
    ensures Reopening(e) == Opened(Closed(e.store, e.catalog), e.node.next, e.edge.headerNext, e.sub.next, e.hyper.next, e.versioning)
  {
  }
}
