/** Ids in every reachable state: below the next id, in memory and in every record on any copy
    of any page, so that every open starts a session. */
module Sessions {
  import opened Wrappers
  import opened Graph
  import opened Indexes
  import opened Pages
  import opened PageChains
  import opened PageLogs
  import opened Tables
  import opened Engine
  import opened IndexRuns
  import V = Versions
  import S = Subgraphs
  import H = HyperEdges

  // ---------------------------------------------------------------------------
  // Records on pages
  // ---------------------------------------------------------------------------

  /** Node records are below `n` and edge records below `m`. */
  predicate Below(r: Record, n: nat, m: nat) {
    (r.NodeRec? ==> r.node.id < n) && (r.EdgeRec? ==> r.edge.id < m)
  }

  predicate PageBelow(page: Page, n: nat, m: nat) {
    forall i | 0 <= i < |page.recs| :: Below(page.recs[i], n, m)
  }

  ghost predicate FileBelow(file: map<nat, Page>, n: nat, m: nat) {
    forall p | p in file :: PageBelow(file[p], n, m)
  }

  ghost predicate StoreBelow(s: Store, n: nat, m: nat) {
    && FileBelow(s.main, n, m)
    && (forall i | 0 <= i < |s.wal| :: PageBelow(s.wal[i].page, n, m))
    && (forall f | f in s.current :: PageBelow(s.current[f].page, n, m))
  }

  lemma BelowMore(s: Store, n: nat, m: nat, n': nat, m': nat)
    requires StoreBelow(s, n, m) && n <= n' && m <= m'
    ensures StoreBelow(s, n', m')
  {
    forall page | PageBelow(page, n, m)
      ensures PageBelow(page, n', m')
    {
    }
    hide PageBelow;
  }

  lemma BelowLog(s: Store, pid: nat, page: Page, n: nat, m: nat)
    requires StoreBelow(s, n, m) && PageBelow(page, n, m)
    ensures StoreBelow(Log(s, pid, page), n, m)
  {
    hide PageBelow;
  }

  lemma BelowAppend(s: Store, f: Family, r: Record, n: nat, m: nat)
    requires StoreBelow(s, n, m) && Below(r, n, m)
    ensures StoreBelow(Append(s, f, r), n, m)
  {
    hide StoreBelow, HasRoom;
    if FitsCurrent(s, f, r) {
      BelowAppendCurrent(s, f, r, n, m);
    } else {
      BelowAppendNew(s, f, r, n, m);
    }
  }

  lemma BelowPack(page: Page, r: Record, n: nat, m: nat)
    requires PageBelow(page, n, m) && Below(r, n, m)
    ensures PageBelow(Pack(page, r), n, m)
  {
    hide HasRoom, Below;
  }

  lemma BelowAppendCurrent(s: Store, f: Family, r: Record, n: nat, m: nat)
    requires StoreBelow(s, n, m) && Below(r, n, m) && f in s.current
    ensures StoreBelow(AppendCurrent(s, f, r), n, m)
  {
    BelowPack(s.current[f].page, r, n, m);
    BelowLog(s, s.current[f].pid, Pack(s.current[f].page, r), n, m);
    hide PageBelow, Pack;
  }

  lemma BelowAppendNew(s: Store, f: Family, r: Record, n: nat, m: nat)
    requires StoreBelow(s, n, m) && Below(r, n, m)
    ensures StoreBelow(AppendNew(s, f, r), n, m)
  {
    var page := Pack(Page(Some(f), 0, []), r);
    BelowPack(Page(Some(f), 0, []), r, n, m);
    assert PageBelow(ZERO_PAGE, n, m);
    assert f in s.current ==> PageBelow(s.current[f].page.(next := s.pageCount), n, m);
    hide PageBelow, Pack;
    var a := Allocate(s);
    if f in s.current {
      BelowLog(a, s.current[f].pid, s.current[f].page.(next := s.pageCount), n, m);
    }
    BelowLog(LinkNew(a, f, s.pageCount), s.pageCount, page, n, m);
  }

  lemma {:induction false} BelowPackAll(page: Page, recs: seq<Record>, n: nat, m: nat)
    requires PageBelow(page, n, m) && forall i | 0 <= i < |recs| :: Below(recs[i], n, m)
    ensures PageBelow(PackAll(page, recs), n, m)
  {
    hide Pack, Below;
    if recs != [] {
      BelowPackAll(page, recs[..|recs| - 1], n, m);
      BelowPack(PackAll(page, recs[..|recs| - 1]), recs[|recs| - 1], n, m);
    }
  }

  lemma BelowRewrite(s: Store, f: Family, pid: nat, id: nat, r: Record, n: nat, m: nat)
    requires StoreBelow(s, n, m) && Below(r, n, m)
    ensures StoreBelow(Rewrite(s, f, pid, id, r), n, m)
  {
    var read := ReadDataPage(s, pid);
    assert PageBelow(read, n, m);
    ReplacedAt(read.recs, id, r);
    BelowPackAll(Page(read.kind, read.next, []), Replaced(read.recs, id, r), n, m);
    BelowLog(s, pid, Rebuilt(read, id, r), n, m);
    hide PageBelow, Rebuilt, ReadDataPage, Replaced, PackAll;
  }

  lemma {:induction false} BelowOverlay(main: map<nat, Page>, wal: seq<Frame>, n: nat, m: nat)
    requires FileBelow(main, n, m) && forall i | 0 <= i < |wal| :: PageBelow(wal[i].page, n, m)
    ensures FileBelow(Overlay(main, wal), n, m)
  {
    hide PageBelow;
    if wal != [] {
      BelowOverlay(main, wal[..|wal| - 1], n, m);
    }
  }

  lemma {:induction false} BelowChunks(s: Store, prev: Cached, bytes: seq<Byte>, n: nat, m: nat)
    requires StoreBelow(s, n, m) && PageBelow(prev.page, n, m)
    ensures StoreBelow(SaveChunks(s, prev, bytes), n, m)
    decreases |bytes|
  {
    if bytes == [] {
      BelowLog(s, prev.pid, prev.page, n, m);
    } else {
      var k := if |bytes| < CAPACITY then |bytes| else CAPACITY;
      var linked := prev.page.(next := s.pageCount);
      assert PageBelow(ZERO_PAGE, n, m) && PageBelow(linked, n, m) && PageBelow(CatalogPage(bytes[..k]), n, m);
      hide PageBelow, CatalogPage;
      BelowLog(Allocate(s), prev.pid, linked, n, m);
      BelowChunks(Log(Allocate(s), prev.pid, linked), Cached(s.pageCount, CatalogPage(bytes[..k])), bytes[k..], n, m);
    }
  }

  lemma BelowCatalog(s: Store, bytes: seq<Byte>, n: nat, m: nat)
    requires StoreBelow(s, n, m)
    ensures StoreBelow(SaveCatalog(s, bytes), n, m)
  {
    if bytes != [] {
      var k := if |bytes| < CAPACITY then |bytes| else CAPACITY;
      assert PageBelow(ZERO_PAGE, n, m) && PageBelow(CatalogPage(bytes[..k]), n, m);
      hide PageBelow, CatalogPage, SaveChunks;
      BelowChunks(Allocate(s), Cached(s.pageCount, CatalogPage(bytes[..k])), bytes[k..], n, m);
    }
  }

  lemma {:induction false} BelowWalk(file: map<nat, Page>, pid: nat, bound: nat, n: nat, m: nat)
    requires FileBelow(file, n, m)
    ensures forall i | 0 <= i < |Walk(file, pid, bound)| :: Below(Walk(file, pid, bound)[i].1, n, m)
    ensures PageBelow(WalkEnd(file, pid, bound).page, n, m)
    decreases bound - pid
  {
    if pid in file && pid < bound {
      assert PageBelow(file[pid], n, m);
      if file[pid].next != 0 && file[pid].next > pid {
        BelowWalk(file, file[pid].next, bound, n, m);
      }
    }
  }

  lemma BelowReopened(s: Store, n: nat, m: nat)
    requires StoreBelow(s, n, m)
    ensures StoreBelow(Reopened(s), n, m)
  {
    BelowOverlay(s.main, s.wal, n, m);
    forall p, b
      ensures PageBelow(WalkEnd(View(s), p, b).page, n, m)
    {
      BelowWalk(View(s), p, b, n, m);
    }
    hide PageBelow, Overlay, WalkEnd;
  }

  // ---------------------------------------------------------------------------
  // The engine
  // ---------------------------------------------------------------------------

  ghost predicate Bounded(e: State) {
    && StoreBelow(e.store, e.node.next, e.edge.headerNext)
    && (forall id | id in e.node.nodes :: id < e.node.next && e.node.nodes[id].id == id)
    && (forall id | id in e.edge.edges :: id < e.edge.headerNext && e.edge.edges[id].id == id)
    && e.edge.headerNext <= e.edge.next
  }

  lemma {:induction false} LoadedBelow(log: seq<Entry>, n: nat, m: nat)
    requires forall i | 0 <= i < |log| :: Below(log[i].1, n, m)
    ensures forall id | id in LoadRecords(log) :: IdOf(LoadRecords(log)[id]) == id && Below(LoadRecords(log)[id], n, m)
  {
    hide Below, IdOf, Deleted;
    if log != [] {
      LoadedBelow(log[..|log| - 1], n, m);
    }
  }

  lemma OpenedTables(s: Store, n: nat, m: nat)
    requires StoreBelow(s, n, m)
    ensures var nodes := NodesOf(LoadRecords(Loaded(s, NodeData)));
            forall id | id in nodes :: id < n && nodes[id].id == id
    ensures var edges := EdgesOf(LoadRecords(Loaded(s, EdgeData)));
            forall id | id in edges :: id < m && edges[id].id == id
  {
    forall f
      ensures forall i | 0 <= i < |Loaded(s, f)| :: Below(Loaded(s, f)[i].1, n, m)
    {
      if f in s.roots {
        BelowWalk(s.main, s.roots[f], s.pageCount, n, m);
      }
    }
    LoadedBelow(Loaded(s, NodeData), n, m);
    LoadedBelow(Loaded(s, EdgeData), n, m);
    hide Loaded, LoadRecords;
  }

  lemma ReopenBounded(e: State)
    requires Bounded(e)
    ensures Bounded(Reopening(e)) && JustOpened(Reopening(e))
  {
    var n, m := e.node.next, e.edge.headerNext;
    var s := Reopened(SaveCatalog(e.store, e.catalog));
    BelowCatalog(e.store, e.catalog, n, m);
    BelowReopened(SaveCatalog(e.store, e.catalog), n, m);
    OpenedTables(s, n, m);
    OpenedIs(e);
    hide StoreBelow, Reopened, SaveCatalog, Loaded, LoadRecords, NodesOf, EdgesOf, Reopening;
  }

  lemma OpenedIs(e: State)
    ensures var t, s := Reopening(e), Reopened(SaveCatalog(e.store, e.catalog));
            && t.store == s && t.node.index == map[] && t.edge.index == map[]
            && t.node.next == e.node.next && t.edge.next == e.edge.headerNext && t.edge.headerNext == e.edge.headerNext
            && t.node.nodes == NodesOf(LoadRecords(Loaded(s, NodeData)))
            && t.edge.edges == EdgesOf(LoadRecords(Loaded(s, EdgeData)))
  {
    hide Reopened, SaveCatalog, Loaded, LoadRecords, NodesOf, EdgesOf;
  }

  lemma RewriteNodeBounded(e: State, r: NodeRecord, deleted: bool)
    requires Bounded(e) && r.id < e.node.next
    ensures Bounded(RewriteNode(e, r, deleted))
  {
    var n, m := e.node.next, e.edge.headerNext;
    if r.id in e.node.pageOf {
      BelowRewrite(e.store, NodeData, e.node.pageOf[r.id], r.id, NodeRec(r, deleted), n, m);
    } else {
      BelowAppend(e.store, NodeData, NodeRec(r, deleted), n, m);
    }
    hide StoreBelow, Append, AppendPage, Rewrite;
  }

  lemma RewriteEdgeBounded(e: State, r: EdgeRecord, deleted: bool)
    requires Bounded(e) && r.id < e.edge.headerNext
    ensures Bounded(RewriteEdge(e, r, deleted))
  {
    var n, m := e.node.next, e.edge.headerNext;
    if r.id in e.edge.pageOf {
      BelowRewrite(e.store, EdgeData, e.edge.pageOf[r.id], r.id, EdgeRec(r, deleted), n, m);
    } else {
      BelowAppend(e.store, EdgeData, EdgeRec(r, deleted), n, m);
    }
    hide StoreBelow, Append, AppendPage, Rewrite;
  }

  lemma CreateBounded(e: State, pick: Picker, op: Op)
    requires Bounded(e) && (op.CreateNode? || op.CreateEdge?)
    ensures Bounded(Step(e, pick, op))
  {
    hide StoreBelow, Append, AppendPage, OnCreate;
    var n, m := e.node.next, e.edge.headerNext;
    match op
    case CreateNode(labels, props) =>
      BelowMore(e.store, n, m, n + 1, m);
      BelowAppend(e.store, NodeData, NodeRec(NodeRecord(n, labels, props), false), n + 1, m);
    case CreateEdge(start, end, relType, props) =>
      var id := e.edge.next;
      BelowMore(e.store, n, m, n, id + 1);
      BelowAppend(e.store, EdgeData, EdgeRec(EdgeRecord(id, start, end, relType, props), false), n, id + 1);
  }

  lemma NodeBounded(e: State, pick: Picker, op: Op)
    requires Bounded(e) && (op.UpdateNode? || op.DeleteNode?)
    ensures Bounded(Step(e, pick, op))
  {
    hide StoreBelow, Append, AppendPage, OnUpdate, OnDelete, RewriteNode, Incident;
    match op
    case UpdateNode(id, props) =>
      if id in e.node.nodes {
        var state := e.node.nodes[id];
        BelowAppend(e.store, VersionData, VersionRec(state.id, V.NextSeq(e.history, state.id), state), e.node.next, e.edge.headerNext);
        RewriteNodeBounded(SetNode(SnapshotNode(e, state), pick, state, props), state.(props := props), false);
      }
    case DeleteNode(id) =>
      if id in e.node.nodes {
        RewriteNodeBounded(DropNode(DropIncident(e, id), pick, e.node.nodes[id]), e.node.nodes[id], true);
      }
  }

  lemma EdgeBounded(e: State, pick: Picker, op: Op)
    requires Bounded(e) && (op.UpdateEdge? || op.DeleteEdge?)
    ensures Bounded(Step(e, pick, op))
  {
    hide StoreBelow, OnUpdate, OnDelete, RewriteEdge;
    match op
    case UpdateEdge(id, props) =>
      if id in e.edge.edges {
        var state := e.edge.edges[id];
        RewriteEdgeBounded(e.(edge := e.edge.(edges := e.edge.edges[id := state.(props := props)],
                                              index := OnUpdate(e.edge.index, pick, [state.relType], state.props, props, id))),
                           state.(props := props), false);
      }
    case DeleteEdge(id) =>
      if id in e.edge.edges {
        var state := e.edge.edges[id];
        RewriteEdgeBounded(e.(edge := e.edge.(edges := e.edge.edges - {id},
                                              index := OnDelete(e.edge.index, pick, [state.relType], state.props, id))),
                           state, true);
      }
  }

  /** Operations whose records, if any, are neither of nodes nor of edges. */
  lemma OtherBounded(e: State, pick: Picker, op: Op)
    requires Bounded(e)
    requires op.CreateSubgraph? || op.AddMember? || op.CreateHyperEdge? || op.RunCheckpoint?
    ensures Bounded(Step(e, pick, op))
  {
    hide StoreBelow, Append, S.Create, S.AddMember, S.Members, H.Create;
    var n, m := e.node.next, e.edge.headerNext;
    match op
    case CreateSubgraph(props, anchor) =>
      var s := S.Create(e.sub, anchor, props);
      assert e.sub.next in s.subs by { SubgraphMade(e.sub, anchor, props); }
      BelowAppend(e.store, SubgraphData, SubRecord(s, e.sub.next), n, m);
    case AddMember(id, node) =>
      if id in e.sub.subs && node in e.node.nodes {
        var s := S.AddMember(e.sub, id, node);
        assert id in s.subs by { SubgraphStays(e.sub, id, node); }
        BelowAppend(e.store, SubgraphData, SubRecord(s, id), n, m);
      }
    case CreateHyperEdge(relType, sources, targets, props) =>
      BelowAppend(e.store, HyperEdgeData, HyperEdgeRec(HyperEdgeRecord(e.hyper.next, relType, sources, targets, props)), n, m);
    case RunCheckpoint => CheckpointBelow(e.store, n, m);
  }

  lemma SubgraphMade(s: S.SubgraphStore, anchor: Option<int>, props: Props)
    ensures s.next in S.Create(s, anchor, props).subs
  {
  }

  lemma SubgraphStays(s: S.SubgraphStore, id: nat, node: nat)
    requires id in s.subs
    ensures id in S.AddMember(s, id, node).subs
  {
  }

  lemma CheckpointBelow(s: Store, n: nat, m: nat)
    requires StoreBelow(s, n, m)
    ensures StoreBelow(Checkpoint(s), n, m)
  {
    BelowOverlay(s.main, s.wal, n, m);
    hide PageBelow, Overlay;
  }

  lemma StepBounded(e: State, pick: Picker, op: Op)
    requires Bounded(e)
    ensures Bounded(Step(e, pick, op))
  {
    hide Bounded;
    if op.CreateNode? || op.CreateEdge? {
      CreateBounded(e, pick, op);
    } else if op.UpdateNode? || op.DeleteNode? {
      NodeBounded(e, pick, op);
    } else if op.UpdateEdge? || op.DeleteEdge? {
      EdgeBounded(e, pick, op);
    } else if op.Reopen? {
      ReopenBounded(e);
    } else if op.CreateSubgraph? || op.AddMember? || op.CreateHyperEdge? || op.RunCheckpoint? {
      OtherBounded(e, pick, op);
    } else {
      MemoryBounded(e, pick, op);
    }
  }

  lemma MemoryBounded(e: State, pick: Picker, op: Op)
    requires Bounded(e)
    requires op.CreateNodeIndex? || op.CreateEdgeIndex? || op.DropIndex? || op.RemoveMember? || op.DeleteSubgraph?
             || op.DeleteHyperEdge? || op.SetCatalog?
    ensures Bounded(Step(e, pick, op))
  {
    hide StoreBelow, CreateIndex, S.RemoveMember, S.Delete, H.Delete;
  }

  lemma {:induction false} RunBounded(versioning: bool, pick: Picker, ops: seq<Op>)
    ensures Bounded(Run(Empty(versioning), pick, ops))
  {
    hide Step, Bounded;
    if ops == [] {
      EmptyBounded(versioning);
    } else {
      RunBounded(versioning, pick, ops[..|ops| - 1]);
      StepBounded(Run(Empty(versioning), pick, ops[..|ops| - 1]), pick, ops[|ops| - 1]);
    }
  }

  lemma EmptyBounded(versioning: bool)
    ensures Bounded(Empty(versioning))
  {
  }

  /** After every run whatever, safe or not, an open starts a session: no indexes yet, and all
      ids that the load finds are below the next. */
  lemma SessionsStart(versioning: bool, pick: Picker, ops: seq<Op>)
    ensures JustOpened(Reopening(Run(Empty(versioning), pick, ops)))
  {
    RunBounded(versioning, pick, ops);
    ReopenBounded(Run(Empty(versioning), pick, ops));
  }
}
