/** What a rewrite of a page that the main file has not caught up with loses. */
module StaleRewrites {
  import opened Wrappers
  import opened Graph
  import opened Indexes
  import opened Pages
  import opened PageChains
  import opened PageLogs
  import opened StoredLogs
  import opened Tables
  import opened Engine
  import opened Durability
  import opened DurableSteps
  import opened Reload

  // ---------------------------------------------------------------------------
  // A walk with a blank page on its way
  // ---------------------------------------------------------------------------

  /** With a blank page in its middle a walk stops there: it finds the entries of the pages
      before it. */
  lemma {:induction false} WalkStops(file: map<nat, Page>, f: Family, ps: seq<nat>, bound: nat, i: nat, j: nat)
    requires Chained(file, f, ps, bound) && j <= i < |ps|
    ensures Walk(file[ps[i] := ZERO_PAGE], ps[j], bound) == EntriesFrom(file, ps[..i], j)
    decreases i - j
  {
    hide Walk, Chained, EntriesFrom;
    var other := file[ps[i] := ZERO_PAGE];
    ChainedAt(file, f, ps, bound, i, j);
    if j < i {
      WalkStops(file, f, ps, bound, i, j + 1);
      WalkStep(other, ps[j], bound);
      EntriesStep(file, ps[..i], j);
    } else {
      BlankStep(other, ps[i], bound);
      NoEntries(file, ps[..i]);
    }
  }

  lemma NoEntries(file: map<nat, Page>, ps: seq<nat>)
    ensures EntriesFrom(file, ps, |ps|) == []
  {
  }

  /** The entries up to a page, and those from it on. */
  lemma {:induction false} EntriesSplit(file: map<nat, Page>, ps: seq<nat>, i: nat, j: nat)
    requires j <= i <= |ps| && forall k | 0 <= k < |ps| :: ps[k] in file
    ensures EntriesFrom(file, ps, j) == EntriesFrom(file, ps[..i], j) + EntriesFrom(file, ps, i)
    decreases i - j
  {
    hide EntriesFrom;
    if j < i {
      EntriesSplit(file, ps, i, j + 1);
      EntriesStep(file, ps, j);
      EntriesStep(file, ps[..i], j);
    } else {
      NoEntries(file, ps[..i]);
    }
  }

  /** Entries are on the pages they come from. */
  lemma {:induction false} EntriesWithin(file: map<nat, Page>, ps: seq<nat>, j: nat, lo: nat, hi: nat)
    requires j <= |ps| && forall k | j <= k < |ps| :: lo <= ps[k] < hi && ps[k] in file
    ensures forall x | x in EntriesFrom(file, ps, j) :: lo <= x.0 < hi
    decreases |ps| - j
  {
    hide EntriesFrom;
    if j < |ps| {
      EntriesWithin(file, ps, j + 1, lo, hi);
      EntriesStep(file, ps, j);
      assert forall x | x in Tagged(ps[j], file[ps[j]].recs) :: x.0 == ps[j];
    } else {
      NoEntries(file, ps);
    }
  }

  lemma ChainedAt(file: map<nat, Page>, f: Family, ps: seq<nat>, bound: nat, i: nat, j: nat)
    requires Chained(file, f, ps, bound) && j <= i < |ps|
    ensures ps[j] in file && ps[j] < bound && ps[i] in file && ps[i] < bound
    ensures j < i ==> ps[j] < ps[i] && file[ps[j]].next == ps[j + 1] && ps[j] < ps[j + 1]
  {
    assert file[ps[j]].next == After(ps, j);
  }

  lemma EntriesStep(file: map<nat, Page>, ps: seq<nat>, j: nat)
    requires j < |ps| && ps[j] in file
    ensures EntriesFrom(file, ps, j) == Tagged(ps[j], file[ps[j]].recs) + EntriesFrom(file, ps, j + 1)
  {
  }

  lemma WalkStep(file: map<nat, Page>, p: nat, bound: nat)
    requires p in file && p < bound && p < file[p].next
    ensures Walk(file, p, bound) == Tagged(p, file[p].recs) + Walk(file, file[p].next, bound)
  {
  }

  lemma BlankStep(file: map<nat, Page>, p: nat, bound: nat)
    requires p in file && p < bound && file[p] == ZERO_PAGE
    ensures Walk(file, p, bound) == []
  {
    assert Tagged(p, []) + [] == [];
  }

  // ---------------------------------------------------------------------------
  // What is left
  // ---------------------------------------------------------------------------

  /** A page that is neither cached nor checkpointed since it was allocated reads as blank. */
  ghost predicate Stale(s: Store, pid: nat) {
    !CachedAt(s, NodeData, pid) && pid in s.main && s.main[pid] == ZERO_PAGE
  }

  lemma BlankRewrite(s: Store, own: Owners, pid: nat, id: nat, r: Record)
    requires Owned(s, own) && pid in own && own[pid] == NodeData && Stale(s, pid) && FamilyOf(r) == NodeData
    ensures var t := Rewrite(s, NodeData, pid, id, r);
            Owned(t, own) && View(t) == View(s)[pid := ZERO_PAGE] && t.roots == s.roots && t.pageCount == s.pageCount
  {
    OwnedRewrite(s, own, NodeData, pid, id, r);
    ReadIsOwnCopy(s, own, pid);
    assert Rebuilt(ZERO_PAGE, id, r) == ZERO_PAGE;
    hide Owned, Overlay, View, Rebuilt, ReadDataPage;
    ViewLog(s, pid, ZERO_PAGE);
    ViewOfCaches(Log(s, pid, ZERO_PAGE), Rewrite(s, NodeData, pid, id, r));
  }

  /** Saving the catalog adds pages and changes none. */
  lemma SavedView(s: Store, own: Owners, bytes: seq<Byte>)
    requires Owned(s, own)
    ensures var t := SaveCatalog(s, bytes);
            && s.pageCount <= t.pageCount
            && (NodeData in s.roots ==> NodeData in t.roots && t.roots[NodeData] == s.roots[NodeData])
            && forall p | p in own :: p in View(s) && p in View(t) && View(t)[p] == View(s)[p]
  {
    OldPages(s, own);
    if bytes != [] {
      var n := if |bytes| < CAPACITY then |bytes| else CAPACITY;
      FirstChunkExtends(s, own, bytes, n);
      hide Owned, Overlay, View, SaveChunks;
      ViewOfCaches(SaveChunks(Allocate(s), Cached(s.pageCount, CatalogPage(bytes[..n])), bytes[n..]), SaveCatalog(s, bytes));
    }
  }

  /** A chain is a chain in every file with the same pages. */
  lemma ChainedFrame(file: map<nat, Page>, other: map<nat, Page>, f: Family, ps: seq<nat>, bound: nat, more: nat)
    requires Chained(file, f, ps, bound) && bound <= more
    requires forall i | 0 <= i < |ps| :: ps[i] in file && ps[i] in other && other[ps[i]] == file[ps[i]]
    ensures Chained(other, f, ps, more) && EntriesFrom(other, ps, 0) == EntriesFrom(file, ps, 0)
  {
    EntriesFrame(other, file, ps, 0);
    ChainedSame(file, other, f, ps, bound, more);
  }

  /** The nodes on the pages before `pid`. */
  function NodesBefore(nodes: map<nat, NodeRecord>, pageOf: map<nat, nat>, pid: nat): map<nat, NodeRecord> {
    map id | id in nodes && id in pageOf && pageOf[id] < pid :: nodes[id]
  }

  /** The part of a log in good order that is on the pages before `pid` loads to the nodes on
      these pages. */
  lemma PrefixTable(a: seq<Entry>, b: seq<Entry>, nodes: map<nat, NodeRecord>, live: set<nat>, pageOf: map<nat, nat>, next: nat, pid: nat)
    requires TableOk(a + b, NodeRecs(nodes), live, pageOf, next)
    requires (forall x | x in a :: x.0 < pid) && (forall x | x in b :: x.0 >= pid)
    ensures NodesOf(LoadRecords(a)) == NodesBefore(nodes, pageOf, pid)
  {
    var all, table, kept := a + b, NodeRecs(nodes), NodeRecs(NodesBefore(nodes, pageOf, pid));
    assert forall k | 0 <= k < |a| :: all[k] == a[k] && a[k] in a;
    assert forall k | |a| <= k < |all| :: all[k] == b[k - |a|] && all[k] in b;
    forall id | id in kept
      ensures InLog(a, id)
    {
      assert id in table && InLog(all, id);
      var k :| 0 <= k < |all| && IdOf(all[k].1) == id;
      assert EntryOk(all[k], table, live, pageOf, next);
      assert k < |a| && IdOf(a[k].1) == id;
    }
    forall k | 0 <= k < |a|
      ensures EntryOk(a[k], kept, live, pageOf, next)
    {
      assert EntryOk(all[k], table, live, pageOf, next);
    }
    assert TableOk(a, kept, live, pageOf, next);
    LoadFindsTable(a, kept, live, pageOf, next);
    NodesBack(NodesBefore(nodes, pageOf, pid));
  }

  lemma NodesBack(nodes: map<nat, NodeRecord>)
    ensures NodesOf(NodeRecs(nodes)) == nodes
  {
  }

  /** In any state whose node chain is intact, whatever the catalog: when a node on such a page
      is updated or deleted, the page is wiped, and the next open finds the nodes on the pages
      before it, and no other: not the node itself, no other node of its page, and none of a
      later page. */
  lemma StaleRewriteLoses(e: State, d: Durable, own: Owners, ch: Chains, r: NodeRecord, deleted: bool)
    requires DurableOk(e, d, own, ch) && NodeData in ch
    requires r.id in e.node.nodes && r.id in e.node.pageOf && Stale(e.store, e.node.pageOf[r.id])
    ensures Reopening(RewriteNode(e, r, deleted)).node.nodes == NodesBefore(d.nodes, e.node.pageOf, e.node.pageOf[r.id])
    ensures r.id !in Reopening(RewriteNode(e, r, deleted)).node.nodes
  {
    var t, pid, ps := RewriteNode(e, r, deleted), e.node.pageOf[r.id], ch[NodeData];
    assert ChainStored(e.store, own, ch, NodeData) && pid in ps;
    var before, after := LoadedLog(e, t, own, ch, r, deleted);
    hide Stored, Owned, Stale, TableOk, RewriteNode, EdgesPart, LogsPart, LogOf, LoadRecords, Reopening;
    PrefixTable(before, after, d.nodes, e.node.nodes.Keys, e.node.pageOf, e.node.next, pid);
  }

  /** What the next open finds, and what it misses. */
  lemma LoadedLog(e: State, t: State, own: Owners, ch: Chains, r: NodeRecord, deleted: bool)
    returns (before: seq<Entry>, after: seq<Entry>)
    requires Stored(e.store, own, ch) && NodeData in ch && t == RewriteNode(e, r, deleted)
    requires r.id in e.node.pageOf && e.node.pageOf[r.id] in ch[NodeData] && Stale(e.store, e.node.pageOf[r.id])
    ensures Reopening(t).node.nodes == NodesOf(LoadRecords(before))
    ensures LogOf(e.store, ch, NodeData) == before + after
    ensures var pid := e.node.pageOf[r.id];
            (forall x | x in before :: x.0 < pid) && (forall x | x in after :: x.0 >= pid)
  {
    hide Walk, View, Owned, Rewrite, Stale, EntriesFrom, Covered, SaveCatalog, Chained, Behind;
    var pid, ps := e.node.pageOf[r.id], ch[NodeData];
    assert ChainStored(e.store, own, ch, NodeData);
    BlankRewrite(e.store, own, pid, r.id, NodeRec(r, deleted));
    OldPages(e.store, own);
    SavedView(t.store, own, t.catalog);
    assert forall i | 0 <= i < |ps| :: ps[i] in own;
    var u := SaveCatalog(t.store, t.catalog);
    before, after := WipedWalk(View(e.store), View(u), ps, pid, e.store.pageCount, u.pageCount);
    RootIs(e.store, NodeData, ps);
    ReopenedLog(u, ps[0]);
    NodesAtOpen(t);
  }

  /** A chain's log is the entries on the pages before one of its pages, and the others. */
  lemma ChainCut(file: map<nat, Page>, f: Family, ps: seq<nat>, bound: nat, i: nat)
    requires Chained(file, f, ps, bound) && i < |ps|
    ensures EntriesFrom(file, ps, 0) == EntriesFrom(file, ps[..i], 0) + EntriesFrom(file, ps, i)
    ensures forall x | x in EntriesFrom(file, ps[..i], 0) :: x.0 < ps[i]
    ensures forall x | x in EntriesFrom(file, ps, i) :: x.0 >= ps[i]
  {
    hide EntriesFrom;
    EntriesSplit(file, ps, i, 0);
    EntriesWithin(file, ps[..i], 0, 0, ps[i]);
    EntriesWithin(file, ps, i, ps[i], bound);
  }

  /** The walk over a file that has the chain's pages, one of them wiped. */
  lemma WipedWalk(file: map<nat, Page>, wiped: map<nat, Page>, ps: seq<nat>, pid: nat, bound: nat, more: nat)
    returns (before: seq<Entry>, after: seq<Entry>)
    requires Chained(file, NodeData, ps, bound) && bound <= more && pid in ps
    requires forall i | 0 <= i < |ps| :: ps[i] in file && ps[i] in wiped && wiped[ps[i]] == file[pid := ZERO_PAGE][ps[i]]
    ensures Walk(wiped, ps[0], more) == before && EntriesFrom(file, ps, 0) == before + after
    ensures (forall x | x in before :: x.0 < pid) && (forall x | x in after :: x.0 >= pid)
  {
    hide Chained, Walk, EntriesFrom;
    var i :| 0 <= i < |ps| && ps[i] == pid;
    var other := wiped[pid := file[pid]];
    ChainedFrame(file, other, NodeData, ps, bound, more);
    WalkStops(other, NodeData, ps, more, i, 0);
    assert wiped[pid] == ZERO_PAGE;
    assert other[pid := ZERO_PAGE] == wiped;
    before, after := EntriesFrom(other, ps[..i], 0), EntriesFrom(other, ps, i);
    ChainCut(other, NodeData, ps, more, i);
  }

  lemma RootIs(s: Store, f: Family, ps: seq<nat>)
    requires ChainOk(s, f, ps) && ps != []
    ensures f in s.roots && s.roots[f] == ps[0]
  {
  }

  lemma ReopenedLog(s: Store, root: nat)
    requires NodeData in s.roots && s.roots[NodeData] == root
    ensures Loaded(Reopened(s), NodeData) == Walk(View(s), root, s.pageCount)
  {
    hide Walk, View;
  }

  lemma NodesAtOpen(e: State)
    ensures Reopening(e).node.nodes == NodesOf(LoadRecords(Loaded(Reopened(SaveCatalog(e.store, e.catalog)), NodeData)))
  {
    hide Loaded, Reopened, LoadRecords, SaveCatalog;
  }

  // ---------------------------------------------------------------------------
  // A run that loses a node
  // ---------------------------------------------------------------------------

  function Blob(n: nat): (out: seq<Byte>)
    ensures |out| == n
  {
    if n == 0 then [] else Blob(n - 1) + [0]
  }

  /** Properties that take most of a page. */
  function Big(): Props {
    [(1, StringVal(Blob(3000)))]
  }

  lemma BigSize(id: nat)
    ensures Size(NodeRec(NodeRecord(id, [], Big()), false)) == 3020
  {
    assert Big()[1..] == [];
    assert PropsSize(Big()) == 3007;
  }

  lemma UsedByOne(r: Record)
    ensures Used([r]) == 2 + Size(r)
  {
    assert [r][..0] == [];
    assert Used([]) == 0;
  }

  /** A big node on an engine whose current page, if any, holds a big node gets a page of its own. */
  lemma BigNodeStep(e: State, pick: Picker)
    requires NodeData in e.store.current ==> Used(e.store.current[NodeData].page.recs) == 3022
    ensures var t, n := CreatingNode(e, pick, [], Big()), e.store.pageCount;
            && t.store.main == e.store.main[n := ZERO_PAGE] && t.store.pageCount == n + 1
            && NodeData in t.store.current && t.store.current[NodeData].pid == n
            && Used(t.store.current[NodeData].page.recs) == 3022
            && t.node.pageOf == e.node.pageOf[e.node.next := n] && t.node.next == e.node.next + 1
            && t.node.nodes == e.node.nodes[e.node.next := NodeRecord(e.node.next, [], Big())] && t.catalog == e.catalog
  {
    var r := NodeRec(NodeRecord(e.node.next, [], Big()), false);
    BigSize(e.node.next);
    UsedByOne(r);
    assert Used([]) == 0;
    hide Size, Used, OnCreate;
    assert !FitsCurrent(e.store, NodeData, r);
    assert Pack(Page(Some(NodeData), 0, []), r).recs == [] + [r] == [r];
  }

  /** Any catalog, and two big nodes. */
  function TwoBig(catalog: seq<Byte>): seq<Op> {
    [SetCatalog(catalog), CreateNode([], Big()), CreateNode([], Big())]
  }

  lemma OneMoreSafe(e: State, pick: Picker, front: seq<Op>, op: Op)
    ensures Run(e, pick, front + [op]) == Step(Run(e, pick, front), pick, op)
    ensures SafeRun(e, pick, front + [op]) <==> SafeRun(e, pick, front) && SafeOp(Run(e, pick, front), op)
    ensures Run(e, pick, []) == e && SafeRun(e, pick, [])
  {
    hide Step, SafeOp;
    OneMore(e, pick, front, op);
  }

  lemma TwoBigOps(pick: Picker, catalog: seq<Byte>)
    ensures var e := Empty(false).(catalog := catalog);
            && SafeRun(Empty(false), pick, TwoBig(catalog))
            && Run(Empty(false), pick, TwoBig(catalog)) == CreatingNode(CreatingNode(e, pick, [], Big()), pick, [], Big())
  {
    var save, create := SetCatalog(catalog), CreateNode([], Big());
    OneMoreSafe(Empty(false), pick, [], save);
    OneMoreSafe(Empty(false), pick, [save], create);
    OneMoreSafe(Empty(false), pick, [save, create], create);
    assert [] + [save] == [save] && [save] + [create] == [save, create];
    assert [save, create] + [create] == TwoBig(catalog);
    hide *;
    var e := Empty(false).(catalog := catalog);
    SaveStep(Empty(false), pick, catalog);
    CreateStep(e, pick, [], Big());
    CreateStep(CreatingNode(e, pick, [], Big()), pick, [], Big());
  }

  lemma SaveStep(e: State, pick: Picker, catalog: seq<Byte>)
    ensures Step(e, pick, SetCatalog(catalog)) == e.(catalog := catalog) && SafeOp(e, SetCatalog(catalog))
  {
  }

  lemma CreateStep(e: State, pick: Picker, labels: seq<nat>, props: Props)
    ensures Step(e, pick, CreateNode(labels, props)) == CreatingNode(e, pick, labels, props)
    ensures SafeOp(e, CreateNode(labels, props))
  {
    hide CreatingNode;
  }

  lemma TwoBigRun(pick: Picker, catalog: seq<Byte>)
    ensures var e := Run(Empty(false), pick, TwoBig(catalog));
            && 1 in e.node.nodes && 1 in e.node.pageOf && Stale(e.store, e.node.pageOf[1]) && e.catalog == catalog
            && 2 in e.node.nodes && forall id | id in e.node.pageOf :: e.node.pageOf[id] >= e.node.pageOf[1]
    ensures SafeRun(Empty(false), pick, TwoBig(catalog))
  {
    hide CreatingNode, Used, Run, SafeRun, TwoBig, Big;
    TwoBigOps(pick, catalog);
    var e := Empty(false).(catalog := catalog);
    BigNodeStep(e, pick);
    BigNodeStep(CreatingNode(e, pick, [], Big()), pick);
  }

  /** Any catalog, two big nodes, no checkpoint, the first one updated: after closing and
      opening both are gone. */
  lemma UpdateLosesNode(pick: Picker, catalog: seq<Byte>)
    ensures var e := Run(Empty(false), pick, TwoBig(catalog));
            var t := Step(e, pick, UpdateNode(1, []));
            && SafeRun(Empty(false), pick, TwoBig(catalog)) && e.catalog == catalog
            && 1 in t.node.nodes && 2 in t.node.nodes && Reopening(t).node.nodes.Keys == {}
  {
    hide Run, SafeRun, DurableOk, DurableRun, Empty, Reopening, RewriteNode, Stale, TwoBig;
    TwoBigRun(pick, catalog);
    var e, d := Run(Empty(false), pick, TwoBig(catalog)), DurableRun(Empty(false), NOTHING, pick, TwoBig(catalog));
    var own, ch := RunKept(false, pick, TwoBig(catalog));
    VersioningIs(false, pick, TwoBig(catalog));
    UpdateIsRewrite(e, d, own, ch, pick);
  }

  lemma {:induction false} VersioningIs(versioning: bool, pick: Picker, ops: seq<Op>)
    ensures Run(Empty(versioning), pick, ops).versioning == versioning
  {
    hide Append, AppendPage, Rewrite, Checkpoint, OnCreate, OnUpdate, OnDelete, CreateIndex, SubRecord, Incident, Loaded;
    if ops != [] {
      VersioningIs(versioning, pick, ops[..|ops| - 1]);
    }
  }

  lemma UpdateIsRewrite(e: State, d: Durable, own: Owners, ch: Chains, pick: Picker)
    requires DurableOk(e, d, own, ch) && NodeData in ch && !e.versioning
    requires 1 in e.node.nodes && 1 in e.node.pageOf && Stale(e.store, e.node.pageOf[1])
    ensures var t := Step(e, pick, UpdateNode(1, []));
            && t.node.nodes.Keys == e.node.nodes.Keys
            && Reopening(t).node.nodes == NodesBefore(d.nodes, e.node.pageOf, e.node.pageOf[1])
  {
    hide DurableOk, Reopening, Stale, OnUpdate, Rewrite, Append, AppendPage, Reopened, Loaded, LoadRecords, SaveCatalog;
    IdIs(e, d, own, ch, 1);
    var r := e.node.nodes[1].(props := []);
    StaleRewriteLoses(e, d, own, ch, r, false);
    NodesAtOpen(RewriteNode(e, r, false));
    NodesAtOpen(Step(e, pick, UpdateNode(1, [])));
  }
}
