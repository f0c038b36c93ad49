/** What holds in every reachable state, whatever the operations: page chains, the reverse
    index of hyperedges, replayed subgraphs and the catalog. */
module RunFacts {
  import opened Indexes
  import opened Pages
  import opened PageChains
  import opened PageLogs
  import opened StoredLogs
  import opened Engine
  import opened Durability
  import opened DurableSteps
  import opened Reload
  import S = Subgraphs
  import H = HyperEdges

  // ---------------------------------------------------------------------------
  // Page chains
  // ---------------------------------------------------------------------------

  /** The pages a load visits, following the chain from `pid`. */
  function Visited(file: map<nat, Page>, pid: nat, bound: nat): seq<nat>
    decreases bound - pid
  {
    if pid !in file || pid >= bound then []
    else [pid] + if file[pid].next == 0 || file[pid].next <= pid then [] else Visited(file, file[pid].next, bound)
  }

  lemma {:induction false} VisitedOwned(file: map<nat, Page>, own: Owners, pid: nat, bound: nat)
    requires forall p :: p in own <==> FIRST_DATA_PAGE <= p < bound
    requires forall p :: p in file <==> p in own
    requires forall p | p in own :: OwnedPage(own, p, file[p])
    requires pid in own
    ensures forall p | p in Visited(file, pid, bound) :: p in own && own[p] == own[pid]
    ensures var v := Visited(file, pid, bound); v != [] && file[v[|v| - 1]].next == 0
    decreases bound - pid
  {
    if file[pid].next != 0 {
      VisitedOwned(file, own, file[pid].next, bound);
    }
  }

  lemma ReachableOwned(versioning: bool, pick: Picker, ops: seq<Op>) returns (own: Owners)
    ensures Owned(Run(Empty(versioning), pick, ops).store, own)
  {
    hide Owned, Run, Covered, ChainStored, NodesPart, EdgesPart, LogsPart, LogOf, Empty, DurableRun;
    var ch;
    own, ch := RunKept(versioning, pick, ops);
  }

  lemma CopiesPointForward(s: Store, own: Owners)
    requires Owned(s, own)
    ensures Forward(s.main, s.pageCount) && Forward(View(s), s.pageCount)
  {
    ViewOwned(s, own);
    hide Overlay, View;
  }

  /** A load reads the records of the pages it visits, in order. */
  lemma {:induction false} WalkVisits(file: map<nat, Page>, pid: nat, bound: nat)
    ensures Walk(file, pid, bound) == EntriesFrom(file, Visited(file, pid, bound), 0)
    decreases bound - pid
  {
    if pid in file && pid < bound && file[pid].next > pid {
      var rest := Visited(file, file[pid].next, bound);
      WalkVisits(file, file[pid].next, bound);
      EntriesAfterFirst(file, pid, rest, 0);
    }
  }

  lemma {:induction false} EntriesAfterFirst(file: map<nat, Page>, pid: nat, rest: seq<nat>, i: nat)
    requires i <= |rest|
    ensures EntriesFrom(file, [pid] + rest, i + 1) == EntriesFrom(file, rest, i)
    decreases |rest| - i
  {
    hide Tagged;
    var all := [pid] + rest;
    if i < |rest| {
      assert all[i + 1] == rest[i];
      EntriesAfterFirst(file, pid, rest, i + 1);
    }
  }

  ghost predicate EndsWell(file: map<nat, Page>, visited: seq<nat>) {
    visited != [] && visited[|visited| - 1] in file && file[visited[|visited| - 1]].next == 0
  }

  function PagesOf(s: Store, file: map<nat, Page>, f: Family): seq<nat> {
    if f in s.roots then Visited(file, s.roots[f], s.pageCount) else []
  }

  /** The family has the page: on its chain in the main file, or on its chain with the log
      applied, or in its cache. */
  ghost predicate HasPage(s: Store, f: Family, p: nat) {
    p in PagesOf(s, s.main, f) || p in PagesOf(s, View(s), f) || CachedAt(s, f, p)
  }

  /** The family's chain ends at a page without successor, with the log applied or not, and no
      other family has any of its pages. */
  ghost predicate ChainApart(s: Store, f: Family) {
    && (f in s.roots ==> EndsWell(s.main, PagesOf(s, s.main, f)) && EndsWell(View(s), PagesOf(s, View(s), f)))
    && forall g, p | g != f && HasPage(s, f, p) :: !HasPage(s, g, p)
  }

  /** A chain in a file whose pages respect the owners. */
  lemma ChainOwned(s: Store, own: Owners, file: map<nat, Page>, f: Family)
    requires forall p :: p in own <==> FIRST_DATA_PAGE <= p < s.pageCount
    requires forall p :: p in file <==> p in own
    requires forall p | p in own :: OwnedPage(own, p, file[p])
    requires f in s.roots ==> s.roots[f] in own && own[s.roots[f]] == f
    ensures forall p | p in PagesOf(s, file, f) :: p in own && own[p] == f
    ensures f in s.roots ==> EndsWell(file, PagesOf(s, file, f))
  {
    hide OwnedPage;
    if f in s.roots {
      VisitedOwned(file, own, s.roots[f], s.pageCount);
    }
  }

  lemma PagesOwned(s: Store, own: Owners, f: Family)
    requires Owned(s, own)
    ensures forall p | HasPage(s, f, p) :: p in own && own[p] == f
    ensures f in s.roots ==> EndsWell(s.main, PagesOf(s, s.main, f)) && EndsWell(View(s), PagesOf(s, View(s), f))
  {
    assert forall p | CachedAt(s, f, p) :: p in own && own[p] == f;
    hide View, OwnedPage, PagesOf, EndsWell;
    ViewOwned(s, own);
    ChainOwned(s, own, s.main, f);
    ChainOwned(s, own, View(s), f);
  }

  lemma OwnedApart(s: Store, own: Owners, f: Family)
    requires Owned(s, own)
    ensures ChainApart(s, f)
  {
    hide Owned, PagesOf, EndsWell, HasPage, View;
    PagesOwned(s, own, f);
    forall g, p | g != f && HasPage(s, f, p)
      ensures !HasPage(s, g, p)
    {
      PagesOwned(s, own, g);
    }
  }

  /** Page chains stay well formed: in every reachable state no page of the file, and no page
      of what a checkpoint would make of it, points back, so no chain has a cycle; and every
      family's chain ends properly and shares no page, cached ones included, with another. */
  lemma ChainsStayWellFormed(versioning: bool, pick: Picker, ops: seq<Op>, f: Family)
    ensures var s := Run(Empty(versioning), pick, ops).store;
            Forward(s.main, s.pageCount) && Forward(View(s), s.pageCount) && ChainApart(s, f)
  {
    hide Run, Empty, Owned, View, Forward, ChainApart;
    var own := ReachableOwned(versioning, pick, ops);
    var s := Run(Empty(versioning), pick, ops).store;
    CopiesPointForward(s, own);
    OwnedApart(s, own, f);
  }

  // ---------------------------------------------------------------------------
  // Hyperedges, subgraphs, catalog
  // ---------------------------------------------------------------------------

  /** Hyperedge reverse index equals scan: in every reachable state, after any creations,
      deletions and reloads, the hyperedges listed for a raw id are the stored ones with that
      id among their sources or targets. */
  lemma ReverseIndexIsScan(versioning: bool, pick: Picker, ops: seq<Op>, raw: nat, id: nat)
    ensures var h := Run(Empty(versioning), pick, ops).hyper;
            id in H.HyperEdgesFor(h, raw) <==> H.Participates(h, id, raw)
  {
    hide Run, Empty, DurableRun, DurableOk, H.Participates;
    var own, ch := RunKept(versioning, pick, ops);
    StoresSound(Run(Empty(versioning), pick, ops), DurableRun(Empty(versioning), NOTHING, pick, ops), own, ch);
    assert H.ReverseExact(Run(Empty(versioning), pick, ops).hyper);
  }

  /** Nothing is taken from a subgraph, and every subgraph record fits a page. */
  predicate SubgraphsGrow(e: State, pick: Picker, ops: seq<Op>) {
    ops == []
    || (SubgraphsGrow(e, pick, ops[..|ops| - 1])
        && (IsSubgraphOp(ops[|ops| - 1]) ==> Plain(Run(e, pick, ops[..|ops| - 1]), ops[|ops| - 1])))
  }

  lemma OtherOpsKeepSubgraphs(e: State, d: Durable, pick: Picker, op: Op)
    requires !IsSubgraphOp(op) && !op.Reopen?
    ensures Step(e, pick, op).sub == e.sub && Kept(e, d, op).sub == d.sub
  {
    hide Append, AppendPage, Rewrite, Checkpoint, OnCreate, OnUpdate, OnDelete, CreateIndex, FitsPage, Incident,
         H.Create, H.Load, H.Delete;
  }

  lemma {:induction false} GrowingSubgraphs(versioning: bool, pick: Picker, ops: seq<Op>)
    requires SubgraphsGrow(Empty(versioning), pick, ops)
    ensures Run(Empty(versioning), pick, ops).sub == DurableRun(Empty(versioning), NOTHING, pick, ops).sub
  {
    hide DurableOk, Step, Kept, Plain, Reopening, S.Sound, H.Sound;
    if ops != [] {
      hide Empty;
      var front, last := ops[..|ops| - 1], ops[|ops| - 1];
      GrowingSubgraphs(versioning, pick, front);
      var e, d := Run(Empty(versioning), pick, front), DurableRun(Empty(versioning), NOTHING, pick, front);
      var own, ch := RunKept(versioning, pick, front);
      if IsSubgraphOp(last) {
        StoresSound(e, d, own, ch);
        PlainSubgraphs(e, d, pick, last);
      } else if last.Reopen? {
        var more := ReopenKept(e, d, own, ch);
        ReopenStep(e, d, pick, last);
      } else {
        OtherOpsKeepSubgraphs(e, d, pick, last);
      }
    }
  }

  /** Subgraph log replay: if no member or subgraph is taken away, and the records fit,
      replaying the appended records gives back the live subgraphs, their members in the same
      order, and the memberships of every node, whatever happens to nodes and edges. After one
      more operation it does so exactly when that operation, if it is one on subgraphs, takes
      nothing away and its record fits. */
  lemma SubgraphsReplayExactly(versioning: bool, pick: Picker, ops: seq<Op>, op: Op)
    requires SubgraphsGrow(Empty(versioning), pick, ops)
    ensures var e := Run(Empty(versioning), pick, ops);
            var t := Step(e, pick, op);
            && Reopening(e).sub == e.sub
            && (Reopening(t).sub == t.sub <==> (IsSubgraphOp(op) ==> Plain(e, op)))
  {
    hide DurableOk, Step, Kept, Plain, Run, DurableRun, SubgraphsGrow, Reopening, Empty, S.Sound, H.Sound;
    GrowingSubgraphs(versioning, pick, ops);
    var e, d := Run(Empty(versioning), pick, ops), DurableRun(Empty(versioning), NOTHING, pick, ops);
    var own, ch := RunKept(versioning, pick, ops);
    var own1 := ReopenKept(e, d, own, ch);
    var own2, ch2 := StepKept(e, d, own, ch, pick, op);
    var own3 := ReopenKept(Step(e, pick, op), Kept(e, d, op), own2, ch2);
    if IsSubgraphOp(op) {
      StoresSound(e, d, own, ch);
      PlainSubgraphs(e, d, pick, op);
    } else if op.Reopen? {
      ReopenStep(e, d, pick, op);
    } else {
      OtherOpsKeepSubgraphs(e, d, pick, op);
    }
  }

  /** The catalog in use at close is the catalog after open, in every reachable state. Only an
      empty one is not saved. */
  lemma CatalogSurvives(versioning: bool, pick: Picker, ops: seq<Op>)
    ensures var e := Run(Empty(versioning), pick, ops); e.catalog != [] ==> Reopening(e).catalog == e.catalog
  {
    hide Run, Empty, Owned, LoadCatalog, SaveCatalog, Reopened;
    var own := ReachableOwned(versioning, pick, ops);
    var e := Run(Empty(versioning), pick, ops);
    CatalogRoundTrip(e.store, own, e.catalog);
    CatalogOfOpened(e);
  }

  lemma CatalogOfOpened(e: State)
    ensures Reopening(e).catalog == LoadCatalog(Reopened(SaveCatalog(e.store, e.catalog))).GetOr([])
  {
    hide LoadCatalog, SaveCatalog, Reopened;
  }
}
