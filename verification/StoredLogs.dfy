/** All chains of a store at once, and the log each holds. */
module StoredLogs {
  import opened Graph
  import opened Pages
  import opened PageChains
  import opened PageLogs

  /** The pages of the families whose chain is intact. */
  type Chains = map<Family, seq<nat>>

  const NO_CHAINS: Chains :=
    map[NodeData := [], EdgeData := [], SubgraphData := [], HyperEdgeData := [], VersionData := []]

  /** Every page of a family is in its chain. */
  ghost predicate Covered(own: Owners, ch: Chains) {
    forall p | p in own && own[p] in ch :: p in ch[own[p]]
  }

  ghost predicate ChainStored(s: Store, own: Owners, ch: Chains, f: Family)
    requires f in ch
  {
    f != CatalogData && ChainOk(s, f, ch[f]) && OwnedBy(own, f, ch[f])
  }

  ghost predicate Stored(s: Store, own: Owners, ch: Chains) {
    Owned(s, own) && Covered(own, ch) && forall f | f in ch :: ChainStored(s, own, ch, f)
  }

  function LogOf(s: Store, ch: Chains, f: Family): seq<Entry> {
    if f in ch then Entries(s, ch[f]) else []
  }

  lemma StoredEmpty()
    ensures Stored(EMPTY_STORE, map[], NO_CHAINS)
    ensures forall f :: LogOf(EMPTY_STORE, NO_CHAINS, f) == []
  {
  }

  // ---------------------------------------------------------------------------
  // Appending
  // ---------------------------------------------------------------------------

  function AppendChains(s: Store, f: Family, r: Record, ch: Chains): Chains {
    if f in ch then ch[f := AppendChain(s, f, r, ch[f])] else ch
  }

  /** The records an append adds to a family's log. */
  function Appended(s: Store, f: Family, r: Record): seq<Entry> {
    if FitsPage(r) then [(AppendPage(s, f, r), r)] else []
  }

  lemma OwnedByGrows(own: Owners, more: Owners, f: Family, ps: seq<nat>)
    requires OwnedBy(own, f, ps) && forall p | p in own :: p in more && more[p] == own[p]
    ensures OwnedBy(more, f, ps)
  {
  }

  lemma OwnersGrow(s: Store, own: Owners, f: Family, r: Record)
    requires Owned(s, own)
    ensures var more := AppendOwners(own, s, f, r);
            && (forall p | p in own :: p in more && more[p] == own[p])
            && (forall p | p in more && p !in own :: p == s.pageCount && more[p] == f && !FitsCurrent(s, f, r))
  {
  }

  lemma CoveredAppend(s: Store, own: Owners, ch: Chains, f: Family, r: Record)
    requires Owned(s, own) && Covered(own, ch)
    ensures Covered(AppendOwners(own, s, f, r), AppendChains(s, f, r, ch))
  {
    OwnersGrow(s, own, f, r);
    var more, ch' := AppendOwners(own, s, f, r), AppendChains(s, f, r, ch);
    hide Owned, AppendOwners, FitsCurrent;
    forall p | p in more && more[p] in ch'
      ensures p in ch'[more[p]]
    {
      if p !in own {
        var ps := ch[f];
        assert ch'[f] == ps + [p];
        assert (ps + [p])[|ps|] == p;
      }
    }
  }

  lemma ChainStoredAppend(s: Store, own: Owners, ch: Chains, f: Family, r: Record, g: Family)
    requires Owned(s, own) && g in ch && ChainStored(s, own, ch, g)
    requires FamilyOf(r) == f && f != CatalogData
    ensures g in AppendChains(s, f, r, ch)
    ensures ChainStored(Append(s, f, r), AppendOwners(own, s, f, r), AppendChains(s, f, r, ch), g)
    ensures LogOf(Append(s, f, r), AppendChains(s, f, r, ch), g) == LogOf(s, ch, g) + if g == f then Appended(s, f, r) else []
  {
    hide Owned, ChainOk, Append, Entries, AppendOwners, OwnedBy, FitsCurrent, AppendChain, FitsPage, AppendPage;
    if g == f {
      AppendAddsToLog(s, own, f, r, ch[f]);
    } else {
      OwnersGrow(s, own, f, r);
      AppendElsewhere(s, own, f, r, g, ch[g]);
      OwnedByGrows(own, AppendOwners(own, s, f, r), g, ch[g]);
    }
  }

  lemma StoredAppend(s: Store, own: Owners, ch: Chains, f: Family, r: Record)
    requires Stored(s, own, ch) && FamilyOf(r) == f && f != CatalogData
    ensures Stored(Append(s, f, r), AppendOwners(own, s, f, r), AppendChains(s, f, r, ch))
    ensures AppendChains(s, f, r, ch).Keys == ch.Keys
    ensures forall g | g in ch ::
      LogOf(Append(s, f, r), AppendChains(s, f, r, ch), g) == LogOf(s, ch, g) + if g == f then Appended(s, f, r) else []
  {
    hide Owned, Append, AppendOwners, AppendChain, AppendPage, LogOf, Appended, ChainStored, Covered, FitsPage;
    OwnedAppend(s, own, f, r);
    CoveredAppend(s, own, ch, f, r);
    var ch' := AppendChains(s, f, r, ch);
    assert ch'.Keys == ch.Keys;
    hide AppendChains;
    forall g | g in ch
      ensures ChainStored(Append(s, f, r), AppendOwners(own, s, f, r), ch', g)
      ensures LogOf(Append(s, f, r), ch', g) == LogOf(s, ch, g) + if g == f then Appended(s, f, r) else []
    {
      assert ChainStored(s, own, ch, g);
      ChainStoredAppend(s, own, ch, f, r, g);
    }
  }

  // ---------------------------------------------------------------------------
  // Rewriting
  // ---------------------------------------------------------------------------

  /** A safe rewrite keeps every chain and replaces one record in one log. */
  lemma StoredRewrite(s: Store, own: Owners, ch: Chains, f: Family, pid: nat, id: nat, r: Record)
    requires Stored(s, own, ch) && FamilyOf(r) == f && f in ch
    requires pid in own && own[pid] == f && RewriteSafe(s, pid, id, r)
    ensures Stored(Rewrite(s, f, pid, id, r), own, ch)
    ensures forall g | g in ch ::
      LogOf(Rewrite(s, f, pid, id, r), ch, g) == if g == f then UpdateLog(LogOf(s, ch, f), pid, id, r) else LogOf(s, ch, g)
  {
    hide Owned, ChainOk, Rewrite, Entries, RewriteSafe, OwnedBy;
    var t := Rewrite(s, f, pid, id, r);
    assert ChainStored(s, own, ch, f) && pid in ch[f];
    OwnedRewrite(s, own, f, pid, id, r);
    forall g | g in ch
      ensures ChainStored(t, own, ch, g)
      ensures LogOf(t, ch, g) == if g == f then UpdateLog(LogOf(s, ch, f), pid, id, r) else LogOf(s, ch, g)
    {
      assert ChainStored(s, own, ch, g);
      if g == f {
        RewriteChain(s, own, f, ch[f], pid, id, r);
      } else {
        RewriteElsewhere(s, own, f, pid, id, r, g, ch[g]);
      }
    }
  }

  /** Any rewrite keeps the chains of the other families. */
  lemma StoredRewriteElsewhere(s: Store, own: Owners, ch: Chains, f: Family, pid: nat, id: nat, r: Record)
    requires Stored(s, own, ch) && FamilyOf(r) == f && f != CatalogData && pid in own && own[pid] == f
    ensures Stored(Rewrite(s, f, pid, id, r), own, ch - {f})
    ensures forall g | g in ch && g != f :: LogOf(Rewrite(s, f, pid, id, r), ch - {f}, g) == LogOf(s, ch, g)
  {
    hide Owned, ChainOk, Rewrite, Entries, OwnedBy;
    var t := Rewrite(s, f, pid, id, r);
    OwnedRewrite(s, own, f, pid, id, r);
    forall g | g in ch && g != f
      ensures ChainStored(t, own, ch - {f}, g)
      ensures LogOf(t, ch - {f}, g) == LogOf(s, ch, g)
    {
      assert ChainStored(s, own, ch, g);
      RewriteElsewhere(s, own, f, pid, id, r, g, ch[g]);
    }
  }

  /** An append to one family does not change what a rewrite of another would find. */
  lemma AppendKeepsSafety(s: Store, own: Owners, f: Family, a: Record, pid: nat, id: nat, r: Record)
    requires Owned(s, own) && FamilyOf(a) == f && f != CatalogData && pid in own && own[pid] != f
    ensures RewriteSafe(Append(s, f, a), pid, id, r) == RewriteSafe(s, pid, id, r)
  {
    OwnedAppend(s, own, f, a);
    OwnersGrow(s, own, f, a);
    ReadIsOwnCopy(s, own, pid);
    ReadIsOwnCopy(Append(s, f, a), AppendOwners(own, s, f, a), pid);
    ViewOwned(s, own);
    AppendView(s, own, f, a, pid);
    AppendCaches(s, f, a);
    hide Owned, Overlay, View, Replaced, Used, AppendOwners, ReadDataPage, Append, OwnedPage;
  }

  lemma OtherPage(s: Store, own: Owners, f: Family, pid: nat)
    requires Owned(s, own) && pid in own && own[pid] != f
    ensures pid in View(s) && pid in s.main && pid != s.pageCount
    ensures f in s.current ==> s.current[f].pid != pid
  {
    ViewOwned(s, own);
    hide Overlay, View, OwnedPage;
  }

  lemma AppendView(s: Store, own: Owners, f: Family, a: Record, pid: nat)
    requires Owned(s, own) && pid in own && own[pid] != f
    ensures pid in View(Append(s, f, a)) && pid in View(s) && View(Append(s, f, a))[pid] == View(s)[pid]
    ensures pid in Append(s, f, a).main && pid in s.main && Append(s, f, a).main[pid] == s.main[pid]
  {
    hide Owned, Overlay, View, Pack, Used, OwnedPage, AppendNew, AppendCurrent;
    OtherPage(s, own, f, pid);
    if FitsCurrent(s, f, a) {
      ViewAppendCurrent(s, f, a);
    } else {
      ViewAppendNew(s, own, f, a);
    }
  }

  lemma AppendCaches(s: Store, f: Family, a: Record)
    ensures forall g | g != f :: (g in Append(s, f, a).current) == (g in s.current)
    ensures forall g | g != f && g in s.current :: Append(s, f, a).current[g] == s.current[g]
  {
    hide Pack, HasRoom;
  }

  // ---------------------------------------------------------------------------
  // Checkpoint and reopening
  // ---------------------------------------------------------------------------

  lemma StoredCheckpoint(s: Store, own: Owners, ch: Chains)
    requires Stored(s, own, ch)
    ensures Stored(Checkpoint(s), own, ch)
    ensures forall g | g in ch :: LogOf(Checkpoint(s), ch, g) == LogOf(s, ch, g)
  {
    hide Owned, ChainOk, Checkpoint, Entries, OwnedBy;
    OwnedCheckpoint(s, own);
    forall g | g in ch
      ensures ChainStored(Checkpoint(s), own, ch, g) && LogOf(Checkpoint(s), ch, g) == LogOf(s, ch, g)
    {
      assert ChainStored(s, own, ch, g);
      LoadFindsLog(s, g, ch[g]);
    }
  }

  /** The file after a clean close, as the next open finds it. */
  function Closed(s: Store, bytes: seq<Byte>): Store {
    Reopened(SaveCatalog(s, bytes))
  }

  lemma {:induction false} NewPagesAreCatalog(s: Store, own: Owners, bytes: seq<Byte>)
    ensures forall p | p in CatalogOwners(own, s, bytes) ::
      CatalogOwners(own, s, bytes)[p] == CatalogData || (p in own && CatalogOwners(own, s, bytes)[p] == own[p])
    decreases |bytes|
  {
    if bytes != [] {
      var n := if |bytes| < CAPACITY then |bytes| else CAPACITY;
      NewPagesAreCatalog(Allocate(s), Grown(own, s, CatalogData), bytes[n..]);
    }
  }

  lemma StoredClosed(s: Store, own: Owners, ch: Chains, bytes: seq<Byte>)
    requires Stored(s, own, ch)
    ensures Stored(Closed(s, bytes), SavedOwners(own, s, bytes), ch)
    ensures forall g | g in ch :: LogOf(Closed(s, bytes), ch, g) == LogOf(s, ch, g)
    ensures forall g | g in ch :: Loaded(Closed(s, bytes), g) == LogOf(s, ch, g)
  {
    var more := SavedOwners(own, s, bytes);
    OwnedSaveCatalog(s, own, bytes);
    OwnedReopened(SaveCatalog(s, bytes), more);
    NewPagesAreCatalog(s, own, bytes);
    hide Owned, ChainOk, Checkpoint, SaveCatalog, Entries, OwnedBy, CatalogOwners;
    forall g | g in ch
      ensures ChainStored(Closed(s, bytes), more, ch, g) && LogOf(Closed(s, bytes), ch, g) == LogOf(s, ch, g)
      ensures Loaded(Closed(s, bytes), g) == LogOf(s, ch, g)
    {
      assert ChainStored(s, own, ch, g);
      CatalogKeepsLog(s, own, bytes, g, ch[g]);
      ReopenKeepsLog(SaveCatalog(s, bytes), g, ch[g]);
      LoadFindsLog(SaveCatalog(s, bytes), g, ch[g]);
      LoadedOfReopened(SaveCatalog(s, bytes), g);
    }
    assert Covered(more, ch) by {
      forall p | p in more && more[p] in ch
        ensures p in ch[more[p]]
      {
        assert ChainStored(s, own, ch, more[p]);
      }
    }
  }

  lemma LoadedOfReopened(s: Store, f: Family)
    ensures Loaded(Reopened(s), f) == Loaded(Checkpoint(s), f)
  {
  }
}
