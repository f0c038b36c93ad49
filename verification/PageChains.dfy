/** Page chains: well formed in every reachable store, and the log of records each chain
    holds under appends, rewrites, checkpoints and reopening. */
module PageChains {
  import opened Wrappers
  import opened Graph
  import opened Pages

  // ---------------------------------------------------------------------------
  // Ownership: every copy of a page belongs to one family
  // ---------------------------------------------------------------------------

  type Owners = map<nat, Family>

  /** One copy of page `pid`: its records are of the owner's family and it points, if at
      all, to a later page of the same owner. */
  predicate OwnedPage(own: Owners, pid: nat, page: Page) {
    && pid in own
    && (page.next != 0 ==> pid < page.next && page.next in own && own[page.next] == own[pid])
    && forall i | 0 <= i < |page.recs| :: FamilyOf(page.recs[i]) == own[pid]
  }

  /** Every copy of every page, in the main file, in the log and in the caches, respects the
      owners, and so do the roots. */
  ghost predicate Owned(s: Store, own: Owners) {
    && s.pageCount >= FIRST_DATA_PAGE
    && (forall p :: p in own <==> FIRST_DATA_PAGE <= p < s.pageCount)
    && (forall p :: p in s.main <==> p in own)
    && (forall p | p in s.main :: OwnedPage(own, p, s.main[p]))
    && (forall i | 0 <= i < |s.wal| :: OwnedPage(own, s.wal[i].pid, s.wal[i].page))
    && (forall f | f in s.current ::
          f != CatalogData && OwnedPage(own, s.current[f].pid, s.current[f].page) && own[s.current[f].pid] == f)
    && (forall f | f in s.roots :: s.roots[f] in own && own[s.roots[f]] == f)
  }

  /** Pages point to later pages of the file, or to none: no chain has a cycle, and every load
      ends at a page without successor. */
  ghost predicate Forward(file: map<nat, Page>, bound: nat) {
    forall p | p in file :: p < bound && (file[p].next != 0 ==> p < file[p].next && file[p].next in file)
  }

  function Grown(own: Owners, s: Store, f: Family): Owners {
    own[s.pageCount := f]
  }

  lemma OwnedPageGrows(own: Owners, more: Owners, pid: nat, page: Page)
    requires OwnedPage(own, pid, page)
    requires forall p | p in own :: p in more && more[p] == own[p]
    ensures OwnedPage(more, pid, page)
  {
  }

  lemma OwnedAllocate(s: Store, own: Owners, f: Family)
    requires Owned(s, own)
    ensures Owned(Allocate(s), Grown(own, s, f))
  {
    var more := Grown(own, s, f);
    forall pid, page | OwnedPage(own, pid, page)
      ensures OwnedPage(more, pid, page)
    {
      OwnedPageGrows(own, more, pid, page);
    }
  }

  lemma OwnedLog(s: Store, own: Owners, pid: nat, page: Page)
    requires Owned(s, own) && OwnedPage(own, pid, page)
    ensures Owned(Log(s, pid, page), own)
  {
    var t := Log(s, pid, page);
    assert forall i | 0 <= i < |t.wal| :: t.wal[i] == if i < |s.wal| then s.wal[i] else Frame(pid, page);
  }

  lemma OwnedCache(s: Store, own: Owners, f: Family, pid: nat, page: Page)
    requires Owned(s, own) && OwnedPage(own, pid, page) && own[pid] == f && f != CatalogData
    ensures Owned(s.(current := s.current[f := Cached(pid, page)]), own)
  {
  }

  lemma OwnedRoot(s: Store, own: Owners, f: Family, pid: nat)
    requires Owned(s, own) && pid in own && own[pid] == f
    ensures Owned(s.(roots := s.roots[f := pid]), own)
  {
  }

  lemma OwnedLink(own: Owners, pid: nat, page: Page, next: nat)
    requires OwnedPage(own, pid, page) && next in own && own[next] == own[pid] && pid < next
    ensures OwnedPage(own, pid, page.(next := next))
  {
  }

  lemma OwnedPack(own: Owners, pid: nat, page: Page, r: Record)
    requires OwnedPage(own, pid, page) && FamilyOf(r) == own[pid]
    ensures OwnedPage(own, pid, Pack(page, r))
  {
  }

  /** Pages allocated already stay owned when a page is added. */
  lemma OwnedGrown(s: Store, own: Owners, f: Family, pid: nat, page: Page)
    requires Owned(s, own) && OwnedPage(own, pid, page)
    ensures var more := Grown(own, s, f);
            OwnedPage(more, pid, page) && more[pid] == own[pid] && pid < s.pageCount
  {
    OwnedPageGrows(own, Grown(own, s, f), pid, page);
  }

  /** The owners after an append. */
  function AppendOwners(own: Owners, s: Store, f: Family, r: Record): Owners {
    if FitsCurrent(s, f, r) then own else Grown(own, s, f)
  }

  lemma OwnedAppend(s: Store, own: Owners, f: Family, r: Record)
    requires Owned(s, own) && FamilyOf(r) == f && f != CatalogData
    ensures Owned(Append(s, f, r), AppendOwners(own, s, f, r))
    ensures AppendPage(s, f, r) in AppendOwners(own, s, f, r)
    ensures AppendOwners(own, s, f, r)[AppendPage(s, f, r)] == f
  {
    if FitsCurrent(s, f, r) {
      assert f in s.current && OwnedPage(own, s.current[f].pid, s.current[f].page) && own[s.current[f].pid] == f;
      var pid, page := s.current[f].pid, Pack(s.current[f].page, r);
      OwnedPack(own, pid, s.current[f].page, r);
      OwnedLog(s, own, pid, page);
      OwnedCache(Log(s, pid, page), own, f, pid, page);
    } else {
      OwnedAppendNew(s, own, f, r);
    }
  }

  lemma OwnedAppendNew(s: Store, own: Owners, f: Family, r: Record)
    requires Owned(s, own) && FamilyOf(r) == f && f != CatalogData
    ensures Owned(AppendNew(s, f, r), Grown(own, s, f))
  {
    var pid, more := s.pageCount, Grown(own, s, f);
    var page := Pack(Page(Some(f), 0, []), r);
    var l := LinkNew(Allocate(s), f, pid);
    OwnedLinkNew(s, own, f);
    assert OwnedPage(more, pid, page);
    hide Owned, OwnedPage, Pack, Grown, LinkNew;
    OwnedLog(l, more, pid, page);
    var t := Log(l, pid, page);
    var t' := if f in s.roots then t else t.(roots := s.roots[f := pid]);
    if f !in s.roots {
      OwnedRoot(t, more, f, pid);
    }
    OwnedCache(t', more, f, pid, page);
  }

  lemma OwnedLinkNew(s: Store, own: Owners, f: Family)
    requires Owned(s, own)
    ensures Owned(LinkNew(Allocate(s), f, s.pageCount), Grown(own, s, f))
    ensures LinkNew(Allocate(s), f, s.pageCount).roots == s.roots
    ensures LinkNew(Allocate(s), f, s.pageCount).current == s.current
  {
    OwnedAllocate(s, own, f);
    if f in s.current {
      var pid, page := s.current[f].pid, s.current[f].page;
      assert OwnedPage(own, pid, page) && own[pid] == f;
      OwnedGrown(s, own, f, pid, page);
      hide Owned, OwnedPage;
      OwnedLink(Grown(own, s, f), pid, page, s.pageCount);
      OwnedLog(Allocate(s), Grown(own, s, f), pid, page.(next := s.pageCount));
    }
  }

  /** A page read through the caches is a copy of that page, and no cache of another family
      answers for it. */
  lemma ReadIsOwnCopy(s: Store, own: Owners, pid: nat)
    requires Owned(s, own) && pid in own
    ensures ReadDataPage(s, pid) == if CachedAt(s, own[pid], pid) then s.current[own[pid]].page else s.main[pid]
    ensures OwnedPage(own, pid, ReadDataPage(s, pid))
  {
    assert forall f | CachedAt(s, f, pid) :: f == own[pid] && f != CatalogData && OwnedPage(own, pid, s.current[f].page);
    assert pid in s.main && OwnedPage(own, pid, s.main[pid]);
    hide Owned, OwnedPage;
  }

  lemma {:induction false} PackAllKeeps(page: Page, recs: seq<Record>, f: Family)
    requires forall i | 0 <= i < |page.recs| :: FamilyOf(page.recs[i]) == f
    requires forall i | 0 <= i < |recs| :: FamilyOf(recs[i]) == f
    ensures PackAll(page, recs).next == page.next && PackAll(page, recs).kind == page.kind
    ensures forall i | 0 <= i < |PackAll(page, recs).recs| :: FamilyOf(PackAll(page, recs).recs[i]) == f
  {
    if recs != [] {
      PackAllKeeps(page, recs[..|recs| - 1], f);
    }
  }

  lemma {:induction false} ReplacedAt(recs: seq<Record>, id: nat, r: Record)
    ensures forall i | 0 <= i < |recs| ::
      Replaced(recs, id, r)[i] == if IdOf(recs[i]) == id then r else recs[i]
  {
    if recs != [] {
      ReplacedAt(recs[..|recs| - 1], id, r);
    }
  }

  lemma OwnedRewrite(s: Store, own: Owners, f: Family, pid: nat, id: nat, r: Record)
    requires Owned(s, own) && FamilyOf(r) == f && pid in own && own[pid] == f && f != CatalogData
    ensures Owned(Rewrite(s, f, pid, id, r), own)
  {
    ReadIsOwnCopy(s, own, pid);
    var read := ReadDataPage(s, pid);
    ReplacedAt(read.recs, id, r);
    PackAllKeeps(Page(read.kind, read.next, []), Replaced(read.recs, id, r), f);
    OwnedLog(s, own, pid, Rebuilt(read, id, r));
  }

  lemma {:induction false} OwnedOverlay(own: Owners, main: map<nat, Page>, wal: seq<Frame>)
    requires forall p :: p in main <==> p in own
    requires forall p | p in main :: OwnedPage(own, p, main[p])
    requires forall i | 0 <= i < |wal| :: OwnedPage(own, wal[i].pid, wal[i].page)
    ensures forall p :: p in Overlay(main, wal) <==> p in own
    ensures forall p | p in own :: OwnedPage(own, p, Overlay(main, wal)[p])
  {
    if wal != [] {
      OwnedOverlay(own, main, wal[..|wal| - 1]);
    }
  }

  lemma OwnedCheckpoint(s: Store, own: Owners)
    requires Owned(s, own)
    ensures Owned(Checkpoint(s), own)
  {
    OwnedOverlay(own, s.main, s.wal);
  }

  /** Following a chain from a page of a family stays within the family's pages, moves to
      later pages only, and ends at a page of the family. */
  lemma {:induction false} WalkOwned(file: map<nat, Page>, own: Owners, pid: nat, bound: nat)
    requires forall p :: p in own <==> FIRST_DATA_PAGE <= p < bound
    requires forall p :: p in file <==> p in own
    requires forall p | p in own :: OwnedPage(own, p, file[p])
    requires pid in own
    ensures forall i | 0 <= i < |Walk(file, pid, bound)| ::
      var (q, r) := Walk(file, pid, bound)[i]; pid <= q && q in own && own[q] == own[pid] && FamilyOf(r) == own[pid]
    ensures var end := WalkEnd(file, pid, bound);
            end.pid in own && own[end.pid] == own[pid] && end.page == file[end.pid] && end.page.next == 0
    decreases bound - pid
  {
    if file[pid].next != 0 {
      WalkOwned(file, own, file[pid].next, bound);
    }
  }

  lemma OwnedReopened(s: Store, own: Owners)
    requires Owned(s, own)
    ensures Owned(Reopened(s), own)
  {
    OwnedCheckpoint(s, own);
    var c := Checkpoint(s);
    forall f | f in c.roots && f != CatalogData
      ensures OwnedPage(own, WalkEnd(c.main, c.roots[f], c.pageCount).pid, WalkEnd(c.main, c.roots[f], c.pageCount).page)
      ensures own[WalkEnd(c.main, c.roots[f], c.pageCount).pid] == f
    {
      WalkOwned(c.main, own, c.roots[f], c.pageCount);
    }
  }

  // ---------------------------------------------------------------------------
  // Catalog pages
  // ---------------------------------------------------------------------------

  /** The owners after saving a catalog: new pages belong to the catalog. */
  function {:induction false} CatalogOwners(own: Owners, s: Store, bytes: seq<Byte>): (more: Owners)
    ensures forall p | p in own && p < s.pageCount :: p in more && more[p] == own[p]
    decreases |bytes|
  {
    if bytes == [] then own
    else
      var n := if |bytes| < CAPACITY then |bytes| else CAPACITY;
      CatalogOwners(Grown(own, s, CatalogData), Allocate(s), bytes[n..])
  }

  /** One step of saving: the page before is linked to a new page and logged. */
  lemma ChunkOwned(s: Store, own: Owners, prev: Cached, page: Page)
    requires Owned(s, own) && OwnedPage(own, prev.pid, prev.page) && own[prev.pid] == CatalogData
    requires page.next == 0 && forall i | 0 <= i < |page.recs| :: FamilyOf(page.recs[i]) == CatalogData
    ensures var more := Grown(own, s, CatalogData);
            && prev.pid in own && prev.pid < s.pageCount
            && Owned(Log(Allocate(s), prev.pid, prev.page.(next := s.pageCount)), more)
            && OwnedPage(more, s.pageCount, page) && more[s.pageCount] == CatalogData
  {
    var more := Grown(own, s, CatalogData);
    OwnedAllocate(s, own, CatalogData);
    OwnedGrown(s, own, CatalogData, prev.pid, prev.page);
    assert OwnedPage(more, s.pageCount, page);
    hide Owned;
    OwnedLink(more, prev.pid, prev.page, s.pageCount);
    OwnedLog(Allocate(s), more, prev.pid, prev.page.(next := s.pageCount));
  }

  lemma {:induction false} OwnedSaveChunks(s: Store, own: Owners, prev: Cached, bytes: seq<Byte>)
    requires Owned(s, own) && OwnedPage(own, prev.pid, prev.page) && own[prev.pid] == CatalogData
    ensures Owned(SaveChunks(s, prev, bytes), CatalogOwners(own, s, bytes))
    ensures SaveChunks(s, prev, bytes).roots == s.roots
    decreases |bytes|
  {
    hide Owned, OwnedPage, CatalogOwners, Allocate, Log;
    if bytes == [] {
      OwnedLog(s, own, prev.pid, prev.page);
      NoChunksOwners(own, s);
      RootsOfChunk(s, prev.pid, prev.page);
    } else {
      var n := if |bytes| < CAPACITY then |bytes| else CAPACITY;
      var pid, linked := s.pageCount, prev.page.(next := s.pageCount);
      var more := Grown(own, s, CatalogData);
      ChunkOwned(s, own, prev, CatalogPage(bytes[..n]));
      OwnedSaveChunks(Log(Allocate(s), prev.pid, linked), more, Cached(pid, CatalogPage(bytes[..n])), bytes[n..]);
      CatalogOwnersStep(own, s, bytes);
      CatalogOwnersOfLog(more, Allocate(s), prev.pid, linked, bytes[n..]);
      RootsOfChunk(s, prev.pid, linked);
    }
  }

  lemma NoChunksOwners(own: Owners, s: Store)
    ensures CatalogOwners(own, s, []) == own
  {
  }

  lemma RootsOfChunk(s: Store, pid: nat, page: Page)
    ensures Log(Allocate(s), pid, page).roots == s.roots && Log(s, pid, page).roots == s.roots
  {
  }

  lemma {:induction false} CatalogOwnersOfLog(own: Owners, s: Store, pid: nat, page: Page, bytes: seq<Byte>)
    ensures CatalogOwners(own, Log(s, pid, page), bytes) == CatalogOwners(own, s, bytes)
    decreases |bytes|
  {
    if bytes != [] {
      var n := if |bytes| < CAPACITY then |bytes| else CAPACITY;
      CatalogOwnersOfLog(Grown(own, s, CatalogData), Allocate(s), pid, page, bytes[n..]);
      assert Allocate(Log(s, pid, page)) == Log(Allocate(s), pid, page);
    }
  }

  lemma CatalogOwnersStep(own: Owners, s: Store, bytes: seq<Byte>)
    requires bytes != []
    ensures var n := if |bytes| < CAPACITY then |bytes| else CAPACITY;
            CatalogOwners(own, s, bytes) == CatalogOwners(Grown(own, s, CatalogData), Allocate(s), bytes[n..])
  {
  }

  function SavedOwners(own: Owners, s: Store, bytes: seq<Byte>): Owners {
    CatalogOwners(own, s, bytes)
  }

  lemma OwnedSaveCatalog(s: Store, own: Owners, bytes: seq<Byte>)
    requires Owned(s, own)
    ensures Owned(SaveCatalog(s, bytes), SavedOwners(own, s, bytes))
  {
    if bytes != [] {
      var n := if |bytes| < CAPACITY then |bytes| else CAPACITY;
      var pid := s.pageCount;
      OwnedAllocate(s, own, CatalogData);
      var more := Grown(own, s, CatalogData);
      assert OwnedPage(more, pid, CatalogPage(bytes[..n]));
      CatalogOwnersStep(own, s, bytes);
      hide Owned, OwnedPage;
      OwnedSaveChunks(Allocate(s), more, Cached(pid, CatalogPage(bytes[..n])), bytes[n..]);
      OwnedRoot(SaveChunks(Allocate(s), Cached(pid, CatalogPage(bytes[..n])), bytes[n..]),
                CatalogOwners(own, s, bytes), CatalogData, pid);
    }
  }
}
