/** A page chain as a log of records: what appends, rewrites, checkpoints and reopening do
    to the sequence of records a family's chain holds. */
module PageLogs {
  import opened Wrappers
  import opened Graph
  import opened Pages
  import opened PageChains

  type Entry = (nat, Record)

  /** The page after the i-th, 0 after the last. */
  function After(ps: seq<nat>, i: nat): nat {
    if i + 1 < |ps| then ps[i + 1] else 0
  }

  /** The pages `ps` form one chain of family `f` in the file: each points to the next, the
      last to none, and page numbers ascend. */
  ghost predicate Chained(file: map<nat, Page>, f: Family, ps: seq<nat>, bound: nat) {
    && (forall i | 0 <= i < |ps| :: FIRST_DATA_PAGE <= ps[i] < bound && ps[i] in file)
    && (forall i | 0 <= i < |ps| :: file[ps[i]].kind == Some(f))
    && (forall i | 0 <= i < |ps| :: file[ps[i]].next == After(ps, i))
    && (forall i, j | 0 <= i < j < |ps| :: ps[i] < ps[j])
  }

  /** The main file's copy of a page never holds more records than the page does. */
  ghost predicate Behind(main: map<nat, Page>, file: map<nat, Page>, ps: seq<nat>) {
    forall i | 0 <= i < |ps| :: ps[i] in main && ps[i] in file && |main[ps[i]].recs| <= |file[ps[i]].recs|
  }

  /** Roots and cache agree with the chain. */
  ghost predicate ChainOk(s: Store, f: Family, ps: seq<nat>) {
    && Chained(View(s), f, ps, s.pageCount) && Behind(s.main, View(s), ps)
    && (f in s.roots <==> ps != []) && (f in s.current <==> ps != [])
    && (ps != [] ==> s.roots[f] == ps[0] && s.current[f] == Cached(ps[|ps| - 1], View(s)[ps[|ps| - 1]]))
  }

  ghost predicate OwnedBy(own: Owners, f: Family, ps: seq<nat>) {
    forall i | 0 <= i < |ps| :: ps[i] in own && own[ps[i]] == f
  }

  /** The records of the chain's pages from the i-th on, each with its page. */
  function EntriesFrom(file: map<nat, Page>, ps: seq<nat>, i: nat): seq<Entry>
    requires i <= |ps|
    decreases |ps| - i
  {
    if i == |ps| then []
    else (if ps[i] in file then Tagged(ps[i], file[ps[i]].recs) else []) + EntriesFrom(file, ps, i + 1)
  }

  /** The log of a chain. */
  function Entries(s: Store, ps: seq<nat>): seq<Entry> {
    EntriesFrom(View(s), ps, 0)
  }

  lemma {:induction false} EntriesFrame(file: map<nat, Page>, other: map<nat, Page>, ps: seq<nat>, i: nat)
    requires i <= |ps|
    requires forall j | i <= j < |ps| :: ps[j] in file && ps[j] in other && file[ps[j]].recs == other[ps[j]].recs
    ensures EntriesFrom(file, ps, i) == EntriesFrom(other, ps, i)
    decreases |ps| - i
  {
    if i < |ps| {
      EntriesFrame(file, other, ps, i + 1);
      assert Tagged(ps[i], file[ps[i]].recs) == Tagged(ps[i], other[ps[i]].recs);
    }
  }

  lemma {:induction false} EntriesSnoc(file: map<nat, Page>, ps: seq<nat>, p: nat, i: nat)
    requires i <= |ps| && p in file
    ensures EntriesFrom(file, ps + [p], i) == EntriesFrom(file, ps, i) + Tagged(p, file[p].recs)
    decreases |ps| - i
  {
    if i < |ps| {
      EntriesSnoc(file, ps, p, i + 1);
      assert (ps + [p])[i] == ps[i];
    } else {
      assert EntriesFrom(file, ps + [p], i + 1) == [];
    }
  }

  // ---------------------------------------------------------------------------
  // The view under single steps
  // ---------------------------------------------------------------------------

  lemma ViewLog(s: Store, pid: nat, page: Page)
    ensures View(Log(s, pid, page)) == View(s)[pid := page]
  {
    assert (s.wal + [Frame(pid, page)])[..|s.wal|] == s.wal;
  }

  lemma {:induction false} OverlayFresh(main: map<nat, Page>, wal: seq<Frame>, p: nat, page: Page)
    requires forall i | 0 <= i < |wal| :: wal[i].pid != p
    ensures Overlay(main[p := page], wal) == Overlay(main, wal)[p := page]
  {
    if wal != [] {
      OverlayFresh(main, wal[..|wal| - 1], p, page);
    }
  }

  lemma ViewAllocate(s: Store, own: Owners)
    requires Owned(s, own)
    ensures View(Allocate(s)) == View(s)[s.pageCount := ZERO_PAGE]
  {
    OverlayFresh(s.main, s.wal, s.pageCount, ZERO_PAGE);
  }

  lemma ViewOwned(s: Store, own: Owners)
    requires Owned(s, own)
    ensures forall p :: p in View(s) <==> p in own
    ensures forall p | p in own :: OwnedPage(own, p, View(s)[p])
  {
    OwnedOverlay(own, s.main, s.wal);
  }

  // ---------------------------------------------------------------------------
  // Appending
  // ---------------------------------------------------------------------------

  /** The chain after an append. */
  function AppendChain(s: Store, f: Family, r: Record, ps: seq<nat>): seq<nat> {
    if FitsCurrent(s, f, r) then ps else ps + [s.pageCount]
  }

  /** A chain whose pages a step leaves alone stays as it is. */
  lemma ChainKept(s: Store, t: Store, f: Family, ps: seq<nat>)
    requires ChainOk(s, f, ps)
    requires s.pageCount <= t.pageCount
    requires f in t.roots <==> f in s.roots
    requires f in s.roots ==> t.roots[f] == s.roots[f]
    requires f in t.current <==> f in s.current
    requires f in s.current ==> t.current[f] == s.current[f]
    requires forall i | 0 <= i < |ps| :: ps[i] in View(t) && View(t)[ps[i]] == View(s)[ps[i]]
    requires forall i | 0 <= i < |ps| :: ps[i] in t.main && t.main[ps[i]] == s.main[ps[i]]
    ensures ChainOk(t, f, ps) && Entries(t, ps) == Entries(s, ps)
  {
    hide Overlay, View, EntriesFrom;
    EntriesFrame(View(s), View(t), ps, 0);
    ChainedSame(View(s), View(t), f, ps, s.pageCount, t.pageCount);
    hide Chained;
  }

  lemma ChainedSame(file: map<nat, Page>, other: map<nat, Page>, f: Family, ps: seq<nat>, bound: nat, more: nat)
    requires Chained(file, f, ps, bound) && bound <= more
    requires forall i | 0 <= i < |ps| :: ps[i] in other && other[ps[i]] == file[ps[i]]
    ensures Chained(other, f, ps, more)
  {
  }

  lemma ViewAppendCurrent(s: Store, f: Family, r: Record)
    requires f in s.current
    ensures View(AppendCurrent(s, f, r)) == View(s)[s.current[f].pid := Pack(s.current[f].page, r)]
    ensures AppendCurrent(s, f, r).main == s.main
  {
    var page := Pack(s.current[f].page, r);
    ViewLog(s, s.current[f].pid, page);
  }

  /** The view after an append on a new page. */
  function ViewNew(s: Store, f: Family, r: Record): map<nat, Page> {
    var linked := if f in s.current then View(s)[s.current[f].pid := s.current[f].page.(next := s.pageCount)] else View(s);
    linked[s.pageCount := Pack(Page(Some(f), 0, []), r)]
  }

  lemma OverwriteFresh<K, V>(m: map<K, V>, n: K, z: V, k: K, v: V, w: V)
    requires n != k
    ensures m[n := z][n := w] == m[n := w]
    ensures m[n := z][k := v][n := w] == m[k := v][n := w]
  {
  }

  lemma ViewLinkNew(s: Store, own: Owners, f: Family)
    requires Owned(s, own)
    ensures var n := s.pageCount;
            View(LinkNew(Allocate(s), f, n)) ==
            if f in s.current then View(s)[n := ZERO_PAGE][s.current[f].pid := s.current[f].page.(next := n)]
            else View(s)[n := ZERO_PAGE]
    ensures f in s.current ==> s.current[f].pid != s.pageCount
  {
    assert f in s.current ==> s.current[f].pid in own;
    ViewAllocate(s, own);
    hide Owned, Overlay, View;
    if f in s.current {
      ViewLog(Allocate(s), s.current[f].pid, s.current[f].page.(next := s.pageCount));
    }
  }

  lemma ViewAppendNew(s: Store, own: Owners, f: Family, r: Record)
    requires Owned(s, own)
    ensures View(AppendNew(s, f, r)) == ViewNew(s, f, r)
    ensures AppendNew(s, f, r).main == s.main[s.pageCount := ZERO_PAGE]
  {
    hide Owned, Overlay, View, Pack;
    var n, page := s.pageCount, Pack(Page(Some(f), 0, []), r);
    var l := LinkNew(Allocate(s), f, n);
    ViewLinkNew(s, own, f);
    ViewLog(l, n, page);
    ViewOfCaches(Log(l, n, page), AppendNew(s, f, r));
    if f in s.current {
      OverwriteFresh(View(s), n, ZERO_PAGE, s.current[f].pid, s.current[f].page.(next := n), page);
    } else {
      OverwriteFresh(View(s), n, ZERO_PAGE, n + 1, ZERO_PAGE, page);
    }
  }

  lemma ViewOfCaches(s: Store, t: Store)
    requires t.main == s.main && t.wal == s.wal
    ensures View(t) == View(s)
  {
  }

  lemma AppendCurrentElsewhere(s: Store, own: Owners, f: Family, r: Record, g: Family, qs: seq<nat>)
    requires Owned(s, own) && ChainOk(s, g, qs) && OwnedBy(own, g, qs) && f != g && f in s.current
    ensures ChainOk(AppendCurrent(s, f, r), g, qs)
    ensures Entries(AppendCurrent(s, f, r), qs) == Entries(s, qs)
  {
    hide Owned, OwnedBy, Overlay, View, Entries, Pack, ChainOk;
    ForeignPages(s, own, f, g, qs);
    ViewAppendCurrent(s, f, r);
    ChainKept(s, AppendCurrent(s, f, r), g, qs);
  }

  lemma AppendNewElsewhere(s: Store, own: Owners, f: Family, r: Record, g: Family, qs: seq<nat>)
    requires Owned(s, own) && ChainOk(s, g, qs) && OwnedBy(own, g, qs) && f != g
    ensures ChainOk(AppendNew(s, f, r), g, qs)
    ensures Entries(AppendNew(s, f, r), qs) == Entries(s, qs)
  {
    hide Owned, OwnedBy, Overlay, View, Entries, Pack, ChainOk;
    ForeignPages(s, own, f, g, qs);
    ViewAppendNew(s, own, f, r);
    AppendNewOthers(s, f, r, g);
    hide AppendNew;
    ChainKept(s, AppendNew(s, f, r), g, qs);
  }

  lemma AppendNewOthers(s: Store, f: Family, r: Record, g: Family)
    requires f != g
    ensures var t := AppendNew(s, f, r);
            && s.pageCount <= t.pageCount
            && (g in t.roots <==> g in s.roots) && (g in s.roots ==> t.roots[g] == s.roots[g])
            && (g in t.current <==> g in s.current) && (g in s.current ==> t.current[g] == s.current[g])
  {
    hide Pack;
  }

  /** Appending to one family leaves the chains of the others alone. */
  lemma AppendElsewhere(s: Store, own: Owners, f: Family, r: Record, g: Family, qs: seq<nat>)
    requires Owned(s, own) && ChainOk(s, g, qs) && OwnedBy(own, g, qs) && f != g
    ensures ChainOk(Append(s, f, r), g, qs)
    ensures Entries(Append(s, f, r), qs) == Entries(s, qs)
  {
    hide Owned, OwnedBy, Entries, ChainOk, AppendCurrent, AppendNew;
    if FitsCurrent(s, f, r) {
      AppendCurrentElsewhere(s, own, f, r, g, qs);
    } else {
      AppendNewElsewhere(s, own, f, r, g, qs);
    }
  }

  /** The pages of another family's chain are neither new nor the last page of this one. */
  lemma ForeignPages(s: Store, own: Owners, f: Family, g: Family, qs: seq<nat>)
    requires Owned(s, own) && OwnedBy(own, g, qs) && f != g
    ensures forall i | 0 <= i < |qs| :: qs[i] in s.main && qs[i] in View(s) && qs[i] != s.pageCount
    ensures f in s.current ==> forall i | 0 <= i < |qs| :: qs[i] != s.current[f].pid
  {
    ViewOwned(s, own);
    hide Overlay, View, OwnedPage;
  }

  lemma EntriesGrow(file: map<nat, Page>, other: map<nat, Page>, ps: seq<nat>, r: Record)
    requires ps != []
    requires forall j | 0 <= j < |ps| :: ps[j] in file
    requires forall i, j | 0 <= i < j < |ps| :: ps[i] < ps[j]
    requires var p := ps[|ps| - 1];
             other.Keys == file.Keys && (forall q | q in file && q != p :: other[q] == file[q])
             && other[p].recs == file[p].recs + [r]
    ensures EntriesFrom(other, ps, 0) == EntriesFrom(file, ps, 0) + [(ps[|ps| - 1], r)]
  {
    var p, qs := ps[|ps| - 1], ps[..|ps| - 1];
    assert ps == qs + [p];
    EntriesSnoc(file, qs, p, 0);
    EntriesSnoc(other, qs, p, 0);
    EntriesFrame(file, other, qs, 0);
    assert Tagged(p, other[p].recs) == Tagged(p, file[p].recs) + [(p, r)];
  }

  /** The file after the last page of a chain gets another record. */
  lemma ChainedGrow(file: map<nat, Page>, main: map<nat, Page>, f: Family, ps: seq<nat>, bound: nat, page: Page)
    requires Chained(file, f, ps, bound) && Behind(main, file, ps) && ps != []
    requires page.kind == Some(f) && page.next == 0 && |page.recs| >= |file[ps[|ps| - 1]].recs|
    ensures Chained(file[ps[|ps| - 1] := page], f, ps, bound)
    ensures Behind(main, file[ps[|ps| - 1] := page], ps)
  {
    assert forall i | 0 <= i < |ps| - 1 :: ps[i] != ps[|ps| - 1];
  }

  /** The last page of a chain, as the cache has it. */
  lemma LastPage(s: Store, f: Family, ps: seq<nat>)
    requires ChainOk(s, f, ps) && ps != []
    ensures f in s.current && s.current[f].pid == ps[|ps| - 1]
    ensures s.current[f].pid in View(s) && View(s)[s.current[f].pid] == s.current[f].page
    ensures s.current[f].page.kind == Some(f) && s.current[f].page.next == 0
  {
    hide Overlay, View;
    var i := |ps| - 1;
    assert View(s)[ps[i]].next == After(ps, i);
  }

  lemma AppendCurrentLog(s: Store, own: Owners, f: Family, r: Record, ps: seq<nat>)
    requires Owned(s, own) && ChainOk(s, f, ps) && OwnedBy(own, f, ps)
    requires FitsCurrent(s, f, r)
    ensures ChainOk(AppendCurrent(s, f, r), f, ps)
    ensures Entries(AppendCurrent(s, f, r), ps) == Entries(s, ps) + [(s.current[f].pid, r)]
  {
    hide Owned, Overlay, View, Used;
    LastPage(s, f, ps);
    var t, pid, page := AppendCurrent(s, f, r), s.current[f].pid, Pack(s.current[f].page, r);
    ViewAppendCurrent(s, f, r);
    assert page == s.current[f].page.(recs := s.current[f].page.recs + [r]);
    hide Pack;
    ChainedGrow(View(s), s.main, f, ps, s.pageCount, page);
    EntriesGrow(View(s), View(t), ps, r);
  }

  /** The file after a new page `n` is linked behind the chain. */
  function Extended(file: map<nat, Page>, ps: seq<nat>, n: nat, page: Page): map<nat, Page>
    requires ps != [] ==> ps[|ps| - 1] in file
  {
    (if ps == [] then file else file[ps[|ps| - 1] := file[ps[|ps| - 1]].(next := n)])[n := page]
  }

  lemma AppendNewShape(s: Store, own: Owners, f: Family, r: Record, ps: seq<nat>)
    requires Owned(s, own) && ChainOk(s, f, ps)
    ensures ps != [] ==> ps[|ps| - 1] in View(s)
    ensures var t, n, page := AppendNew(s, f, r), s.pageCount, Pack(Page(Some(f), 0, []), r);
            && View(t) == Extended(View(s), ps, n, page) && n >= FIRST_DATA_PAGE
            && t.main == s.main[n := ZERO_PAGE] && t.pageCount == n + 1
            && f in t.roots && t.roots[f] == (ps + [n])[0]
            && f in t.current && t.current[f] == Cached(n, page)
            && page.kind == Some(f) && page.next == 0
  {
    ViewAppendNew(s, own, f, r);
    assert s.pageCount >= FIRST_DATA_PAGE;
    hide Owned, Overlay, View, Used;
    if ps != [] {
      LastPage(s, f, ps);
    }
  }

  lemma AppendNewChain(s: Store, own: Owners, f: Family, r: Record, ps: seq<nat>)
    requires Owned(s, own) && ChainOk(s, f, ps) && OwnedBy(own, f, ps)
    ensures ChainOk(AppendNew(s, f, r), f, ps + [s.pageCount])
  {
    hide Owned, Overlay, View, Pack, AppendNew, Chained, Behind;
    var n, page := s.pageCount, Pack(Page(Some(f), 0, []), r);
    AppendNewShape(s, own, f, r, ps);
    ChainedSnoc(View(s), f, ps, n, page);
    BehindSnoc(s.main, View(s), f, ps, n, page);
    assert Extended(View(s), ps, n, page)[n] == page;
  }

  lemma BehindSnoc(main: map<nat, Page>, file: map<nat, Page>, f: Family, ps: seq<nat>, n: nat, page: Page)
    requires Behind(main, file, ps) && Chained(file, f, ps, n)
    ensures Behind(main[n := ZERO_PAGE], Extended(file, ps, n, page), ps + [n])
  {
    var other, qs := Extended(file, ps, n, page), ps + [n];
    forall i | 0 <= i < |qs|
      ensures qs[i] in main[n := ZERO_PAGE] && qs[i] in other && |main[n := ZERO_PAGE][qs[i]].recs| <= |other[qs[i]].recs|
    {
      if i < |ps| {
        assert qs[i] == ps[i] && ps[i] != n;
      }
    }
  }

  lemma AscendingSnoc(ps: seq<nat>, n: nat)
    requires forall i, j | 0 <= i < j < |ps| :: ps[i] < ps[j]
    requires forall i | 0 <= i < |ps| :: ps[i] < n
    ensures forall i, j | 0 <= i < j < |ps + [n]| :: (ps + [n])[i] < (ps + [n])[j]
  {
  }

  lemma LinkSnoc(file: map<nat, Page>, f: Family, ps: seq<nat>, n: nat, page: Page, i: nat)
    requires Chained(file, f, ps, n) && n >= FIRST_DATA_PAGE && i <= |ps|
    requires page.kind == Some(f) && page.next == 0
    ensures var other: map<nat, Page>, qs: seq<nat> := Extended(file, ps, n, page), ps + [n];
            && FIRST_DATA_PAGE <= qs[i] < n + 1 && qs[i] in other && other[qs[i]].kind == Some(f)
            && other[qs[i]].next == After(qs, i)
  {
    if i < |ps| {
      assert ps[i] < n && file[ps[i]].kind == Some(f) && file[ps[i]].next == After(ps, i);
      assert i < |ps| - 1 ==> ps[i] < ps[|ps| - 1];
    }
  }

  lemma ChainedSnoc(file: map<nat, Page>, f: Family, ps: seq<nat>, n: nat, page: Page)
    requires Chained(file, f, ps, n) && n >= FIRST_DATA_PAGE
    requires page.kind == Some(f) && page.next == 0
    ensures Chained(Extended(file, ps, n, page), f, ps + [n], n + 1)
  {
    AscendingSnoc(ps, n);
    var other, qs := Extended(file, ps, n, page), ps + [n];
    hide Extended, After;
    forall i | 0 <= i < |qs|
      ensures FIRST_DATA_PAGE <= qs[i] < n + 1 && qs[i] in other && other[qs[i]].kind == Some(f)
      ensures other[qs[i]].next == After(qs, i)
    {
      LinkSnoc(file, f, ps, n, page, i);
    }
  }

  lemma ExtendedEntries(file: map<nat, Page>, f: Family, ps: seq<nat>, n: nat, page: Page)
    requires Chained(file, f, ps, n)
    ensures EntriesFrom(Extended(file, ps, n, page), ps + [n], 0) == EntriesFrom(file, ps, 0) + Tagged(n, page.recs)
  {
    var other := Extended(file, ps, n, page);
    EntriesSnoc(other, ps, n, 0);
    EntriesFrame(file, other, ps, 0);
  }

  /** A record on an empty page of its own, or none if it is too large for that. */
  lemma FirstRecord(n: nat, f: Family, r: Record)
    ensures Tagged(n, Pack(Page(Some(f), 0, []), r).recs) == if FitsPage(r) then [(n, r)] else []
  {
    assert Used([]) == 0;
    assert [] + [r] == [r];
  }

  lemma AppendNewLog(s: Store, own: Owners, f: Family, r: Record, ps: seq<nat>)
    requires Owned(s, own) && ChainOk(s, f, ps) && OwnedBy(own, f, ps)
    ensures Entries(AppendNew(s, f, r), ps + [s.pageCount])
         == Entries(s, ps) + if FitsPage(r) then [(s.pageCount, r)] else []
  {
    hide Owned, Overlay, View, Pack, AppendNew, Chained, Behind, Extended, EntriesFrom, FitsPage, OwnedBy;
    AppendNewShape(s, own, f, r, ps);
    ExtendedEntries(View(s), f, ps, s.pageCount, Pack(Page(Some(f), 0, []), r));
    FirstRecord(s.pageCount, f, r);
  }

  /** An append adds one record at the end of its family's log, or none if the record does
      not fit even an empty page. */
  lemma AppendAddsToLog(s: Store, own: Owners, f: Family, r: Record, ps: seq<nat>)
    requires Owned(s, own) && ChainOk(s, f, ps) && OwnedBy(own, f, ps)
    requires FamilyOf(r) == f && f != CatalogData
    ensures var t, qs := Append(s, f, r), AppendChain(s, f, r, ps);
            && ChainOk(t, f, qs) && OwnedBy(AppendOwners(own, s, f, r), f, qs)
            && Entries(t, qs) == Entries(s, ps) + (if FitsPage(r) then [(AppendPage(s, f, r), r)] else [])
  {
    hide Overlay, ChainOk, Entries;
    if FitsCurrent(s, f, r) {
      AppendCurrentLog(s, own, f, r, ps);
    } else {
      AppendNewChain(s, own, f, r, ps);
      AppendNewLog(s, own, f, r, ps);
    }
  }

  // ---------------------------------------------------------------------------
  // Rewriting
  // ---------------------------------------------------------------------------

  lemma {:induction false} PackAllShorter(page: Page, recs: seq<Record>)
    ensures |PackAll(page, recs).recs| <= |page.recs| + |recs|
  {
    if recs != [] {
      PackAllShorter(page, recs[..|recs| - 1]);
    }
  }

  /** Packing onto an empty page keeps all records exactly if they fit together. */
  lemma {:induction false} PackAllExactly(page: Page, recs: seq<Record>)
    requires page.recs == []
    ensures PackAll(page, recs).kind == page.kind && PackAll(page, recs).next == page.next
    ensures PackAll(page, recs).recs == recs <==> Used(recs) <= CAPACITY
    ensures PackAll(page, recs).recs != recs ==> |PackAll(page, recs).recs| < |recs|
  {
    if recs != [] {
      var front, last := recs[..|recs| - 1], recs[|recs| - 1];
      PackAllExactly(page, front);
      PackAllShorter(page, front);
      assert recs == front + [last];
    }
  }

  /** The log with the record of the given identity on the given page replaced. */
  function UpdateLog(log: seq<Entry>, pid: nat, id: nat, r: Record): (out: seq<Entry>)
    ensures |out| == |log|
    ensures forall k | 0 <= k < |log| ::
      out[k] == if log[k].0 == pid && IdOf(log[k].1) == id then (pid, r) else log[k]
  {
    seq(|log|, k requires 0 <= k < |log| => if log[k].0 == pid && IdOf(log[k].1) == id then (pid, r) else log[k])
  }

  lemma UpdateConcat(a: seq<Entry>, b: seq<Entry>, pid: nat, id: nat, r: Record)
    ensures UpdateLog(a + b, pid, id, r) == UpdateLog(a, pid, id, r) + UpdateLog(b, pid, id, r)
  {
    hide IdOf;
  }

  lemma UpdateTagged(page: nat, recs: seq<Record>, pid: nat, id: nat, r: Record)
    ensures UpdateLog(Tagged(page, recs), pid, id, r) == Tagged(page, if page == pid then Replaced(recs, id, r) else recs)
  {
    hide IdOf;
    ReplacedAt(recs, id, r);
  }

  lemma {:induction false} EntriesReplace(file: map<nat, Page>, other: map<nat, Page>, ps: seq<nat>, i: nat, pid: nat, id: nat, r: Record)
    requires i <= |ps| && pid in file && pid in other
    requires forall j | i <= j < |ps| :: ps[j] in file && ps[j] in other
    requires forall j | i <= j < |ps| && ps[j] != pid :: other[ps[j]].recs == file[ps[j]].recs
    requires other[pid].recs == Replaced(file[pid].recs, id, r)
    ensures EntriesFrom(other, ps, i) == UpdateLog(EntriesFrom(file, ps, i), pid, id, r)
    decreases |ps| - i
  {
    hide UpdateLog, Replaced, IdOf;
    if i < |ps| {
      EntriesReplace(file, other, ps, i + 1, pid, id, r);
      UpdateTagged(ps[i], file[ps[i]].recs, pid, id, r);
      UpdateConcat(Tagged(ps[i], file[ps[i]].recs), EntriesFrom(file, ps, i + 1), pid, id, r);
    }
  }

  /** What a rewrite needs: the page it reads is up to date apart from the record it is
      about to replace, and the rebuilt records fit the page. A caller can check both. */
  ghost predicate RewriteSafe(s: Store, pid: nat, id: nat, r: Record) {
    && pid in View(s)
    && var read, page := ReadDataPage(s, pid), View(s)[pid];
       && read.kind == page.kind && read.next == page.next
       && Replaced(read.recs, id, r) == Replaced(page.recs, id, r)
       && Used(Replaced(page.recs, id, r)) <= CAPACITY
  }

  /** A rewrite replaces the one record and keeps every other record of the page and its
      link exactly when it is safe. */
  lemma RewriteExactly(s: Store, own: Owners, f: Family, ps: seq<nat>, pid: nat, id: nat, r: Record)
    requires Owned(s, own) && ChainOk(s, f, ps) && OwnedBy(own, f, ps) && pid in ps
    ensures View(Rewrite(s, f, pid, id, r))[pid]
            == View(s)[pid].(recs := Replaced(View(s)[pid].recs, id, r))
            <==> RewriteSafe(s, pid, id, r)
  {
    hide Overlay, Replaced, PackAll, Used;
    var read, page := ReadDataPage(s, pid), View(s)[pid];
    ReadIsOwnCopy(s, own, pid);
    assert |read.recs| <= |page.recs|;
    ViewLog(s, pid, Rebuilt(read, id, r));
    PackAllExactly(Page(read.kind, read.next, []), Replaced(read.recs, id, r));
  }

  /** A current page is always up to date, and so is one the main file has caught up with. */
  lemma FreshIsSafe(s: Store, own: Owners, f: Family, ps: seq<nat>, pid: nat, id: nat, r: Record)
    requires Owned(s, own) && ChainOk(s, f, ps) && OwnedBy(own, f, ps) && pid in ps
    requires CachedAt(s, f, pid) || s.main[pid] == View(s)[pid]
    ensures RewriteSafe(s, pid, id, r) <==> Used(Replaced(View(s)[pid].recs, id, r)) <= CAPACITY
  {
    hide Overlay, Replaced, Used;
    ReadIsOwnCopy(s, own, pid);
  }

  lemma RewriteElsewhere(s: Store, own: Owners, f: Family, pid: nat, id: nat, r: Record, g: Family, qs: seq<nat>)
    requires Owned(s, own) && ChainOk(s, g, qs) && OwnedBy(own, g, qs) && f != g
    requires pid in own && own[pid] == f
    ensures ChainOk(Rewrite(s, f, pid, id, r), g, qs)
    ensures Entries(Rewrite(s, f, pid, id, r), qs) == Entries(s, qs)
  {
    hide Owned, Overlay, View, Entries, Rebuilt, ChainOk, ReadDataPage;
    OldPages(s, own);
    var page := Rebuilt(ReadDataPage(s, pid), id, r);
    ViewLog(s, pid, page);
    ViewOfCaches(Log(s, pid, page), Rewrite(s, f, pid, id, r));
    ChainKept(s, Rewrite(s, f, pid, id, r), g, qs);
  }

  lemma ChainedReplace(file: map<nat, Page>, main: map<nat, Page>, f: Family, ps: seq<nat>, bound: nat, pid: nat, id: nat, r: Record)
    requires Chained(file, f, ps, bound) && Behind(main, file, ps) && pid in ps
    ensures var page := file[pid].(recs := Replaced(file[pid].recs, id, r));
            && Chained(file[pid := page], f, ps, bound) && Behind(main, file[pid := page], ps)
            && EntriesFrom(file[pid := page], ps, 0) == UpdateLog(EntriesFrom(file, ps, 0), pid, id, r)
  {
    var page := file[pid].(recs := Replaced(file[pid].recs, id, r));
    EntriesReplace(file, file[pid := page], ps, 0, pid, id, r);
  }

  lemma RewriteChain(s: Store, own: Owners, f: Family, ps: seq<nat>, pid: nat, id: nat, r: Record)
    requires Owned(s, own) && ChainOk(s, f, ps) && OwnedBy(own, f, ps) && pid in ps
    requires RewriteSafe(s, pid, id, r)
    ensures ChainOk(Rewrite(s, f, pid, id, r), f, ps)
    ensures Entries(Rewrite(s, f, pid, id, r), ps) == UpdateLog(Entries(s, ps), pid, id, r)
  {
    var t, page := Rewrite(s, f, pid, id, r), Rebuilt(ReadDataPage(s, pid), id, r);
    RewriteExactly(s, own, f, ps, pid, id, r);
    assert View(t) == View(s)[pid := page] by { ViewLog(s, pid, page); }
    assert page == View(s)[pid].(recs := Replaced(View(s)[pid].recs, id, r));
    hide Owned, Overlay, View, Replaced, Rebuilt, Used, RewriteSafe, EntriesFrom;
    ChainedReplace(View(s), s.main, f, ps, s.pageCount, pid, id, r);
    assert CachedAt(s, f, pid) <==> pid == ps[|ps| - 1];
  }

  // ---------------------------------------------------------------------------
  // Checkpoint, load and reopen
  // ---------------------------------------------------------------------------

  lemma {:induction false} WalkIsEntries(file: map<nat, Page>, f: Family, ps: seq<nat>, bound: nat, i: nat)
    requires Chained(file, f, ps, bound) && i < |ps|
    ensures Walk(file, ps[i], bound) == EntriesFrom(file, ps, i)
    ensures WalkEnd(file, ps[i], bound) == Cached(ps[|ps| - 1], file[ps[|ps| - 1]])
    decreases |ps| - i
  {
    if i + 1 < |ps| {
      assert file[ps[i]].next == ps[i + 1] && ps[i] < ps[i + 1];
      WalkIsEntries(file, f, ps, bound, i + 1);
    } else {
      assert file[ps[i]].next == 0;
      assert EntriesFrom(file, ps, i + 1) == [];
    }
  }

  /** After a checkpoint, loading a family finds exactly its log. */
  lemma LoadFindsLog(s: Store, f: Family, ps: seq<nat>)
    requires ChainOk(s, f, ps)
    ensures Loaded(Checkpoint(s), f) == Entries(s, ps)
    ensures ChainOk(Checkpoint(s), f, ps) && Entries(Checkpoint(s), ps) == Entries(s, ps)
  {
    hide Overlay;
    assert View(Checkpoint(s)) == View(s) by { OverlayEmpty(View(s)); }
    if ps != [] {
      WalkIsEntries(View(s), f, ps, s.pageCount, 0);
    }
  }

  lemma OverlayEmpty(main: map<nat, Page>)
    ensures Overlay(main, []) == main
  {
  }

  /** Closing and opening keeps every chain and every log. */
  lemma ReopenKeepsLog(s: Store, f: Family, ps: seq<nat>)
    requires ChainOk(s, f, ps) && f != CatalogData
    ensures ChainOk(Reopened(s), f, ps) && Entries(Reopened(s), ps) == Entries(s, ps)
  {
    hide Overlay;
    OverlayEmpty(View(s));
    if ps != [] {
      WalkIsEntries(View(s), f, ps, s.pageCount, 0);
    }
  }

  // ---------------------------------------------------------------------------
  // The catalog
  // ---------------------------------------------------------------------------

  /** `t` comes after `s`: more pages, same roots and caches, and no change to the pages of
      `own` other than one that was not logged yet. */
  ghost predicate Extends(s: Store, t: Store, own: Owners, unlogged: nat) {
    && s.pageCount <= t.pageCount && t.roots == s.roots && t.current == s.current
    && (forall p | p in own :: p in t.main && p in s.main && t.main[p] == s.main[p])
    && (forall p | p in own && p != unlogged :: p in View(s) && p in View(t) && View(t)[p] == View(s)[p])
  }

  lemma ExtendsTrans(s: Store, t: Store, u: Store, own: Owners, more: Owners, a: nat, b: nat)
    requires Extends(s, t, own, a) && Extends(t, u, more, b) && b !in own
    requires forall p | p in own :: p in more
    ensures Extends(s, u, own, a)
  {
    hide View;
  }

  lemma OldPages(s: Store, own: Owners)
    requires Owned(s, own)
    ensures s.pageCount !in own
    ensures forall p | p in own :: p in s.main && p in View(s)
  {
    ViewOwned(s, own);
  }

  /** One chunk logged: the page before gets its link, a new page is allocated. */
  lemma ChunkExtends(s: Store, own: Owners, pid: nat, page: Page)
    requires Owned(s, own)
    ensures Extends(s, Log(Allocate(s), pid, page), own, pid)
    ensures View(Log(Allocate(s), pid, page)) == View(s)[s.pageCount := ZERO_PAGE][pid := page]
  {
    OldPages(s, own);
    ViewAllocate(s, own);
    ViewLog(Allocate(s), pid, page);
    hide Owned, Overlay, View;
  }

  /** Saving a catalog changes no page that existed before it. */
  lemma {:induction false} SaveChunksView(s: Store, own: Owners, prev: Cached, bytes: seq<Byte>)
    requires Owned(s, own) && OwnedPage(own, prev.pid, prev.page) && own[prev.pid] == CatalogData
    ensures Extends(s, SaveChunks(s, prev, bytes), own, prev.pid)
    decreases |bytes|
  {
    hide Owned, OwnedPage, Overlay, View, Extends;
    if bytes == [] {
      LogExtends(s, own, prev.pid, prev.page);
    } else {
      var n := if |bytes| < CAPACITY then |bytes| else CAPACITY;
      var pid, more := s.pageCount, Grown(own, s, CatalogData);
      var linked := prev.page.(next := pid);
      var u := Log(Allocate(s), prev.pid, linked);
      ChunkOwned(s, own, prev, CatalogPage(bytes[..n]));
      ChunkExtends(s, own, prev.pid, linked);
      SaveChunksView(u, more, Cached(pid, CatalogPage(bytes[..n])), bytes[n..]);
      OldPages(s, own);
      ExtendsTrans(s, u, SaveChunks(s, prev, bytes), own, more, prev.pid, pid);
    }
  }

  lemma LogExtends(s: Store, own: Owners, pid: nat, page: Page)
    requires Owned(s, own)
    ensures Extends(s, Log(s, pid, page), own, pid)
  {
    OldPages(s, own);
    ViewLog(s, pid, page);
    hide Owned, Overlay, View;
  }

  lemma ChunkStep(s: Store, prev: Cached, bytes: seq<Byte>, n: nat)
    requires bytes != [] && n == if |bytes| < CAPACITY then |bytes| else CAPACITY
    ensures SaveChunks(s, prev, bytes) ==
            SaveChunks(Log(Allocate(s), prev.pid, prev.page.(next := s.pageCount)), Cached(s.pageCount, CatalogPage(bytes[..n])), bytes[n..])
  {
  }

  lemma PayloadFirst(log: seq<Entry>, rest: seq<Entry>, x: Entry)
    requires log == [x] + rest
    ensures Payload(log) == BytesOf(x.1) + Payload(rest)
  {
    assert log[1..] == rest;
  }

  lemma {:induction false} PayloadConcat(a: seq<Entry>, b: seq<Entry>)
    ensures Payload(a + b) == Payload(a) + Payload(b)
  {
    hide BytesOf, Payload;
    if a == [] {
      assert a + b == b && Payload([]) == [] by { NoPayload(); }
    } else {
      var first, rest := BytesOf(a[0].1), a[1..];
      PayloadConcat(rest, b);
      PayloadFirst(a, rest, a[0]);
      PayloadFirst(a + b, rest + b, a[0]);
      ConcatAssociates(first, Payload(rest), Payload(b));
    }
  }

  lemma NoPayload()
    ensures Payload([]) == []
  {
  }

  lemma ConcatAssociates(a: seq<Byte>, b: seq<Byte>, c: seq<Byte>)
    ensures a + (b + c) == a + b + c
  {
  }

  lemma FragmentPayload(pid: nat, chunk: seq<Byte>)
    ensures Payload(Tagged(pid, [Fragment(chunk)])) == chunk
  {
    var log := Tagged(pid, [Fragment(chunk)]);
    assert Payload(log[1..]) == [];
  }

  lemma LastChunkPayload(s: Store, own: Owners, prev: Cached, chunk: seq<Byte>)
    requires Owned(s, own) && prev.page == CatalogPage(chunk)
    requires OwnedPage(own, prev.pid, prev.page)
    ensures var t := SaveChunks(s, prev, []);
            Payload(Walk(View(t), prev.pid, t.pageCount)) == chunk
  {
    hide Owned, View, Walk, Payload, Tagged;
    ViewLog(s, prev.pid, prev.page);
    FragmentPayload(prev.pid, chunk);
    OnlyPage(s, own, prev.pid, prev.page);
  }

  lemma Rejoined(chunk: seq<Byte>, bytes: seq<Byte>, n: nat)
    requires n <= |bytes|
    ensures chunk + (bytes[..n] + bytes[n..]) == chunk + bytes && chunk + [] == chunk
  {
    assert bytes[..n] + bytes[n..] == bytes;
  }

  /** From the first page on, the saved chain holds the bytes in order. */
  lemma {:induction false} SaveChunksPayload(s: Store, own: Owners, prev: Cached, chunk: seq<Byte>, bytes: seq<Byte>)
    requires Owned(s, own) && prev.page == CatalogPage(chunk)
    requires OwnedPage(own, prev.pid, prev.page) && own[prev.pid] == CatalogData
    ensures var t := SaveChunks(s, prev, bytes);
            Payload(Walk(View(t), prev.pid, t.pageCount)) == chunk + bytes
    decreases |bytes|
  {
    hide Owned, OwnedPage, View, SaveChunks, Walk, Payload, Extends, Allocate, Log, Grown;
    var t := SaveChunks(s, prev, bytes);
    if bytes == [] {
      LastChunkPayload(s, own, prev, chunk);
      Rejoined(chunk, bytes, 0);
    } else {
      var n := if |bytes| < CAPACITY then |bytes| else CAPACITY;
      var pid, more := s.pageCount, Grown(own, s, CatalogData);
      var next := Cached(pid, CatalogPage(bytes[..n]));
      var u := Log(Allocate(s), prev.pid, prev.page.(next := pid));
      ChunkOwned(s, own, prev, next.page);
      ChunkExtends(s, own, prev.pid, prev.page.(next := pid));
      ChunkStep(s, prev, bytes, n);
      SaveChunksView(u, more, next, bytes[n..]);
      SaveChunksPayload(u, more, next, bytes[..n], bytes[n..]);
      GrownKeeps(own, s, prev.pid);
      LoggedStays(u, t, more, prev.pid, pid);
      ChunkPages(s, prev.pid, prev.page.(next := pid), pid);
      FirstChunk(View(t), prev.pid, chunk, pid, t.pageCount);
      Rejoined(chunk, bytes, n);
    }
  }

  lemma GrownKeeps(own: Owners, s: Store, pid: nat)
    requires pid in own
    ensures pid in Grown(own, s, CatalogData)
  {
  }

  lemma ChunkPages(s: Store, pid: nat, page: Page, next: nat)
    requires next == s.pageCount
    ensures Log(Allocate(s), pid, page).pageCount == next + 1
  {
  }

  lemma OnlyPage(s: Store, own: Owners, pid: nat, page: Page)
    requires Owned(s, own) && pid in own && page.next == 0
    ensures Walk(View(s)[pid := page], pid, s.pageCount) == Tagged(pid, page.recs)
  {
    assert pid < s.pageCount;
    hide Owned, Overlay, View;
    assert Tagged(pid, page.recs) + [] == Tagged(pid, page.recs);
  }

  lemma LoggedStays(u: Store, t: Store, own: Owners, pid: nat, unlogged: nat)
    requires Extends(u, t, own, unlogged) && pid in own && pid != unlogged
    ensures pid in View(u) && pid in View(t) && View(t)[pid] == View(u)[pid] && u.pageCount <= t.pageCount
  {
    hide Overlay, View;
  }

  lemma FirstChunk(file: map<nat, Page>, pid: nat, chunk: seq<Byte>, next: nat, bound: nat)
    requires pid in file && file[pid] == CatalogPage(chunk).(next := next) && pid < next <= bound
    ensures Payload(Walk(file, pid, bound)) == chunk + Payload(Walk(file, next, bound))
  {
    FragmentPayload(pid, chunk);
    PayloadConcat(Tagged(pid, [Fragment(chunk)]), Walk(file, next, bound));
  }

  /** Catalog round trip: the bytes saved at close are the bytes found at open. Only an empty
      catalog is not saved: the next load then finds what the last save left. */
  lemma CatalogRoundTrip(s: Store, own: Owners, bytes: seq<Byte>)
    requires Owned(s, own)
    ensures LoadCatalog(Reopened(SaveCatalog(s, bytes))) ==
            if bytes == [] then LoadCatalog(Checkpoint(s)) else Some(bytes)
  {
    if bytes != [] {
      var n := if |bytes| < CAPACITY then |bytes| else CAPACITY;
      var pid := s.pageCount;
      SavedPayload(s, own, bytes, n);
      hide Overlay, Walk, SaveChunks, Allocate;
      var t := SaveChunks(Allocate(s), Cached(pid, CatalogPage(bytes[..n])), bytes[n..]);
      ViewOfCaches(t, SaveCatalog(s, bytes));
    }
  }

  lemma NewCatalogPage(s: Store, own: Owners, chunk: seq<Byte>)
    ensures OwnedPage(Grown(own, s, CatalogData), s.pageCount, CatalogPage(chunk))
    ensures s.pageCount in Grown(own, s, CatalogData) && Grown(own, s, CatalogData)[s.pageCount] == CatalogData
  {
  }

  lemma SavedPayload(s: Store, own: Owners, bytes: seq<Byte>, n: nat)
    requires Owned(s, own) && 0 < n <= |bytes|
    ensures var t := SaveChunks(Allocate(s), Cached(s.pageCount, CatalogPage(bytes[..n])), bytes[n..]);
            Payload(Walk(View(t), s.pageCount, t.pageCount)) == bytes
  {
    hide Owned, OwnedPage, Overlay, Walk, View, Payload, SaveChunks, Allocate, Grown, CatalogPage;
    var pid, more := s.pageCount, Grown(own, s, CatalogData);
    OwnedAllocate(s, own, CatalogData);
    NewCatalogPage(s, own, bytes[..n]);
    SaveChunksPayload(Allocate(s), more, Cached(pid, CatalogPage(bytes[..n])), bytes[..n], bytes[n..]);
    assert bytes == bytes[..n] + bytes[n..];
  }

  lemma ExtendsKeepsChain(s: Store, t: Store, own: Owners, unlogged: nat, f: Family, ps: seq<nat>)
    requires Extends(s, t, own, unlogged) && unlogged !in own
    requires ChainOk(s, f, ps) && OwnedBy(own, f, ps)
    ensures ChainOk(t, f, ps) && Entries(t, ps) == Entries(s, ps)
  {
    hide Overlay, View, Entries, ChainOk;
    ChainKept(s, t, f, ps);
  }

  /** Another family's root does not matter to a chain. */
  lemma OtherRoot(s: Store, g: Family, root: nat, f: Family, ps: seq<nat>)
    requires ChainOk(s, f, ps) && f != g
    ensures var t := s.(roots := s.roots[g := root]);
            ChainOk(t, f, ps) && Entries(t, ps) == Entries(s, ps)
  {
    hide Overlay, View, EntriesFrom;
    ViewOfCaches(s, s.(roots := s.roots[g := root]));
  }

  /** Saving the catalog keeps the chains and logs of all data. */
  lemma CatalogKeepsLog(s: Store, own: Owners, bytes: seq<Byte>, f: Family, ps: seq<nat>)
    requires Owned(s, own) && ChainOk(s, f, ps) && OwnedBy(own, f, ps) && f != CatalogData
    ensures ChainOk(SaveCatalog(s, bytes), f, ps) && Entries(SaveCatalog(s, bytes), ps) == Entries(s, ps)
    ensures OwnedBy(SavedOwners(own, s, bytes), f, ps)
  {
    hide ChainOk, Entries, SavedOwners;
    SavedOwnersKeep(s, own, bytes);
    if bytes != [] {
      var n := if |bytes| < CAPACITY then |bytes| else CAPACITY;
      var t := SaveChunks(Allocate(s), Cached(s.pageCount, CatalogPage(bytes[..n])), bytes[n..]);
      FirstChunkExtends(s, own, bytes, n);
      hide Owned, SaveChunks, Extends;
      ExtendsKeepsChain(s, t, own, s.pageCount, f, ps);
      OtherRoot(t, CatalogData, s.pageCount, f, ps);
    }
  }

  lemma FirstChunkExtends(s: Store, own: Owners, bytes: seq<Byte>, n: nat)
    requires Owned(s, own) && 0 < n <= |bytes|
    ensures Extends(s, SaveChunks(Allocate(s), Cached(s.pageCount, CatalogPage(bytes[..n])), bytes[n..]), own, s.pageCount)
    ensures s.pageCount !in own
  {
    var pid, more := s.pageCount, Grown(own, s, CatalogData);
    OwnedAllocate(s, own, CatalogData);
    OldPages(s, own);
    AllocateExtends(s, own);
    assert OwnedPage(more, pid, CatalogPage(bytes[..n]));
    hide Owned, OwnedPage, Extends, SaveChunks;
    SaveChunksView(Allocate(s), more, Cached(pid, CatalogPage(bytes[..n])), bytes[n..]);
    ExtendsTrans(s, Allocate(s), SaveChunks(Allocate(s), Cached(pid, CatalogPage(bytes[..n])), bytes[n..]), own, more, pid, pid);
  }

  lemma AllocateExtends(s: Store, own: Owners)
    requires Owned(s, own)
    ensures Extends(s, Allocate(s), own, s.pageCount)
  {
    OldPages(s, own);
    ViewAllocate(s, own);
    hide Owned, Overlay, View;
  }

  lemma SavedOwnersKeep(s: Store, own: Owners, bytes: seq<Byte>)
    requires Owned(s, own)
    ensures forall p | p in own :: p in SavedOwners(own, s, bytes) && SavedOwners(own, s, bytes)[p] == own[p]
  {
  }

  // ---------------------------------------------------------------------------
  // When the file grows
  // ---------------------------------------------------------------------------

  lemma {:induction false} UsedJoin(a: seq<Record>, b: seq<Record>)
    ensures Used(a + b) == Used(a) + Used(b)
    ensures forall r: Record :: Used([r]) == 2 + Size(r)
  {
    assert forall r: Record :: [r][..0] == [];
    if b == [] {
      assert a + b == a;
    } else {
      assert (a + b)[..|a + b| - 1] == a + b[..|b| - 1];
      UsedJoin(a, b[..|b| - 1]);
    }
  }

  /** An append takes a new page exactly when its family has no page in use or the records there
      and the new one, with two bytes before each, need more than the 4084 bytes of a page; else
      the record joins those on the page in use, and no other page is written. */
  lemma AppendGrowsExactly(s: Store, f: Family, r: Record)
    ensures var grows := f !in s.current || Used(s.current[f].page.recs + [r]) > 4084;
            var t := Append(s, f, r);
            && t.pageCount == s.pageCount + (if grows then 1 else 0)
            && AppendPage(s, f, r) == (if grows then s.pageCount else s.current[f].pid)
            && (!grows ==> t.current[f].page.recs == s.current[f].page.recs + [r]
                           && t.wal == s.wal + [Frame(s.current[f].pid, t.current[f].page)] && t.main == s.main)
  {
    if f in s.current {
      UsedJoin(s.current[f].page.recs, [r]);
      hide Used, Size;
    }
  }
}
