/** The page file with its log, header and caches, changed in place. Each method is proved to
    do what the page function of the same name says. */
module PageFiles {
  import opened Wrappers
  import opened Graph
  import opened Pages
  import opened PageChains
  import opened PageLogs

  class PageFile {
    var main: map<nat, Page>
    var wal: seq<Frame>
    var pageCount: nat
    var roots: map<Family, nat>
    var current: map<Family, Cached>

    constructor ()
      ensures Contents() == EMPTY_STORE
    {
      main, wal, pageCount, roots, current := map[], [], FIRST_DATA_PAGE, map[], map[];
    }

    function Contents(): Store
      reads this
    {
      Store(main, wal, pageCount, roots, current)
    }

    method AllocatePage() returns (pid: nat)
      modifies this
      ensures Contents() == Allocate(old(Contents())) && pid == old(pageCount)
    {
      pid := pageCount;
      main := main[pid := ZERO_PAGE];
      pageCount := pageCount + 1;
    }

    /** Writes a frame and commits it. */
    method WriteFrame(pid: nat, page: Page)
      modifies this`wal
      ensures Contents() == Log(old(Contents()), pid, page)
    {
      wal := wal + [Frame(pid, page)];
    }

    /** Packs a record onto a page buffer if there is room. */
    static method PackRecord(page: Page, r: Record) returns (packed: Page, fits: bool)
      ensures packed == Pack(page, r) && (fits <==> HasRoom(page, r))
    {
      if Used(page.recs) + 2 + Size(r) > CAPACITY {
        return page, false;
      }
      return page.(recs := page.recs + [r]), true;
    }

    /** A new page, with the family's last page pointed at it. */
    method AllocateLinked(f: Family) returns (pid: nat)
      modifies this
      ensures Contents() == LinkNew(Allocate(old(Contents())), f, pid) && pid == old(pageCount)
    {
      pid := AllocatePage();
      if f in current {
        WriteFrame(current[f].pid, current[f].page.(next := pid));
      }
    }

    /** Persists a record on a new page, linked behind the family's last one. */
    method PersistOnNewPage(f: Family, r: Record) returns (pid: nat)
      modifies this
      ensures Contents() == AppendNew(old(Contents()), f, r) && pid == old(pageCount)
    {
      hide Pack, HasRoom;
      pid := AllocateLinked(f);
      var page, fits := PackRecord(Page(Some(f), 0, []), r);
      WriteFrame(pid, page);
      roots := if f in roots then roots else roots[f := pid];
      current := current[f := Cached(pid, page)];
    }

    /** Persists a record at the end of its family's chain; the page it went to. */
    method Persist(f: Family, r: Record) returns (pid: nat)
      modifies this
      ensures Contents() == Append(old(Contents()), f, r) && pid == AppendPage(old(Contents()), f, r)
    {
      hide Used, Pack, AppendNew;
      if f in current {
        var c := current[f];
        var page, fits := PackRecord(c.page, r);
        if fits {
          WriteFrame(c.pid, page);
          current := current[f := Cached(c.pid, page)];
          return c.pid;
        }
      }
      pid := PersistOnNewPage(f, r);
    }

    /** A data page: from the cache that holds it, else from the main file. */
    method ReadPage(pid: nat) returns (page: Page)
      ensures page == ReadDataPage(Contents(), pid)
    {
      if NodeData in current && current[NodeData].pid == pid {
        return current[NodeData].page;
      }
      if EdgeData in current && current[EdgeData].pid == pid {
        return current[EdgeData].page;
      }
      if SubgraphData in current && current[SubgraphData].pid == pid {
        return current[SubgraphData].page;
      }
      if HyperEdgeData in current && current[HyperEdgeData].pid == pid {
        return current[HyperEdgeData].page;
      }
      if VersionData in current && current[VersionData].pid == pid {
        return current[VersionData].page;
      }
      page := if pid in main then main[pid] else ZERO_PAGE;
    }

    /** A page rebuilt record by record, with the record of one identity replaced. */
    static method RebuildPage(before: Page, id: nat, r: Record) returns (page: Page)
      ensures page == Rebuilt(before, id, r)
    {
      hide Used, Pack;
      page := Page(before.kind, before.next, []);
      for i := 0 to |before.recs|
        invariant page == PackAll(Page(before.kind, before.next, []), Replaced(before.recs[..i], id, r))
      {
        assert before.recs[..i + 1][..i] == before.recs[..i];
        var fits;
        if IdOf(before.recs[i]) == id {
          page, fits := PackRecord(page, r);
        } else {
          page, fits := PackRecord(page, before.recs[i]);
        }
      }
      assert before.recs[..|before.recs|] == before.recs;
    }

    method RewriteOnPage(f: Family, pid: nat, id: nat, r: Record)
      modifies this
      ensures Contents() == Rewrite(old(Contents()), f, pid, id, r)
    {
      hide ReadDataPage, Rebuilt;
      var before := ReadPage(pid);
      var page := RebuildPage(before, id, r);
      WriteFrame(pid, page);
      if f in current && current[f].pid == pid {
        current := current[f := Cached(pid, page)];
      }
    }

    /** Applies the committed frames to the main file, in order, and empties the log. */
    method RunCheckpoint()
      modifies this
      ensures Contents() == Checkpoint(old(Contents()))
    {
      if |wal| == 0 {
        return;
      }
      var i := 0;
      while i < |wal|
        invariant 0 <= i <= |wal| && wal == old(wal)
        invariant main == Overlay(old(main), wal[..i])
        invariant pageCount == old(pageCount) && roots == old(roots) && current == old(current)
      {
        assert wal[..i + 1][..i] == wal[..i];
        main := main[wal[i].pid := wal[i].page];
        i := i + 1;
      }
      assert wal[..|wal|] == wal;
      wal := [];
    }

    /** What a load needs to end. Every reachable state has it. */
    ghost predicate Loadable(f: Family)
      reads this`main, this`pageCount, this`roots
    {
      Forward(main, pageCount) && (f in roots ==> roots[f] in main)
    }

    /** The records of a page, added to those loaded before. */
    static method ReadRecords(pid: nat, page: Page, before: seq<Entry>) returns (log: seq<Entry>)
      ensures log == before + Tagged(pid, page.recs)
    {
      log := before;
      for k := 0 to |page.recs|
        invariant log == before + Tagged(pid, page.recs[..k])
      {
        log := log + [(pid, page.recs[k])];
        assert Tagged(pid, page.recs[..k + 1]) == Tagged(pid, page.recs[..k]) + [(pid, page.recs[k])];
      }
      assert page.recs[..|page.recs|] == page.recs;
    }

    /** The records found by following a chain through the main file, and its last page. */
    static method Follow(file: map<nat, Page>, root: nat, ghost bound: nat) returns (log: seq<Entry>, last: Cached)
      requires root in file && Forward(file, bound)
      ensures log == Walk(file, root, bound) && last == WalkEnd(file, root, bound)
    {
      hide Tagged, Walk, WalkEnd;
      var pid := root;
      var page := file[pid];
      WalkUnfolds(file, pid, bound);
      log := ReadRecords(pid, page, []);
      while page.next != 0
        invariant pid in file && page == file[pid]
        invariant Walk(file, root, bound) == log + if page.next == 0 then [] else Walk(file, page.next, bound)
        invariant WalkEnd(file, root, bound) == if page.next == 0 then Cached(pid, page) else WalkEnd(file, page.next, bound)
        decreases bound - pid
      {
        pid := page.next;
        page := file[pid];
        WalkUnfolds(file, pid, bound);
        ghost var before := log;
        log := ReadRecords(pid, page, log);
        Regrouped(before, Tagged(pid, page.recs), if page.next == 0 then [] else Walk(file, page.next, bound));
      }
      last := Cached(pid, page);
    }

    /** Loads a family; the last page of its chain is cached again for appends. */
    method LoadFamily(f: Family) returns (log: seq<Entry>)
      requires Loadable(f)
      modifies this`current
      ensures log == Loaded(old(Contents()), f)
      ensures current == if f in roots then old(current)[f := WalkEnd(main, roots[f], pageCount)] else old(current)
    {
      hide Walk, WalkEnd;
      log := [];
      if f in roots {
        var last;
        log, last := Follow(main, roots[f], pageCount);
        current := current[f := last];
      }
    }

    /** A file just opened has nothing cached. */
    method DropCaches()
      modifies this`current
      ensures current == map[]
    {
      current := map[];
    }

    /** Chunk by chunk onto chained pages. */
    method SaveCatalogBytes(bytes: seq<Byte>)
      modifies this
      ensures Contents() == SaveCatalog(old(Contents()), bytes)
    {
      if bytes == [] {
        return;
      }
      ghost var start := Contents();
      ghost var n := if |bytes| < CAPACITY then |bytes| else CAPACITY;
      ghost var goal := SaveChunks(Allocate(start), Cached(pageCount, CatalogPage(bytes[..n])), bytes[n..]);
      var rest := bytes;
      var first: Option<nat> := None;
      var prev: Option<Cached> := None;
      while rest != []
        invariant first.Some? <==> prev.Some?
        invariant first.None? ==> rest == bytes && Contents() == start
        invariant first.Some? ==> first.value == start.pageCount && SaveChunks(Contents(), prev.value, rest) == goal
        decreases |rest|
      {
        var m := if |rest| < CAPACITY then |rest| else CAPACITY;
        var pid := AllocatePage();
        if first.None? {
          first := Some(pid);
        } else {
          WriteFrame(prev.value.pid, prev.value.page.(next := pid));
        }
        prev := Some(Cached(pid, CatalogPage(rest[..m])));
        rest := rest[m..];
      }
      WriteFrame(prev.value.pid, prev.value.page);
      roots := roots[CatalogData := first.value];
    }

    /** The payload of a catalog page, added to what came before. */
    static method ReadPayload(pid: nat, page: Page, before: seq<Byte>) returns (bytes: seq<Byte>)
      ensures bytes == before + Payload(Tagged(pid, page.recs))
    {
      bytes := before;
      for k := 0 to |page.recs|
        invariant bytes == before + Payload(Tagged(pid, page.recs[..k]))
      {
        bytes := bytes + BytesOf(page.recs[k]);
        PayloadSnoc(pid, page.recs[..k], page.recs[k]);
        assert page.recs[..k + 1] == page.recs[..k] + [page.recs[k]];
      }
      assert page.recs[..|page.recs|] == page.recs;
    }

    /** The payloads of the pages of a chain, concatenated. */
    static method FollowPayload(file: map<nat, Page>, root: nat, ghost bound: nat) returns (bytes: seq<Byte>)
      requires root in file && Forward(file, bound)
      ensures bytes == Payload(Walk(file, root, bound))
    {
      hide Tagged, Payload, Walk;
      var pid := root;
      var page := file[pid];
      PayloadUnfolds(file, pid, bound);
      bytes := ReadPayload(pid, page, []);
      while page.next != 0
        invariant pid in file && page == file[pid]
        invariant Payload(Walk(file, root, bound)) == bytes + if page.next == 0 then [] else Payload(Walk(file, page.next, bound))
        decreases bound - pid
      {
        pid := page.next;
        page := file[pid];
        PayloadUnfolds(file, pid, bound);
        bytes := ReadPayload(pid, page, bytes);
      }
    }

    method LoadCatalogBytes() returns (r: Option<seq<Byte>>)
      requires Loadable(CatalogData)
      ensures r == LoadCatalog(Contents())
    {
      hide Walk, Payload;
      r := None;
      if CatalogData in roots {
        var bytes := FollowPayload(main, roots[CatalogData], pageCount);
        r := Some(bytes);
      }
    }
  }

  lemma PayloadSnoc(pid: nat, recs: seq<Record>, r: Record)
    ensures Payload(Tagged(pid, recs + [r])) == Payload(Tagged(pid, recs)) + BytesOf(r)
  {
    assert Tagged(pid, recs + [r]) == Tagged(pid, recs) + [(pid, r)];
    PayloadConcat(Tagged(pid, recs), [(pid, r)]);
    assert [(pid, r)][1..] == [];
    assert Payload([(pid, r)]) == BytesOf(r) + Payload([]);
  }

  lemma PayloadUnfolds(file: map<nat, Page>, pid: nat, bound: nat)
    requires pid in file && pid < bound && (file[pid].next != 0 ==> pid < file[pid].next)
    ensures Payload(Walk(file, pid, bound)) ==
            Payload(Tagged(pid, file[pid].recs)) + if file[pid].next == 0 then [] else Payload(Walk(file, file[pid].next, bound))
  {
    WalkUnfolds(file, pid, bound);
    hide Walk, Tagged, Payload;
    if file[pid].next != 0 {
      PayloadConcat(Tagged(pid, file[pid].recs), Walk(file, file[pid].next, bound));
    }
  }

  lemma WalkUnfolds(file: map<nat, Page>, pid: nat, bound: nat)
    requires pid in file && pid < bound && (file[pid].next != 0 ==> pid < file[pid].next)
    ensures Walk(file, pid, bound) == Tagged(pid, file[pid].recs) + if file[pid].next == 0 then [] else Walk(file, file[pid].next, bound)
    ensures file[pid].next == 0 ==> Walk(file, pid, bound) == Tagged(pid, file[pid].recs)
    ensures WalkEnd(file, pid, bound) == if file[pid].next == 0 then Cached(pid, file[pid]) else WalkEnd(file, file[pid].next, bound)
  {
    assert Tagged(pid, file[pid].recs) + [] == Tagged(pid, file[pid].recs);
  }

  lemma Regrouped(a: seq<Entry>, b: seq<Entry>, c: seq<Entry>)
    ensures a + (b + c) == a + b + c
  {
  }
}
