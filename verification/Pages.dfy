/** Data pages: chained pages per record family, written through the write-ahead log, read
    back from the main file. */
module Pages {
  import opened Wrappers
  import opened Graph

  datatype Family = NodeData | EdgeData | SubgraphData | HyperEdgeData | VersionData | CatalogData

  /** A stored record. `Fragment` is the payload of a catalog page. */
  datatype Record =
    | NodeRec(node: NodeRecord, deleted: bool)
    | EdgeRec(edge: EdgeRecord, deleted: bool)
    | SubgraphRec(sub: SubgraphRecord, members: seq<nat>)
    | HyperEdgeRec(hyper: HyperEdgeRecord)
    | VersionRec(entity: nat, version: nat, snapshot: NodeRecord)
    | Fragment(bytes: seq<Byte>)

  function FamilyOf(r: Record): Family {
    match r
    case NodeRec(_, _) => NodeData
    case EdgeRec(_, _) => EdgeData
    case SubgraphRec(_, _) => SubgraphData
    case HyperEdgeRec(_) => HyperEdgeData
    case VersionRec(_, _, _) => VersionData
    case Fragment(_) => CatalogData
  }

  /** The identity that a rewrite looks for. */
  function IdOf(r: Record): nat {
    match r
    case NodeRec(n, _) => n.id
    case EdgeRec(e, _) => e.id
    case SubgraphRec(s, _) => s.id
    case HyperEdgeRec(h) => h.id
    case VersionRec(entity, _, _) => entity
    case Fragment(_) => 0
  }

  function Size(r: Record): nat {
    match r
    case NodeRec(n, _) => NodeSize(n)
    case EdgeRec(e, _) => EdgeSize(e)
    case SubgraphRec(s, members) => SubgraphSize(s, members)
    case HyperEdgeRec(h) => HyperEdgeSize(h)
    case VersionRec(_, _, n) => 19 + NodeSize(n)
    case Fragment(bytes) => |bytes|
  }

  const PAGE_SIZE: nat := 4096
  const HEADER_SIZE: nat := 12
  const CAPACITY: nat := PAGE_SIZE - HEADER_SIZE
  const FIRST_DATA_PAGE: nat := 2

  /** A page: its type byte (None for the zero of a fresh page), the next page of its chain
      (0 for none) and its records. */
  datatype Page = Page(kind: Option<Family>, next: nat, recs: seq<Record>)

  const ZERO_PAGE := Page(None, 0, [])

  /** Bytes used after the header: each record has a two-byte length prefix. */
  function Used(recs: seq<Record>): nat {
    if recs == [] then 0 else Used(recs[..|recs| - 1]) + 2 + Size(recs[|recs| - 1])
  }

  predicate HasRoom(page: Page, r: Record) {
    Used(page.recs) + 2 + Size(r) <= CAPACITY
  }

  /** Whether a record fits an empty page. */
  predicate FitsPage(r: Record) {
    2 + Size(r) <= CAPACITY
  }

  function Pack(page: Page, r: Record): Page {
    if HasRoom(page, r) then page.(recs := page.recs + [r]) else page
  }

  datatype Frame = Frame(pid: nat, page: Page)

  /** A page with free space that the engine keeps in memory for appends. */
  datatype Cached = Cached(pid: nat, page: Page)

  /** The main file, the committed log frames, the page count and chain roots of the header,
      and the cached last page of each family. */
  datatype Store = Store(
    main: map<nat, Page>,
    wal: seq<Frame>,
    pageCount: nat,
    roots: map<Family, nat>,
    current: map<Family, Cached>)

  const EMPTY_STORE := Store(map[], [], FIRST_DATA_PAGE, map[], map[])

  function Log(s: Store, pid: nat, page: Page): Store {
    s.(wal := s.wal + [Frame(pid, page)])
  }

  /** Allocation takes the first free page, extending the file by a zero page. The engine
      never frees a page, so this is the page after the last one. */
  function Allocate(s: Store): Store {
    s.(main := s.main[s.pageCount := ZERO_PAGE], pageCount := s.pageCount + 1)
  }

  // ---------------------------------------------------------------------------
  // Appending a record
  // ---------------------------------------------------------------------------

  predicate FitsCurrent(s: Store, f: Family, r: Record) {
    f in s.current && HasRoom(s.current[f].page, r)
  }

  /** The page an append puts its record on. */
  function AppendPage(s: Store, f: Family, r: Record): nat {
    if FitsCurrent(s, f, r) then s.current[f].pid else s.pageCount
  }

  function AppendCurrent(s: Store, f: Family, r: Record): Store
    requires f in s.current
  {
    var page := Pack(s.current[f].page, r);
    Log(s, s.current[f].pid, page).(current := s.current[f := Cached(s.current[f].pid, page)])
  }

  /** The old last page of a chain, pointed at the new one. */
  function LinkNew(s: Store, f: Family, pid: nat): Store {
    if f in s.current then Log(s, s.current[f].pid, s.current[f].page.(next := pid)) else s
  }

  function AppendNew(s: Store, f: Family, r: Record): Store {
    var pid := s.pageCount;
    var page := Pack(Page(Some(f), 0, []), r);
    var t := Log(LinkNew(Allocate(s), f, pid), pid, page);
    t.(roots := if f in s.roots then s.roots else s.roots[f := pid], current := s.current[f := Cached(pid, page)])
  }

  function Append(s: Store, f: Family, r: Record): Store {
    if FitsCurrent(s, f, r) then AppendCurrent(s, f, r) else AppendNew(s, f, r)
  }

  // ---------------------------------------------------------------------------
  // Rewriting a record in place
  // ---------------------------------------------------------------------------

  predicate CachedAt(s: Store, f: Family, pid: nat) {
    f in s.current && s.current[f].pid == pid
  }

  /** A data page as the engine sees it: a cached last page if one has this number, else
      the main file, which may be behind the log. */
  function ReadDataPage(s: Store, pid: nat): Page {
    if CachedAt(s, NodeData, pid) then s.current[NodeData].page
    else if CachedAt(s, EdgeData, pid) then s.current[EdgeData].page
    else if CachedAt(s, SubgraphData, pid) then s.current[SubgraphData].page
    else if CachedAt(s, HyperEdgeData, pid) then s.current[HyperEdgeData].page
    else if CachedAt(s, VersionData, pid) then s.current[VersionData].page
    else if pid in s.main then s.main[pid]
    else ZERO_PAGE
  }

  /** The records with those of the given identity replaced. */
  function Replaced(recs: seq<Record>, id: nat, r: Record): (out: seq<Record>)
    ensures |out| == |recs|
  {
    if recs == [] then []
    else
      var last := recs[|recs| - 1];
      Replaced(recs[..|recs| - 1], id, r) + [if IdOf(last) == id then r else last]
  }

  /** The records packed one by one onto a page; one that does not fit is dropped. */
  function PackAll(page: Page, recs: seq<Record>): Page {
    if recs == [] then page
    else Pack(PackAll(page, recs[..|recs| - 1]), recs[|recs| - 1])
  }

  function Rebuilt(page: Page, id: nat, r: Record): Page {
    PackAll(Page(page.kind, page.next, []), Replaced(page.recs, id, r))
  }

  function Rewrite(s: Store, f: Family, pid: nat, id: nat, r: Record): Store {
    var page := Rebuilt(ReadDataPage(s, pid), id, r);
    Log(s, pid, page).(current := if CachedAt(s, f, pid) then s.current[f := Cached(pid, page)] else s.current)
  }

  // ---------------------------------------------------------------------------
  // Checkpoint and load
  // ---------------------------------------------------------------------------

  /** The main file with the frames applied in order. */
  function Overlay(main: map<nat, Page>, wal: seq<Frame>): map<nat, Page> {
    if wal == [] then main
    else
      var last := wal[|wal| - 1];
      Overlay(main, wal[..|wal| - 1])[last.pid := last.page]
  }

  /** What a checkpoint would leave in the main file. */
  function View(s: Store): map<nat, Page> {
    Overlay(s.main, s.wal)
  }

  function Checkpoint(s: Store): Store {
    s.(main := View(s), wal := [])
  }

  function Tagged(pid: nat, recs: seq<Record>): (out: seq<(nat, Record)>)
    ensures |out| == |recs| && forall i | 0 <= i < |recs| :: out[i] == (pid, recs[i])
  {
    seq(|recs|, i requires 0 <= i < |recs| => (pid, recs[i]))
  }

  /** The records met by following a chain from `pid`. Chains only point to later pages, so
      the walk ends; the conditions on `next` are never false in a reachable store. */
  function Walk(file: map<nat, Page>, pid: nat, bound: nat): seq<(nat, Record)>
    decreases bound - pid
  {
    if pid !in file || pid >= bound then []
    else
      Tagged(pid, file[pid].recs) +
      if file[pid].next == 0 || file[pid].next <= pid then [] else Walk(file, file[pid].next, bound)
  }

  /** The last page of the walk. */
  function WalkEnd(file: map<nat, Page>, pid: nat, bound: nat): Cached
    decreases bound - pid
  {
    if pid !in file || pid >= bound then Cached(pid, ZERO_PAGE)
    else if file[pid].next == 0 || file[pid].next <= pid then Cached(pid, file[pid])
    else WalkEnd(file, file[pid].next, bound)
  }

  /** What loading a family finds in the main file. */
  function Loaded(s: Store, f: Family): seq<(nat, Record)> {
    if f in s.roots then Walk(s.main, s.roots[f], s.pageCount) else []
  }

  /** A store after clean close and open: log applied, last pages cached again. */
  function Reopened(s: Store): Store {
    var c := Checkpoint(s);
    c.(current := map f | f in c.roots && f != CatalogData :: WalkEnd(c.main, c.roots[f], c.pageCount))
  }

  // ---------------------------------------------------------------------------
  // The catalog
  // ---------------------------------------------------------------------------

  function CatalogPage(chunk: seq<Byte>): Page {
    Page(Some(CatalogData), 0, [Fragment(chunk)])
  }

  /** Chunk by chunk: allocate a page, link the page before to it and log that one. */
  function SaveChunks(s: Store, prev: Cached, bytes: seq<Byte>): Store
    decreases |bytes|
  {
    if bytes == [] then Log(s, prev.pid, prev.page)
    else
      var n := if |bytes| < CAPACITY then |bytes| else CAPACITY;
      var pid := s.pageCount;
      SaveChunks(Log(Allocate(s), prev.pid, prev.page.(next := pid)), Cached(pid, CatalogPage(bytes[..n])), bytes[n..])
  }

  function SaveCatalog(s: Store, bytes: seq<Byte>): Store {
    if bytes == [] then s
    else
      var n := if |bytes| < CAPACITY then |bytes| else CAPACITY;
      var pid := s.pageCount;
      var t := SaveChunks(Allocate(s), Cached(pid, CatalogPage(bytes[..n])), bytes[n..]);
      t.(roots := t.roots[CatalogData := pid])
  }

  function BytesOf(r: Record): seq<Byte> {
    if r.Fragment? then r.bytes else []
  }

  function Payload(log: seq<(nat, Record)>): seq<Byte> {
    if log == [] then [] else BytesOf(log[0].1) + Payload(log[1..])
  }

  function LoadCatalog(s: Store): Option<seq<Byte>> {
    if CatalogData in s.roots then Some(Payload(Loaded(s, CatalogData))) else None
  }
}
