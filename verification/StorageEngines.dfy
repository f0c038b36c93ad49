/** The storage engine, changed in place. Each method takes the engine's state where the step
    function says, so what is proved about runs of steps holds of runs of methods. */
module StorageEngines {
  import opened Wrappers
  import opened Graph
  import opened Indexes
  import opened IndexManagers
  import opened Links
  import opened Pages
  import opened PageChains
  import opened PageLogs
  import opened PageFiles
  import opened StoredLogs
  import opened Engine
  import IndexRuns
  import Tables
  import V = Versions
  import S = Subgraphs
  import H = HyperEdges

  class StorageEngine {
    var nodes: map<nat, NodeRecord>
    var nextNode: nat
    var nodePage: map<nat, nat>
    var edges: map<nat, EdgeRecord>
    var nextEdge: nat
    var headerNextEdge: nat
    var edgePage: map<nat, nat>
    var history: V.History
    var sub: S.SubgraphStore
    var hyper: H.HyperEdgeStore
    var catalog: seq<Byte>
    const versioning: bool
    const pick: Picker
    const nodeIndexes: IndexManager
    const edgeIndexes: IndexManager
    const file: PageFile

    ghost predicate Valid() {
      nodeIndexes != edgeIndexes && nodeIndexes.pick == pick && edgeIndexes.pick == pick
    }

    function Current(): State
      reads this, nodeIndexes, edgeIndexes, file
    {
      State(NodeStore(nodes, nextNode, nodePage, nodeIndexes.indexes),
            EdgeStore(edges, nextEdge, headerNextEdge, edgePage, edgeIndexes.indexes),
            history, sub, hyper, catalog, versioning, file.Contents())
    }

    constructor (versioning: bool, pick: Picker)
      ensures Valid() && Current() == Empty(versioning) && this.versioning == versioning && this.pick == pick
      ensures fresh(nodeIndexes) && fresh(edgeIndexes) && fresh(file)
    {
      nodes, nextNode, nodePage := map[], 1, map[];
      edges, nextEdge, headerNextEdge, edgePage := map[], 1, 1, map[];
      history, sub, hyper, catalog := V.NO_HISTORY, S.Fresh(1), H.Fresh(1), [];
      this.versioning, this.pick := versioning, pick;
      nodeIndexes := new IndexManager(pick);
      edgeIndexes := new IndexManager(pick);
      file := new PageFile();
    }

    // -------------------------------------------------------------------------
    // Nodes
    // -------------------------------------------------------------------------

    method CreateNode(labels: seq<nat>, props: Props) returns (id: nat)
      requires Valid()
      modifies this, nodeIndexes, file
      ensures id == old(nextNode) && Current() == Step(old(Current()), pick, Op.CreateNode(labels, props))
    {
      hide Append, AppendPage, OnCreate;
      id := nextNode;
      nextNode := nextNode + 1;
      var r := NodeRecord(id, labels, props);
      nodes := nodes[id := r];
      nodeIndexes.Created(labels, props, id);
      var pid := file.Persist(NodeData, NodeRec(r, false));
      nodePage := nodePage[id := pid];
    }

    /** Puts a node's record, or its tombstone, on its page. */
    method StoreNode(r: NodeRecord, deleted: bool)
      modifies this`nodePage, file
      ensures Current() == RewriteNode(old(Current()), r, deleted)
    {
      hide Append, AppendPage, Rewrite;
      if r.id in nodePage {
        file.RewriteOnPage(NodeData, nodePage[r.id], r.id, NodeRec(r, deleted));
      } else {
        var pid := file.Persist(NodeData, NodeRec(r, deleted));
        nodePage := nodePage[r.id := pid];
      }
    }

    /** The snapshot before an update, in memory and on a page. */
    method TakeSnapshot(state: NodeRecord)
      modifies this`history, file
      ensures Current() == SnapshotNode(old(Current()), state)
    {
      hide Append, AppendPage;
      if versioning {
        var n := V.NextSeq(history, state.id);
        history := V.Snapshot(history, state.id, state);
        var _ := file.Persist(VersionData, VersionRec(state.id, n, state));
      }
    }

    method UpdateNode(id: nat, props: Props) returns (ok: bool)
      requires Valid()
      modifies this, nodeIndexes, file
      ensures (ok <==> id in old(nodes)) && Current() == Step(old(Current()), pick, Op.UpdateNode(id, props))
    {
      hide RewriteNode, SnapshotNode, OnUpdate;
      if id !in nodes {
        return false;
      }
      var state := nodes[id];
      TakeSnapshot(state);
      assert Current() == SnapshotNode(old(Current()), state);
      nodes := nodes[state.id := state.(props := props)];
      nodeIndexes.Updated(state.labels, state.props, props, state.id);
      assert Current() == SetNode(SnapshotNode(old(Current()), state), pick, state, props);
      StoreNode(state.(props := props), false);
      ok := true;
    }

    /** Removes the edges of a node from the edge store, one by one. */
    method DeleteEdgesOf(node: nat)
      modifies this`edges
      ensures edges == old(edges) - Incident(old(edges), node)
      ensures forall x :: x in edges <==> x in old(edges) && old(edges)[x].start != node && old(edges)[x].end != node
    {
      var left := edges.Keys;
      ghost var seen: set<nat> := {};
      while left != {}
        invariant left !! seen && left + seen == old(edges).Keys
        invariant edges == old(edges) - (set id | id in seen && Touches(old(edges)[id], node))
        decreases |left|
      {
        var id :| id in left;
        left := left - {id};
        seen := seen + {id};
        if Touches(edges[id], node) {
          edges := edges - {id};
        }
      }
    }

    method DeleteNode(id: nat) returns (ok: bool)
      requires Valid()
      modifies this, nodeIndexes, file
      ensures (ok <==> id in old(nodes)) && Current() == Step(old(Current()), pick, Op.DeleteNode(id))
    {
      hide RewriteNode, OnDelete, Incident;
      DeleteEdgesOf(id);
      assert Current() == DropIncident(old(Current()), id);
      if id !in nodes {
        return false;
      }
      var state := nodes[id];
      nodes := nodes - {state.id};
      nodeIndexes.Deleted(state.labels, state.props, state.id);
      assert Current() == DropNode(DropIncident(old(Current()), id), pick, state);
      StoreNode(state, true);
      ok := true;
    }

    // -------------------------------------------------------------------------
    // Edges
    // -------------------------------------------------------------------------

    method InsertEdge(r: EdgeRecord)
      requires Valid()
      modifies this, edgeIndexes, file
      ensures Current() == old(Current()).(
                edge := EdgeStore(old(edges)[r.id := r], old(nextEdge), old(nextEdge),
                                  old(edgePage)[r.id := AppendPage(old(file.Contents()), EdgeData, EdgeRec(r, false))],
                                  OnCreate(old(edgeIndexes.indexes), pick, [r.relType], r.props, r.id)),
                store := Append(old(file.Contents()), EdgeData, EdgeRec(r, false)))
    {
      hide Append, AppendPage, OnCreate;
      edges := edges[r.id := r];
      headerNextEdge := nextEdge;
      edgeIndexes.Created([r.relType], r.props, r.id);
      var pid := file.Persist(EdgeData, EdgeRec(r, false));
      edgePage := edgePage[r.id := pid];
    }

    /** An id is used up even when an end is missing. */
    method CreateEdge(start: nat, end: nat, relType: nat, props: Props) returns (r: Option<nat>)
      requires Valid()
      modifies this, edgeIndexes, file
      ensures r == if start in old(nodes) && end in old(nodes) then Some(old(nextEdge)) else None
      ensures Current() == Step(old(Current()), pick, Op.CreateEdge(start, end, relType, props))
    {
      hide Append, AppendPage, OnCreate;
      var id := nextEdge;
      nextEdge := nextEdge + 1;
      if start !in nodes || end !in nodes {
        return None;
      }
      InsertEdge(EdgeRecord(id, start, end, relType, props));
      r := Some(id);
    }

    method StoreEdge(r: EdgeRecord, deleted: bool)
      modifies this`edgePage, file
      ensures Current() == RewriteEdge(old(Current()), r, deleted)
    {
      hide Append, AppendPage, Rewrite;
      if r.id in edgePage {
        file.RewriteOnPage(EdgeData, edgePage[r.id], r.id, EdgeRec(r, deleted));
      } else {
        var pid := file.Persist(EdgeData, EdgeRec(r, deleted));
        edgePage := edgePage[r.id := pid];
      }
    }

    method UpdateEdge(id: nat, props: Props) returns (ok: bool)
      requires Valid()
      modifies this, edgeIndexes, file
      ensures (ok <==> id in old(edges)) && Current() == Step(old(Current()), pick, Op.UpdateEdge(id, props))
    {
      hide RewriteEdge, OnUpdate;
      if id !in edges {
        return false;
      }
      var state := edges[id];
      edges := edges[id := state.(props := props)];
      edgeIndexes.Updated([state.relType], state.props, props, id);
      StoreEdge(state.(props := props), false);
      ok := true;
    }

    method DeleteEdge(id: nat) returns (ok: bool)
      requires Valid()
      modifies this, edgeIndexes, file
      ensures (ok <==> id in old(edges)) && Current() == Step(old(Current()), pick, Op.DeleteEdge(id))
    {
      hide RewriteEdge, OnDelete;
      if id !in edges {
        return false;
      }
      var state := edges[id];
      edges := edges - {id};
      edgeIndexes.Deleted([state.relType], state.props, id);
      StoreEdge(state, true);
      ok := true;
    }

    // -------------------------------------------------------------------------
    // Indexes
    // -------------------------------------------------------------------------

    method CreateNodeIndex(name: string, tag: nat, key: nat) returns (ok: bool)
      requires Valid()
      modifies nodeIndexes
      ensures (ok <==> name !in old(nodeIndexes.indexes))
      ensures Current() == Step(old(Current()), pick, Op.CreateNodeIndex(name, tag, key))
    {
      ok := nodeIndexes.Create(name, tag, key, NodeEntities(nodes), nextNode);
    }

    method CreateEdgeIndex(name: string, tag: nat, key: nat) returns (ok: bool)
      requires Valid()
      modifies edgeIndexes
      ensures (ok <==> name !in old(edgeIndexes.indexes))
      ensures Current() == Step(old(Current()), pick, Op.CreateEdgeIndex(name, tag, key))
    {
      ok := edgeIndexes.Create(name, tag, key, EdgeEntities(edges), nextEdge);
    }

    /** Tries the node indexes first. */
    method DropIndex(name: string) returns (ok: bool)
      requires Valid()
      modifies nodeIndexes, edgeIndexes
      ensures ok <==> name in old(nodeIndexes.indexes) || name in old(edgeIndexes.indexes)
      ensures Current() == Step(old(Current()), pick, Op.DropIndex(name))
    {
      ok := nodeIndexes.Drop(name);
      if !ok {
        ok := edgeIndexes.Drop(name);
      }
    }

    method FindNodesByProperty(tag: nat, key: nat, v: Value) returns (ids: seq<nat>)
      requires Valid()
      ensures ids == IndexRuns.FindNodes(Current(), pick, tag, key, v)
    {
      ids := nodeIndexes.FindIds(NodeEntities(nodes), nextNode, tag, key, v);
    }

    method FindNodesByRange(tag: nat, key: nat, min: Value, max: Value) returns (r: Option<set<nat>>)
      requires Valid()
      ensures r == IndexRuns.FindNodesInRange(Current(), pick, tag, key, min, max)
    {
      r := nodeIndexes.FindRange(NodeEntities(nodes), nextNode, tag, key, min, max);
    }

    method FindEdgesByProperty(tag: nat, key: nat, v: Value) returns (ids: seq<nat>)
      requires Valid()
      ensures ids == IndexRuns.FindEdges(Current(), pick, tag, key, v)
    {
      ids := edgeIndexes.FindIds(EdgeEntities(edges), nextEdge, tag, key, v);
    }

    // -------------------------------------------------------------------------
    // Subgraphs and hyperedges
    // -------------------------------------------------------------------------

    method CreateSubgraph(props: Props, anchor: Option<int>) returns (id: nat)
      requires Valid()
      modifies this, file
      ensures id == old(sub.next) && Current() == Step(old(Current()), pick, Op.CreateSubgraph(props, anchor))
    {
      hide Append, AppendPage;
      id := sub.next;
      sub := S.Create(sub, anchor, props);
      var _ := file.Persist(SubgraphData, SubRecord(sub, id));
    }

    method AddMember(id: nat, node: nat) returns (ok: bool)
      requires Valid()
      modifies this, file
      ensures (ok <==> id in old(sub.subs) && node in old(nodes))
      ensures Current() == Step(old(Current()), pick, Op.AddMember(id, node))
    {
      hide Append, AppendPage, Add;
      if id !in sub.subs || node !in nodes {
        return false;
      }
      sub := S.AddMember(sub, id, node);
      var _ := file.Persist(SubgraphData, SubRecord(sub, id));
      ok := true;
    }

    method RemoveMember(id: nat, node: nat) returns (ok: bool)
      requires Valid()
      modifies this
      ensures (ok <==> id in old(sub.subs)) && Current() == Step(old(Current()), pick, Op.RemoveMember(id, node))
    {
      ok := id in sub.subs;
      if ok {
        sub := sub.(links := Links.Remove(sub.links, id, node));
      }
    }

    method DeleteSubgraph(id: nat) returns (ok: bool)
      requires Valid()
      modifies this
      ensures (ok <==> id in old(sub.subs)) && Current() == Step(old(Current()), pick, Op.DeleteSubgraph(id))
    {
      ok := id in sub.subs;
      sub := S.Delete(sub, id);
    }

    /** Enters the participants of a hyperedge one by one. */
    static method LinkParticipants(before: TwoWay, id: nat, participants: seq<Entity>) returns (links: TwoWay)
      ensures links == AddMany(before, id, H.RawIds(participants))
    {
      hide Add;
      var raws := H.RawIds(participants);
      links := before;
      for i := 0 to |participants|
        invariant links == AddMany(before, id, raws[..i])
      {
        assert raws[..i + 1][..i] == raws[..i];
        links := Add(links, id, participants[i].raw);
      }
      assert raws[..|participants|] == raws;
    }

    method CreateHyperEdge(relType: nat, sources: seq<Entity>, targets: seq<Entity>, props: Props) returns (id: nat)
      requires Valid()
      modifies this, file
      ensures id == old(hyper.next)
      ensures Current() == Step(old(Current()), pick, Op.CreateHyperEdge(relType, sources, targets, props))
    {
      hide Append, AppendPage, AddMany, H.RawIds;
      id := hyper.next;
      var r := HyperEdgeRecord(id, relType, sources, targets, props);
      var links := LinkParticipants(hyper.links, id, sources + targets);
      hyper := H.HyperEdgeStore(hyper.hypers[id := r], id + 1, links);
      var _ := file.Persist(HyperEdgeData, HyperEdgeRec(r));
    }

    method DeleteHyperEdge(id: nat) returns (ok: bool)
      requires Valid()
      modifies this
      ensures (ok <==> id in old(hyper.hypers)) && Current() == Step(old(Current()), pick, Op.DeleteHyperEdge(id))
    {
      ok := id in hyper.hypers;
      hyper := H.Delete(hyper, id);
    }

    // -------------------------------------------------------------------------
    // Closing and opening
    // -------------------------------------------------------------------------

    /** Node records into the store, with the page each is on; tombstones are passed over. */
    static method ReplayNodes(log: seq<Entry>) returns (records: map<nat, Record>, pages: map<nat, nat>)
      ensures records == Tables.LoadRecords(log) && pages == Tables.LoadPages(log)
    {
      records, pages := map[], map[];
      for i := 0 to |log|
        invariant records == Tables.LoadRecords(log[..i]) && pages == Tables.LoadPages(log[..i])
      {
        assert log[..i + 1][..i] == log[..i];
        if !Tables.Deleted(log[i].1) {
          records := records[IdOf(log[i].1) := log[i].1];
          pages := pages[IdOf(log[i].1) := log[i].0];
        }
      }
      assert log[..|log|] == log;
    }

    static method ReplayVersions(log: seq<Entry>) returns (h: V.History)
      ensures h == V.Replay(log)
    {
      h := V.NO_HISTORY;
      for i := 0 to |log|
        invariant h == V.Replay(log[..i])
      {
        assert log[..i + 1][..i] == log[..i];
        var r := log[i].1;
        if r.VersionRec? {
          h := V.Load(h, r.entity, r.version, r.snapshot);
        }
      }
      assert log[..|log|] == log;
    }

    static method ReplaySubgraphs(log: seq<Entry>, next: nat) returns (s: S.SubgraphStore)
      ensures s == S.Replay(log, next)
    {
      hide AddMany;
      s := S.Fresh(next);
      for i := 0 to |log|
        invariant s == S.Replay(log[..i], next)
      {
        assert log[..i + 1][..i] == log[..i];
        var r := log[i].1;
        if r.SubgraphRec? {
          s := S.Load(s, r.sub, r.members);
        }
      }
      assert log[..|log|] == log;
    }

    static method ReplayHyperEdges(log: seq<Entry>, next: nat) returns (s: H.HyperEdgeStore)
      ensures s == H.Replay(log, next)
    {
      hide AddMany;
      s := H.Fresh(next);
      for i := 0 to |log|
        invariant s == H.Replay(log[..i], next)
      {
        assert log[..i + 1][..i] == log[..i];
        var r := log[i].1;
        if r.HyperEdgeRec? {
          s := H.Load(s, r.hyper);
        }
      }
      assert log[..|log|] == log;
    }

    method SetCatalog(bytes: seq<Byte>)
      requires Valid()
      modifies this`catalog
      ensures Current() == Step(old(Current()), pick, Op.SetCatalog(bytes))
    {
      catalog := bytes;
    }

    method RunCheckpoint()
      requires Valid()
      modifies file
      ensures Current() == Step(old(Current()), pick, Op.RunCheckpoint)
    {
      hide Checkpoint;
      file.RunCheckpoint();
    }

    /** Saves the catalog, checkpoints and drops what only memory held of the pages. */
    method CloseFile(ghost own: Owners)
      requires Owned(file.Contents(), own)
      modifies file
      ensures file.Contents() == Closed(old(file.Contents()), catalog).(current := map[])
      ensures Owned(file.Contents(), SavedOwners(own, old(file.Contents()), catalog))
    {
      hide SaveCatalog, Checkpoint, Owned, CatalogOwners;
      OwnedSaveCatalog(file.Contents(), own, catalog);
      file.SaveCatalogBytes(catalog);
      OwnedCheckpoint(file.Contents(), SavedOwners(own, old(file.Contents()), catalog));
      file.RunCheckpoint();
      UncachedOwned(file.Contents(), SavedOwners(own, old(file.Contents()), catalog));
      file.DropCaches();
    }

    /** Reads one family back; `s` is the file as it was closed. */
    method LoadLog(f: Family, ghost s: Store) returns (log: seq<Entry>)
      requires SameFile(file.Contents(), s) && file.Loadable(f)
      modifies file`current
      ensures log == Loaded(s, f) && SameFile(file.Contents(), s)
      ensures file.current == if f in s.roots then old(file.current)[f := WalkEnd(s.main, s.roots[f], s.pageCount)] else old(file.current)
    {
      hide Loaded, WalkEnd;
      LoadedOfFile(file.Contents(), s, f);
      log := file.LoadFamily(f);
    }

    /** Nodes and edges. */
    method LoadTables(ghost s: Store)
      requires SameFile(file.Contents(), s) && file.Loadable(NodeData) && file.Loadable(EdgeData)
      modifies this`nodes, this`nodePage, this`edges, this`edgePage, file`current
      ensures SameFile(file.Contents(), s) && file.current == Cache(Cache(old(file.current), s, NodeData), s, EdgeData)
      ensures nodes == NodesOf(Tables.LoadRecords(Loaded(s, NodeData))) && nodePage == Tables.LoadPages(Loaded(s, NodeData))
      ensures edges == EdgesOf(Tables.LoadRecords(Loaded(s, EdgeData))) && edgePage == Tables.LoadPages(Loaded(s, EdgeData))
    {
      hide Loaded, WalkEnd, Tables.LoadRecords, Tables.LoadPages;
      var log := LoadLog(NodeData, s);
      var records, pages := ReplayNodes(log);
      nodes, nodePage := NodesOf(records), pages;
      log := LoadLog(EdgeData, s);
      records, pages := ReplayNodes(log);
      edges, edgePage := EdgesOf(records), pages;
    }

    /** Subgraphs, hyperedges and versions. */
    method LoadLogs(ghost s: Store)
      requires SameFile(file.Contents(), s)
      requires file.Loadable(SubgraphData) && file.Loadable(HyperEdgeData) && file.Loadable(VersionData)
      modifies this`sub, this`hyper, this`history, file`current
      ensures SameFile(file.Contents(), s)
      ensures file.current == Cache(Cache(Cache(old(file.current), s, SubgraphData), s, HyperEdgeData), s, VersionData)
      ensures sub == S.Replay(Loaded(s, SubgraphData), old(sub.next)) && hyper == H.Replay(Loaded(s, HyperEdgeData), old(hyper.next))
      ensures history == V.Replay(Loaded(s, VersionData))
    {
      hide Loaded, WalkEnd, V.Replay, S.Replay, H.Replay;
      var log := LoadLog(SubgraphData, s);
      sub := ReplaySubgraphs(log, sub.next);
      log := LoadLog(HyperEdgeData, s);
      hyper := ReplayHyperEdges(log, hyper.next);
      log := LoadLog(VersionData, s);
      history := ReplayVersions(log);
    }

    /** The catalog; the indexes start empty, and the next edge id is the header's. */
    method LoadRest(ghost s: Store)
      requires Valid() && SameFile(file.Contents(), s) && file.Loadable(CatalogData)
      modifies this`catalog, this`nextEdge, nodeIndexes, edgeIndexes
      ensures catalog == LoadCatalog(s).GetOr([]) && nextEdge == headerNextEdge
      ensures nodeIndexes.indexes == map[] && edgeIndexes.indexes == map[]
    {
      hide LoadCatalog;
      LoadedOfFile(file.Contents(), s, CatalogData);
      var bytes := file.LoadCatalogBytes();
      catalog := bytes.GetOr([]);
      nextEdge := headerNextEdge;
      nodeIndexes.Clear();
      edgeIndexes.Clear();
    }

    /** Opens a file that was closed cleanly. */
    method OpenFile(ghost before: Store, ghost saved: seq<Byte>)
      requires Valid() && file.Contents() == Closed(before, saved).(current := map[])
      requires forall f :: file.Loadable(f)
      modifies this, nodeIndexes, edgeIndexes, file`current
      ensures Current() == Opened(Closed(before, saved), old(nextNode), old(headerNextEdge), old(sub.next), old(hyper.next), versioning)
    {
      hide Loaded, LoadCatalog, V.Replay, S.Replay, H.Replay, Tables.LoadRecords, Tables.LoadPages, Closed, Cache, NodesOf, EdgesOf,
           Opened, file.Loadable;
      ghost var s := Closed(before, saved);
      LoadRest(s);
      LoadTables(s);
      LoadLogs(s);
      AllCached(before, saved, file.Contents());
      AllOpened(Current(), s, old(sub.next), old(hyper.next));
    }

    /** Clean close, then open: the logs of all families are read back. The pages are well
        formed, as in every reachable state; otherwise a load might not end. */
    method Reopen(ghost own: Owners)
      requires Valid() && Owned(file.Contents(), own)
      modifies this, nodeIndexes, edgeIndexes, file
      ensures Current() == Step(old(Current()), pick, Op.Reopen)
    {
      hide Owned, Closed, SavedOwners, Opened, Step;
      CloseFile(own);
      OwnedLoadable(file.Contents(), SavedOwners(own, old(file.Contents()), old(catalog)));
      OpenFile(old(file.Contents()), old(catalog));
      ReopeningIs(old(Current()), pick);
    }
  }

  /** The parts of a newly opened engine. */
  lemma AllOpened(t: State, s: Store, nextSub: nat, nextHyper: nat)
    requires t.store == s && t.catalog == LoadCatalog(s).GetOr([]) && t.edge.next == t.edge.headerNext
    requires t.node.nodes == NodesOf(Tables.LoadRecords(Loaded(s, NodeData))) && t.node.pageOf == Tables.LoadPages(Loaded(s, NodeData))
    requires t.edge.edges == EdgesOf(Tables.LoadRecords(Loaded(s, EdgeData))) && t.edge.pageOf == Tables.LoadPages(Loaded(s, EdgeData))
    requires t.sub == S.Replay(Loaded(s, SubgraphData), nextSub) && t.hyper == H.Replay(Loaded(s, HyperEdgeData), nextHyper)
    requires t.history == V.Replay(Loaded(s, VersionData)) && t.node.index == map[] && t.edge.index == map[]
    ensures t == Opened(s, t.node.next, t.edge.headerNext, nextSub, nextHyper, t.versioning)
  {
    hide Loaded, LoadCatalog, V.Replay, S.Replay, H.Replay, Tables.LoadRecords, Tables.LoadPages, NodesOf, EdgesOf;
  }

  lemma ReopeningIs(e: State, pick: Picker)
    ensures Step(e, pick, Op.Reopen) ==
            Opened(Closed(e.store, e.catalog), e.node.next, e.edge.headerNext, e.sub.next, e.hyper.next, e.versioning)
  {
    hide Opened;
  }

  ghost predicate SameFile(t: Store, s: Store) {
    t.main == s.main && t.wal == s.wal && t.pageCount == s.pageCount && t.roots == s.roots
  }

  lemma LoadedOfFile(t: Store, s: Store, f: Family)
    requires SameFile(t, s)
    ensures Loaded(t, f) == Loaded(s, f) && (f == CatalogData ==> LoadCatalog(t) == LoadCatalog(s))
  {
    hide Walk, Payload;
  }

  /** The caches after loading a family. */
  ghost function Cache(current: map<Family, Cached>, s: Store, f: Family): map<Family, Cached> {
    if f in s.roots then current[f := WalkEnd(s.main, s.roots[f], s.pageCount)] else current
  }

  lemma UncachedOwned(s: Store, own: Owners)
    requires Owned(s, own)
    ensures Owned(s.(current := map[]), own)
  {
    hide OwnedPage;
  }

  lemma OwnedLoadable(s: Store, own: Owners)
    requires Owned(s, own)
    ensures Forward(s.main, s.pageCount) && forall f | f in s.roots :: s.roots[f] in s.main
  {
  }

  /** After the five loads the last page of every chain is cached. */
  lemma AllCached(before: Store, catalog: seq<Byte>, t: Store)
    requires SameFile(t, Closed(before, catalog))
    requires var s := Closed(before, catalog);
             t.current == Cache(Cache(Cache(Cache(Cache(map[], s, NodeData), s, EdgeData), s, SubgraphData), s, HyperEdgeData), s, VersionData)
    ensures t == Closed(before, catalog)
  {
    hide WalkEnd, SaveCatalog, Overlay;
    var s := Closed(before, catalog);
    forall f
      ensures f in t.current <==> f in s.current
      ensures f in s.current ==> t.current[f] == s.current[f]
    {
    }
    assert t.current == s.current;
  }
}
