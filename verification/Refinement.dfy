/** The storage engine is the graph machine: with its pages, caches, chains and indexes, over
    every run, it has the data, the identifiers and the index definitions of the machine. */
module Refinement {
  import opened Graph
  import opened Links
  import opened Indexes
  import opened Pages
  import opened PageChains
  import opened StoredLogs
  import opened Engine
  import opened Durability
  import opened DurableSteps
  import opened Reload
  import opened Sessions
  import opened IndexRuns
  import opened GraphMachine
  import S = Subgraphs
  import H = HyperEdges

  // ---------------------------------------------------------------------------
  // What of an engine the machine has
  // ---------------------------------------------------------------------------

  function Pairs(m: Adjacency): set<(nat, nat)> {
    set a, b | a in m && b in m[a] :: (a, b)
  }

  function DataOf(d: Durable): Data {
    Data(d.nodes, d.edges, d.sub.subs, Pairs(d.sub.links.forward), d.hyper.hypers)
  }

  function DefinitionsOf(m: Manager): Definitions {
    map name | name in m :: (m[name].tag, m[name].key)
  }

  /** The engine as it runs and the machine agree on everything but what is saved. */
  predicate Agrees(e: State, m: Machine) {
    && DataOf(Live(e)) == m.live
    && (e.node.next, e.edge.next, e.edge.headerNext, e.sub.next, e.hyper.next)
       == (m.nextNode, m.nextEdge, m.savedEdge, m.nextSub, m.nextHyper)
    && DefinitionsOf(e.node.index) == m.nodeIndexes && DefinitionsOf(e.edge.index) == m.edgeIndexes
  }

  ghost predicate OwnIds(e: State) {
    && (forall id | id in e.node.nodes :: e.node.nodes[id].id == id)
    && (forall id | id in e.edge.edges :: e.edge.edges[id].id == id)
  }

  /** Whether the record a creation writes has room on a page. */
  predicate Fitting(e: State, op: Op) {
    match op
    case CreateNode(labels, props) => FitsPage(NodeRec(NodeRecord(e.node.next, labels, props), false))
    case CreateEdge(start, end, relType, props) => FitsPage(EdgeRec(EdgeRecord(e.edge.next, start, end, relType, props), false))
    case CreateSubgraph(props, anchor) => FitsPage(SubRecord(S.Create(e.sub, anchor, props), e.sub.next))
    case AddMember(id, node) => id in e.sub.subs && FitsPage(SubRecord(S.AddMember(e.sub, id, node), id))
    case CreateHyperEdge(relType, sources, targets, props) =>
      FitsPage(HyperEdgeRec(HyperEdgeRecord(e.hyper.next, relType, sources, targets, props)))
    case _ => true
  }

  // ---------------------------------------------------------------------------
  // Members as pairs
  // ---------------------------------------------------------------------------

  lemma PairsAre(m: Adjacency, a: nat, b: nat)
    ensures (a, b) in Pairs(m) <==> Linked(m, a, b)
  {
  }

  lemma PairsAdd(l: TwoWay, owner: nat, member: nat)
    ensures Pairs(Add(l, owner, member).forward) == Pairs(l.forward) + {(owner, member)}
  {
    JoinLinks(l.forward, owner, member);
    hide Join;
    forall a: nat, b: nat
      ensures (a, b) in Pairs(Add(l, owner, member).forward) <==> (a, b) in Pairs(l.forward) + {(owner, member)}
    {
      PairsAre(l.forward, a, b);
      PairsAre(Add(l, owner, member).forward, a, b);
    }
  }

  lemma PairsRemove(l: TwoWay, owner: nat, member: nat)
    ensures Pairs(Links.Remove(l, owner, member).forward) == Pairs(l.forward) - {(owner, member)}
  {
    CutLinks(l.forward, owner, member);
    hide Cut;
    forall a: nat, b: nat
      ensures (a, b) in Pairs(Links.Remove(l, owner, member).forward) <==> (a, b) in Pairs(l.forward) - {(owner, member)}
    {
      PairsAre(l.forward, a, b);
      PairsAre(Links.Remove(l, owner, member).forward, a, b);
    }
  }

  lemma PairsRemoveAll(l: TwoWay, owner: nat)
    ensures Pairs(RemoveAll(l, owner).forward) == set p | p in Pairs(l.forward) && p.0 != owner
  {
  }

  lemma {:induction false} PairsAddMany(l: TwoWay, owner: nat, members: seq<nat>)
    ensures Pairs(AddMany(l, owner, members).forward) == Pairs(l.forward) + set b | b in members :: (owner, b)
  {
    hide Add, Pairs;
    if members != [] {
      var front, last := members[..|members| - 1], members[|members| - 1];
      assert members == front + [last];
      PairsAddMany(l, owner, front);
      PairsAdd(AddMany(l, owner, front), owner, last);
    }
  }

  lemma MembersAre(s: S.SubgraphStore, id: nat)
    ensures (set b | b in S.Members(s, id) :: (id, b)) == set p | p in Pairs(s.links.forward) && p.0 == id
  {
    forall a: nat, b: nat
      ensures (a, b) in (set b | b in S.Members(s, id) :: (id, b)) <==> (a, b) in (set p | p in Pairs(s.links.forward) && p.0 == id)
    {
      PairsAre(s.links.forward, a, b);
    }
  }

  // ---------------------------------------------------------------------------
  // Index definitions
  // ---------------------------------------------------------------------------

  lemma InsertDefines(m: Manager, pick: Picker, tag: nat, key: nat, v: Value, id: nat)
    ensures DefinitionsOf(InsertAt(m, pick, tag, key, v, id)) == DefinitionsOf(m)
    ensures DefinitionsOf(RemoveAt(m, pick, tag, key, v, id)) == DefinitionsOf(m)
  {
    hide Find;
  }

  lemma {:induction false} PropsDefine(m: Manager, pick: Picker, tag: nat, props: Props, id: nat)
    ensures DefinitionsOf(InsertProps(m, pick, tag, props, id)) == DefinitionsOf(m)
    ensures DefinitionsOf(RemoveProps(m, pick, tag, props, id)) == DefinitionsOf(m)
  {
    hide InsertAt, RemoveAt, DefinitionsOf;
    if props != [] {
      var front, last := props[..|props| - 1], props[|props| - 1];
      PropsDefine(m, pick, tag, front, id);
      InsertDefines(InsertProps(m, pick, tag, front, id), pick, tag, last.0, last.1, id);
      InsertDefines(RemoveProps(m, pick, tag, front, id), pick, tag, last.0, last.1, id);
    }
  }

  lemma {:induction false} ChangesDefine(m: Manager, pick: Picker, tags: seq<nat>, before: Props, after: Props, id: nat)
    ensures DefinitionsOf(OnCreate(m, pick, tags, after, id)) == DefinitionsOf(m)
    ensures DefinitionsOf(OnUpdate(m, pick, tags, before, after, id)) == DefinitionsOf(m)
    ensures DefinitionsOf(OnDelete(m, pick, tags, before, id)) == DefinitionsOf(m)
  {
    hide InsertProps, RemoveProps, DefinitionsOf;
    if tags != [] {
      var front, last := tags[..|tags| - 1], tags[|tags| - 1];
      ChangesDefine(m, pick, front, before, after, id);
      PropsDefine(OnCreate(m, pick, front, after, id), pick, last, after, id);
      PropsDefine(OnDelete(m, pick, front, before, id), pick, last, before, id);
      var rest := OnUpdate(m, pick, front, before, after, id);
      PropsDefine(rest, pick, last, before, id);
      PropsDefine(RemoveProps(rest, pick, last, before, id), pick, last, after, id);
    }
  }

  lemma {:induction false} BackfillDefines(m: Manager, pick: Picker, tag: nat, key: nat, props: Props, id: nat)
    ensures DefinitionsOf(BackfillProps(m, pick, tag, key, props, id)) == DefinitionsOf(m)
  {
    hide InsertAt, DefinitionsOf;
    if props != [] {
      var front, last := props[..|props| - 1], props[|props| - 1];
      BackfillDefines(m, pick, tag, key, front, id);
      InsertDefines(BackfillProps(m, pick, tag, key, front, id), pick, tag, key, last.1, id);
    }
  }

  lemma {:induction false} AllDefine(m: Manager, pick: Picker, tag: nat, key: nat, ents: Entities, ids: seq<nat>)
    ensures DefinitionsOf(BackfillAll(m, pick, tag, key, ents, ids)) == DefinitionsOf(m)
  {
    hide BackfillProps, DefinitionsOf;
    if ids != [] {
      var front, id := ids[..|ids| - 1], ids[|ids| - 1];
      AllDefine(m, pick, tag, key, ents, front);
      if id in ents {
        BackfillDefines(BackfillAll(m, pick, tag, key, ents, front), pick, tag, key, ents[id].props, id);
      }
    }
  }

  lemma CreateDefines(m: Manager, pick: Picker, name: string, tag: nat, key: nat, ents: Entities, next: nat)
    ensures var n := CreateIndex(m, pick, name, tag, key, ents, next);
            && (n.Some? <==> name !in DefinitionsOf(m))
            && (n.Some? ==> DefinitionsOf(n.value) == DefinitionsOf(m)[name := (tag, key)])
  {
    hide BackfillAll;
    AllDefine(m[name := Index(tag, key, map[])], pick, tag, key, ents, ScanTag(ents, tag, next));
  }

  // ---------------------------------------------------------------------------
  // One operation on the engine as it runs
  // ---------------------------------------------------------------------------

  lemma NodeStepAgrees(e: State, pick: Picker, op: Op, m: Machine, fits: bool)
    requires Agrees(e, m) && OwnIds(e) && (op.CreateNode? || op.UpdateNode?)
    ensures Agrees(Step(e, pick, op), Change(m, op, fits))
  {
    hide OnCreate, OnUpdate, Append, AppendPage, Rewrite, Pairs, DefinitionsOf;
    if op.CreateNode? {
      ChangesDefine(e.node.index, pick, op.labels, op.props, op.props, e.node.next);
    } else if op.id in e.node.nodes {
      var state := e.node.nodes[op.id];
      ChangesDefine(e.node.index, pick, state.labels, state.props, op.props, op.id);
    }
  }

  /** Writing a record to its page changes nothing the machine has. */
  lemma RewriteAgrees(e: State, n: NodeRecord, r: EdgeRecord, deleted: bool, m: Machine)
    requires Agrees(e, m)
    ensures Agrees(RewriteNode(e, n, deleted), m) && Agrees(RewriteEdge(e, r, deleted), m)
  {
    hide Append, AppendPage, Rewrite, Pairs, DefinitionsOf;
  }

  lemma CascadeAgrees(e: State, id: nat, m: Machine)
    requires Agrees(e, m)
    ensures Agrees(DropIncident(e, id), m.(live := m.live.(edges := EdgesAwayFrom(m.live.edges, id))))
  {
    hide Pairs, DefinitionsOf;
    assert e.edge.edges - Incident(e.edge.edges, id) == EdgesAwayFrom(e.edge.edges, id);
  }

  lemma DropNodeAgrees(e: State, pick: Picker, state: NodeRecord, m: Machine)
    requires Agrees(e, m)
    ensures Agrees(DropNode(e, pick, state), m.(live := m.live.(nodes := m.live.nodes - {state.id})))
  {
    hide OnDelete, Pairs, DefinitionsOf;
    ChangesDefine(e.node.index, pick, state.labels, state.props, [], state.id);
  }

  lemma DeleteNodeAgrees(e: State, pick: Picker, id: nat, m: Machine, fits: bool)
    requires Agrees(e, m) && OwnIds(e)
    ensures Agrees(Step(e, pick, DeleteNode(id)), Change(m, DeleteNode(id), fits))
  {
    hide DropNode, DropIncident, RewriteNode, EdgesAwayFrom, Pairs, DefinitionsOf;
    assert m.live.nodes == e.node.nodes;
    hide Agrees;
    var edges := m.(live := m.live.(edges := EdgesAwayFrom(m.live.edges, id)));
    CascadeAgrees(e, id, m);
    if id in e.node.nodes {
      var state := e.node.nodes[id];
      var gone := edges.(live := edges.live.(nodes := edges.live.nodes - {id}));
      DropNodeAgrees(DropIncident(e, id), pick, state, edges);
      RewriteAgrees(DropNode(DropIncident(e, id), pick, state), state, EdgeRecord(0, 0, 0, 0, []), true, gone);
      SavedApart(Step(e, pick, DeleteNode(id)), gone, Change(m, DeleteNode(id), fits));
    } else {
      assert m.live.nodes - {id} == m.live.nodes;
    }
  }

  lemma SavedApart(e: State, m: Machine, n: Machine)
    requires Agrees(e, m) && n == m.(saved := n.saved)
    ensures Agrees(e, n)
  {
  }

  lemma EdgeMade(e: State, pick: Picker, r: EdgeRecord, pid: nat, after: Store, m: Machine)
    requires Agrees(e, m)
    ensures var index := OnCreate(e.edge.index, pick, [r.relType], r.props, r.id);
            Agrees(e.(edge := EdgeStore(e.edge.edges[r.id := r], r.id + 1, r.id + 1, e.edge.pageOf[r.id := pid], index), store := after),
                   m.(live := m.live.(edges := m.live.edges[r.id := r]), nextEdge := r.id + 1, savedEdge := r.id + 1))
  {
    hide OnCreate, Pairs, DefinitionsOf;
    ChangesDefine(e.edge.index, pick, [r.relType], r.props, r.props, r.id);
  }

  lemma CreateEdgeAgrees(e: State, pick: Picker, op: Op, m: Machine, fits: bool)
    requires Agrees(e, m) && op.CreateEdge?
    ensures Agrees(Step(e, pick, op), Change(m, op, fits))
  {
    hide OnCreate, Append, AppendPage, Pairs, DefinitionsOf;
    assert m.live.nodes == e.node.nodes && m.nextEdge == e.edge.next;
    if op.start in e.node.nodes && op.end in e.node.nodes {
      hide Agrees;
      var r := EdgeRecord(e.edge.next, op.start, op.end, op.relType, op.props);
      var made := m.(live := m.live.(edges := m.live.edges[r.id := r]), nextEdge := r.id + 1, savedEdge := r.id + 1);
      EdgeMade(e, pick, r, AppendPage(e.store, EdgeData, EdgeRec(r, false)), Append(e.store, EdgeData, EdgeRec(r, false)), m);
      SavedApart(Step(e, pick, op), made, Change(m, op, fits));
    }
  }

  lemma UpdateEdgeAgrees(e: State, pick: Picker, id: nat, props: Props, m: Machine, fits: bool)
    requires Agrees(e, m) && OwnIds(e)
    ensures Agrees(Step(e, pick, UpdateEdge(id, props)), Change(m, UpdateEdge(id, props), fits))
  {
    hide OnUpdate, RewriteEdge, Pairs, DefinitionsOf;
    if id in e.edge.edges {
      var state := e.edge.edges[id];
      ChangesDefine(e.edge.index, pick, [state.relType], state.props, props, id);
      var t := e.(edge := e.edge.(edges := e.edge.edges[id := state.(props := props)],
                                  index := OnUpdate(e.edge.index, pick, [state.relType], state.props, props, id)));
      RewriteAgrees(t, NodeRecord(0, [], []), state.(props := props), false, Change(m, UpdateEdge(id, props), fits));
    }
  }

  lemma DeleteEdgeAgrees(e: State, pick: Picker, id: nat, m: Machine, fits: bool)
    requires Agrees(e, m) && OwnIds(e)
    ensures Agrees(Step(e, pick, DeleteEdge(id)), Change(m, DeleteEdge(id), fits))
  {
    hide OnDelete, RewriteEdge, Pairs, DefinitionsOf;
    if id in e.edge.edges {
      var state := e.edge.edges[id];
      ChangesDefine(e.edge.index, pick, [state.relType], state.props, [], id);
      var t := e.(edge := e.edge.(edges := e.edge.edges - {id},
                                  index := OnDelete(e.edge.index, pick, [state.relType], state.props, id)));
      RewriteAgrees(t, NodeRecord(0, [], []), state, true, Change(m, DeleteEdge(id), fits));
    }
  }

  lemma IndexStepAgrees(e: State, pick: Picker, op: Op, m: Machine, fits: bool)
    requires Agrees(e, m) && (op.CreateNodeIndex? || op.CreateEdgeIndex? || op.DropIndex?)
    ensures Agrees(Step(e, pick, op), Change(m, op, fits))
  {
    hide CreateIndex, Pairs;
    match op
    case CreateNodeIndex(name, tag, key) =>
      CreateDefines(e.node.index, pick, name, tag, key, NodeEntities(e.node.nodes), e.node.next);
      hide DefinitionsOf;
    case CreateEdgeIndex(name, tag, key) =>
      CreateDefines(e.edge.index, pick, name, tag, key, EdgeEntities(e.edge.edges), e.edge.next);
      hide DefinitionsOf;
    case DropIndex(name) =>
      DropDefines(e.node.index, name);
      DropDefines(e.edge.index, name);
  }

  lemma DropDefines(m: Manager, name: string)
    ensures DefinitionsOf(m - {name}) == DefinitionsOf(m) - {name}
    ensures name in DefinitionsOf(m) <==> name in m
  {
  }

  lemma SubStepAgrees(e: State, pick: Picker, op: Op, m: Machine, fits: bool)
    requires Agrees(e, m) && IsSubgraphOp(op)
    ensures Agrees(Step(e, pick, op), Change(m, op, fits))
  {
    hide Append, SubRecord, Pairs, DefinitionsOf, Add, Links.Remove, RemoveAll;
    match op
    case CreateSubgraph(_, _) =>
    case AddMember(id, node) => PairsAdd(e.sub.links, id, node);
    case RemoveMember(id, node) => PairsRemove(e.sub.links, id, node);
    case DeleteSubgraph(id) => PairsRemoveAll(e.sub.links, id);
  }

  lemma OtherStepAgrees(e: State, pick: Picker, op: Op, m: Machine, fits: bool)
    requires Agrees(e, m) && (op.CreateHyperEdge? || op.DeleteHyperEdge? || op.SetCatalog? || op.RunCheckpoint?)
    ensures Agrees(Step(e, pick, op), Change(m, op, fits))
  {
    hide Append, Checkpoint, Pairs, DefinitionsOf, AddMany, RemoveAll, H.Participants;
  }

  /** Every operation but closing and opening does to the live data what the machine says,
      whatever the pages do. */
  lemma StepAgrees(e: State, pick: Picker, op: Op, m: Machine, fits: bool)
    requires Agrees(e, m) && OwnIds(e) && !op.Reopen?
    ensures Agrees(Step(e, pick, op), Change(m, op, fits))
  {
    hide Agrees, OwnIds, Step, Change;
    if op.CreateNode? || op.UpdateNode? {
      NodeStepAgrees(e, pick, op, m, fits);
    } else if op.DeleteNode? {
      DeleteNodeAgrees(e, pick, op.id, m, fits);
    } else if op.CreateEdge? {
      CreateEdgeAgrees(e, pick, op, m, fits);
    } else if op.UpdateEdge? {
      UpdateEdgeAgrees(e, pick, op.id, op.props, m, fits);
    } else if op.DeleteEdge? {
      DeleteEdgeAgrees(e, pick, op.id, m, fits);
    } else if op.CreateNodeIndex? || op.CreateEdgeIndex? || op.DropIndex? {
      IndexStepAgrees(e, pick, op, m, fits);
    } else if IsSubgraphOp(op) {
      SubStepAgrees(e, pick, op, m, fits);
    } else {
      OtherStepAgrees(e, pick, op, m, fits);
    }
  }

  /** Between opening and closing, the catalog is what it was last set to. */
  lemma StepCatalog(e: State, pick: Picker, op: Op)
    requires !op.Reopen?
    ensures Step(e, pick, op).catalog == if op.SetCatalog? then op.bytes else e.catalog
    ensures Step(e, pick, op).versioning == e.versioning
  {
    hide Append, AppendPage, Rewrite, Checkpoint, OnCreate, OnUpdate, OnDelete, CreateIndex, SubRecord, Incident,
         S.Create, S.AddMember, S.RemoveMember, S.Delete, H.Create, H.Delete;
  }

  /** The memberships of a node are the subgraphs it is a member of, in every reachable state. */
  lemma MembershipsAreMembers(versioning: bool, pick: Picker, ops: seq<Op>, id: nat, node: nat)
    ensures var s := Run(Empty(versioning), pick, ops).sub;
            id in Neighbours(s.links.reverse, node) <==> node in S.Members(s, id)
  {
    hide Run, Empty, DurableRun, DurableOk, H.Sound;
    var own, ch := RunKept(versioning, pick, ops);
    var e := Run(Empty(versioning), pick, ops);
    StoresSound(e, DurableRun(Empty(versioning), NOTHING, pick, ops), own, ch);
    assert Linked(e.sub.links.forward, id, node) <==> Linked(e.sub.links.reverse, node, id);
  }

  // ---------------------------------------------------------------------------
  // One operation on what is saved
  // ---------------------------------------------------------------------------

  lemma NodeSaved(e: State, d: Durable, op: Op, m: Machine)
    requires Agrees(e, m) && OwnIds(e) && DataOf(d) == m.saved && (op.CreateNode? || op.UpdateNode? || op.DeleteNode?)
    ensures DataOf(Kept(e, d, op)) == Change(m, op, Fitting(e, op)).saved
  {
    hide FitsPage, Pairs, DefinitionsOf, EdgesAwayFrom;
  }

  lemma EdgeSaved(e: State, d: Durable, op: Op, m: Machine)
    requires Agrees(e, m) && OwnIds(e) && DataOf(d) == m.saved && (op.CreateEdge? || op.UpdateEdge? || op.DeleteEdge?)
    ensures DataOf(Kept(e, d, op)) == Change(m, op, Fitting(e, op)).saved
  {
    hide FitsPage, Pairs, DefinitionsOf;
  }

  lemma SubSaved(e: State, d: Durable, m: Machine, s: S.SubgraphStore, id: nat, live: Data)
    requires DataOf(d) == m.saved && id in s.subs && live.subs == s.subs && live.members == Pairs(s.links.forward)
    requires s.subs[id].id == id
    ensures DataOf(KeepSub(d, s, id)) == if FitsPage(SubRecord(s, id)) then SaveSub(m.saved, live, id) else m.saved
  {
    hide FitsPage, Pairs, AddMany;
    PairsAddMany(d.sub.links, id, S.Members(s, id));
    MembersAre(s, id);
    hide S.Members;
  }

  lemma SubStepSaved(e: State, d: Durable, op: Op, m: Machine)
    requires Agrees(e, m) && DataOf(d) == m.saved && S.Sound(e.sub) && IsSubgraphOp(op)
    ensures DataOf(Kept(e, d, op)) == Change(m, op, Fitting(e, op)).saved
  {
    hide FitsPage, Pairs, DefinitionsOf, Add, SubRecord, KeepSub, SaveSub, Mirrored, DataOf;
    SubData(e, e.sub);
    match op
    case CreateSubgraph(props, anchor) =>
      var s := S.Create(e.sub, anchor, props);
      SubData(e, s);
      SubSaved(e, d, m, s, e.sub.next, DataOf(Live(e).(sub := s)));
    case AddMember(id, node) =>
      if id in e.sub.subs && node in e.node.nodes {
        var s := S.AddMember(e.sub, id, node);
        PairsAdd(e.sub.links, id, node);
        SubData(e, s);
        SubSaved(e, d, m, s, id, DataOf(Live(e).(sub := s)));
      }
    case _ =>
  }

  lemma SubData(e: State, s: S.SubgraphStore)
    ensures DataOf(Live(e)).nodes == e.node.nodes && DataOf(Live(e)).subs == e.sub.subs
    ensures DataOf(Live(e).(sub := s)) == DataOf(Live(e)).(subs := s.subs, members := Pairs(s.links.forward))
    ensures DataOf(Live(e)).members == Pairs(e.sub.links.forward)
  {
  }

  lemma OtherSaved(e: State, d: Durable, op: Op, m: Machine)
    requires Agrees(e, m) && DataOf(d) == m.saved && !op.CreateNode? && !op.UpdateNode? && !op.DeleteNode?
    requires !op.CreateEdge? && !op.UpdateEdge? && !op.DeleteEdge? && !IsSubgraphOp(op)
    ensures DataOf(Kept(e, d, op)) == Change(m, op, Fitting(e, op)).saved
  {
    hide FitsPage, Pairs, DefinitionsOf, AddMany, H.Participants;
  }

  /** Every operation saves what the machine says. */
  lemma StepSaved(e: State, d: Durable, op: Op, m: Machine)
    requires Agrees(e, m) && OwnIds(e) && S.Sound(e.sub) && DataOf(d) == m.saved
    ensures DataOf(Kept(e, d, op)) == Change(m, op, Fitting(e, op)).saved
  {
    hide Agrees, OwnIds, S.Sound, Kept, Change, Fitting, DataOf;
    if op.CreateNode? || op.UpdateNode? || op.DeleteNode? {
      NodeSaved(e, d, op, m);
    } else if op.CreateEdge? || op.UpdateEdge? || op.DeleteEdge? {
      EdgeSaved(e, d, op, m);
    } else if IsSubgraphOp(op) {
      SubStepSaved(e, d, op, m);
    } else {
      OtherSaved(e, d, op, m);
    }
  }

  // ---------------------------------------------------------------------------
  // Runs
  // ---------------------------------------------------------------------------

  /** The machine alongside a run. */
  function Mirror(e: State, m: Machine, pick: Picker, ops: seq<Op>): Machine {
    if ops == [] then m
    else
      var front, last := ops[..|ops| - 1], ops[|ops| - 1];
      Change(Mirror(e, m, pick, front), last, Fitting(Run(e, pick, front), last))
  }

  lemma BoundedOwns(e: State)
    requires Bounded(e)
    ensures OwnIds(e)
  {
    hide StoreBelow;
  }

  /** Main result. In a session, whatever the pages do, safe or not, the engine does to the
      graph what the machine does. */
  lemma {:induction false} SessionIsMachine(e: State, pick: Picker, ops: seq<Op>, m: Machine)
    requires Bounded(e) && Agrees(e, m) && Session(ops)
    ensures Bounded(Run(e, pick, ops)) && Agrees(Run(e, pick, ops), Mirror(e, m, pick, ops))
  {
    hide Step, Change, Agrees, Bounded, Fitting;
    if ops != [] {
      var front, last := ops[..|ops| - 1], ops[|ops| - 1];
      SessionIsMachine(e, pick, front, m);
      BoundedOwns(Run(e, pick, front));
      StepBounded(Run(e, pick, front), pick, last);
      StepAgrees(Run(e, pick, front), pick, last, Mirror(e, m, pick, front), Fitting(Run(e, pick, front), last));
    }
  }

  lemma ReopenedAgrees(e: State, d: Durable, own: Owners, ch: Chains, m: Machine)
    requires DurableOk(e, d, own, ch) && NodeData in ch && EdgeData in ch
    requires Agrees(e, m) && DataOf(d) == m.saved
    ensures Agrees(Reopening(e), Change(m, Reopen, true))
  {
    hide DurableOk, Reopening, Pairs, DefinitionsOf, DataOf;
    AllReloaded(e, d, own, ch);
    ReopenCounts(e);
    KeptCounts(e, d, own, ch);
    NoDefinitions();
  }

  lemma NoDefinitions()
    ensures DefinitionsOf(map[]) == map[]
  {
  }

  lemma KeptCounts(e: State, d: Durable, own: Owners, ch: Chains)
    requires DurableOk(e, d, own, ch)
    ensures d.sub.next == e.sub.next && d.hyper.next == e.hyper.next
  {
    hide Stored, LogOf, NodesPart, EdgesPart, V.Replay, S.Replay, H.Replay, S.Sound, H.Sound;
  }

  lemma ReopenCounts(e: State)
    ensures var t := Reopening(e);
            && t.node.next == e.node.next && t.edge.next == e.edge.headerNext && t.edge.headerNext == e.edge.headerNext
            && t.node.index == map[] && t.edge.index == map[]
  {
    hide Loaded, Closed;
  }

  lemma StartAgrees(versioning: bool)
    ensures Agrees(Empty(versioning), START) && DataOf(NOTHING) == START.saved
  {
  }

  /** Main result. Over every run of safe rewrites from a new database, closing and opening
      included and whether or not the records fit, the engine has the machine's graph, and
      closing and opening would bring back what the machine has saved. */
  lemma {:induction false} EngineIsMachine(versioning: bool, pick: Picker, ops: seq<Op>)
    requires SafeRun(Empty(versioning), pick, ops)
    ensures var e := Run(Empty(versioning), pick, ops);
            var m := Mirror(Empty(versioning), START, pick, ops);
            && Agrees(e, m) && DataOf(Live(Reopening(e))) == m.saved
            && DataOf(DurableRun(Empty(versioning), NOTHING, pick, ops)) == m.saved
    decreases |ops|, 1
  {
    hide DurableOk, Step, Kept, Change, Agrees, Fitting, DataOf, Reopening, S.Sound, H.Sound, SafeOp, OwnIds, Live;
    var e, d := Run(Empty(versioning), pick, ops), DurableRun(Empty(versioning), NOTHING, pick, ops);
    if ops == [] {
      StartAgrees(versioning);
    } else {
      hide Empty;
      EngineStep(versioning, pick, ops);
    }
    hide Run, DurableRun, Mirror, SafeRun, Empty;
    var own, ch := RunKept(versioning, pick, ops);
    AllReloaded(e, d, own, ch);
  }

  lemma {:induction false} EngineStep(versioning: bool, pick: Picker, ops: seq<Op>)
    requires ops != [] && SafeRun(Empty(versioning), pick, ops)
    ensures var m := Mirror(Empty(versioning), START, pick, ops);
            && Agrees(Run(Empty(versioning), pick, ops), m)
            && DataOf(DurableRun(Empty(versioning), NOTHING, pick, ops)) == m.saved
    decreases |ops|, 0
  {
    hide DurableOk, Step, Kept, Change, Agrees, Fitting, DataOf, Reopening, S.Sound, H.Sound, SafeOp, OwnIds, Live, Empty, Bounded;
    var front, last := ops[..|ops| - 1], ops[|ops| - 1];
    var e, d := Run(Empty(versioning), pick, front), DurableRun(Empty(versioning), NOTHING, pick, front);
    var m := Mirror(Empty(versioning), START, pick, front);
    EngineIsMachine(versioning, pick, front);
    RunBounded(versioning, pick, front);
    BoundedOwns(e);
    var own, ch := RunKept(versioning, pick, front);
    StoresSound(e, d, own, ch);
    StepSaved(e, d, last, m);
    if last.Reopen? {
      ReopenedAgrees(e, d, own, ch, m);
      ReopenStep(e, d, pick, last);
      FitsReopen(e, m);
    } else {
      StepAgrees(e, pick, last, m, Fitting(e, last));
    }
  }

  lemma FitsReopen(e: State, m: Machine)
    ensures Fitting(e, Reopen)
  {
  }
}
