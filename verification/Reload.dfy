/** Closing and opening after any run: what comes back, and exactly when that is everything. */
module Reload {
  import opened Graph
  import opened Indexes
  import opened Links
  import opened Pages
  import opened PageChains
  import opened PageLogs
  import opened StoredLogs
  import opened Tables
  import opened Engine
  import opened Durability
  import opened DurableSteps
  import V = Versions
  import S = Subgraphs
  import H = HyperEdges

  /** The data on pages after a run. */
  function DurableRun(e: State, d: Durable, pick: Picker, ops: seq<Op>): Durable {
    if ops == [] then d
    else
      var front, last := ops[..|ops| - 1], ops[|ops| - 1];
      Kept(Run(e, pick, front), DurableRun(e, d, pick, front), last)
  }

  /** Every rewrite of the run finds its page up to date and room for the rebuilt records. */
  ghost predicate SafeRun(e: State, pick: Picker, ops: seq<Op>) {
    ops == [] || (SafeRun(e, pick, ops[..|ops| - 1]) && SafeOp(Run(e, pick, ops[..|ops| - 1]), ops[|ops| - 1]))
  }

  lemma StepKept(e: State, d: Durable, own: Owners, ch: Chains, pick: Picker, op: Op)
    returns (more: Owners, ch': Chains)
    requires DurableOk(e, d, own, ch)
    ensures DurableOk(Step(e, pick, op), Kept(e, d, op), more, ch')
    ensures SafeOp(e, op) ==> ch'.Keys == ch.Keys
  {
    hide DurableOk, SafeOp, CreatingNode, UpdatingNode, DeletingNode, CreatingEdge, UpdatingEdge, DeletingEdge,
         CreatingSubgraph, AddingMember, CreatingHyperEdge, Reopening, Checkpoint;
    more, ch' := own, ch;
    match op
    case CreateNode(labels, props) => more, ch' := CreateNodeKept(e, d, own, ch, pick, labels, props);
    case UpdateNode(id, props) => more, ch' := UpdateNodeKept(e, d, own, ch, pick, id, props);
    case DeleteNode(id) => more, ch' := DeleteNodeKept(e, d, own, ch, pick, id);
    case CreateEdge(start, end, relType, props) => more, ch' := CreateEdgeKept(e, d, own, ch, pick, start, end, relType, props);
    case UpdateEdge(id, props) => more, ch' := UpdateEdgeKept(e, d, own, ch, pick, id, props);
    case DeleteEdge(id) => more, ch' := DeleteEdgeKept(e, d, own, ch, pick, id);
    case CreateSubgraph(props, anchor) => more, ch' := CreateSubgraphKept(e, d, own, ch, props, anchor);
    case AddMember(id, node) => more, ch' := AddMemberKept(e, d, own, ch, id, node);
    case CreateHyperEdge(relType, sources, targets, props) =>
      more, ch' := CreateHyperEdgeKept(e, d, own, ch, relType, sources, targets, props);
    case RunCheckpoint => CheckpointKept(e, d, own, ch);
    case Reopen => more := ReopenKept(e, d, own, ch);
    case CreateNodeIndex(_, _, _) => MemoryOpKept(e, d, own, ch, pick, op);
    case CreateEdgeIndex(_, _, _) => MemoryOpKept(e, d, own, ch, pick, op);
    case DropIndex(_) => MemoryOpKept(e, d, own, ch, pick, op);
    case RemoveMember(_, _) => MemoryOpKept(e, d, own, ch, pick, op);
    case DeleteSubgraph(_) => MemoryOpKept(e, d, own, ch, pick, op);
    case DeleteHyperEdge(_) => MemoryOpKept(e, d, own, ch, pick, op);
    case SetCatalog(_) => MemoryOpKept(e, d, own, ch, pick, op);
  }

  lemma ReopenStep(e: State, d: Durable, pick: Picker, op: Op)
    requires op.Reopen?
    ensures Step(e, pick, op) == Reopening(e) && Kept(e, d, op) == d && Reopening(e).versioning == e.versioning
  {
    hide Opened;
    assert Reopening(e).versioning == e.versioning by { VersioningStays(e); }
    hide Reopening;
  }

  lemma VersioningStays(e: State)
    ensures Reopening(e).versioning == e.versioning
  {
  }

  /** The data on pages keeps in step over every run. */
  lemma {:induction false} RunKept(versioning: bool, pick: Picker, ops: seq<Op>)
    returns (own: Owners, ch: Chains)
    ensures DurableOk(Run(Empty(versioning), pick, ops), DurableRun(Empty(versioning), NOTHING, pick, ops), own, ch)
    ensures SafeRun(Empty(versioning), pick, ops) ==> NodeData in ch && EdgeData in ch
  {
    hide DurableOk, Step, Kept, SafeOp, Empty;
    if ops == [] {
      own, ch := map[], NO_CHAINS;
      EmptyDurable(versioning);
    } else {
      var front, last := ops[..|ops| - 1], ops[|ops| - 1];
      own, ch := RunKept(versioning, pick, front);
      var keys := ch.Keys;
      own, ch := StepKept(Run(Empty(versioning), pick, front), DurableRun(Empty(versioning), NOTHING, pick, front), own, ch, pick, last);
      if SafeRun(Empty(versioning), pick, ops) {
        assert NodeData in keys && EdgeData in keys;
      }
    }
  }

  // ---------------------------------------------------------------------------
  // Reloading
  // ---------------------------------------------------------------------------

  /** The data of an engine. */
  function Live(e: State): Durable {
    Durable(e.node.nodes, e.edge.edges, e.history, e.sub, e.hyper)
  }

  /** The page map names the one page of the chain with a record of the node, and that
      record is the live one. */
  ghost predicate MapNamesPages(log: seq<Entry>, nodes: map<nat, NodeRecord>, pageOf: map<nat, nat>) {
    forall id | id in nodes :: id in pageOf && HeldOnce(log, id, (pageOf[id], NodeRec(nodes[id], false)))
  }

  ghost predicate HeldOnce(log: seq<Entry>, id: nat, entry: Entry) {
    exists k :: 0 <= k < |log| && log[k] == entry && forall j | 0 <= j < |log| && j != k :: IdOf(log[j].1) != id
  }

  lemma TableNamesPages(log: seq<Entry>, nodes: map<nat, NodeRecord>, live: set<nat>, pageOf: map<nat, nat>, next: nat)
    requires TableOk(log, NodeRecs(nodes), live, pageOf, next)
    ensures MapNamesPages(log, nodes, pageOf)
  {
    var table := NodeRecs(nodes);
    forall id | id in nodes
      ensures id in pageOf && HeldOnce(log, id, (pageOf[id], NodeRec(nodes[id], false)))
    {
      assert id in table;
      var k :| 0 <= k < |log| && IdOf(log[k].1) == id;
      assert EntryOk(log[k], table, live, pageOf, next);
      assert log[k] == (pageOf[id], NodeRec(nodes[id], false));
    }
  }

  /** Reload refines the durable data: after every run, closing and opening brings back the
      history, the subgraphs and the hyperedges on pages, and after a run of safe rewrites the
      nodes and edges on pages as well. Each node is on the one page its page map names. */
  lemma ReloadIsDurable(versioning: bool, pick: Picker, ops: seq<Op>)
    ensures var e, d := Run(Empty(versioning), pick, ops), DurableRun(Empty(versioning), NOTHING, pick, ops);
            var t := Reopening(e);
            && t.history == d.history && t.sub == d.sub && t.hyper == d.hyper
            && t.node.next == e.node.next
            && (SafeRun(Empty(versioning), pick, ops) ==>
                  Live(t) == d && MapNamesPages(Loaded(t.store, NodeData), t.node.nodes, t.node.pageOf))
  {
    hide DurableOk, Run, DurableRun, SafeRun, Reopening, Empty;
    var e, d := Run(Empty(versioning), pick, ops), DurableRun(Empty(versioning), NOTHING, pick, ops);
    var own, ch := RunKept(versioning, pick, ops);
    var more := ReopenKept(e, d, own, ch);
    NextIsKept(e);
    if NodeData in ch {
      ReloadNamesPages(e, d, own, ch);
    }
  }

  lemma NextIsKept(e: State)
    ensures Reopening(e).node.next == e.node.next && Reopening(e).store == Closed(e.store, e.catalog)
  {
  }

  lemma ReloadNamesPages(e: State, d: Durable, own: Owners, ch: Chains)
    requires DurableOk(e, d, own, ch) && NodeData in ch
    ensures MapNamesPages(Loaded(Reopening(e).store, NodeData), Reopening(e).node.nodes, Reopening(e).node.pageOf)
  {
    hide Reopening, ChainStored, Covered, Owned, LogOf, TableOk, EdgesPart, LogsPart, MapNamesPages, Closed, Loaded;
    var more := ReopenKept(e, d, own, ch);
    var t := Reopening(e);
    NextIsKept(e);
    StoredClosed(e.store, own, ch, e.catalog);
    TableNamesPages(LogOf(t.store, ch, NodeData), d.nodes, t.node.nodes.Keys, t.node.pageOf, t.node.next);
  }

  // ---------------------------------------------------------------------------
  // When everything comes back
  // ---------------------------------------------------------------------------

  /** Whether all that an operation does reaches the pages: the records it writes fit, it deletes
      no node that has edges, and it takes away no member, subgraph or hyperedge. */
  predicate Plain(e: State, op: Op) {
    match op
    case CreateNode(labels, props) => FitsPage(NodeRec(NodeRecord(e.node.next, labels, props), false))
    case UpdateNode(id, _) =>
      id in e.node.nodes && e.versioning ==> FitsPage(VersionRec(id, V.NextSeq(e.history, id), e.node.nodes[id]))
    case DeleteNode(id) => Incident(e.edge.edges, id) == {}
    case CreateEdge(start, end, relType, props) =>
      start in e.node.nodes && end in e.node.nodes ==> FitsPage(EdgeRec(EdgeRecord(e.edge.next, start, end, relType, props), false))
    case CreateSubgraph(props, anchor) => FitsPage(SubRecord(S.Create(e.sub, anchor, props), e.sub.next))
    case AddMember(id, node) =>
      id in e.sub.subs && node in e.node.nodes ==>
        node in S.Members(e.sub, id) || FitsPage(SubRecord(S.AddMember(e.sub, id, node), id))
    case RemoveMember(id, node) => id in e.sub.subs ==> node !in S.Members(e.sub, id)
    case DeleteSubgraph(id) => id !in e.sub.subs
    case CreateHyperEdge(relType, sources, targets, props) =>
      FitsPage(HyperEdgeRec(HyperEdgeRecord(e.hyper.next, relType, sources, targets, props)))
    case DeleteHyperEdge(id) => id !in e.hyper.hypers
    case _ => true
  }

  predicate PlainRun(e: State, pick: Picker, ops: seq<Op>) {
    ops == [] || (PlainRun(e, pick, ops[..|ops| - 1]) && Plain(Run(e, pick, ops[..|ops| - 1]), ops[|ops| - 1]))
  }

  /** New ids are new. */
  ghost predicate FreshIds(e: State) {
    && e.node.next !in e.node.nodes && e.edge.next !in e.edge.edges && e.sub.next !in e.sub.subs && e.hyper.next !in e.hyper.hypers
    && (forall id | id in e.node.nodes :: e.node.nodes[id].id == id)
    && (forall id | id in e.edge.edges :: e.edge.edges[id].id == id)
  }

  lemma IdsAreFresh(e: State, d: Durable, own: Owners, ch: Chains)
    requires DurableOk(e, d, own, ch) && NodeData in ch && EdgeData in ch
    ensures FreshIds(e)
  {
    hide Stored, LogOf, TableOk, Mirrored, V.Replay, S.Replay, H.Replay, H.ReverseExact;
  }

  lemma PlainNodes(e: State, d: Durable, pick: Picker, op: Op)
    requires Live(e) == d && FreshIds(e)
    requires op.CreateNode? || op.UpdateNode? || op.DeleteNode?
    ensures Live(Step(e, pick, op)) == Kept(e, d, op) <==> Plain(e, op)
  {
    hide OnCreate, OnUpdate, OnDelete, Append, AppendPage, Rewrite, FitsPage;
    match op
    case CreateNode(labels, props) =>
    case UpdateNode(id, props) =>
      if id in e.node.nodes {
        V.LoadIsSnapshot(e.history, id, e.node.nodes[id]);
      }
    case DeleteNode(id) =>
      var gone := Incident(e.edge.edges, id);
      if gone != {} {
        var edge :| edge in gone;
        assert edge !in e.edge.edges - gone;
      } else {
        assert e.edge.edges - gone == e.edge.edges;
      }
  }

  lemma PlainEdges(e: State, d: Durable, pick: Picker, op: Op)
    requires Live(e) == d && FreshIds(e)
    requires op.CreateEdge? || op.UpdateEdge? || op.DeleteEdge?
    ensures Live(Step(e, pick, op)) == Kept(e, d, op) <==> Plain(e, op)
  {
    hide OnCreate, OnUpdate, OnDelete, Append, AppendPage, Rewrite, FitsPage;
  }

  predicate IsSubgraphOp(op: Op) {
    op.CreateSubgraph? || op.AddMember? || op.RemoveMember? || op.DeleteSubgraph?
  }

  /** Subgraph operations concern subgraphs only. */
  lemma OnlySubgraphs(e: State, d: Durable, pick: Picker, op: Op)
    requires IsSubgraphOp(op)
    ensures Live(Step(e, pick, op)) == Live(e).(sub := Step(e, pick, op).sub)
    ensures Kept(e, d, op) == d.(sub := Kept(e, d, op).sub)
  {
    hide Append, FitsPage, S.Load, S.Delete, S.RemoveMember, SubRecord;
  }

  lemma PlainCreation(e: State, d: Durable, pick: Picker, op: Op)
    requires e.sub == d.sub && S.Sound(e.sub) && op.CreateSubgraph?
    ensures Step(e, pick, op).sub == Kept(e, d, op).sub <==> Plain(e, op)
  {
    hide Append, FitsPage, S.Load;
    S.LoadRepeatsCreate(e.sub, op.anchor, op.props);
  }

  lemma PlainAddition(e: State, d: Durable, pick: Picker, op: Op)
    requires e.sub == d.sub && S.Sound(e.sub) && op.AddMember?
    ensures Step(e, pick, op).sub == Kept(e, d, op).sub <==> Plain(e, op)
  {
    hide Append, FitsPage, S.Load, Add, Mirrored;
    if op.id in e.sub.subs {
      S.LoadRepeatsAdd(e.sub, op.id, op.node);
      AddIsNew(e.sub.links, op.id, op.node);
    }
  }

  lemma PlainRemovals(e: State, d: Durable, pick: Picker, op: Op)
    requires e.sub == d.sub && S.Sound(e.sub)
    requires op.RemoveMember? || op.DeleteSubgraph?
    ensures Step(e, pick, op).sub == Kept(e, d, op).sub <==> Plain(e, op)
  {
    match op
    case RemoveMember(id, node) =>
      RemoveMirrored(e.sub.links, id, node);
      assert Linked(e.sub.links.forward, id, node) <==> node in S.Members(e.sub, id);
      hide Mirrored, Links.Remove;
      if !Linked(e.sub.links.forward, id, node) {
        RemoveNothing(e.sub.links, id, node);
      }
    case DeleteSubgraph(id) =>
      if id !in e.sub.subs {
        assert id !in e.sub.links.forward;
        assert e.sub.links.forward - {id} == e.sub.links.forward;
        assert e.sub.subs - {id} == e.sub.subs;
      }
      hide Mirrored;
  }

  lemma PlainSubgraphs(e: State, d: Durable, pick: Picker, op: Op)
    requires e.sub == d.sub && S.Sound(e.sub) && IsSubgraphOp(op)
    ensures Step(e, pick, op).sub == Kept(e, d, op).sub <==> Plain(e, op)
  {
    hide Step, Kept, Plain, S.Sound;
    if op.CreateSubgraph? {
      PlainCreation(e, d, pick, op);
    } else if op.AddMember? {
      PlainAddition(e, d, pick, op);
    } else {
      PlainRemovals(e, d, pick, op);
    }
  }

  lemma AddIsNew(l: TwoWay, owner: nat, member: nat)
    requires Mirrored(l)
    ensures Add(l, owner, member) == l <==> Linked(l.forward, owner, member)
  {
    assert Linked(l.forward, owner, member) <==> Linked(l.reverse, member, owner);
    hide Mirrored;
  }

  lemma RemoveNothing(l: TwoWay, owner: nat, member: nat)
    requires !Linked(l.forward, owner, member)
    ensures Links.Remove(l, owner, member) == l
  {
  }

  lemma PlainHyperEdges(e: State, d: Durable, pick: Picker, op: Op)
    requires Live(e) == d && FreshIds(e) && H.Sound(e.hyper)
    requires op.CreateHyperEdge? || op.DeleteHyperEdge?
    ensures Live(Step(e, pick, op)) == Kept(e, d, op) <==> Plain(e, op)
  {
    hide Append, FitsPage, AddMany, H.ReverseExact;
    if op.DeleteHyperEdge? && op.id !in e.hyper.hypers {
      assert e.hyper.links.forward - {op.id} == e.hyper.links.forward;
      assert e.hyper.hypers - {op.id} == e.hyper.hypers;
    }
  }

  /** From a state whose data is all on pages, one safe operation leads to another such state
      exactly when it is plain. */
  lemma StepRestores(e: State, d: Durable, own: Owners, ch: Chains, pick: Picker, op: Op)
    requires DurableOk(e, d, own, ch) && NodeData in ch && EdgeData in ch && Live(e) == d
    ensures Live(Step(e, pick, op)) == Kept(e, d, op) <==> Plain(e, op)
  {
    hide DurableOk, FreshIds, S.Sound, H.Sound, Live, Step, Kept, Plain;
    IdsAreFresh(e, d, own, ch);
    StoresSound(e, d, own, ch);
    if op.CreateNode? || op.UpdateNode? || op.DeleteNode? {
      PlainNodes(e, d, pick, op);
    } else if op.CreateEdge? || op.UpdateEdge? || op.DeleteEdge? {
      PlainEdges(e, d, pick, op);
    } else if IsSubgraphOp(op) {
      OnlySubgraphs(e, d, pick, op);
      LiveSub(e);
      LiveSub(Step(e, pick, op));
      PlainSubgraphs(e, d, pick, op);
    } else if op.CreateHyperEdge? || op.DeleteHyperEdge? {
      PlainHyperEdges(e, d, pick, op);
    } else {
      PlainOthers(e, d, own, ch, pick, op);
    }
  }

  lemma LiveSub(e: State)
    ensures Live(e).sub == e.sub
  {
  }

  lemma PlainOthers(e: State, d: Durable, own: Owners, ch: Chains, pick: Picker, op: Op)
    requires DurableOk(e, d, own, ch) && NodeData in ch && EdgeData in ch && Live(e) == d
    requires op.CreateNodeIndex? || op.CreateEdgeIndex? || op.DropIndex? || op.SetCatalog? || op.RunCheckpoint? || op.Reopen?
    ensures Live(Step(e, pick, op)) == Kept(e, d, op) && Plain(e, op)
  {
    hide DurableOk, Reopening, CreateIndex, Checkpoint;
    if op.Reopen? {
      var more := ReopenKept(e, d, own, ch);
    }
  }

  lemma {:induction false} PlainKeepsAll(versioning: bool, pick: Picker, ops: seq<Op>)
    requires SafeRun(Empty(versioning), pick, ops) && PlainRun(Empty(versioning), pick, ops)
    ensures Live(Run(Empty(versioning), pick, ops)) == DurableRun(Empty(versioning), NOTHING, pick, ops)
  {
    hide DurableOk, Step, Kept, SafeOp, Plain;
    if ops != [] {
      hide Empty;
      var front, last := ops[..|ops| - 1], ops[|ops| - 1];
      PlainKeepsAll(versioning, pick, front);
      var own, ch := RunKept(versioning, pick, front);
      StepRestores(Run(Empty(versioning), pick, front), DurableRun(Empty(versioning), NOTHING, pick, front), own, ch, pick, last);
    }
  }

  /** Reload restores the live data, all of it, after a plain run of safe rewrites, and one
      more safe operation keeps it so exactly when it is plain. */
  lemma ReloadRestoresExactly(versioning: bool, pick: Picker, ops: seq<Op>, op: Op)
    requires SafeRun(Empty(versioning), pick, ops) && PlainRun(Empty(versioning), pick, ops)
    requires SafeOp(Run(Empty(versioning), pick, ops), op)
    ensures var e := Run(Empty(versioning), pick, ops);
            && Live(Reopening(e)) == Live(e)
            && (Live(Reopening(Step(e, pick, op))) == Live(Step(e, pick, op)) <==> Plain(e, op))
  {
    hide DurableOk, Step, Kept, SafeOp, Plain, Run, DurableRun, SafeRun, PlainRun, Empty, Reopening, Live;
    var e, d := Run(Empty(versioning), pick, ops), DurableRun(Empty(versioning), NOTHING, pick, ops);
    PlainKeepsAll(versioning, pick, ops);
    var own, ch := RunKept(versioning, pick, ops);
    AllReloaded(e, d, own, ch);
    StepRestores(e, d, own, ch, pick, op);
    var more, ch' := StepKept(e, d, own, ch, pick, op);
    AllReloaded(Step(e, pick, op), Kept(e, d, op), more, ch');
  }

  lemma AllReloaded(e: State, d: Durable, own: Owners, ch: Chains)
    requires DurableOk(e, d, own, ch) && NodeData in ch && EdgeData in ch
    ensures Live(Reopening(e)) == d
  {
    hide DurableOk, Reopening;
    var more := ReopenKept(e, d, own, ch);
  }
}
