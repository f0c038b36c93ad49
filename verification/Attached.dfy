/** Edges and the nodes at their ends: what deleting a node takes along, and when an edge can
    point at a node that is gone. */
module Attached {
  import opened Indexes
  import opened Pages
  import opened Engine
  import opened Durability
  import opened Reload
  import opened IndexRuns
  import opened Sessions

  /** Every edge has both its ends among the nodes. */
  ghost predicate EdgesAttached(e: State) {
    forall x | x in e.edge.edges :: e.edge.edges[x].start in e.node.nodes && e.edge.edges[x].end in e.node.nodes
  }

  /** Deleting a node, or trying to, takes exactly the edges that start or end at it, and no
      other node; what is left is unchanged. */
  lemma DeleteTakes(e: State, pick: Picker, id: nat)
    requires id in e.node.nodes ==> e.node.nodes[id].id == id
    ensures var t := Step(e, pick, DeleteNode(id));
            && (forall x :: x in t.edge.edges <==> x in e.edge.edges && e.edge.edges[x].start != id && e.edge.edges[x].end != id)
            && (forall x | x in t.edge.edges :: t.edge.edges[x] == e.edge.edges[x])
            && (forall n :: n in t.node.nodes <==> n in e.node.nodes && n != id)
            && (forall n | n in t.node.nodes :: t.node.nodes[n] == e.node.nodes[n])
  {
    hide OnDelete, Append, AppendPage, Rewrite;
  }

  lemma NodeStepKeeps(e: State, pick: Picker, op: Op)
    requires op.CreateNode? || op.UpdateNode?
    requires forall id | id in e.node.nodes :: e.node.nodes[id].id == id
    ensures var t := Step(e, pick, op);
            t.edge.edges == e.edge.edges && forall n | n in e.node.nodes :: n in t.node.nodes
  {
    hide OnCreate, OnUpdate, Append, AppendPage, Rewrite;
  }

  lemma EdgeStepKeeps(e: State, pick: Picker, op: Op)
    requires EdgesAttached(e) && (op.CreateEdge? || op.UpdateEdge? || op.DeleteEdge?)
    ensures EdgesAttached(Step(e, pick, op))
  {
    hide OnCreate, OnUpdate, OnDelete, Append, AppendPage, Rewrite;
  }

  lemma OtherStepKeeps(e: State, pick: Picker, op: Op)
    requires !op.CreateNode? && !op.UpdateNode? && !op.DeleteNode? && !op.CreateEdge? && !op.UpdateEdge? && !op.DeleteEdge?
    requires !op.Reopen?
    ensures Step(e, pick, op).edge.edges == e.edge.edges && Step(e, pick, op).node.nodes == e.node.nodes
  {
    hide Append, AppendPage, CreateIndex, Checkpoint, SubRecord;
  }

  /** No operation other than closing and opening detaches an edge. */
  lemma StepAttached(e: State, pick: Picker, op: Op)
    requires EdgesAttached(e) && !op.Reopen?
    requires forall id | id in e.node.nodes :: e.node.nodes[id].id == id
    ensures EdgesAttached(Step(e, pick, op))
  {
    hide Step;
    if op.DeleteNode? {
      DeleteTakes(e, pick, op.id);
    } else if op.CreateNode? || op.UpdateNode? {
      NodeStepKeeps(e, pick, op);
    } else if op.CreateEdge? || op.UpdateEdge? || op.DeleteEdge? {
      EdgeStepKeeps(e, pick, op);
    } else {
      OtherStepKeeps(e, pick, op);
    }
  }

  /** In every session that starts with its edges attached, a new database included, they stay
      attached. */
  lemma {:induction false} SessionAttached(e: State, pick: Picker, ops: seq<Op>)
    requires Bounded(e) && EdgesAttached(e) && Session(ops)
    ensures Bounded(Run(e, pick, ops)) && EdgesAttached(Run(e, pick, ops))
  {
    hide Step, EdgesAttached, StoreBelow;
    if ops != [] {
      var front, last := ops[..|ops| - 1], ops[|ops| - 1];
      SessionAttached(e, pick, front);
      StepBounded(Run(e, pick, front), pick, last);
      StepAttached(Run(e, pick, front), pick, last);
    }
  }

  lemma NewIsAttached(versioning: bool)
    ensures Bounded(Empty(versioning)) && EdgesAttached(Empty(versioning))
  {
    EmptyBounded(versioning);
  }

  /** So they do over plain runs of safe rewrites, closing and opening included. */
  lemma {:induction false} PlainRunAttached(versioning: bool, pick: Picker, ops: seq<Op>)
    requires SafeRun(Empty(versioning), pick, ops) && PlainRun(Empty(versioning), pick, ops)
    ensures Bounded(Run(Empty(versioning), pick, ops)) && EdgesAttached(Run(Empty(versioning), pick, ops))
  {
    hide Step, StoreBelow, SafeOp, Plain, EdgesAttached;
    if ops == [] {
      NewIsAttached(versioning);
    } else {
      hide Empty;
      var front, last := ops[..|ops| - 1], ops[|ops| - 1];
      var e := Run(Empty(versioning), pick, front);
      PlainRunAttached(versioning, pick, front);
      StepBounded(e, pick, last);
      if last.Reopen? {
        ReloadRestoresExactly(versioning, pick, front, last);
        ReopenIs(e, pick, last);
        SameAttached(e, Reopening(e));
      } else {
        StepAttached(e, pick, last);
      }
    }
  }

  lemma ReopenIs(e: State, pick: Picker, op: Op)
    requires op.Reopen?
    ensures Step(e, pick, op) == Reopening(e)
  {
    hide Reopening;
  }

  lemma SameAttached(e: State, t: State)
    requires EdgesAttached(e) && Live(t) == Live(e)
    ensures EdgesAttached(t)
  {
  }

  /** Deleting a node that has edges and then closing and opening brings the edges back without
      the node: after a plain run, the edges are attached again exactly when the node had none. */
  lemma DeletedEdgesReturn(versioning: bool, pick: Picker, ops: seq<Op>, id: nat)
    requires SafeRun(Empty(versioning), pick, ops) && PlainRun(Empty(versioning), pick, ops)
    requires SafeOp(Run(Empty(versioning), pick, ops), DeleteNode(id))
    ensures var e := Run(Empty(versioning), pick, ops);
            var t := Reopening(Step(e, pick, DeleteNode(id)));
            && t.edge.edges == e.edge.edges && t.node.nodes == e.node.nodes - {id}
            && (EdgesAttached(t) <==> forall x | x in e.edge.edges :: e.edge.edges[x].start != id && e.edge.edges[x].end != id)
  {
    hide DurableOk, Run, DurableRun, SafeRun, PlainRun, Empty, SafeOp, Reopening, Step;
    var e, d, op := Run(Empty(versioning), pick, ops), DurableRun(Empty(versioning), NOTHING, pick, ops), DeleteNode(id);
    PlainKeepsAll(versioning, pick, ops);
    PlainRunAttached(versioning, pick, ops);
    var own, ch := RunKept(versioning, pick, ops);
    var more, ch' := StepKept(e, d, own, ch, pick, op);
    AllReloaded(Step(e, pick, op), Kept(e, d, op), more, ch');
    assert id !in e.node.nodes ==> e.node.nodes - {id} == e.node.nodes;
  }
}
