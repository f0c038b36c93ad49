/** Two equalities: an index finds a value by its key order, the linear scan by `==`. On
    floating point they differ, and so may the answers. */
module ValueEquality {
  import opened Graph
  import opened Ordering
  import opened Indexes
  import opened IndexProofs
  import opened Pages
  import opened Engine
  import opened IndexRuns

  /** The query finds what the linear scan finds. */
  ghost predicate AnswersAsScan(e: State, pick: Picker, tag: nat, key: nat, v: Value) {
    Ids(FindNodes(e, pick, tag, key, v)) == Ids(LinearScan(NodeEntities(e.node.nodes), tag, key, v, e.node.next))
  }

  /** In every session with one index per pair. */
  ghost predicate AlwaysAsScan(e: State, pick: Picker, tag: nat, key: nat, v: Value) {
    forall ops :: Session(ops) && OnePerPair(e, pick, ops) ==> AnswersAsScan(Run(e, pick, ops), pick, tag, key, v)
  }

  /** A session that may show the difference: an index, and a node with a value that the two
      equalities tell apart from the one sought. */
  function Telling(tag: nat, key: nat, v: Value): seq<Op> {
    [CreateNodeIndex("i", tag, key), CreateNode([tag], [(key, Confused(v))])]
  }

  lemma TellingRun(e: State, pick: Picker, tag: nat, key: nat, v: Value)
    requires JustOpened(e) && ValidPicker(pick)
    ensures var t := Run(e, pick, Telling(tag, key, v));
            && Session(Telling(tag, key, v)) && OnePerPair(e, pick, Telling(tag, key, v))
            && Matching(t.node.index, tag, key) != {}
            && e.node.next in t.node.nodes && t.node.nodes[e.node.next] == NodeRecord(e.node.next, [tag], [(key, Confused(v))])
  {
    var ops := Telling(tag, key, v);
    assert Run(e, pick, []) == e && OnePerPair(e, pick, []);
    hide Append, AppendPage, OnCreate, CreateIndex, JustOpened, Run, OnePerPair, Matching, Confused, ForgottenBy;
    OneMoreFree(e, pick, [], ops[0]);
    OneMoreFree(e, pick, [ops[0]], ops[1]);
    assert [] + [ops[0]] == [ops[0]] && [ops[0]] + [ops[1]] == ops;
    NoNodeIndexAtOpen(e, tag, key);
    var a := Run(e, pick, [ops[0]]);
    NewNodeIndex(e, pick, "i", tag, key);
    OnCreateHas(a.node.index, pick, [tag], [(key, Confused(v))], e.node.next);
    SameMatching(a.node.index, Run(e, pick, ops).node.index, tag, key);
  }

  lemma NoNodeIndexAtOpen(e: State, tag: nat, key: nat)
    requires JustOpened(e)
    ensures Matching(e.node.index, tag, key) == {} && forall name :: name !in e.node.index
    ensures forall id | id in e.node.nodes :: id < e.node.next
  {
    assert forall name :: name !in e.node.index;
  }

  lemma NewNodeIndex(e: State, pick: Picker, name: string, tag: nat, key: nat)
    requires ValidPicker(pick) && forall other :: other !in e.node.index
    requires forall id | id in e.node.nodes :: id < e.node.next
    ensures var t := Step(e, pick, CreateNodeIndex(name, tag, key));
            && t == e.(node := e.node.(index := t.node.index)) && UniquePairs(t.node.index)
            && Matching(t.node.index, tag, key) != {}
  {
    var ents := NodeEntities(e.node.nodes);
    assert Matching(e.node.index, tag, key) == {};
    CreateIndexHas(e.node.index, pick, name, tag, key, ents, e.node.next);
    var n := CreateIndex(e.node.index, pick, name, tag, key, ents, e.node.next).value;
    hide CreateIndex, Has, Exact, NodeEntities;
    assert name in Matching(n, tag, key);
    NameTaken(e.node.index, pick, name, tag, key, ents, e.node.next);
  }

  /** The new node is one the index finds and the scan does not, or the other way round. */
  lemma TellingTells(e: State, pick: Picker, tag: nat, key: nat, v: Value)
    requires JustOpened(e) && ValidPicker(pick) && !Definite(v)
    ensures Session(Telling(tag, key, v)) && OnePerPair(e, pick, Telling(tag, key, v))
    ensures !AnswersAsScan(Run(e, pick, Telling(tag, key, v)), pick, tag, key, v)
  {
    var ops, w := Telling(tag, key, v), Confused(v);
    var t := Run(e, pick, ops);
    TellingRun(e, pick, tag, key, v);
    SameExactly(v);
    hide Run, OnePerPair, JustOpened, Telling, Confused, Matching, FindNodes, LinearScan, NodeEntities, Same, Definite;
    assert e.node.next in NodesWith(t, tag, key, v) <==> w == v by {
      assert tag in [tag] && ((key, v) in [(key, w)] <==> w == v);
    }
    assert e.node.next in NodesEqual(t, tag, key, v) <==> Same(w, v) by {
      assert tag in [tag] && [(key, w)][0] == (key, w);
    }
    NodeIndexIsScan(e, pick, ops, tag, key, v, NullVal, NullVal);
  }

  /** Indexed queries for a value answer as the linear scan in every session exactly when there
      is no NaN and no zero of floating point in the value. */
  lemma AsScanExactly(e: State, pick: Picker, tag: nat, key: nat, v: Value)
    requires JustOpened(e) && ValidPicker(pick)
    ensures AlwaysAsScan(e, pick, tag, key, v) <==> Definite(v)
  {
    hide JustOpened, Run, OnePerPair, Session, AnswersAsScan, Telling, Definite;
    if Definite(v) {
      forall ops | Session(ops) && OnePerPair(e, pick, ops)
        ensures AnswersAsScan(Run(e, pick, ops), pick, tag, key, v)
      {
        SessionAsScan(e, pick, ops, tag, key, v);
      }
    } else {
      TellingTells(e, pick, tag, key, v);
    }
  }

  lemma SessionAsScan(e: State, pick: Picker, ops: seq<Op>, tag: nat, key: nat, v: Value)
    requires JustOpened(e) && ValidPicker(pick) && Session(ops) && OnePerPair(e, pick, ops) && Definite(v)
    ensures AnswersAsScan(Run(e, pick, ops), pick, tag, key, v)
  {
    hide JustOpened, Run, OnePerPair, Session, Definite, FindNodes, LinearScan, NodeEntities, NodesWith, NodesEqual, Matching;
    NodeIndexIsScan(e, pick, ops, tag, key, v, NullVal, NullVal);
  }
}
