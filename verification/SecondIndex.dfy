/** Why one index per pair: a second index on a pair breaks queries, and nothing less does. */
module SecondIndex {
  import opened Wrappers
  import opened Graph
  import opened Indexes
  import opened IndexProofs
  import opened Pages
  import opened Engine
  import opened IndexRuns

  /** A query finds the nodes sought. */
  ghost predicate Answers(e: State, pick: Picker, tag: nat, key: nat, v: Value) {
    Ids(FindNodes(e, pick, tag, key, v)) == NodesSought(e, tag, key, v)
  }

  /** Whatever the session goes on to do, keeping to one new index per free pair, node
      queries stay exact. */
  ghost predicate StaysExact(e: State, pick: Picker) {
    forall ops, tag, key, v :: Session(ops) && OnePerPair(e, pick, ops) ==> Answers(Run(e, pick, ops), pick, tag, key, v)
  }

  // ---------------------------------------------------------------------------
  // Maintenance when a pair has several indexes
  // ---------------------------------------------------------------------------

  lemma InsertAtElsewhere(m: Manager, pick: Picker, tag: nat, key: nat, v: Value, id: nat)
    requires ValidPicker(pick)
    ensures var n := InsertAt(m, pick, tag, key, v, id);
            && SameShape(m, n)
            && forall name | name in m ::
                 (Find(m, pick, tag, key) != Some(name) ==> n[name] == m[name])
                 && forall w, j | j != id :: Has(n[name], w, j) <==> Has(m[name], w, j)
  {
    var found := Find(m, pick, tag, key);
    if found.Some? {
      var names := Matching(m, tag, key);
      assert pick(m.Keys, names) in names;
      InsertHas(m[found.value], v, id);
      hide Has, Insert, Matching;
    }
  }

  lemma {:induction false} BackfillPropsElsewhere(m: Manager, pick: Picker, tag: nat, key: nat, props: Props, id: nat)
    requires ValidPicker(pick)
    ensures var n := BackfillProps(m, pick, tag, key, props, id);
            SameShape(m, n) && forall name, w, j | name in m && j != id :: Has(n[name], w, j) <==> Has(m[name], w, j)
  {
    hide Has, InsertAt, Find;
    if props != [] {
      var front, last := props[..|props| - 1], props[|props| - 1];
      BackfillPropsElsewhere(m, pick, tag, key, front, id);
      InsertAtElsewhere(BackfillProps(m, pick, tag, key, front, id), pick, tag, key, last.1, id);
    }
  }

  /** A backfill concerns only the ids it goes through. */
  lemma {:induction false} BackfillElsewhere(m: Manager, pick: Picker, tag: nat, key: nat, ents: Entities, ids: seq<nat>, id: nat)
    requires ValidPicker(pick) && id !in ids
    ensures var n := BackfillAll(m, pick, tag, key, ents, ids);
            SameShape(m, n) && forall name, w | name in m :: Has(n[name], w, id) <==> Has(m[name], w, id)
  {
    hide Has, BackfillProps;
    if ids != [] {
      var front, last := ids[..|ids| - 1], ids[|ids| - 1];
      assert last in ids && (forall j | j in front :: j in ids);
      BackfillElsewhere(m, pick, tag, key, ents, front, id);
      if last in ents {
        BackfillPropsElsewhere(BackfillAll(m, pick, tag, key, ents, front), pick, tag, key, ents[last].props, last);
      }
    }
  }

  // ---------------------------------------------------------------------------
  // The continuation that breaks a query
  // ---------------------------------------------------------------------------

  /** The managers of the story: a second index on the pair, then a node that only one of the
      two gets to see, then that one dropped. */
  function Second(m: Manager, pick: Picker, name: string, tag: nat, key: nat, ents: Entities, next: nat): Manager {
    BackfillAll(m[name := Index(tag, key, map[])], pick, tag, key, ents, ScanTag(ents, tag, next))
  }

  /** With two indexes on the pair, the new id goes into the picked one only. */
  lemma OnlyPickedSees(m: Manager, pick: Picker, name: string, tag: nat, key: nat, ents: Entities, next: nat, other: string)
    requires ValidPicker(pick) && AllExact(m, ents, {}) && name !in m
    requires forall id | id in ents :: id < next
    requires other in m && m[other].tag == tag && m[other].key == key
    ensures var two := Second(m, pick, name, tag, key, ents, next);
            && SameShape(m[name := Index(tag, key, map[])], two) && Matching(two, tag, key) == {name, other}
            && forall w :: !Has(two[name], w, next) && !Has(two[other], w, next)
  {
    var base := m[name := Index(tag, key, map[])];
    ScanTagIds(ents, tag, next);
    BackfillElsewhere(base, pick, tag, key, ents, ScanTag(ents, tag, next), next);
    var two := Second(m, pick, name, tag, key, ents, next);
    assert Exact(m[other], ents, {});
    hide BackfillAll, ScanTag;
    assert forall n | n in Matching(two, tag, key) :: n == name || n == other;
    assert name in Matching(two, tag, key) && other in Matching(two, tag, key);
  }

  lemma NewNodeMissed(two: Manager, pick: Picker, tag: nat, key: nat, id: nat, a: string, b: string)
    requires ValidPicker(pick) && a != b && Matching(two, tag, key) == {a, b}
    requires forall w :: !Has(two[a], w, id) && !Has(two[b], w, id)
    ensures var picked := pick(two.Keys, {a, b});
            var n := OnCreate(two, pick, [tag], [(key, NullVal)], id) - {picked};
            && picked in {a, b}
            && Find(two, pick, tag, key) == Some(picked)
            && forall ents, next :: id !in ScanByProperty(n, pick, ents, next, tag, key, NullVal)
  {
    var picked := pick(two.Keys, {a, b});
    var left := if picked == a then b else a;
    assert picked in {a, b};
    assert a in Matching(two, tag, key) && b in Matching(two, tag, key);
    InsertAtElsewhere(two, pick, tag, key, NullVal, id);
    OnCreateOne(two, pick, tag, key, id);
    var m := OnCreate(two, pick, [tag], [(key, NullVal)], id);
    var n := m - {picked};
    hide OnCreate, InsertAt;
    assert m[left] == two[left] && left in n;
    assert Matching(n, tag, key) == {left} by {
      assert forall x | x in n :: x in two && n[x].tag == two[x].tag && n[x].key == two[x].key;
      assert forall x | x in Matching(n, tag, key) :: x in Matching(two, tag, key) && x != picked;
      assert left in Matching(n, tag, key);
    }
    assert pick(n.Keys, {left}) in {left};
    assert !Has(n[left], NullVal, id);
  }

  lemma OnCreateOne(m: Manager, pick: Picker, tag: nat, key: nat, id: nat)
    ensures OnCreate(m, pick, [tag], [(key, NullVal)], id) == InsertAt(m, pick, tag, key, NullVal, id)
  {
    hide InsertAt;
    assert [tag][..0] == [] && [(key, NullVal)][..0] == [];
    assert InsertProps(m, pick, tag, [(key, NullVal)], id) == InsertAt(InsertProps(m, pick, tag, [], id), pick, tag, key, NullVal, id);
  }

  /** The session that shows the break. */
  function Breaking(e: State, pick: Picker, tag: nat, key: nat): seq<Op> {
    [CreateNode([tag], [(key, NullVal)]), DropIndex(pick(e.node.index.Keys, Matching(e.node.index, tag, key)))]
  }

  lemma SecondBreaks(e: State, pick: Picker, name: string, tag: nat, key: nat)
    requires NodeIndexOk(e.node) && ValidPicker(pick) && name !in e.node.index && Matching(e.node.index, tag, key) != {}
    ensures var two := Step(e, pick, CreateNodeIndex(name, tag, key));
            && Session(Breaking(two, pick, tag, key)) && OnePerPair(two, pick, Breaking(two, pick, tag, key))
            && !Answers(Run(two, pick, Breaking(two, pick, tag, key)), pick, tag, key, NullVal)
  {
    var ents, next := NodeEntities(e.node.nodes), e.node.next;
    var other :| other in Matching(e.node.index, tag, key);
    var two := Step(e, pick, CreateNodeIndex(name, tag, key));
    assert two.node == e.node.(index := Second(e.node.index, pick, name, tag, key, ents, next));
    OnlyPickedSees(e.node.index, pick, name, tag, key, ents, next, other);
    NewNodeMissed(two.node.index, pick, tag, key, next, name, other);
    var ops := Breaking(two, pick, tag, key);
    BreakingRun(two, pick, tag, key);
    hide Second, AllExact, OnCreate, Append, Step, Run, FindNodes;
    var end := Run(two, pick, ops);
    assert next in NodesWith(end, tag, key, NullVal) by {
      assert (key, NullVal) in [(key, NullVal)] && tag in [tag];
    }
    assert next !in Ids(FindNodes(end, pick, tag, key, NullVal)) by {
      FindIs(end, pick, tag, key);
    }
  }

  lemma FindIs(e: State, pick: Picker, tag: nat, key: nat)
    ensures FindNodes(e, pick, tag, key, NullVal) == ScanByProperty(e.node.index, pick, NodeEntities(e.node.nodes), e.node.next, tag, key, NullVal)
  {
  }

  lemma BreakingRun(e: State, pick: Picker, tag: nat, key: nat)
    requires ValidPicker(pick) && Matching(e.node.index, tag, key) != {}
    ensures var ops := Breaking(e, pick, tag, key);
            var end := Run(e, pick, ops);
            && Session(ops) && OnePerPair(e, pick, ops)
            && end.node.index == OnCreate(e.node.index, pick, [tag], [(key, NullVal)], e.node.next)
                                 - {pick(e.node.index.Keys, Matching(e.node.index, tag, key))}
            && end.node.nodes == e.node.nodes[e.node.next := NodeRecord(e.node.next, [tag], [(key, NullVal)])]
  {
    var ops := Breaking(e, pick, tag, key);
    var picked := pick(e.node.index.Keys, Matching(e.node.index, tag, key));
    assert ops[..1] == [ops[0]] && [ops[0]][..0] == [];
    assert Run(e, pick, []) == e && OnePerPair(e, pick, []);
    assert Run(e, pick, [ops[0]]) == Step(e, pick, ops[0]) && OnePerPair(e, pick, [ops[0]]);
    OnCreateOne(e.node.index, pick, tag, key, e.node.next);
    InsertAtElsewhere(e.node.index, pick, tag, key, NullVal, e.node.next);
    assert picked in Matching(e.node.index, tag, key);
    hide Append, AppendPage, OnCreate, InsertAt, Matching;
    assert Run(e, pick, ops) == Step(Step(e, pick, ops[0]), pick, ops[1]);
  }

  /** After CREATE INDEX under a new name, node queries stay exact whatever follows if and
      only if the pair had no index before. */
  lemma OneIndexPerPairExactly(e: State, stale: set<nat>, pick: Picker, name: string, tag: nat, key: nat)
    requires IndexOk(e, stale) && ValidPicker(pick) && name !in e.node.index
    ensures StaysExact(Step(e, pick, CreateNodeIndex(name, tag, key)), pick) <==> Matching(e.node.index, tag, key) == {}
  {
    var op := CreateNodeIndex(name, tag, key);
    var t := Step(e, pick, op);
    if Matching(e.node.index, tag, key) == {} {
      StepIndexed(e, stale, pick, op);
      hide Step, Run, IndexOk, NodesWith, FindNodes, Session, OnePerPair, ForgottenBy;
      forall ops, tag, key, v | Session(ops) && OnePerPair(t, pick, ops)
        ensures Answers(Run(t, pick, ops), pick, tag, key, v)
      {
        RunIndexed(t, stale + Forgotten(e, op), pick, ops);
        NodeQueryExact(Run(t, pick, ops), stale + Forgotten(e, op) + ForgottenBy(t, pick, ops), pick, tag, key, v);
      }
    } else {
      SecondBreaks(e, pick, name, tag, key);
    }
  }
}
