/** What range queries answer, with the order of values written out. */
module RangeQueries {
  import opened Wrappers
  import opened Graph
  import opened Ordering
  import opened ValueOrder
  import opened Indexes
  import opened IndexProofs
  import opened Engine
  import opened IndexRuns

  /** Some value under the key is not earlier than `min` and not later than `max`. */
  ghost predicate HasWithin(props: Props, key: nat, min: Value, max: Value) {
    exists i | 0 <= i < |props| :: props[i].0 == key && !Earlier(props[i].1, min) && !Earlier(max, props[i].1)
  }

  lemma MatchesWithin(prop: (nat, Value), key: nat, min: Value, max: Value)
    ensures Matches(prop, key, min, max) <==> prop.0 == key && !Earlier(prop.1, min) && !Earlier(max, prop.1)
  {
    hide Compare, Earlier;
    CompareIsEarlier(prop.1, min);
    CompareIsEarlier(max, prop.1);
    CompareOrder(prop.1, max, max);
  }

  lemma InRangeWithin(e: Indexed, tag: nat, key: nat, min: Value, max: Value)
    ensures InRange(e, tag, key, min, max) <==> tag in e.tags && HasWithin(e.props, key, min, max)
  {
    hide Matches, Earlier;
    forall i | 0 <= i < |e.props|
      ensures Matches(e.props[i], key, min, max) <==>
              e.props[i].0 == key && !Earlier(e.props[i].1, min) && !Earlier(max, e.props[i].1)
    {
      MatchesWithin(e.props[i], key, min, max);
    }
  }

  /** In every session with one index per pair a range query finds exactly the nodes with the
      label and a value within the range; an upside-down range panics where there is an index,
      and otherwise finds nothing else either. */
  lemma RangeAnswer(e: State, pick: Picker, ops: seq<Op>, tag: nat, key: nat, min: Value, max: Value)
    requires JustOpened(e) && ValidPicker(pick) && Session(ops) && OnePerPair(e, pick, ops)
    ensures var t := Run(e, pick, ops);
            var answer := FindNodesInRange(t, pick, tag, key, min, max);
            && (answer == None <==> Earlier(max, min) && Matching(t.node.index, tag, key) != {})
            && (answer.Some? ==>
                  forall id :: id in answer.value <==>
                    id in t.node.nodes && tag in t.node.nodes[id].labels && HasWithin(t.node.nodes[id].props, key, min, max))
  {
    var t := Run(e, pick, ops);
    hide JustOpened, Run, OnePerPair, Session, FindNodes, NodesWith, NodesEqual, Matching, HasWithin, Earlier, Compare, Definite,
         InRange, LinearScan, NodesSought, AllExact;
    NodeIndexIsScan(e, pick, ops, tag, key, NullVal, min, max);
    OpenedIndexOk(e);
    RunIndexed(e, {}, pick, ops);
    CompareOrder(min, max, max);
    CompareIsEarlier(max, min);
    forall id | id in t.node.nodes
      ensures InRange(NodeEntities(t.node.nodes)[id], tag, key, min, max) <==>
              tag in t.node.nodes[id].labels && HasWithin(t.node.nodes[id].props, key, min, max)
    {
      InRangeWithin(NodeEntities(t.node.nodes)[id], tag, key, min, max);
    }
    UpsideDown(t, pick, tag, key, min, max);
  }

  lemma UpsideDown(e: State, pick: Picker, tag: nat, key: nat, min: Value, max: Value)
    requires IndexOkNodes(e) && ValidPicker(pick)
    ensures FindNodesInRange(e, pick, tag, key, min, max) == None <==> Compare(min, max) > 0 && Matching(e.node.index, tag, key) != {}
  {
    hide Compare, LinearRange, Range;
    FindUnique(e.node.index, pick, tag, key);
  }

  ghost predicate IndexOkNodes(e: State) {
    NodeIndexOk(e.node)
  }

  /** Between integers: the nodes with the label and an integer under the key from `min` to
      `max`. */
  lemma IntegerRange(e: State, pick: Picker, ops: seq<Op>, tag: nat, key: nat, min: int, max: int)
    requires JustOpened(e) && ValidPicker(pick) && Session(ops) && OnePerPair(e, pick, ops) && min <= max
    ensures var t := Run(e, pick, ops);
            FindNodesInRange(t, pick, tag, key, IntVal(min), IntVal(max)) ==
            Some(set id | id in t.node.nodes && tag in t.node.nodes[id].labels
                          && exists n :: min <= n <= max && (key, IntVal(n)) in t.node.nodes[id].props)
  {
    hide JustOpened, Run, OnePerPair, Session, FindNodesInRange, Matching, HasWithin;
    RangeAnswer(e, pick, ops, tag, key, IntVal(min), IntVal(max));
    forall props
      ensures HasWithin(props, key, IntVal(min), IntVal(max)) <==> exists n :: min <= n <= max && (key, IntVal(n)) in props
    {
      IntegersWithin(props, key, min, max);
    }
    var t := Run(e, pick, ops);
    var answer := FindNodesInRange(t, pick, tag, key, IntVal(min), IntVal(max));
    assert !Earlier(IntVal(max), IntVal(min));
    assert answer.Some?;
    assert forall id | id in answer.value :: exists n :: min <= n <= max && (key, IntVal(n)) in t.node.nodes[id].props;
    assert answer.value == set id | id in t.node.nodes && tag in t.node.nodes[id].labels
                                    && exists n :: min <= n <= max && (key, IntVal(n)) in t.node.nodes[id].props;
  }

  lemma IntegersWithin(props: Props, key: nat, min: int, max: int)
    requires min <= max
    ensures HasWithin(props, key, IntVal(min), IntVal(max)) <==> exists n :: min <= n <= max && (key, IntVal(n)) in props
  {
    if i :| 0 <= i < |props| && props[i].0 == key && !Earlier(props[i].1, IntVal(min)) && !Earlier(IntVal(max), props[i].1) {
      assert props[i].1.IntVal? && props[i] == (key, IntVal(props[i].1.n));
    }
    if n :| min <= n <= max && (key, IntVal(n)) in props {
      var i :| 0 <= i < |props| && props[i] == (key, IntVal(n));
      assert props[i].0 == key && !Earlier(props[i].1, IntVal(min)) && !Earlier(IntVal(max), props[i].1);
    }
  }
}
