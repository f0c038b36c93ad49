/** Version history over whole runs, and property reads at a point in time. */
module Temporal {
  import opened Wrappers
  import opened Graph
  import opened Indexes
  import opened Pages
  import opened PageChains
  import opened StoredLogs
  import opened Engine
  import opened Durability
  import opened DurableSteps
  import opened Reload
  import Tables
  import V = Versions

  // ---------------------------------------------------------------------------
  // History is complete
  // ---------------------------------------------------------------------------

  /** The states of a node before each of its successful updates. */
  function Earlier(e: State, pick: Picker, ops: seq<Op>, id: nat): seq<NodeRecord> {
    if ops == [] then []
    else
      var t, last := Run(e, pick, ops[..|ops| - 1]), ops[|ops| - 1];
      Earlier(e, pick, ops[..|ops| - 1], id) +
      if last.UpdateNode? && last.id == id && id in t.node.nodes then [t.node.nodes[id]] else []
  }

  /** The snapshot an update writes fits a page. */
  predicate VersionFits(e: State, op: Op) {
    op.UpdateNode? && op.id in e.node.nodes && e.versioning ==>
      FitsPage(VersionRec(op.id, V.NextSeq(e.history, op.id), e.node.nodes[op.id]))
  }

  predicate VersionsFit(e: State, pick: Picker, ops: seq<Op>) {
    ops == [] || (VersionsFit(e, pick, ops[..|ops| - 1]) && VersionFits(Run(e, pick, ops[..|ops| - 1]), ops[|ops| - 1]))
  }

  /** At every reopening of the run, all snapshots taken before it fitted. */
  predicate HistoryLasts(e: State, pick: Picker, ops: seq<Op>) {
    ops == [] || (HistoryLasts(e, pick, ops[..|ops| - 1]) && (ops[|ops| - 1].Reopen? ==> VersionsFit(e, pick, ops[..|ops| - 1])))
  }

  lemma StepHistory(e: State, pick: Picker, op: Op)
    requires !op.Reopen?
    requires forall id | id in e.node.nodes :: e.node.nodes[id].id == id
    ensures Step(e, pick, op).versioning == e.versioning
    ensures Step(e, pick, op).history ==
            if op.UpdateNode? && op.id in e.node.nodes && e.versioning then V.Snapshot(e.history, op.id, e.node.nodes[op.id])
            else e.history
  {
    hide Append, AppendPage, Rewrite, Checkpoint, OnCreate, OnUpdate, OnDelete, CreateIndex, V.Snapshot, SubRecord, Incident;
  }

  /** An operation leaves the history on pages in step with the live one exactly when its
      snapshot, if any, fits. */
  lemma KeptHistory(e: State, d: Durable, pick: Picker, op: Op)
    requires forall id | id in e.node.nodes :: e.node.nodes[id].id == id
    requires d.history == e.history && !op.Reopen?
    ensures Kept(e, d, op).history == Step(e, pick, op).history <==> VersionFits(e, op)
  {
    hide FitsPage, SubRecord, V.Load, V.Snapshot, V.NextSeq, Step;
    StepHistory(e, pick, op);
    if op.UpdateNode? && op.id in e.node.nodes {
      V.LoadIsSnapshot(e.history, op.id, e.node.nodes[op.id]);
      SnapshotIsNew(e.history, op.id, e.node.nodes[op.id]);
    }
  }

  lemma SnapshotIsNew(h: V.History, entity: nat, state: NodeRecord)
    ensures V.Snapshot(h, entity, state) != h
  {
    assert V.NextSeq(V.Snapshot(h, entity, state), entity) == V.NextSeq(h, entity) + 1;
  }

  lemma NodeIds(e: State, d: Durable, own: Owners, ch: Chains)
    requires DurableOk(e, d, own, ch)
    ensures forall id | id in e.node.nodes :: e.node.nodes[id].id == id
  {
    hide Stored, LogOf, LogsPart, EdgesPart, Tables.TableOk;
  }

  /** While all snapshots fit, the history on pages is the live one. */
  lemma {:induction false} HistoryKept(versioning: bool, pick: Picker, ops: seq<Op>)
    requires VersionsFit(Empty(versioning), pick, ops)
    ensures Run(Empty(versioning), pick, ops).history == DurableRun(Empty(versioning), NOTHING, pick, ops).history
  {
    hide DurableOk, Step, Kept, VersionFits, Reopening;
    if ops != [] {
      hide Empty;
      var front, last := ops[..|ops| - 1], ops[|ops| - 1];
      HistoryKept(versioning, pick, front);
      var e, d := Run(Empty(versioning), pick, front), DurableRun(Empty(versioning), NOTHING, pick, front);
      var own, ch := RunKept(versioning, pick, front);
      if last.Reopen? {
        var more := ReopenKept(e, d, own, ch);
        ReopenStep(e, d, pick, last);
      } else {
        NodeIds(e, d, own, ch);
        KeptHistory(e, d, pick, last);
      }
    }
  }

  /** Closing and opening after a run in which all snapshots fitted rebuilds the history of
      every node; and after one more operation it does so exactly when that one's snapshot, if
      it takes one, fits. */
  lemma HistorySurvivesExactly(versioning: bool, pick: Picker, ops: seq<Op>, op: Op)
    requires VersionsFit(Empty(versioning), pick, ops)
    ensures var e := Run(Empty(versioning), pick, ops);
            var t := Step(e, pick, op);
            && Reopening(e).history == e.history
            && (Reopening(t).history == t.history <==> VersionFits(e, op))
  {
    hide DurableOk, Step, Kept, Run, DurableRun, VersionsFit, Empty, Reopening, VersionFits;
    HistoryKept(versioning, pick, ops);
    var e, d := Run(Empty(versioning), pick, ops), DurableRun(Empty(versioning), NOTHING, pick, ops);
    var own, ch := RunKept(versioning, pick, ops);
    var own1 := ReopenKept(e, d, own, ch);
    var own2, ch2 := StepKept(e, d, own, ch, pick, op);
    var own3 := ReopenKept(Step(e, pick, op), Kept(e, d, op), own2, ch2);
    if op.Reopen? {
      ReopenStep(e, d, pick, op);
      ReopenFits(e, op);
    } else {
      NodeIds(e, d, own, ch);
      KeptHistory(e, d, pick, op);
    }
  }

  lemma ReopenFits(e: State, op: Op)
    requires op.Reopen?
    ensures VersionFits(e, op)
  {
  }

  /** With versioning on, a node's chain is the exact sequence of its states before each
      update, over every run in which no reopening comes after a snapshot too large for a page. */
  lemma {:induction false} HistoryIsComplete(pick: Picker, ops: seq<Op>, id: nat)
    requires HistoryLasts(Empty(true), pick, ops)
    ensures var e := Run(Empty(true), pick, ops);
            e.versioning && V.Complete(e.history, id, Earlier(Empty(true), pick, ops, id))
  {
    hide DurableOk, Step, Kept, VersionFits, VersionsFit, V.Complete, V.Snapshot, Reopening;
    if ops == [] {
      EmptyComplete(id);
    } else {
      hide Empty;
      var front, last := ops[..|ops| - 1], ops[|ops| - 1];
      HistoryIsComplete(pick, front, id);
      var t, d := Run(Empty(true), pick, front), DurableRun(Empty(true), NOTHING, pick, front);
      if last.Reopen? {
        HistorySurvivesExactly(true, pick, front, last);
        ReopenStep(t, d, pick, last);
      } else {
        var own, ch := RunKept(true, pick, front);
        NodeIds(t, d, own, ch);
        StepHistory(t, pick, last);
      }
      assert Earlier(Empty(true), pick, front, id) + [] == Earlier(Empty(true), pick, front, id);
      if last.UpdateNode? && last.id in t.node.nodes {
        V.SnapshotCompletes(t.history, last.id, t.node.nodes[last.id], id, Earlier(Empty(true), pick, front, id));
      }
    }
  }

  lemma EmptyComplete(id: nat)
    ensures V.Complete(V.NO_HISTORY, id, [])
    ensures Empty(true).history == V.NO_HISTORY
  {
    assert V.ChainBelow(V.NO_HISTORY, id, 1) == V.ChainBelow(V.NO_HISTORY, id, 0) + [];
  }

  // ---------------------------------------------------------------------------
  // Reading a property at a point in time
  // ---------------------------------------------------------------------------

  /** A property value, Null when there is none; or the node does not exist. */
  datatype Answer = Answer(value: Value) | NodeNotFound

  predicate IsTime(v: Value) {
    v.DateTimeVal? || v.IntVal?
  }

  function TimeOf(v: Value): int
    requires IsTime(v)
  {
    if v.DateTimeVal? then v.millis else v.n
  }

  /** The first value under the key that is a time; other values are passed over. */
  function Stamp(props: Props, key: nat): Option<int> {
    if props == [] then None
    else if props[0].0 == key && IsTime(props[0].1) then Some(TimeOf(props[0].1))
    else Stamp(props[1..], key)
  }

  /** Whether a snapshot replaces the best one so far. Without an update-time key any does. */
  predicate Qualifies(r: NodeRecord, updatedKey: Option<nat>, at: int) {
    updatedKey.None? || (var t := Stamp(r.props, updatedKey.value); t.Some? && t.value <= at)
  }

  function Best(chain: seq<(nat, NodeRecord)>, updatedKey: Option<nat>, at: int): Option<NodeRecord> {
    if chain == [] then None
    else if Qualifies(chain[|chain| - 1].1, updatedKey, at) then Some(chain[|chain| - 1].1)
    else Best(chain[..|chain| - 1], updatedKey, at)
  }

  function ValueOf(props: Props, key: nat): Value {
    if props == [] then NullVal
    else if props[0].0 == key then props[0].1
    else ValueOf(props[1..], key)
  }

  /** The record a read at a time goes to: the best snapshot, else the current node. */
  function Selected(chain: seq<(nat, NodeRecord)>, updatedKey: Option<nat>, current: Option<NodeRecord>, at: int): Option<NodeRecord> {
    var best := Best(chain, updatedKey, at);
    if best.Some? then best else current
  }

  function ReadAt(chain: seq<(nat, NodeRecord)>, updatedKey: Option<nat>, key: Option<nat>, current: Option<NodeRecord>, at: int): Answer {
    if key.None? then Answer(NullVal)
    else
      match Selected(chain, updatedKey, current, at)
      case Some(r) => Answer(ValueOf(r.props, key.value))
      case None => NodeNotFound
  }

  /** The scan of the version chain and the lookup, as loops. */
  method ResolveProperty(chain: seq<(nat, NodeRecord)>, updatedKey: Option<nat>, key: Option<nat>, current: Option<NodeRecord>, at: int)
    returns (r: Answer)
    ensures r == ReadAt(chain, updatedKey, key, current, at)
  {
    var best: Option<NodeRecord> := None;
    for i := 0 to |chain|
      invariant best == Best(chain[..i], updatedKey, at)
    {
      assert chain[..i + 1][..i] == chain[..i];
      var state := chain[i].1;
      if updatedKey.Some? {
        var j := 0;
        while j < |state.props|
          invariant 0 <= j <= |state.props|
          invariant Stamp(state.props, updatedKey.value) == Stamp(state.props[j..], updatedKey.value)
          invariant best == Best(chain[..i], updatedKey, at)
        {
          var (k, v) := state.props[j];
          if k == updatedKey.value && IsTime(v) {
            if TimeOf(v) <= at {
              best := Some(state);
            }
            break;
          }
          j := j + 1;
        }
      } else {
        best := Some(state);
      }
    }
    assert chain[..|chain|] == chain;
    if key.None? {
      return Answer(NullVal);
    }
    if best.None? && current.None? {
      return NodeNotFound;
    }
    var state := if best.Some? then best.value else current.value;
    var j := 0;
    while j < |state.props|
      invariant 0 <= j <= |state.props|
      invariant ValueOf(state.props, key.value) == ValueOf(state.props[j..], key.value)
    {
      if state.props[j].0 == key.value {
        return Answer(state.props[j].1);
      }
      j := j + 1;
    }
    return Answer(NullVal);
  }

  // ---------------------------------------------------------------------------
  // What a read answers
  // ---------------------------------------------------------------------------

  /** The value of the first property under the key; Null if there is none. */
  ghost predicate FirstValue(props: Props, key: nat, v: Value) {
    || (exists i | 0 <= i < |props| :: props[i] == (key, v) && forall j | 0 <= j < i :: props[j].0 != key)
    || (v == NullVal && forall i | 0 <= i < |props| :: props[i].0 != key)
  }

  /** The value is this time, as a date or as an integer. */
  predicate IsTimeOf(v: Value, t: int) {
    v == DateTimeVal(t) || v == IntVal(t)
  }

  /** The time of the first property under the key that has one. */
  ghost predicate FirstTime(props: Props, key: nat, t: int) {
    exists i | 0 <= i < |props| ::
      && props[i].0 == key && IsTimeOf(props[i].1, t)
      && forall j | 0 <= j < i && props[j].0 == key :: !props[j].1.DateTimeVal? && !props[j].1.IntVal?
  }

  lemma {:induction false} FirstValueIs(props: Props, key: nat, v: Value)
    ensures ValueOf(props, key) == v <==> FirstValue(props, key, v)
  {
    if props != [] {
      FirstValueIs(props[1..], key, v);
      FirstValueShift(props, key, v);
    }
  }

  lemma FirstValueShift(props: Props, key: nat, v: Value)
    requires props != []
    ensures FirstValue(props, key, v) <==> if props[0].0 == key then v == props[0].1 else FirstValue(props[1..], key, v)
  {
    var rest := props[1..];
    if props[0].0 == key {
      if v == props[0].1 {
        assert props[0] == (key, v);
      }
    } else {
      if i :| 0 <= i < |props| && props[i] == (key, v) && forall j | 0 <= j < i :: props[j].0 != key {
        assert rest[i - 1] == (key, v) && forall j | 0 <= j < i - 1 :: rest[j] == props[j + 1];
      }
      if i :| 0 <= i < |rest| && rest[i] == (key, v) && forall j | 0 <= j < i :: rest[j].0 != key {
        assert props[i + 1] == (key, v) && forall j | 1 <= j < i + 1 :: props[j] == rest[j - 1];
      }
      assert forall j | 0 <= j < |rest| :: rest[j] == props[j + 1];
      assert forall j | 1 <= j < |props| :: props[j] == rest[j - 1];
    }
  }

  lemma {:induction false} FirstTimeIs(props: Props, key: nat, t: int)
    ensures Stamp(props, key) == Some(t) <==> FirstTime(props, key, t)
  {
    if props != [] {
      FirstTimeIs(props[1..], key, t);
      FirstTimeShift(props, key, t);
    }
  }

  lemma FirstTimeShift(props: Props, key: nat, t: int)
    requires props != []
    ensures FirstTime(props, key, t) <==>
            if props[0].0 == key && (props[0].1.DateTimeVal? || props[0].1.IntVal?) then IsTimeOf(props[0].1, t)
            else FirstTime(props[1..], key, t)
  {
    var rest := props[1..];
    assert forall j | 0 <= j < |rest| :: rest[j] == props[j + 1];
    assert forall j | 1 <= j < |props| :: props[j] == rest[j - 1];
    if i :| 0 <= i < |rest| && rest[i].0 == key && IsTimeOf(rest[i].1, t)
            && forall j | 0 <= j < i && rest[j].0 == key :: !rest[j].1.DateTimeVal? && !rest[j].1.IntVal? {
      assert props[i + 1] == rest[i];
    }
  }

  /** A snapshot whose time has come. Where no update-time key is known, any. */
  ghost predicate Come(r: NodeRecord, updatedKey: Option<nat>, at: int) {
    updatedKey.None? || exists t :: t <= at && FirstTime(r.props, updatedKey.value, t)
  }

  /** The last such snapshot of the chain. */
  ghost predicate LastCome(chain: seq<(nat, NodeRecord)>, updatedKey: Option<nat>, at: int, r: NodeRecord) {
    exists i | 0 <= i < |chain| ::
      chain[i].1 == r && Come(r, updatedKey, at) && forall j | i < j < |chain| :: !Come(chain[j].1, updatedKey, at)
  }

  ghost predicate NoneCome(chain: seq<(nat, NodeRecord)>, updatedKey: Option<nat>, at: int) {
    forall i | 0 <= i < |chain| :: !Come(chain[i].1, updatedKey, at)
  }

  lemma ComeIs(r: NodeRecord, updatedKey: Option<nat>, at: int)
    ensures Qualifies(r, updatedKey, at) <==> Come(r, updatedKey, at)
  {
    hide Stamp, FirstTime;
    if updatedKey.Some? {
      forall t
        ensures Stamp(r.props, updatedKey.value) == Some(t) <==> FirstTime(r.props, updatedKey.value, t)
      {
        FirstTimeIs(r.props, updatedKey.value, t);
      }
    }
  }

  lemma {:induction false} BestIs(chain: seq<(nat, NodeRecord)>, updatedKey: Option<nat>, at: int)
    ensures match Best(chain, updatedKey, at)
            case Some(r) => LastCome(chain, updatedKey, at, r)
            case None => NoneCome(chain, updatedKey, at)
  {
    hide Qualifies, Come;
    if chain != [] {
      var n := |chain| - 1;
      ComeIs(chain[n].1, updatedKey, at);
      BestIs(chain[..n], updatedKey, at);
      if !Qualifies(chain[n].1, updatedKey, at) && Best(chain, updatedKey, at).Some? {
        var r := Best(chain, updatedKey, at).value;
        var i :| 0 <= i < n && chain[..n][i].1 == r && Come(r, updatedKey, at)
                 && forall j | i < j < n :: !Come(chain[..n][j].1, updatedKey, at);
        assert chain[i].1 == r && forall j | i < j < n :: chain[j] == chain[..n][j];
      }
    }
  }

  /** What a read answers, for every chain: Null for a name that is no property key; else the
      first value under the key in the last snapshot whose time has come, or in the current
      state if there is none; or that the node is missing. */
  lemma ReadAnswers(chain: seq<(nat, NodeRecord)>, updatedKey: Option<nat>, key: Option<nat>, current: Option<NodeRecord>, at: int)
    ensures var answer := ReadAt(chain, updatedKey, key, current, at);
            if key.None? then answer == Answer(NullVal)
            else if NoneCome(chain, updatedKey, at) then
              if current.None? then answer == NodeNotFound
              else answer.Answer? && FirstValue(current.value.props, key.value, answer.value)
            else answer.Answer? && exists r :: LastCome(chain, updatedKey, at, r) && FirstValue(r.props, key.value, answer.value)
  {
    hide ValueOf, FirstValue, Come, Best;
    BestIs(chain, updatedKey, at);
    if key.Some? {
      var selected := Selected(chain, updatedKey, current, at);
      if selected.Some? {
        FirstValueIs(selected.value.props, key.value, ValueOf(selected.value.props, key.value));
      }
    }
  }

  // ---------------------------------------------------------------------------
  // The state in force
  // ---------------------------------------------------------------------------

  /** Every state carries an update time, and the times increase. */
  ghost predicate Increasing(states: seq<NodeRecord>, key: nat) {
    && (forall i | 0 <= i < |states| :: Stamp(states[i].props, key).Some?)
    && (forall i, j | 0 <= i < j < |states| :: Stamp(states[i].props, key).value < Stamp(states[j].props, key).value)
  }

  function TimeAt(states: seq<NodeRecord>, key: nat, i: nat): int
    requires i < |states| && Stamp(states[i].props, key).Some?
  {
    Stamp(states[i].props, key).value
  }

  /** The k-th state is the latest whose time has come. */
  ghost predicate InForce(states: seq<NodeRecord>, key: nat, at: int, k: nat)
    requires Increasing(states, key)
  {
    k < |states| && TimeAt(states, key, k) <= at && (k + 1 < |states| ==> at < TimeAt(states, key, k + 1))
  }

  lemma Rising(states: seq<NodeRecord>, key: nat, i: nat, j: nat)
    requires Increasing(states, key) && i <= j < |states|
    ensures TimeAt(states, key, i) <= TimeAt(states, key, j)
  {
  }

  lemma {:induction false} BestSnapshot(states: seq<NodeRecord>, key: nat, at: int, k: nat)
    requires Increasing(states, key) && InForce(states, key, at, k)
    ensures Best(V.Numbered(states), Some(key), at) == Some(states[k])
  {
    var n := |states| - 1;
    var front := states[..n];
    assert V.Numbered(states)[..n] == V.Numbered(front);
    if k < n {
      Rising(states, key, k + 1, n);
      assert Increasing(front, key) && InForce(front, key, at, k);
      BestSnapshot(front, key, at, k);
    }
  }

  /** Temporal resolution: with increasing update times, a read at a time not before the first
      goes to the state in force exactly when that time is before the last update, or there was
      no update. From the last update on it goes to the state before. */
  lemma ResolvesExactly(states: seq<NodeRecord>, key: nat, at: int, k: nat)
    requires states != [] && Increasing(states, key) && InForce(states, key, at, k)
    ensures var n := |states| - 1;
            var selected := Selected(V.Numbered(states[..n]), Some(key), Some(states[n]), at);
            && (selected == Some(states[k]) <==> n == 0 || at < TimeAt(states, key, n))
            && (n > 0 && at >= TimeAt(states, key, n) ==> k == n && selected == Some(states[n - 1]))
  {
    hide Best, Stamp;
    var n := |states| - 1;
    var front := states[..n];
    assert Increasing(front, key);
    if k < n {
      Rising(states, key, k + 1, n);
      assert InForce(front, key, at, k);
      BestSnapshot(front, key, at, k);
    } else if n > 0 {
      assert TimeAt(states, key, n - 1) < TimeAt(states, key, n);
      assert InForce(front, key, at, n - 1);
      BestSnapshot(front, key, at, n - 1);
    } else {
      NoSnapshot(key, at);
    }
  }

  lemma NoSnapshot(key: nat, at: int)
    ensures Best(V.Numbered([]), Some(key), at) == None
  {
  }

  /** The same over a run of the engine: the states are the node's earlier ones and the current.
      Before the last update the answer is from the state in force, then from the one before. */
  lemma ReadsInForce(pick: Picker, ops: seq<Op>, id: nat, updated: nat, key: nat, at: int, k: nat)
    requires HistoryLasts(Empty(true), pick, ops)
    requires id in Run(Empty(true), pick, ops).node.nodes
    requires var states := Earlier(Empty(true), pick, ops, id) + [Run(Empty(true), pick, ops).node.nodes[id]];
             Increasing(states, updated) && InForce(states, updated, at, k)
    ensures var e := Run(Empty(true), pick, ops);
            var states := Earlier(Empty(true), pick, ops, id) + [e.node.nodes[id]];
            var chain, current := V.Chain(e.history, id), Some(e.node.nodes[id]);
            var before := |states| == 1 || at < TimeAt(states, updated, |states| - 1);
            && (Selected(chain, Some(updated), current, at) == Some(states[k]) <==> before)
            && var answer := ReadAt(chain, Some(updated), Some(key), current, at);
               && (before ==> answer.Answer? && FirstValue(states[k].props, key, answer.value))
               && (!before ==> answer.Answer? && FirstValue(states[|states| - 2].props, key, answer.value))
  {
    hide Run, Earlier, Reopening, Empty, HistoryLasts, VersionsFit, V.Chain, Selected, ReadAt, FirstValue, Stamp;
    var e := Run(Empty(true), pick, ops);
    var states := Earlier(Empty(true), pick, ops, id) + [e.node.nodes[id]];
    assert Stamp(states[|states| - 1].props, updated).Some?;
    hide Increasing;
    HistoryIsComplete(pick, ops, id);
    ResolvesExactly(states, updated, at, k);
    assert states[..|states| - 1] == Earlier(Empty(true), pick, ops, id);
    var chain, current := V.Chain(e.history, id), Some(e.node.nodes[id]);
    if |states| == 1 || at < TimeAt(states, updated, |states| - 1) {
      ReadsSelected(chain, updated, key, current, at, states[k]);
    } else {
      ReadsSelected(chain, updated, key, current, at, states[|states| - 2]);
    }
  }

  /** The answer comes from the record selected. */
  lemma ReadsSelected(chain: seq<(nat, NodeRecord)>, updated: nat, key: nat, current: Option<NodeRecord>, at: int, r: NodeRecord)
    requires Selected(chain, Some(updated), current, at) == Some(r)
    ensures var answer := ReadAt(chain, Some(updated), Some(key), current, at); answer.Answer? && FirstValue(r.props, key, answer.value)
  {
    hide Best, ValueOf, FirstValue;
    FirstValueIs(r.props, key, ValueOf(r.props, key));
  }

  /** The time of a state in these statements, written out. */
  lemma TimeAtIs(states: seq<NodeRecord>, key: nat, i: nat)
    requires Increasing(states, key) && i < |states|
    ensures forall t :: TimeAt(states, key, i) == t <==> FirstTime(states[i].props, key, t)
  {
    hide Stamp, FirstTime;
    forall t
      ensures TimeAt(states, key, i) == t <==> FirstTime(states[i].props, key, t)
    {
      FirstTimeIs(states[i].props, key, t);
    }
  }
}
