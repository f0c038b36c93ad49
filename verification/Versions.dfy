/** The version store: per entity, numbered snapshots of earlier states. */
module Versions {
  import opened Graph
  import opened Pages
  import opened PageLogs

  datatype History = History(versions: map<(nat, nat), NodeRecord>, nextSeq: map<nat, nat>)

  const NO_HISTORY := History(map[], map[])

  function NextSeq(h: History, entity: nat): nat {
    if entity in h.nextSeq then h.nextSeq[entity] else 1
  }

  function Snapshot(h: History, entity: nat, state: NodeRecord): History {
    var n := NextSeq(h, entity);
    History(h.versions[(entity, n) := state], h.nextSeq[entity := n + 1])
  }

  /** A snapshot read back from a page. */
  function Load(h: History, entity: nat, version: nat, state: NodeRecord): History {
    var n := NextSeq(h, entity);
    History(h.versions[(entity, version) := state], h.nextSeq[entity := if version >= n then version + 1 else n])
  }

  function ChainBelow(h: History, entity: nat, bound: nat): seq<(nat, NodeRecord)> {
    if bound == 0 then []
    else
      ChainBelow(h, entity, bound - 1) +
      if (entity, bound - 1) in h.versions then [(bound - 1, h.versions[(entity, bound - 1)])] else []
  }

  /** The snapshots of an entity, oldest first. Numbers in use are below the next one. */
  function Chain(h: History, entity: nat): seq<(nat, NodeRecord)> {
    ChainBelow(h, entity, NextSeq(h, entity))
  }

  /** Loading a version log from the start. */
  function Replay(log: seq<Entry>): History {
    if log == [] then NO_HISTORY
    else
      var h, last := Replay(log[..|log| - 1]), log[|log| - 1].1;
      if last.VersionRec? then Load(h, last.entity, last.version, last.snapshot) else h
  }

  // ---------------------------------------------------------------------------
  // Histories are complete
  // ---------------------------------------------------------------------------

  /** States numbered from 1. */
  function Numbered(states: seq<NodeRecord>): (out: seq<(nat, NodeRecord)>)
    ensures |out| == |states| && forall k | 0 <= k < |out| :: out[k] == (k + 1, states[k])
  {
    if states == [] then []
    else Numbered(states[..|states| - 1]) + [(|states|, states[|states| - 1])]
  }

  /** The chain of an entity is exactly this sequence of states. */
  ghost predicate Complete(h: History, entity: nat, states: seq<NodeRecord>) {
    NextSeq(h, entity) == |states| + 1 && Chain(h, entity) == Numbered(states)
  }

  lemma {:induction false} ChainBelowFrame(h: History, g: History, entity: nat, bound: nat)
    requires forall k | 0 <= k < bound :: (entity, k) in h.versions <==> (entity, k) in g.versions
    requires forall k | 0 <= k < bound && (entity, k) in h.versions :: g.versions[(entity, k)] == h.versions[(entity, k)]
    ensures ChainBelow(h, entity, bound) == ChainBelow(g, entity, bound)
  {
    if bound > 0 {
      ChainBelowFrame(h, g, entity, bound - 1);
    }
  }

  lemma SnapshotCompletes(h: History, id: nat, state: NodeRecord, entity: nat, states: seq<NodeRecord>)
    requires Complete(h, entity, states)
    ensures Complete(Snapshot(h, id, state), entity, if id == entity then states + [state] else states)
  {
    var g := Snapshot(h, id, state);
    ChainBelowFrame(h, g, entity, NextSeq(h, entity));
    if id == entity {
      assert (states + [state])[..|states|] == states;
    }
  }

  /** Loading the record that a snapshot wrote does what the snapshot did. */
  lemma LoadIsSnapshot(h: History, entity: nat, state: NodeRecord)
    ensures Load(h, entity, NextSeq(h, entity), state) == Snapshot(h, entity, state)
  {
  }

  lemma ReplayAppend(log: seq<Entry>, pid: nat, entity: nat, version: nat, state: NodeRecord)
    ensures Replay(log + [(pid, VersionRec(entity, version, state))]) == Load(Replay(log), entity, version, state)
  {
    assert (log + [(pid, VersionRec(entity, version, state))])[..|log|] == log;
  }
}
