/** The hyperedge store with its reverse index from participants to hyperedges. */
module HyperEdges {
  import opened Graph
  import opened Links
  import opened Pages
  import opened PageLogs

  datatype HyperEdgeStore = HyperEdgeStore(hypers: map<nat, HyperEdgeRecord>, next: nat, links: TwoWay)

  function Fresh(next: nat): HyperEdgeStore {
    HyperEdgeStore(map[], next, NO_LINKS)
  }

  /** The raw ids of the participants, sources first. A temporal reference counts as its node. */
  function RawIds(es: seq<Entity>): (out: seq<nat>)
    ensures |out| == |es| && forall i | 0 <= i < |es| :: out[i] == es[i].raw
  {
    if es == [] then [] else [es[0].raw] + RawIds(es[1..])
  }

  function Participants(r: HyperEdgeRecord): seq<nat> {
    RawIds(r.sources + r.targets)
  }

  function Create(s: HyperEdgeStore, relType: nat, sources: seq<Entity>, targets: seq<Entity>, props: Props): HyperEdgeStore {
    var r := HyperEdgeRecord(s.next, relType, sources, targets, props);
    HyperEdgeStore(s.hypers[s.next := r], s.next + 1, AddMany(s.links, s.next, Participants(r)))
  }

  function Delete(s: HyperEdgeStore, id: nat): HyperEdgeStore {
    s.(hypers := s.hypers - {id}, links := RemoveAll(s.links, id))
  }

  function Load(s: HyperEdgeStore, r: HyperEdgeRecord): HyperEdgeStore {
    HyperEdgeStore(s.hypers[r.id := r], if r.id >= s.next then r.id + 1 else s.next, AddMany(s.links, r.id, Participants(r)))
  }

  function Replay(log: seq<Entry>, next: nat): HyperEdgeStore {
    if log == [] then Fresh(next)
    else
      var s, last := Replay(log[..|log| - 1], next), log[|log| - 1].1;
      if last.HyperEdgeRec? then Load(s, last.hyper) else s
  }

  /** What `hyperedges_for_entity` answers. */
  function HyperEdgesFor(s: HyperEdgeStore, raw: nat): seq<nat> {
    Neighbours(s.links.reverse, raw)
  }

  /** Whether a stored hyperedge has the raw id among its sources or targets. */
  predicate Participates(s: HyperEdgeStore, id: nat, raw: nat) {
    id in s.hypers && exists e :: e in s.hypers[id].sources + s.hypers[id].targets && e.raw == raw
  }

  /** The reverse index is the linear scan. */
  ghost predicate ReverseExact(s: HyperEdgeStore) {
    && Mirrored(s.links)
    && forall id, raw :: Linked(s.links.reverse, raw, id) <==> Participates(s, id, raw)
  }

  ghost predicate Sound(s: HyperEdgeStore) {
    && ReverseExact(s)
    && (forall id | id in s.hypers :: id < s.next && s.hypers[id].id == id)
    && s.links.forward.Keys <= s.hypers.Keys
  }

  lemma ReplayAppend(log: seq<Entry>, next: nat, pid: nat, r: HyperEdgeRecord)
    ensures Replay(log + [(pid, HyperEdgeRec(r))], next) == Load(Replay(log, next), r)
  {
    assert (log + [(pid, HyperEdgeRec(r))])[..|log|] == log;
  }

  lemma {:induction false} ReplayFrom(log: seq<Entry>, next: nat, later: nat)
    requires next <= later
    ensures Replay(log, next).next >= next
    ensures var s := Replay(log, next);
            Replay(log, later) == s.(next := if s.next >= later then s.next else later)
  {
    if log != [] {
      hide AddMany, Participants;
      ReplayFrom(log[..|log| - 1], next, later);
    }
  }

  lemma LoadRepeatsCreate(s: HyperEdgeStore, relType: nat, sources: seq<Entity>, targets: seq<Entity>, props: Props)
    ensures Load(s, HyperEdgeRecord(s.next, relType, sources, targets, props)) == Create(s, relType, sources, targets, props)
  {
  }

  lemma ParticipantsHave(r: HyperEdgeRecord, raw: nat)
    ensures raw in Participants(r) <==> exists e :: e in r.sources + r.targets && e.raw == raw
  {
    var es := r.sources + r.targets;
    if raw in Participants(r) {
      var i :| 0 <= i < |es| && RawIds(es)[i] == raw;
      assert es[i] in es;
    }
  }

  /** Loading a record that is new, or the same as the stored one, keeps the index exact. */
  lemma LoadStaysSound(s: HyperEdgeStore, r: HyperEdgeRecord)
    requires Sound(s) && (r.id in s.hypers ==> s.hypers[r.id] == r)
    ensures Sound(Load(s, r))
  {
    var t := Load(s, r);
    AddManyMirrored(s.links, r.id, Participants(r));
    AddManyKeys(s.links, r.id, Participants(r));
    hide AddMany, Participants, Mirrored;
    forall id, raw
      ensures Linked(t.links.reverse, raw, id) <==> Participates(t, id, raw)
    {
      ParticipantsHave(r, raw);
      assert Linked(t.links.reverse, raw, id) <==> Linked(t.links.forward, id, raw) by { MirroredAt(t.links, id, raw); }
      assert Linked(s.links.reverse, raw, id) <==> Linked(s.links.forward, id, raw) by { MirroredAt(s.links, id, raw); }
    }
  }

  lemma MirroredAt(l: TwoWay, owner: nat, member: nat)
    requires Mirrored(l)
    ensures Linked(l.forward, owner, member) <==> Linked(l.reverse, member, owner)
  {
  }

  lemma DeleteStaysSound(s: HyperEdgeStore, id: nat)
    requires Sound(s)
    ensures Sound(Delete(s, id))
  {
    var t := Delete(s, id);
    RemoveAllMirrored(s.links, id);
    hide RemoveAll, Mirrored;
    forall other, raw
      ensures Linked(t.links.reverse, raw, other) <==> Participates(t, other, raw)
    {
      MirroredAt(t.links, other, raw);
      MirroredAt(s.links, other, raw);
    }
  }

  /** Deleting a hyperedge takes only this one: from the stored ones, and from the list of
      every participant, where the others keep their order. */
  lemma DeleteLeaves(s: HyperEdgeStore, id: nat)
    requires Sound(s)
    ensures var t := Delete(s, id);
            && (forall x :: x in t.hypers <==> x in s.hypers && x != id) && (forall x | x in t.hypers :: t.hypers[x] == s.hypers[x])
            && t.next == s.next && (forall raw :: id !in HyperEdgesFor(t, raw))
            && (forall raw | id !in HyperEdgesFor(s, raw) :: HyperEdgesFor(t, raw) == HyperEdgesFor(s, raw))
            && (forall raw, a, b | HyperEdgesFor(s, raw) == a + [id] + b && id !in a && id !in b :: HyperEdgesFor(t, raw) == a + b)
  {
    hide RemoveAll, Mirrored;
    RemoveAllLeaves(s.links, id);
    forall raw: nat
      ensures id !in HyperEdgesFor(s, raw) ==> HyperEdgesFor(Delete(s, id), raw) == HyperEdgesFor(s, raw)
    {
      if id !in HyperEdgesFor(s, raw) {
        WithoutNone(HyperEdgesFor(s, raw), id);
      }
    }
    forall raw: nat, a, b | HyperEdgesFor(s, raw) == a + [id] + b && id !in a && id !in b
      ensures HyperEdgesFor(Delete(s, id), raw) == a + b
    {
      WithoutBetween(a, id, b);
    }
  }
}
