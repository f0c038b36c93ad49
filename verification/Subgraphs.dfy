/** The subgraph store with its membership index. */
module Subgraphs {
  import opened Wrappers
  import opened Graph
  import opened Links
  import opened Pages
  import opened PageLogs

  datatype SubgraphStore = SubgraphStore(subs: map<nat, SubgraphRecord>, next: nat, links: TwoWay)

  function Fresh(next: nat): SubgraphStore {
    SubgraphStore(map[], next, NO_LINKS)
  }

  function Members(s: SubgraphStore, id: nat): seq<nat> {
    Neighbours(s.links.forward, id)
  }

  function Create(s: SubgraphStore, anchor: Option<int>, props: Props): SubgraphStore {
    s.(subs := s.subs[s.next := SubgraphRecord(s.next, anchor, props)], next := s.next + 1)
  }

  function AddMember(s: SubgraphStore, id: nat, node: nat): SubgraphStore {
    s.(links := Add(s.links, id, node))
  }

  function RemoveMember(s: SubgraphStore, id: nat, node: nat): SubgraphStore {
    if id in s.subs then s.(links := Remove(s.links, id, node)) else s
  }

  /** The members go even when there is no such subgraph. */
  function Delete(s: SubgraphStore, id: nat): SubgraphStore {
    s.(subs := s.subs - {id}, links := RemoveAll(s.links, id))
  }

  /** A record read back from a page: its members join those known already. */
  function Load(s: SubgraphStore, r: SubgraphRecord, members: seq<nat>): SubgraphStore {
    SubgraphStore(s.subs[r.id := r], if r.id >= s.next then r.id + 1 else s.next, AddMany(s.links, r.id, members))
  }

  /** Loading a subgraph log, starting from the next id in the file header. */
  function Replay(log: seq<Entry>, next: nat): SubgraphStore {
    if log == [] then Fresh(next)
    else
      var s, last := Replay(log[..|log| - 1], next), log[|log| - 1].1;
      if last.SubgraphRec? then Load(s, last.sub, last.members) else s
  }

  /** Records are filed under their ids, below the next; only stored subgraphs have members;
      both directions of the membership index agree. */
  ghost predicate Sound(s: SubgraphStore) {
    && Mirrored(s.links)
    && (forall id | id in s.subs :: id < s.next && s.subs[id].id == id)
    && s.links.forward.Keys <= s.subs.Keys
  }

  lemma ReplayAppend(log: seq<Entry>, next: nat, pid: nat, r: SubgraphRecord, members: seq<nat>)
    ensures Replay(log + [(pid, SubgraphRec(r, members))], next) == Load(Replay(log, next), r, members)
  {
    assert (log + [(pid, SubgraphRec(r, members))])[..|log|] == log;
  }

  /** Starting from a later next id changes only that. */
  lemma {:induction false} ReplayFrom(log: seq<Entry>, next: nat, later: nat)
    requires next <= later
    ensures Replay(log, next).next >= next
    ensures var s := Replay(log, next);
            Replay(log, later) == s.(next := if s.next >= later then s.next else later)
  {
    if log != [] {
      hide AddMany;
      ReplayFrom(log[..|log| - 1], next, later);
    }
  }

  /** Loading the record a creation wrote repeats the creation. */
  lemma LoadRepeatsCreate(s: SubgraphStore, anchor: Option<int>, props: Props)
    requires Sound(s)
    ensures Sound(Create(s, anchor, props))
    ensures Members(Create(s, anchor, props), s.next) == []
    ensures Load(s, SubgraphRecord(s.next, anchor, props), []) == Create(s, anchor, props)
  {
  }

  /** Loading the record written when a member is added repeats the addition. */
  lemma LoadRepeatsAdd(s: SubgraphStore, id: nat, node: nat)
    requires Sound(s) && id in s.subs
    ensures Sound(AddMember(s, id, node))
    ensures Load(s, s.subs[id], Members(AddMember(s, id, node), id)) == AddMember(s, id, node)
  {
    AddMirrored(s.links, id, node);
    var before, after := Members(s, id), Members(AddMember(s, id, node), id);
    AddManyAgain(s.links, id, before);
    if after != before {
      assert after == before + [node];
      assert after[..|after| - 1] == before;
    } else {
      AddManyAgain(s.links, id, [node]);
      assert AddMany(s.links, id, [node][..0]) == s.links;
    }
  }

  lemma RemovalsStaySound(s: SubgraphStore, id: nat, node: nat)
    requires Sound(s)
    ensures Sound(RemoveMember(s, id, node)) && Sound(Delete(s, id))
  {
    RemoveMirrored(s.links, id, node);
    RemoveAllMirrored(s.links, id);
  }

  /** A new member comes last, once; nothing else changes. */
  lemma AddMemberAdds(s: SubgraphStore, id: nat, node: nat)
    ensures var t := AddMember(s, id, node);
            && t.subs == s.subs && t.next == s.next && (forall x | x != id :: Members(t, x) == Members(s, x))
            && Members(t, id) == if node in Members(s, id) then Members(s, id) else Members(s, id) + [node]
  {
  }

  /** Removing a member takes only that one out of only this subgraph; the others keep their
      order, in the lists of members as in those of memberships. */
  lemma RemoveMemberLeaves(s: SubgraphStore, id: nat, node: nat)
    requires Sound(s)
    ensures var t := RemoveMember(s, id, node);
            && t.subs == s.subs && t.next == s.next
            && (forall x | x != id :: Members(t, x) == Members(s, x))
            && (node !in Members(s, id) ==> Members(t, id) == Members(s, id))
            && (forall a, b | Members(s, id) == a + [node] + b && node !in a && node !in b :: Members(t, id) == a + b)
            && (forall n | n != node :: Neighbours(t.links.reverse, n) == Neighbours(s.links.reverse, n))
  {
    hide Links.Remove, Mirrored;
    RemoveLeaves(s.links, id, node);
    if node !in Members(s, id) {
      WithoutNone(Members(s, id), node);
    }
    forall a, b | Members(s, id) == a + [node] + b && node !in a && node !in b
      ensures Members(RemoveMember(s, id, node), id) == a + b
    {
      WithoutBetween(a, node, b);
      assert id in s.subs;
    }
  }

  /** Deleting a subgraph takes it and its members, and no other subgraph or member. */
  lemma DeleteLeaves(s: SubgraphStore, id: nat)
    requires Sound(s)
    ensures var t := Delete(s, id);
            && (forall x :: x in t.subs <==> x in s.subs && x != id) && (forall x | x in t.subs :: t.subs[x] == s.subs[x])
            && t.next == s.next && Members(t, id) == []
            && (forall x | x != id :: Members(t, x) == Members(s, x))
            && (forall n :: Neighbours(t.links.reverse, n) == Without(Neighbours(s.links.reverse, n), id))
  {
    hide RemoveAll, Mirrored;
    RemoveAllLeaves(s.links, id);
  }

  lemma LoadStaysSound(s: SubgraphStore, r: SubgraphRecord, members: seq<nat>)
    requires Sound(s)
    ensures Sound(Load(s, r, members))
  {
    AddManyMirrored(s.links, r.id, members);
    AddManyKeys(s.links, r.id, members);
  }
}
