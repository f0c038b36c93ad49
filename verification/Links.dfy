/** Two-way links between owners and members, as the membership index (subgraph to nodes) and
    the reverse index (hyperedge to participants) keep them. */
module Links {

  type Adjacency = map<nat, seq<nat>>

  datatype TwoWay = TwoWay(forward: Adjacency, reverse: Adjacency)

  const NO_LINKS := TwoWay(map[], map[])

  /** The sequence without any occurrence of an id. */
  function Without(ids: seq<nat>, id: nat): (out: seq<nat>)
    ensures forall j :: j in out <==> j in ids && j != id
  {
    if ids == [] then []
    else
      var front := Without(ids[..|ids| - 1], id);
      assert ids == ids[..|ids| - 1] + [ids[|ids| - 1]];
      if ids[|ids| - 1] == id then front else front + [ids[|ids| - 1]]
  }

  function Neighbours(m: Adjacency, a: nat): seq<nat> {
    if a in m then m[a] else []
  }

  predicate Linked(m: Adjacency, a: nat, b: nat) {
    b in Neighbours(m, a)
  }

  function Join(m: Adjacency, a: nat, b: nat): Adjacency {
    m[a := if b in Neighbours(m, a) then Neighbours(m, a) else Neighbours(m, a) + [b]]
  }

  function Cut(m: Adjacency, a: nat, b: nat): Adjacency {
    if a !in m then m
    else if Without(m[a], b) == [] then m - {a}
    else m[a := Without(m[a], b)]
  }

  function Add(l: TwoWay, owner: nat, member: nat): TwoWay {
    TwoWay(Join(l.forward, owner, member), Join(l.reverse, member, owner))
  }

  function Remove(l: TwoWay, owner: nat, member: nat): TwoWay {
    if Linked(l.forward, owner, member) then TwoWay(Cut(l.forward, owner, member), Cut(l.reverse, member, owner)) else l
  }

  function CutAll(m: Adjacency, ids: seq<nat>, b: nat): Adjacency {
    if ids == [] then m else Cut(CutAll(m, ids[..|ids| - 1], b), ids[|ids| - 1], b)
  }

  function RemoveAll(l: TwoWay, owner: nat): TwoWay {
    TwoWay(l.forward - {owner}, CutAll(l.reverse, Neighbours(l.forward, owner), owner))
  }

  function AddMany(l: TwoWay, owner: nat, members: seq<nat>): TwoWay {
    if members == [] then l
    else Add(AddMany(l, owner, members[..|members| - 1]), owner, members[|members| - 1])
  }

  // ---------------------------------------------------------------------------
  // The two directions agree
  // ---------------------------------------------------------------------------

  ghost predicate Mirrored(l: TwoWay) {
    forall owner, member :: Linked(l.forward, owner, member) <==> Linked(l.reverse, member, owner)
  }

  lemma JoinLinks(m: Adjacency, a: nat, b: nat)
    ensures forall x, y :: Linked(Join(m, a, b), x, y) <==> Linked(m, x, y) || (x == a && y == b)
  {
  }

  lemma CutLinks(m: Adjacency, a: nat, b: nat)
    ensures forall x, y :: Linked(Cut(m, a, b), x, y) <==> Linked(m, x, y) && !(x == a && y == b)
  {
    if a in m {
      var kept := Without(m[a], b);
      assert forall y :: y in kept <==> y in m[a] && y != b;
    }
  }

  lemma {:induction false} CutAllLinks(m: Adjacency, ids: seq<nat>, b: nat)
    ensures forall x, y :: Linked(CutAll(m, ids, b), x, y) <==> Linked(m, x, y) && !(x in ids && y == b)
  {
    if ids != [] {
      hide Linked, Cut;
      var front, last := ids[..|ids| - 1], ids[|ids| - 1];
      assert ids == front + [last];
      CutAllLinks(m, front, b);
      CutLinks(CutAll(m, front, b), last, b);
    }
  }

  lemma AddMirrored(l: TwoWay, owner: nat, member: nat)
    requires Mirrored(l)
    ensures Mirrored(Add(l, owner, member))
    ensures forall o, m :: Linked(Add(l, owner, member).forward, o, m) <==> Linked(l.forward, o, m) || (o == owner && m == member)
  {
    JoinLinks(l.forward, owner, member);
    JoinLinks(l.reverse, member, owner);
    hide Join, Linked;
  }

  lemma RemoveMirrored(l: TwoWay, owner: nat, member: nat)
    requires Mirrored(l)
    ensures Mirrored(Remove(l, owner, member))
    ensures forall o, m :: Linked(Remove(l, owner, member).forward, o, m) <==> Linked(l.forward, o, m) && !(o == owner && m == member)
  {
    CutLinks(l.forward, owner, member);
    CutLinks(l.reverse, member, owner);
    hide Cut;
  }

  lemma RemoveAllMirrored(l: TwoWay, owner: nat)
    requires Mirrored(l)
    ensures Mirrored(RemoveAll(l, owner))
    ensures forall o, m :: Linked(RemoveAll(l, owner).forward, o, m) <==> Linked(l.forward, o, m) && o != owner
  {
    CutAllLinks(l.reverse, Neighbours(l.forward, owner), owner);
    hide CutAll;
  }

  lemma {:induction false} AddManyMirrored(l: TwoWay, owner: nat, members: seq<nat>)
    requires Mirrored(l)
    ensures Mirrored(AddMany(l, owner, members))
    ensures forall o, m :: Linked(AddMany(l, owner, members).forward, o, m) <==> Linked(l.forward, o, m) || (o == owner && m in members)
  {
    hide Linked, Mirrored, Add;
    if members != [] {
      var front, last := members[..|members| - 1], members[|members| - 1];
      assert members == front + [last];
      AddManyMirrored(l, owner, front);
      AddMirrored(AddMany(l, owner, front), owner, last);
    }
  }

  lemma {:induction false} AddManyKeys(l: TwoWay, owner: nat, members: seq<nat>)
    ensures AddMany(l, owner, members).forward.Keys <= l.forward.Keys + {owner}
  {
    if members != [] {
      AddManyKeys(l, owner, members[..|members| - 1]);
    }
  }

  /** Adding links that exist changes nothing. */
  lemma {:induction false} AddManyAgain(l: TwoWay, owner: nat, members: seq<nat>)
    requires Mirrored(l)
    requires forall m | m in members :: Linked(l.forward, owner, m)
    ensures AddMany(l, owner, members) == l
  {
    if members != [] {
      var last := members[|members| - 1];
      assert last in members;
      AddManyAgain(l, owner, members[..|members| - 1]);
      assert Linked(l.forward, owner, last) && Linked(l.reverse, last, owner);
    }
  }

  // ---------------------------------------------------------------------------
  // What is left, and in which order
  // ---------------------------------------------------------------------------

  lemma {:induction false} WithoutNone(ids: seq<nat>, id: nat)
    requires id !in ids
    ensures Without(ids, id) == ids
  {
    if ids != [] {
      WithoutNone(ids[..|ids| - 1], id);
      assert ids == ids[..|ids| - 1] + [ids[|ids| - 1]];
    }
  }

  /** Those before and those behind, in their order. */
  lemma {:induction false} WithoutBetween(a: seq<nat>, id: nat, b: seq<nat>)
    requires id !in a && id !in b
    ensures Without(a + [id] + b, id) == a + b
  {
    var all := a + [id] + b;
    if b == [] {
      assert all == a + [id] && all[..|all| - 1] == a && a + b == a;
      WithoutNone(a, id);
    } else {
      var front, last := b[..|b| - 1], b[|b| - 1];
      assert all[..|all| - 1] == a + [id] + front && all[|all| - 1] == last;
      assert last in b;
      WithoutBetween(a, id, front);
      assert a + front + [last] == a + b;
    }
  }

  lemma CutLeaves(m: Adjacency, a: nat, b: nat)
    ensures forall x :: Neighbours(Cut(m, a, b), x) == if x == a then Without(Neighbours(m, a), b) else Neighbours(m, x)
  {
  }

  lemma {:induction false} WithoutTwice(ids: seq<nat>, id: nat)
    ensures Without(Without(ids, id), id) == Without(ids, id)
  {
    WithoutNone(Without(ids, id), id);
  }

  lemma {:induction false} CutAllLeaves(m: Adjacency, ids: seq<nat>, b: nat)
    ensures forall x :: Neighbours(CutAll(m, ids, b), x) == if x in ids then Without(Neighbours(m, x), b) else Neighbours(m, x)
  {
    hide Neighbours, Cut;
    if ids != [] {
      var front, last := ids[..|ids| - 1], ids[|ids| - 1];
      assert ids == front + [last];
      CutAllLeaves(m, front, b);
      CutLeaves(CutAll(m, front, b), last, b);
      WithoutTwice(Neighbours(m, last), b);
    }
  }

  /** Taking an owner away leaves the lists of the others, and every list of owners loses just
      this one. */
  lemma RemoveAllLeaves(l: TwoWay, owner: nat)
    requires Mirrored(l)
    ensures forall o :: Neighbours(RemoveAll(l, owner).forward, o) == if o == owner then [] else Neighbours(l.forward, o)
    ensures forall m :: Neighbours(RemoveAll(l, owner).reverse, m) == Without(Neighbours(l.reverse, m), owner)
  {
    CutAllLeaves(l.reverse, Neighbours(l.forward, owner), owner);
    forall m: nat
      ensures Neighbours(RemoveAll(l, owner).reverse, m) == Without(Neighbours(l.reverse, m), owner)
    {
      if m !in Neighbours(l.forward, owner) {
        assert !Linked(l.forward, owner, m) && !Linked(l.reverse, m, owner);
        WithoutNone(Neighbours(l.reverse, m), owner);
      }
    }
  }

  /** Taking one link away leaves every other list; the two lists lose just the one entry. */
  lemma RemoveLeaves(l: TwoWay, owner: nat, member: nat)
    requires Mirrored(l)
    ensures forall o :: Neighbours(Remove(l, owner, member).forward, o)
                     == if o == owner then Without(Neighbours(l.forward, o), member) else Neighbours(l.forward, o)
    ensures forall m :: Neighbours(Remove(l, owner, member).reverse, m)
                     == if m == member then Without(Neighbours(l.reverse, m), owner) else Neighbours(l.reverse, m)
  {
    hide Cut;
    CutLeaves(l.forward, owner, member);
    CutLeaves(l.reverse, member, owner);
    if !Linked(l.forward, owner, member) {
      assert !Linked(l.reverse, member, owner);
      WithoutNone(Neighbours(l.forward, owner), member);
      WithoutNone(Neighbours(l.reverse, member), owner);
    }
  }
}
