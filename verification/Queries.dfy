/** A query is its clauses one after the other: cut in the right places, every stretch parses
    alone, and the places are unique. */
module Queries {
  import opened Grammar
  import opened Patterns
  import opened PatternLocality
  import opened Clauses
  import opened ClauseLocality

  /** The tokens of one clause, with nothing before or after. */
  predicate OneClause(part: Tokens, clause: Clause) {
    part != [] && ClauseAt(part, 0) == Done(clause, |part|)
  }

  ghost predicate Spells(parts: seq<Tokens>, clauses: seq<Clause>) {
    |parts| == |clauses| && forall i | 0 <= i < |parts| :: OneClause(parts[i], clauses[i])
  }

  function Concat(parts: seq<Tokens>): Tokens {
    if parts == [] then [] else parts[0] + Concat(parts[1..])
  }

  lemma StartOfClause(ts: Tokens, n: nat)
    requires n < |ts| && ClauseAt(ts, n).Done?
    ensures ts[n] in STARTS
  {
    hide MatchClauseAt, MatchHyperedgeAt, ReturnAt, CreateClauseAt, SetClauseAt, RemoveClauseAt, DeleteClauseAt, WithAt, MergeAt,
         UnwindAt, DropIndexAt, NoClause;
  }

  /** A clause inside a stream, taken out. */
  lemma TakenOut(ts: Tokens, n: nat)
    requires n < |ts| && ClauseAt(ts, n).Done? && Over(ts, ClauseAt(ts, n).pos)
    ensures OneClause(ts[n..ClauseAt(ts, n).pos], ClauseAt(ts, n).value)
  {
    hide ClauseAt;
    var m := ClauseAt(ts, n).pos;
    ClauseAlike(Twins(ts, ts[n..m], 0 - n, n, m), n);
  }

  /** A clause put into a stream, before an end or another clause. */
  lemma PutIn(part: Tokens, clause: Clause, ts: Tokens, n: nat)
    requires OneClause(part, clause) && n + |part| <= |ts| && ts[n..n + |part|] == part && Over(ts, n + |part|)
    ensures ClauseAt(ts, n) == Done(clause, n + |part|)
  {
    hide ClauseAt;
    forall i | 0 <= i < |part|
      ensures ts[i + n] == part[i]
    {
      assert ts[n..n + |part|][i] == ts[i + n];
    }
    ClauseAlike(Twins(part, ts, n, 0, |part|), 0);
  }

  lemma {:induction false} Cut(ts: Tokens, n: nat, before: seq<Clause>) returns (clauses: seq<Clause>, parts: seq<Tokens>)
    requires n <= |ts| && ClausesFrom(ts, n, before).Done?
    ensures ClausesFrom(ts, n, before) == Done(before + clauses, |ts|)
    ensures Spells(parts, clauses) && Concat(parts) == ts[n..]
    decreases |ts| - n
  {
    hide ClauseAt, OneClause;
    if n == |ts| {
      clauses, parts := [], [];
      assert before + [] == before;
    } else {
      var c := ClauseAt(ts, n);
      if c.pos < |ts| {
        StartOfClause(ts, c.pos);
      }
      TakenOut(ts, n);
      var others, rest := Cut(ts, c.pos, before + [c.value]);
      clauses, parts := [c.value] + others, [ts[n..c.pos]] + rest;
      assert before + [c.value] + others == before + clauses;
      assert parts[1..] == rest && ts[n..c.pos] + ts[c.pos..] == ts[n..];
    }
  }

  lemma {:induction false} Joined(parts: seq<Tokens>, clauses: seq<Clause>, ts: Tokens, n: nat, before: seq<Clause>)
    requires Spells(parts, clauses) && n <= |ts| && Concat(parts) == ts[n..]
    ensures ClausesFrom(ts, n, before) == Done(before + clauses, |ts|)
    decreases |parts|
  {
    hide ClauseAt;
    if parts == [] {
      assert before + clauses == before;
    } else {
      var part, rest := parts[0], parts[1..];
      assert OneClause(part, clauses[0]);
      var m := n + |part|;
      assert ts[n..m] == part && ts[m..] == Concat(rest) by {
        assert ts[n..] == part + Concat(rest);
        assert ts[n..][..|part|] == part && ts[n..][|part|..] == Concat(rest);
      }
      assert Over(ts, m) by {
        if rest != [] {
          assert OneClause(rest[0], clauses[1]);
          StartOfClause(rest[0], 0);
          assert ts[m..][0] == rest[0][0];
        }
      }
      PutIn(part, clauses[0], ts, n);
      assert Spells(rest, clauses[1..]) by {
        forall i | 0 <= i < |rest|
          ensures OneClause(rest[i], clauses[1..][i])
        {
          assert OneClause(parts[i + 1], clauses[i + 1]);
        }
      }
      Joined(rest, clauses[1..], ts, m, before + [clauses[0]]);
      assert before + [clauses[0]] + clauses[1..] == before + clauses;
    }
  }

  /** Main result. A token stream is accepted exactly when it is one or more stretches that
      each are a clause by themselves, and the result is those clauses. */
  lemma QueryIsClauses(ts: Tokens, clauses: seq<Clause>)
    ensures QueryAt(ts) == Done(clauses, |ts|)
            <==> clauses != [] && exists parts :: Spells(parts, clauses) && Concat(parts) == ts
    ensures QueryAt(ts).Done? ==> QueryAt(ts).pos == |ts|
  {
    hide ClauseAt, ClausesFrom, Spells, Concat;
    assert ts[0..] == ts;
    if ClausesFrom(ts, 0, []).Done? {
      var found, parts := Cut(ts, 0, []);
      assert [] + found == found;
    }
    forall parts | clauses != [] && Spells(parts, clauses) && Concat(parts) == ts
      ensures QueryAt(ts) == Done(clauses, |ts|)
    {
      Joined(parts, clauses, ts, 0, []);
      assert [] + clauses == clauses;
    }
  }

  /** There is one way to cut. */
  lemma {:induction false} CutOnce(parts: seq<Tokens>, clauses: seq<Clause>, others: seq<Tokens>, more: seq<Clause>)
    requires Spells(parts, clauses) && Spells(others, more) && Concat(parts) == Concat(others)
    ensures parts == others && clauses == more
    decreases |parts|
  {
    hide ClauseAt;
    NoEmptyStretch(parts, clauses);
    NoEmptyStretch(others, more);
    if parts != [] {
      var ts := Concat(parts);
      FirstStretch(parts, clauses);
      FirstStretch(others, more);
      assert ts[..|parts[0]|] == parts[0] && ts[..|others[0]|] == others[0];
      assert ts[|parts[0]|..] == Concat(parts[1..]) && ts[|others[0]|..] == Concat(others[1..]);
      assert Spells(parts[1..], clauses[1..]) && Spells(others[1..], more[1..]) by {
        assert forall i | 1 <= i < |parts| :: OneClause(parts[i], clauses[i]);
        assert forall i | 1 <= i < |others| :: OneClause(others[i], more[i]);
      }
      CutOnce(parts[1..], clauses[1..], others[1..], more[1..]);
    }
  }

  lemma NoEmptyStretch(parts: seq<Tokens>, clauses: seq<Clause>)
    requires Spells(parts, clauses)
    ensures Concat(parts) == [] <==> parts == []
  {
    hide ClauseAt;
    assert parts != [] ==> OneClause(parts[0], clauses[0]);
  }

  lemma FirstStretch(parts: seq<Tokens>, clauses: seq<Clause>)
    requires Spells(parts, clauses) && parts != []
    ensures ClauseAt(Concat(parts), 0) == Done(clauses[0], |parts[0]|)
  {
    hide ClauseAt;
    var ts := Concat(parts);
    assert OneClause(parts[0], clauses[0]);
    assert ts[0..|parts[0]|] == parts[0];
    if |parts| > 1 {
      assert OneClause(parts[1], clauses[1]);
      StartOfClause(parts[1], 0);
      assert Concat(parts[1..]) == parts[1] + Concat(parts[1..][1..]);
      assert ts[|parts[0]|] == parts[1][0];
    }
    PutIn(parts[0], clauses[0], ts, 0);
  }

  lemma {:induction false} ConcatBoth(a: seq<Tokens>, b: seq<Tokens>)
    ensures Concat(a + b) == Concat(a) + Concat(b)
  {
    if a == [] {
      assert a + b == b;
    } else {
      assert (a + b)[1..] == a[1..] + b;
      ConcatBoth(a[1..], b);
    }
  }

  /** One query after another is a query, with the clauses of both. */
  lemma QueriesJoin(a: Tokens, b: Tokens)
    requires QueryAt(a).Done? && QueryAt(b).Done?
    ensures QueryAt(a + b) == Done(QueryAt(a).value + QueryAt(b).value, |a + b|)
  {
    hide QueryAt, Spells, Concat;
    QueryIsClauses(a, QueryAt(a).value);
    QueryIsClauses(b, QueryAt(b).value);
    var p :| Spells(p, QueryAt(a).value) && Concat(p) == a;
    var q :| Spells(q, QueryAt(b).value) && Concat(q) == b;
    ConcatBoth(p, q);
    SpellsBoth(p, QueryAt(a).value, q, QueryAt(b).value);
    QueryIsClauses(a + b, QueryAt(a).value + QueryAt(b).value);
  }

  lemma SpellsBoth(p: seq<Tokens>, a: seq<Clause>, q: seq<Tokens>, b: seq<Clause>)
    requires Spells(p, a) && Spells(q, b)
    ensures Spells(p + q, a + b)
  {
    hide OneClause;
  }
}
