/** What a pattern parser looks at: the tokens it takes and the next one, and of that one only
    whether it goes on. */
module PatternLocality {
  import opened Syntax
  import opened Grammar
  import opened Consumption
  import opened Locality
  import opened Patterns

  /** The keywords a clause can start with. */
  const STARTS := {Word(Optional), Word(Match), Word(Return), Word(Create), Word(Set), Word(Remove), Word(Delete),
                   Word(Detach), Word(With), Word(Merge), Word(Unwind), Word(Drop)}

  /** At the end of the tokens, or at a token that starts a clause. */
  predicate Over(ts: Tokens, n: nat) {
    n == |ts| || (n < |ts| && ts[n] in STARTS)
  }

  /** Two token streams and a stretch of the first, from `lo` to `hi`, that the second has as
      well, `d` further on. */
  datatype Twins = Twins(ts: Tokens, us: Tokens, d: int, lo: nat, hi: nat)

  /** The stretches are equal, and after them comes the same token, or in both streams an end or
      a clause. */
  predicate Alike(w: Twins) {
    && w.lo <= w.hi <= |w.ts| && 0 <= w.lo + w.d && w.hi + w.d <= |w.us|
    && (forall i | w.lo <= i < w.hi :: w.us[i + w.d] == w.ts[i])
    && ((Over(w.ts, w.hi) && Over(w.us, w.hi + w.d))
        || (w.hi < |w.ts| && w.hi + w.d < |w.us| && w.us[w.hi + w.d] == w.ts[w.hi]))
  }

  /** A parse of the first stream that stays in the stretch. */
  ghost predicate Stays<T>(w: Twins, n: nat, r: Step<T>) {
    Alike(w) && w.lo <= n && r.Done? && r.pos <= w.hi
  }

  /** The second stream gives the same value at the place that corresponds. */
  ghost predicate Same<T>(w: Twins, r: Step<T>, s: Step<T>) {
    r.Done? && s.Done? && s.value == r.value && s.pos == r.pos + w.d
  }

  lemma TailHead(w: Twins, m: nat)
    requires Alike(w) && w.lo <= m <= w.hi
    ensures 0 <= m + w.d <= |w.us|
    ensures SameHead(w.ts[m..], w.us[m + w.d..])
  {
  }

  lemma TailSplit(w: Twins, n: nat, m: nat)
    requires Alike(w) && w.lo <= n <= m <= w.hi
    ensures w.ts[n..] == w.ts[n..m] + w.ts[m..]
    ensures w.us[n + w.d..] == w.ts[n..m] + w.us[m + w.d..]
  {
    assert w.us[n + w.d..m + w.d] == w.ts[n..m];
    assert w.us[n + w.d..] == w.us[n + w.d..m + w.d] + w.us[m + w.d..];
  }

  lemma BpAlike(w: Twins, n: nat, minBp: nat, m: nat)
    requires Alike(w) && w.lo <= n <= m <= w.hi && ParseBp(w.ts[n..], minBp).Ok?
    requires m == |w.ts| - |ParseBp(w.ts[n..], minBp).rest|
    ensures 0 <= n + w.d <= m + w.d <= |w.us| && ParseBp(w.ts[n..], minBp).rest == w.ts[m..]
    ensures ParseBp(w.us[n + w.d..], minBp) == Ok(ParseBp(w.ts[n..], minBp).value, w.us[m + w.d..])
  {
    hide ParseBp, Alike;
    var used := ExpressionProgress(w.ts[n..], minBp);
    assert w.ts[n..][used..] == w.ts[n + used..];
    TailHead(w, n);
    TailHead(w, m);
    TailSplit(w, n, m);
    OneTokenLookahead(w.ts[n..m], w.ts[m..], w.us[m + w.d..], minBp, ParseBp(w.ts[n..], minBp).value);
  }

  lemma ExprAlike(w: Twins, n: nat)
    requires n <= |w.ts| && Stays(w, n, ExprAt(w.ts, n))
    ensures Same(w, ExprAt(w.ts, n), ExprAt(w.us, n + w.d))
  {
    hide ParseBp, Alike;
    BpAlike(w, n, 0, ExprAt(w.ts, n).pos);
  }

  // ---------------------------------------------------------------------------
  // Map literals and nodes
  // ---------------------------------------------------------------------------

  lemma EntryAlike(w: Twins, n: nat)
    requires n <= |w.ts| && Stays(w, n, EntryAt(w.ts, n))
    ensures Same(w, EntryAt(w.ts, n), EntryAt(w.us, n + w.d))
  {
    hide ExprAt;
    ExprAlike(w, n + 2);
  }

  lemma {:induction false} EntriesAlike(w: Twins, n: nat, before: MapLiteral)
    requires n <= |w.ts| && Stays(w, n, EntriesAt(w.ts, n, before))
    ensures Same(w, EntriesAt(w.ts, n, before), EntriesAt(w.us, n + w.d, before))
    decreases |w.ts| - n
  {
    hide EntryAt;
    EntryAlike(w, n);
    var entry := EntryAt(w.ts, n);
    if TokenAt(w.ts, entry.pos, Comma) {
      EntriesAlike(w, entry.pos + 1, before + [entry.value]);
    }
  }

  lemma MapLiteralAlike(w: Twins, n: nat)
    requires n <= |w.ts| && Stays(w, n, MapLiteralAt(w.ts, n))
    ensures Same(w, MapLiteralAt(w.ts, n), MapLiteralAt(w.us, n + w.d))
  {
    hide EntriesAt;
    if !TokenAt(w.ts, n + 1, Punct(RBrace)) {
      EntriesAlike(w, n + 1, []);
    }
  }

  lemma MapAlike(w: Twins, n: nat)
    requires n <= |w.ts| && Stays(w, n, MapAt(w.ts, n))
    ensures Same(w, MapAt(w.ts, n), MapAt(w.us, n + w.d))
  {
    hide MapLiteralAt;
    if TokenAt(w.ts, n, Punct(LBrace)) {
      MapLiteralAlike(w, n);
    }
  }

  lemma {:induction false} LabelsAlike(w: Twins, n: nat, before: seq<string>)
    requires n <= |w.ts| && Stays(w, n, LabelsAt(w.ts, n, before))
    ensures Same(w, LabelsAt(w.ts, n, before), LabelsAt(w.us, n + w.d, before))
    decreases |w.ts| - n
  {
    if TokenAt(w.ts, n, Punct(Colon)) {
      LabelsAlike(w, n + 2, before + [w.ts[n + 1].name]);
    }
  }

  lemma NodeHeadAlike(w: Twins, n: nat)
    requires n <= |w.ts| && Stays(w, n, NodeHeadAt(w.ts, n))
    ensures Same(w, NodeHeadAt(w.ts, n), NodeHeadAt(w.us, n + w.d))
  {
    hide LabelsAt;
    LabelsAlike(w, if IsIdent(w.ts, n + 1) then n + 2 else n + 1, []);
  }

  lemma NodePatternAlike(w: Twins, n: nat)
    requires n <= |w.ts| && Stays(w, n, NodePatternAt(w.ts, n))
    ensures Same(w, NodePatternAt(w.ts, n), NodePatternAt(w.us, n + w.d))
  {
    hide NodeHeadAt, MapAt;
    NodeHeadAlike(w, n);
    MapAlike(w, NodeHeadAt(w.ts, n).pos);
  }

  // ---------------------------------------------------------------------------
  // Relationships
  // ---------------------------------------------------------------------------

  lemma StarAlike(w: Twins, n: nat)
    requires n <= |w.ts| && Stays(w, n, StarAt(w.ts, n))
    ensures Same(w, StarAt(w.ts, n), StarAt(w.us, n + w.d))
  {
    hide HopBoundAt;
    if TokenAt(w.ts, n, Star) {
      if TokenAt(w.ts, n + 1, Punct(DoubleDot)) {
        HopBoundAlike(w, n + 2);
      } else {
        HopBoundAlike(w, n + 1);
        var first := HopBoundAt(w.ts, n + 1);
        if first.value.Some? && TokenAt(w.ts, first.pos, Punct(DoubleDot)) {
          HopBoundAlike(w, first.pos + 1);
        }
      }
    }
  }

  lemma HopBoundAlike(w: Twins, n: nat)
    requires n <= |w.ts| && Stays(w, n, HopBoundAt(w.ts, n))
    ensures Same(w, HopBoundAt(w.ts, n), HopBoundAt(w.us, n + w.d))
  {
  }

  lemma {:induction false} MoreTypesAlike(w: Twins, n: nat, before: seq<string>)
    requires n <= |w.ts| && Stays(w, n, MoreTypesAt(w.ts, n, before))
    ensures Same(w, MoreTypesAt(w.ts, n, before), MoreTypesAt(w.us, n + w.d, before))
    decreases |w.ts| - n
  {
    if TokenAt(w.ts, n, Punct(Pipe)) {
      MoreTypesAlike(w, n + 2, before + [w.ts[n + 1].name]);
    }
  }

  lemma TypesAlike(w: Twins, n: nat)
    requires n <= |w.ts| && Stays(w, n, TypesAt(w.ts, n))
    ensures Same(w, TypesAt(w.ts, n), TypesAt(w.us, n + w.d))
  {
    hide MoreTypesAt;
    if TokenAt(w.ts, n, Punct(Colon)) {
      MoreTypesAlike(w, n + 2, [w.ts[n + 1].name]);
    }
  }

  lemma ContentAlike(w: Twins, n: nat)
    requires n <= |w.ts| && Stays(w, n, ContentAt(w.ts, n))
    ensures Same(w, ContentAt(w.ts, n), ContentAt(w.us, n + w.d))
  {
    hide TypesAt, StarAt, MapAt;
    var m := if IsIdent(w.ts, n) then n + 1 else n;
    TypesAlike(w, m);
    var a := TypesAt(w.ts, m).pos;
    StarAlike(w, a);
    MapAlike(w, StarAt(w.ts, a).pos);
  }

  lemma BracketsAlike(w: Twins, n: nat)
    requires n <= |w.ts| && Stays(w, n, BracketsAt(w.ts, n))
    ensures Same(w, BracketsAt(w.ts, n), BracketsAt(w.us, n + w.d))
  {
    hide ContentAt;
    ContentAlike(w, n + 1);
  }

  lemma FromMinusAlike(w: Twins, n: nat)
    requires n <= |w.ts| && Stays(w, n, FromMinusAt(w.ts, n))
    ensures Same(w, FromMinusAt(w.ts, n), FromMinusAt(w.us, n + w.d))
  {
    hide BracketsAt;
    BracketsAlike(w, n + 1);
  }

  lemma IncomingAlike(w: Twins, n: nat)
    requires n <= |w.ts| && Stays(w, n, IncomingAt(w.ts, n))
    ensures Same(w, IncomingAt(w.ts, n), IncomingAt(w.us, n + w.d))
  {
    hide BracketsAt;
    BracketsAlike(w, n + 1);
  }

  lemma RelationshipAlike(w: Twins, n: nat)
    requires StartsRelationship(w.ts, n) && Stays(w, n, RelationshipAt(w.ts, n))
    ensures StartsRelationship(w.us, n + w.d)
    ensures Same(w, RelationshipAt(w.ts, n), RelationshipAt(w.us, n + w.d))
  {
    hide FromMinusAt, IncomingAt;
    if TokenAt(w.ts, n, Minus) {
      FromMinusAlike(w, n);
    } else if TokenAt(w.ts, n, Punct(ArrowLeft)) {
      IncomingAlike(w, n);
    }
  }

  // ---------------------------------------------------------------------------
  // Chains
  // ---------------------------------------------------------------------------

  lemma {:induction false} ElementsAlike(w: Twins, n: nat, before: seq<Element>)
    requires n <= |w.ts| && Stays(w, n, ElementsAt(w.ts, n, before))
    ensures Same(w, ElementsAt(w.ts, n, before), ElementsAt(w.us, n + w.d, before))
    decreases |w.ts| - n
  {
    hide RelationshipAt, NodePatternAt;
    if StartsRelationship(w.ts, n) {
      RelationshipAlike(w, n);
      var rel := RelationshipAt(w.ts, n);
      NodePatternAlike(w, rel.pos);
      var node := NodePatternAt(w.ts, rel.pos);
      ElementsAlike(w, node.pos, before + [rel.value] + [NodeElement(node.value)]);
    }
  }

  lemma PatternChainAlike(w: Twins, n: nat)
    requires n <= |w.ts| && Stays(w, n, PatternChainAt(w.ts, n))
    ensures Same(w, PatternChainAt(w.ts, n), PatternChainAt(w.us, n + w.d))
  {
    hide NodePatternAt, ElementsAt;
    NodePatternAlike(w, n);
    var node := NodePatternAt(w.ts, n);
    ElementsAlike(w, node.pos, [NodeElement(node.value)]);
  }

  lemma {:induction false} PatternChainsAlike(w: Twins, n: nat, before: seq<seq<Element>>)
    requires n <= |w.ts| && Stays(w, n, PatternChainsAt(w.ts, n, before))
    ensures Same(w, PatternChainsAt(w.ts, n, before), PatternChainsAt(w.us, n + w.d, before))
    decreases |w.ts| - n
  {
    hide PatternChainAt;
    PatternChainAlike(w, n);
    var chain := PatternChainAt(w.ts, n);
    if TokenAt(w.ts, chain.pos, Comma) {
      PatternChainsAlike(w, chain.pos + 1, before + [chain.value]);
    }
  }

  /** A parsed pattern is the same pattern wherever its tokens stand and whatever end or clause
      comes after them. */
  lemma PatternAlike(w: Twins, n: nat)
    requires n <= |w.ts| && Stays(w, n, PatternAt(w.ts, n))
    ensures Same(w, PatternAt(w.ts, n), PatternAt(w.us, n + w.d))
  {
    hide PatternChainsAt;
    PatternChainsAlike(w, n, []);
  }
}
