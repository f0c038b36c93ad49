/** What a clause parser looks at: the tokens it takes, and of the next one only whether it
    goes on. So a query is the same clauses as its stretches are one by one. */
module ClauseLocality {
  import opened Wrappers
  import opened Syntax
  import opened Grammar
  import C = Consumption
  import opened Patterns
  import opened PatternLocality
  import opened Clauses

  // ---------------------------------------------------------------------------
  // Parts of clauses
  // ---------------------------------------------------------------------------

  lemma TemporalAlike(w: Twins, n: nat)
    requires n <= |w.ts| && Stays(w, n, TemporalAt(w.ts, n))
    ensures Same(w, TemporalAt(w.ts, n), TemporalAt(w.us, n + w.d))
  {
    hide TemporalAt, BoundsAt, Alike;
    TailHead(w, n);
    OptionalTokens(w, n);
    if TokenAt(w.ts, n, Word(Keyword.At)) {
      AsOfIs(w.ts, n);
      AsOfIs(w.us, n + w.d);
      AtTimeAlike(w, n);
    } else if TokenAt(w.ts, n, Word(Between)) {
      BetweenIs(w.ts, n);
      BetweenIs(w.us, n + w.d);
      BoundsAlike(w, n);
    } else {
      NoTemporal(w.ts, n);
      NoTemporal(w.us, n + w.d);
    }
  }

  lemma OptionalTokens(w: Twins, n: nat)
    requires Alike(w) && w.lo <= n <= w.hi
    ensures 0 <= n + w.d
    ensures TokenAt(w.us, n + w.d, Word(Keyword.At)) == TokenAt(w.ts, n, Word(Keyword.At))
    ensures TokenAt(w.us, n + w.d, Word(Between)) == TokenAt(w.ts, n, Word(Between))
  {
  }

  /** An expression that stops before AND and OR. */
  function BoundAt(ts: Tokens, n: nat): (r: Step<Expression>)
    requires n <= |ts|
    ensures r.Done? ==> n < r.pos <= |ts|
  {
    match ParseBp(ts[n..], 4)
    case Ok(e, rest) => Done(e, |ts| - |rest|)
    case Err(e) => Stuck(e)
  }

  function BoundsAt(ts: Tokens, n: nat): (r: Step<Option<TemporalPredicate>>)
    requires n <= |ts|
    ensures r.Done? ==> n < r.pos <= |ts|
  {
    var (_, a) :- ExpectAt(ts, n, Word(Between));
    var (_, b) :- ExpectAt(ts, a, Word(Time));
    var (start, c) :- BoundAt(ts, b);
    var (_, d) :- ExpectAt(ts, c, And);
    var (end, e) :- BoundAt(ts, d);
    Done(Some(BetweenTimes(start, end)), e)
  }

  lemma NoTemporal(ts: Tokens, n: nat)
    requires n <= |ts| && !TokenAt(ts, n, Word(Keyword.At)) && !TokenAt(ts, n, Word(Between))
    ensures TemporalAt(ts, n) == Done(None, n)
  {
  }

  /** The tokens after the first two from `n` on. */
  lemma AfterTwo(ts: Tokens, n: nat)
    requires n <= |ts|
    ensures n < |ts| ==> ts[n..][1..] == ts[n + 1..]
    ensures n + 1 < |ts| ==> ts[n..][1..][1..] == ts[n + 2..]
  {
  }

  lemma AsOfIs(ts: Tokens, n: nat)
    requires TokenAt(ts, n, Word(Keyword.At))
    ensures var r := AtTimeAt(ts, n);
            && (TemporalAt(ts, n).Done? <==> r.Done?)
            && (r.Done? ==> r.value.Some? && TemporalAt(ts, n) == Done(Some(AsOf(r.value.value)), r.pos))
  {
    hide ParseBp;
    AfterTwo(ts, n);
  }

  lemma BetweenIs(ts: Tokens, n: nat)
    requires TokenAt(ts, n, Word(Between))
    ensures var r := BoundsAt(ts, n);
            && (TemporalAt(ts, n).Done? <==> r.Done?)
            && (r.Done? ==> TemporalAt(ts, n) == r)
  {
    hide ParseBp;
    AfterTwo(ts, n);
    if TokenAt(ts, n + 1, Word(Time)) && ParseBp(ts[n + 2..], 4).Ok? {
      RestIs(ts, n + 2);
      AfterTwo(ts, BoundAt(ts, n + 2).pos);
    }
  }

  lemma RestIs(ts: Tokens, n: nat)
    requires n <= |ts| && ParseBp(ts[n..], 4).Ok?
    ensures ParseBp(ts[n..], 4).rest == ts[BoundAt(ts, n).pos..]
  {
    hide ParseBp;
    var used := C.ExpressionProgress(ts[n..], 4);
    assert ts[n..][used..] == ts[n + used..];
  }

  lemma BoundAlike(w: Twins, n: nat)
    requires n <= |w.ts| && Stays(w, n, BoundAt(w.ts, n))
    ensures Same(w, BoundAt(w.ts, n), BoundAt(w.us, n + w.d))
  {
    hide ParseBp, Alike;
    BpAlike(w, n, 4, BoundAt(w.ts, n).pos);
  }

  lemma BoundsAlike(w: Twins, n: nat)
    requires n <= |w.ts| && Stays(w, n, BoundsAt(w.ts, n))
    ensures Same(w, BoundsAt(w.ts, n), BoundsAt(w.us, n + w.d))
  {
    hide BoundAt;
    BoundAlike(w, n + 2);
    BoundAlike(w, BoundAt(w.ts, n + 2).pos + 1);
  }

  lemma ExprAfterAlike(w: Twins, n: nat, keyword: Keyword)
    requires n <= |w.ts| && Word(keyword) !in STARTS && Stays(w, n, ExprAfter(w.ts, n, keyword))
    ensures Same(w, ExprAfter(w.ts, n, keyword), ExprAfter(w.us, n + w.d, keyword))
  {
    hide ExprAt;
    if TokenAt(w.ts, n, Word(keyword)) {
      ExprAlike(w, n + 1);
    }
  }

  lemma ReturnItemAlike(w: Twins, n: nat)
    requires n <= |w.ts| && Stays(w, n, ReturnItemAt(w.ts, n))
    ensures Same(w, ReturnItemAt(w.ts, n), ReturnItemAt(w.us, n + w.d))
  {
    hide ExprAt;
    ExprAlike(w, n);
  }

  lemma {:induction false} ReturnItemsAlike(w: Twins, n: nat, before: seq<ReturnItem>)
    requires n <= |w.ts| && Stays(w, n, ReturnItemsAt(w.ts, n, before))
    ensures Same(w, ReturnItemsAt(w.ts, n, before), ReturnItemsAt(w.us, n + w.d, before))
    decreases |w.ts| - n
  {
    hide ReturnItemAt;
    ReturnItemAlike(w, n);
    var item := ReturnItemAt(w.ts, n);
    if TokenAt(w.ts, item.pos, Comma) {
      ReturnItemsAlike(w, item.pos + 1, before + [item.value]);
    }
  }

  lemma OrderItemAlike(w: Twins, n: nat)
    requires n <= |w.ts| && Stays(w, n, OrderItemAt(w.ts, n))
    ensures Same(w, OrderItemAt(w.ts, n), OrderItemAt(w.us, n + w.d))
  {
    hide ExprAt;
    ExprAlike(w, n);
  }

  lemma {:induction false} OrderItemsAlike(w: Twins, n: nat, before: seq<OrderItem>)
    requires n <= |w.ts| && Stays(w, n, OrderItemsAt(w.ts, n, before))
    ensures Same(w, OrderItemsAt(w.ts, n, before), OrderItemsAt(w.us, n + w.d, before))
    decreases |w.ts| - n
  {
    hide OrderItemAt;
    OrderItemAlike(w, n);
    var item := OrderItemAt(w.ts, n);
    if TokenAt(w.ts, item.pos, Comma) {
      OrderItemsAlike(w, item.pos + 1, before + [item.value]);
    }
  }

  lemma OrderAlike(w: Twins, n: nat)
    requires n <= |w.ts| && Stays(w, n, OrderAt(w.ts, n))
    ensures Same(w, OrderAt(w.ts, n), OrderAt(w.us, n + w.d))
  {
    hide OrderItemsAt;
    if TokenAt(w.ts, n, Word(Order)) {
      OrderItemsAlike(w, n + 2, []);
    }
  }

  lemma {:induction false} ChainAlike(w: Twins, n: nat, base: Expression)
    requires n <= |w.ts| && Stays(w, n, ChainAt(w.ts, n, base))
    ensures Same(w, ChainAt(w.ts, n, base), ChainAt(w.us, n + w.d, base))
    decreases |w.ts| - n
  {
    if TokenAt(w.ts, n, Dot) {
      ChainAlike(w, n + 2, Property(base, w.ts[n + 1].name));
    }
  }

  lemma SetItemAlike(w: Twins, n: nat)
    requires n <= |w.ts| && Stays(w, n, SetItemAt(w.ts, n))
    ensures Same(w, SetItemAt(w.ts, n), SetItemAt(w.us, n + w.d))
  {
    hide ChainAt, ExprAt;
    ChainAlike(w, n + 1, Variable(w.ts[n].name));
    ExprAlike(w, ChainAt(w.ts, n + 1, Variable(w.ts[n].name)).pos + 1);
  }

  lemma {:induction false} SetItemsAlike(w: Twins, n: nat, before: seq<SetItem>)
    requires n <= |w.ts| && Stays(w, n, SetItemsAt(w.ts, n, before))
    ensures Same(w, SetItemsAt(w.ts, n, before), SetItemsAt(w.us, n + w.d, before))
    decreases |w.ts| - n
  {
    hide SetItemAt;
    SetItemAlike(w, n);
    var item := SetItemAt(w.ts, n);
    if TokenAt(w.ts, item.pos, Comma) {
      SetItemsAlike(w, item.pos + 1, before + [item.value]);
    }
  }

  lemma RemoveItemAlike(w: Twins, n: nat)
    requires n <= |w.ts| && Stays(w, n, RemoveItemAt(w.ts, n))
    ensures Same(w, RemoveItemAt(w.ts, n), RemoveItemAt(w.us, n + w.d))
  {
  }

  lemma {:induction false} RemoveItemsAlike(w: Twins, n: nat, before: seq<RemoveItem>)
    requires n <= |w.ts| && Stays(w, n, RemoveItemsAt(w.ts, n, before))
    ensures Same(w, RemoveItemsAt(w.ts, n, before), RemoveItemsAt(w.us, n + w.d, before))
    decreases |w.ts| - n
  {
    hide RemoveItemAt;
    RemoveItemAlike(w, n);
    var item := RemoveItemAt(w.ts, n);
    if TokenAt(w.ts, item.pos, Comma) {
      RemoveItemsAlike(w, item.pos + 1, before + [item.value]);
    }
  }

  lemma {:induction false} ExprsAlike(w: Twins, n: nat, before: seq<Expression>)
    requires n <= |w.ts| && Stays(w, n, ExprsAt(w.ts, n, before))
    ensures Same(w, ExprsAt(w.ts, n, before), ExprsAt(w.us, n + w.d, before))
    decreases |w.ts| - n
  {
    hide ExprAt;
    ExprAlike(w, n);
    var item := ExprAt(w.ts, n);
    if TokenAt(w.ts, item.pos, Comma) {
      ExprsAlike(w, item.pos + 1, before + [item.value]);
    }
  }

  lemma AtTimeAlike(w: Twins, n: nat)
    requires n <= |w.ts| && Stays(w, n, AtTimeAt(w.ts, n))
    ensures Same(w, AtTimeAt(w.ts, n), AtTimeAt(w.us, n + w.d))
  {
    hide ExprAt;
    if TokenAt(w.ts, n, Word(Keyword.At)) {
      ExprAlike(w, n + 2);
    }
  }

  lemma ParticipantAlike(w: Twins, n: nat)
    requires n <= |w.ts| && Stays(w, n, ParticipantAt(w.ts, n))
    ensures Same(w, ParticipantAt(w.ts, n), ParticipantAt(w.us, n + w.d))
  {
    hide AtTimeAt;
    AtTimeAlike(w, n + 1);
  }

  lemma {:induction false} ParticipantsAlike(w: Twins, n: nat, before: seq<Participant>)
    requires n <= |w.ts| && Stays(w, n, ParticipantsAt(w.ts, n, before))
    ensures Same(w, ParticipantsAt(w.ts, n, before), ParticipantsAt(w.us, n + w.d, before))
    decreases |w.ts| - n
  {
    hide ParticipantAt;
    ParticipantAlike(w, n);
    var item := ParticipantAt(w.ts, n);
    if TokenAt(w.ts, item.pos, Comma) {
      ParticipantsAlike(w, item.pos + 1, before + [item.value]);
    }
  }

  lemma ParticipantListAlike(w: Twins, n: nat)
    requires n <= |w.ts| && Stays(w, n, ParticipantListAt(w.ts, n))
    ensures Same(w, ParticipantListAt(w.ts, n), ParticipantListAt(w.us, n + w.d))
  {
    hide ParticipantsAt;
    if !TokenAt(w.ts, n + 1, RParen) {
      ParticipantsAlike(w, n + 1, []);
    }
  }

  // ---------------------------------------------------------------------------
  // Clauses
  // ---------------------------------------------------------------------------

  lemma MatchAlike(w: Twins, n: nat, optional: bool)
    requires n <= |w.ts| && Stays(w, n, MatchAt(w.ts, n, optional))
    ensures Same(w, MatchAt(w.ts, n, optional), MatchAt(w.us, n + w.d, optional))
  {
    hide PatternAt, TemporalAt, ExprAfter;
    PatternAlike(w, n + 1);
    var a := PatternAt(w.ts, n + 1).pos;
    TemporalAlike(w, a);
    ExprAfterAlike(w, TemporalAt(w.ts, a).pos, Where);
  }

  /** The items of RETURN and WITH, after an optional DISTINCT. */
  lemma ItemsAlike(w: Twins, n: nat)
    requires n <= |w.ts| && Stays(w, n, ReturnItemsAt(w.ts, if TokenAt(w.ts, n, Distinct) then n + 1 else n, []))
    ensures TokenAt(w.us, n + w.d, Distinct) == TokenAt(w.ts, n, Distinct)
    ensures var m := if TokenAt(w.ts, n, Distinct) then n + 1 else n;
            Same(w, ReturnItemsAt(w.ts, m, []), ReturnItemsAt(w.us, m + w.d, []))
  {
    hide ReturnItemsAt;
    ReturnItemsAlike(w, if TokenAt(w.ts, n, Distinct) then n + 1 else n, []);
  }

  lemma ReturnAlike(w: Twins, n: nat)
    requires n <= |w.ts| && Stays(w, n, ReturnAt(w.ts, n))
    ensures Same(w, ReturnAt(w.ts, n), ReturnAt(w.us, n + w.d))
  {
    hide ReturnItemsAt, OrderAt, ExprAfter;
    ItemsAlike(w, n + 1);
    var a := ReturnItemsAt(w.ts, if TokenAt(w.ts, n + 1, Distinct) then n + 2 else n + 1, []).pos;
    OrderAlike(w, a);
    var b := OrderAt(w.ts, a).pos;
    ExprAfterAlike(w, b, Skip);
    ExprAfterAlike(w, ExprAfter(w.ts, b, Skip).pos, Limit);
  }

  lemma WithAlike(w: Twins, n: nat)
    requires n <= |w.ts| && Stays(w, n, WithAt(w.ts, n))
    ensures Same(w, WithAt(w.ts, n), WithAt(w.us, n + w.d))
  {
    hide ReturnItemsAt, ExprAfter;
    ItemsAlike(w, n + 1);
    ExprAfterAlike(w, ReturnItemsAt(w.ts, if TokenAt(w.ts, n + 1, Distinct) then n + 2 else n + 1, []).pos, Where);
  }

  lemma UnwindAlike(w: Twins, n: nat)
    requires n <= |w.ts| && Stays(w, n, UnwindAt(w.ts, n))
    ensures Same(w, UnwindAt(w.ts, n), UnwindAt(w.us, n + w.d))
  {
    hide ExprAt;
    ExprAlike(w, n + 1);
  }

  lemma ActionAlike(w: Twins, n: nat, before: MergeActions, onMatch: bool)
    requires n <= |w.ts| && Stays(w, n, ActionAt(w.ts, n, before, onMatch))
    ensures Same(w, ActionAt(w.ts, n, before, onMatch), ActionAt(w.us, n + w.d, before, onMatch))
  {
    hide SetItemsAt;
    SetItemsAlike(w, n + 1, if onMatch then before.onMatch else before.onCreate);
  }

  /** ON MATCH and ON CREATE are told apart by a second token. Where the stretch ends there is
      no ON, so no second token matters. */
  lemma {:induction false} ActionsAlike(w: Twins, n: nat, before: MergeActions)
    requires n <= |w.ts| && Stays(w, n, ActionsAt(w.ts, n, before)) && Over(w.ts, w.hi)
    requires ActionsAt(w.ts, n, before).pos == w.hi
    ensures Same(w, ActionsAt(w.ts, n, before), ActionsAt(w.us, n + w.d, before))
    decreases |w.ts| - n
  {
    hide ActionAt;
    if TokenAt(w.ts, n, Word(On)) && (TokenAt(w.ts, n + 1, Word(Match)) || TokenAt(w.ts, n + 1, Word(Create))) {
      ActionAlike(w, n + 2, before, w.ts[n + 1] == Word(Match));
      var action := ActionAt(w.ts, n + 2, before, w.ts[n + 1] == Word(Match));
      ActionsAlike(w, action.pos, action.value);
    }
  }

  lemma MergeAlike(w: Twins, n: nat)
    requires n <= |w.ts| && Stays(w, n, MergeAt(w.ts, n)) && Over(w.ts, w.hi) && MergeAt(w.ts, n).pos == w.hi
    ensures Same(w, MergeAt(w.ts, n), MergeAt(w.us, n + w.d))
  {
    hide PatternAt, ActionsAt;
    PatternAlike(w, n + 1);
    ActionsAlike(w, PatternAt(w.ts, n + 1).pos, MergeActions([], []));
  }

  lemma IndexAlike(w: Twins, n: nat, onEdges: bool)
    requires n <= |w.ts| && Stays(w, n, IndexAt(w.ts, n, onEdges))
    ensures Same(w, IndexAt(w.ts, n, onEdges), IndexAt(w.us, n + w.d, onEdges))
  {
    hide IndexTargetAt;
    IndexTargetAlike(w, if TokenAt(w.ts, n + 1, Word(On)) then n + 1 else n + 2);
  }

  lemma IndexTargetAlike(w: Twins, n: nat)
    requires n <= |w.ts| && Stays(w, n, IndexTargetAt(w.ts, n))
    ensures Same(w, IndexTargetAt(w.ts, n), IndexTargetAt(w.us, n + w.d))
  {
  }

  lemma SnapshotSourceAlike(w: Twins, n: nat)
    requires n <= |w.ts| && Stays(w, n, SnapshotSourceAt(w.ts, n))
    ensures Same(w, SnapshotSourceAt(w.ts, n), SnapshotSourceAt(w.us, n + w.d))
  {
    hide MatchAt, ReturnItemsAt;
    MatchAlike(w, n + 1, false);
    ReturnItemsAlike(w, MatchAt(w.ts, n + 1, false).pos + 1, []);
  }

  lemma SnapshotAlike(w: Twins, n: nat)
    requires n <= |w.ts| && Stays(w, n, SnapshotAt(w.ts, n))
    ensures Same(w, SnapshotAt(w.ts, n), SnapshotAt(w.us, n + w.d))
  {
    hide NodePatternAt, AtTimeAt, SnapshotSourceAt;
    NodePatternAlike(w, n + 1);
    var a := NodePatternAt(w.ts, n + 1).pos;
    AtTimeAlike(w, a);
    SnapshotSourceAlike(w, AtTimeAt(w.ts, a).pos);
  }

  lemma EndsAlike(w: Twins, n: nat)
    requires n <= |w.ts| && Stays(w, n, EndsAt(w.ts, n))
    ensures Same(w, EndsAt(w.ts, n), EndsAt(w.us, n + w.d))
  {
    hide ParticipantListAt;
    ParticipantListAlike(w, n + 1);
    ParticipantListAlike(w, ParticipantListAt(w.ts, n + 1).pos + 1);
  }

  lemma HyperedgeAlike(w: Twins, n: nat)
    requires n <= |w.ts| && Stays(w, n, HyperedgeAt(w.ts, n))
    ensures Same(w, HyperedgeAt(w.ts, n), HyperedgeAt(w.us, n + w.d))
  {
    hide NodeHeadAt, EndsAt;
    NodeHeadAlike(w, n + 1);
    EndsAlike(w, NodeHeadAt(w.ts, n + 1).pos + 1);
  }

  lemma MatchHyperedgeAlike(w: Twins, n: nat)
    requires n <= |w.ts| && Stays(w, n, MatchHyperedgeAt(w.ts, n))
    ensures Same(w, MatchHyperedgeAt(w.ts, n), MatchHyperedgeAt(w.us, n + w.d))
  {
    hide NodeHeadAt;
    NodeHeadAlike(w, n + 1);
  }


  lemma CreateClauseAlike(w: Twins, n: nat)
    requires n < |w.ts| && Stays(w, n, CreateClauseAt(w.ts, n))
    ensures Same(w, CreateClauseAt(w.ts, n), CreateClauseAt(w.us, n + w.d))
  {
    hide IndexAt, EdgeIndexAt, HyperedgeAt, SnapshotAt, CreateAt;
    if TokenAt(w.ts, n + 1, Word(Index)) {
      IndexAlike(w, n + 1, false);
    } else if TokenAt(w.ts, n + 1, Word(Edge)) && TokenAt(w.ts, n + 2, Word(Index)) {
      EdgeIndexAlike(w, n + 1);
    } else if TokenAt(w.ts, n + 1, Word(Hyperedge)) {
      HyperedgeAlike(w, n + 1);
    } else if TokenAt(w.ts, n + 1, Word(Snapshot)) {
      SnapshotAlike(w, n + 1);
    } else {
      CreateAlike(w, n);
    }
  }

  lemma EdgeIndexAlike(w: Twins, n: nat)
    requires n <= |w.ts| && Stays(w, n, EdgeIndexAt(w.ts, n))
    ensures Same(w, EdgeIndexAt(w.ts, n), EdgeIndexAt(w.us, n + w.d))
  {
    hide IndexAt;
    IndexAlike(w, n + 1, true);
  }

  /** A pattern starts with a parenthesis, so two tokens tell the kinds of CREATE apart. */
  lemma CreateAlike(w: Twins, n: nat)
    requires n <= |w.ts| && Stays(w, n, CreateAt(w.ts, n))
    ensures Same(w, CreateAt(w.ts, n), CreateAt(w.us, n + w.d))
    ensures TokenAt(w.us, n + 1 + w.d, LParen)
  {
    hide PatternAt;
    PatternStarts(w.ts, n + 1);
    PatternAlike(w, n + 1);
  }

  lemma PatternStarts(ts: Tokens, n: nat)
    requires n <= |ts| && PatternAt(ts, n).Done?
    ensures TokenAt(ts, n, LParen)
  {
    assert NodePatternAt(ts, n).Done?;
    hide LabelsAt, MapAt, ElementsAt;
  }

  lemma SetAlike(w: Twins, n: nat)
    requires n <= |w.ts| && Stays(w, n, SetClauseAt(w.ts, n))
    ensures Same(w, SetClauseAt(w.ts, n), SetClauseAt(w.us, n + w.d))
  {
    hide SetItemsAt;
    SetItemsAlike(w, n + 1, []);
  }

  lemma RemoveAlike(w: Twins, n: nat)
    requires n <= |w.ts| && Stays(w, n, RemoveClauseAt(w.ts, n))
    ensures Same(w, RemoveClauseAt(w.ts, n), RemoveClauseAt(w.us, n + w.d))
  {
    hide RemoveItemsAt;
    RemoveItemsAlike(w, n + 1, []);
  }

  lemma DeleteAlike(w: Twins, n: nat, detach: bool)
    requires n <= |w.ts| && Stays(w, n, DeleteClauseAt(w.ts, n, detach))
    ensures Same(w, DeleteClauseAt(w.ts, n, detach), DeleteClauseAt(w.us, n + w.d, detach))
  {
    hide ExprsAt;
    ExprsAlike(w, n + 1, []);
  }

  lemma DropIndexAlike(w: Twins, n: nat)
    requires n <= |w.ts| && Stays(w, n, DropIndexAt(w.ts, n))
    ensures Same(w, DropIndexAt(w.ts, n), DropIndexAt(w.us, n + w.d))
  {
  }

  /** The clauses whose keyword is followed by one list or one expression. */
  lemma ListClauseAlike(w: Twins, n: nat)
    requires n < |w.ts| && w.ts[n] in {Word(Set), Word(Remove), Word(Delete), Word(Detach), Word(Drop), Word(Unwind)}
    requires Stays(w, n, ClauseAt(w.ts, n))
    ensures Same(w, ClauseAt(w.ts, n), ClauseAt(w.us, n + w.d))
  {
    hide SetClauseAt, RemoveClauseAt, DeleteClauseAt, DropIndexAt, UnwindAt;
    if w.ts[n] == Word(Set) {
      SetAlike(w, n);
    } else if w.ts[n] == Word(Remove) {
      RemoveAlike(w, n);
    } else if w.ts[n] == Word(Delete) {
      DeleteAlike(w, n, false);
    } else if w.ts[n] == Word(Detach) {
      DeleteAlike(w, n + 1, true);
    } else if w.ts[n] == Word(Unwind) {
      UnwindAlike(w, n);
    } else {
      DropIndexAlike(w, n);
    }
  }

  lemma MatchClauseAlike(w: Twins, n: nat)
    requires n < |w.ts| && (w.ts[n] == Word(Match) || w.ts[n] == Word(Optional))
    requires Stays(w, n, ClauseAt(w.ts, n))
    ensures Same(w, ClauseAt(w.ts, n), ClauseAt(w.us, n + w.d))
  {
    hide MatchAt, MatchHyperedgeAt;
    if w.ts[n] == Word(Optional) {
      MatchAlike(w, n + 1, true);
    } else if TokenAt(w.ts, n + 1, Word(Hyperedge)) {
      MatchHyperedgeAlike(w, n + 1);
    } else {
      MatchAlike(w, n, false);
    }
  }

  /** A parsed clause is the same clause wherever its tokens stand, and whatever clause comes
      next, or none. */
  lemma ClauseAlike(w: Twins, n: nat)
    requires n < |w.ts| && Stays(w, n, ClauseAt(w.ts, n)) && ClauseAt(w.ts, n).pos == w.hi && Over(w.ts, w.hi)
    ensures Same(w, ClauseAt(w.ts, n), ClauseAt(w.us, n + w.d))
  {
    hide MatchClauseAt, ReturnAt, CreateClauseAt, SetClauseAt, RemoveClauseAt, DeleteClauseAt, WithAt, MergeAt, UnwindAt, DropIndexAt,
         MatchHyperedgeAt;
    var first := w.ts[n];
    if first == Word(Match) || first == Word(Optional) {
      MatchClauseAlike(w, n);
    } else if first == Word(Return) {
      ReturnAlike(w, n);
    } else if first == Word(Create) {
      CreateClauseAlike(w, n);
    } else if first == Word(With) {
      WithAlike(w, n);
    } else if first == Word(Merge) {
      MergeAlike(w, n);
    } else {
      ListClauseAlike(w, n);
    }
  }
}
