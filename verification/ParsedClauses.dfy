/** Every clause the parser takes from lexed tokens has a text, and so reads back. */
module ParsedClauses {
  import opened Wrappers
  import opened Syntax
  import opened Grammar
  import opened Printer
  import opened Patterns
  import opened PatternLocality
  import opened Clauses
  import opened ClausePrinter
  import opened ClauseRoundTrip
  import Q = Queries

  // ---------------------------------------------------------------------------
  // Expressions
  // ---------------------------------------------------------------------------

  lemma LexedFrom(ts: Tokens, n: nat)
    requires Lexed(ts) && n <= |ts|
    ensures Lexed(ts[n..])
  {
    assert forall i | 0 <= i < |ts[n..]| :: ts[n..][i] == ts[n + i];
  }

  lemma ExprGood(ts: Tokens, n: nat)
    requires Lexed(ts) && n <= |ts| && ExprAt(ts, n).Done?
    ensures Producible(ExprAt(ts, n).value)
  {
    hide ParseExpression, Built, Producible, Lexed;
    LexedFrom(ts, n);
    ExpressionProduces(ts[n..]);
    BuiltIsProducible(ExprAt(ts, n).value);
  }

  lemma AfterGood(ts: Tokens, n: nat, keyword: Keyword)
    requires Lexed(ts) && n <= |ts| && ExprAfter(ts, n, keyword).Done?
    ensures GoodOption(ExprAfter(ts, n, keyword).value)
  {
    hide ExprAt, Producible, Lexed;
    if TokenAt(ts, n, Word(keyword)) {
      ExprGood(ts, n + 1);
    }
  }

  lemma AtTimeGood(ts: Tokens, n: nat)
    requires Lexed(ts) && n <= |ts| && AtTimeAt(ts, n).Done?
    ensures GoodOption(AtTimeAt(ts, n).value)
  {
    hide ExprAt, Producible, Lexed;
    if TokenAt(ts, n, Word(Keyword.At)) {
      ExprGood(ts, n + 2);
    }
  }

  lemma TemporalGood(ts: Tokens, n: nat)
    requires Lexed(ts) && n <= |ts| && TemporalAt(ts, n).Done?
    ensures GoodTemporal(TemporalAt(ts, n).value)
  {
    hide ParseBp, Built, Producible, Lexed;
    var us := ts[n..];
    LexedFrom(ts, n);
    if |us| >= 2 {
      LexedFrom(us, 1);
      LexedFrom(us[1..], 1);
      BpGood(us[1..][1..], 0);
      BpGood(us[1..][1..], 4);
      var p := ParseBp(us[1..][1..], 4);
      if p.Ok? && |p.rest| > 0 {
        LexedFrom(p.rest, 1);
        BpGood(p.rest[1..], 4);
      }
    }
  }

  lemma BpGood(ts: Tokens, minBp: nat)
    requires Lexed(ts)
    ensures var p := ParseBp(ts, minBp); p.Ok? ==> Producible(p.value) && Lexed(p.rest)
  {
    hide ParseBp, Built, Producible, Lexed;
    BpProduces(ts, minBp);
    if ParseBp(ts, minBp).Ok? {
      BuiltIsProducible(ParseBp(ts, minBp).value);
    }
  }

  // ---------------------------------------------------------------------------
  // Patterns
  // ---------------------------------------------------------------------------

  lemma {:induction false} EntriesGood(ts: Tokens, n: nat, before: MapLiteral)
    requires Lexed(ts) && n <= |ts| && EntriesAt(ts, n, before).Done? && GoodMap(Some(before))
    ensures GoodMap(Some(EntriesAt(ts, n, before).value))
    decreases |ts| - n
  {
    hide ExprAt, Producible, Lexed;
    ExprGood(ts, n + 2);
    var entry := EntryAt(ts, n);
    if TokenAt(ts, entry.pos, Comma) {
      EntriesGood(ts, entry.pos + 1, before + [entry.value]);
    }
  }

  lemma MapGood(ts: Tokens, n: nat)
    requires Lexed(ts) && n <= |ts| && MapAt(ts, n).Done?
    ensures GoodMap(MapAt(ts, n).value)
  {
    hide EntriesAt, Producible, Lexed;
    if TokenAt(ts, n, Punct(LBrace)) && !TokenAt(ts, n + 1, Punct(RBrace)) {
      EntriesGood(ts, n + 1, []);
    }
  }

  lemma NodeGood(ts: Tokens, n: nat)
    requires Lexed(ts) && n <= |ts| && NodePatternAt(ts, n).Done?
    ensures GoodMap(NodePatternAt(ts, n).value.properties)
  {
    hide NodeHeadAt, MapAt, GoodMap, Lexed;
    MapGood(ts, NodeHeadAt(ts, n).pos);
  }

  lemma HopsGood(ts: Tokens, n: nat)
    requires n <= |ts| && StarAt(ts, n).Done?
    ensures GoodHops(StarAt(ts, n).value)
  {
  }

  lemma ContentGood(ts: Tokens, n: nat)
    requires Lexed(ts) && n <= |ts| && ContentAt(ts, n).Done?
    ensures var c := ContentAt(ts, n).value; GoodHops(c.hops) && GoodMap(c.properties)
  {
    hide TypesAt, StarAt, MapAt, GoodHops, GoodMap, Lexed;
    var types := TypesAt(ts, if IsIdent(ts, n) then n + 1 else n);
    HopsGood(ts, types.pos);
    MapGood(ts, StarAt(ts, types.pos).pos);
  }

  lemma BracketsGood(ts: Tokens, n: nat)
    requires Lexed(ts) && n <= |ts| && BracketsAt(ts, n).Done?
    ensures var c := BracketsAt(ts, n).value; GoodHops(c.hops) && GoodMap(c.properties)
  {
    hide ContentAt, GoodHops, GoodMap, Lexed;
    ContentGood(ts, n + 1);
  }

  lemma RelationshipGood(ts: Tokens, n: nat)
    requires Lexed(ts) && StartsRelationship(ts, n) && RelationshipAt(ts, n).Done?
    ensures GoodElement(RelationshipAt(ts, n).value)
  {
    hide BracketsAt, Lexed;
    if !TokenAt(ts, n, Punct(DoubleDash)) {
      BracketsGood(ts, n + 1);
    }
  }

  lemma {:induction false} ElementsGood(ts: Tokens, n: nat, before: seq<Element>)
    requires Lexed(ts) && n <= |ts| && ElementsAt(ts, n, before).Done? && forall i | 0 <= i < |before| :: GoodElement(before[i])
    ensures var es := ElementsAt(ts, n, before).value; forall i | 0 <= i < |es| :: GoodElement(es[i])
    decreases |ts| - n
  {
    hide NodePatternAt, RelationshipAt, StartsRelationship, GoodMap, GoodHops, Lexed;
    if StartsRelationship(ts, n) {
      var rel := RelationshipAt(ts, n);
      var node := NodePatternAt(ts, rel.pos);
      RelationshipGood(ts, n);
      NodeGood(ts, rel.pos);
      ElementsGood(ts, node.pos, before + [rel.value] + [NodeElement(node.value)]);
    }
  }

  lemma ChainGood(ts: Tokens, n: nat)
    requires Lexed(ts) && n <= |ts| && PatternChainAt(ts, n).Done?
    ensures GoodChain(PatternChainAt(ts, n).value)
  {
    hide NodePatternAt, ElementsAt, GoodMap, Lexed;
    var node := NodePatternAt(ts, n);
    NodeGood(ts, n);
    ElementsGood(ts, node.pos, [NodeElement(node.value)]);
    ElementsAlternate(ts, node.pos, [NodeElement(node.value)]);
  }

  lemma {:induction false} ChainsGood(ts: Tokens, n: nat, before: seq<seq<Element>>)
    requires Lexed(ts) && n <= |ts| && PatternChainsAt(ts, n, before).Done? && forall i | 0 <= i < |before| :: GoodChain(before[i])
    ensures var chains := PatternChainsAt(ts, n, before).value; chains != [] && forall i | 0 <= i < |chains| :: GoodChain(chains[i])
    decreases |ts| - n
  {
    hide PatternChainAt, GoodChain, Lexed;
    ChainGood(ts, n);
    var chain := PatternChainAt(ts, n);
    if TokenAt(ts, chain.pos, Comma) {
      ChainsGood(ts, chain.pos + 1, before + [chain.value]);
    }
  }

  lemma PatternGood(ts: Tokens, n: nat)
    requires Lexed(ts) && n <= |ts| && PatternAt(ts, n).Done?
    ensures GoodPattern(PatternAt(ts, n).value)
  {
    hide PatternChainsAt, GoodChain, Lexed;
    ChainsGood(ts, n, []);
  }

  // ---------------------------------------------------------------------------
  // Lists
  // ---------------------------------------------------------------------------

  lemma {:induction false} ItemsGood(ts: Tokens, n: nat, before: seq<ReturnItem>)
    requires Lexed(ts) && n <= |ts| && ReturnItemsAt(ts, n, before).Done? && forall i | 0 <= i < |before| :: Producible(before[i].expr)
    ensures GoodItems(ReturnItemsAt(ts, n, before).value)
    decreases |ts| - n
  {
    hide ExprAt, Producible, Lexed;
    ExprGood(ts, n);
    var item := ReturnItemAt(ts, n);
    if TokenAt(ts, item.pos, Comma) {
      ItemsGood(ts, item.pos + 1, before + [item.value]);
    }
  }

  predicate GoodOrder(items: seq<OrderItem>) {
    forall i | 0 <= i < |items| :: Producible(items[i].expr)
  }

  lemma {:induction false} OrderItemsGood(ts: Tokens, n: nat, before: seq<OrderItem>)
    requires Lexed(ts) && n <= |ts| && OrderItemsAt(ts, n, before).Done? && GoodOrder(before)
    ensures var items := OrderItemsAt(ts, n, before).value; items != [] && GoodOrder(items)
    decreases |ts| - n
  {
    hide ExprAt, Producible, Lexed;
    ExprGood(ts, n);
    var item := OrderItemAt(ts, n);
    if TokenAt(ts, item.pos, Comma) {
      OrderItemsGood(ts, item.pos + 1, before + [item.value]);
    }
  }

  lemma {:induction false} TargetGood(ts: Tokens, n: nat, base: Expression)
    requires n <= |ts| && ChainAt(ts, n, base).Done? && IsTarget(base)
    ensures IsTarget(ChainAt(ts, n, base).value)
    decreases |ts| - n
  {
    if TokenAt(ts, n, Dot) {
      TargetGood(ts, n + 2, Property(base, IdentAt(ts, n + 1).value));
    }
  }

  lemma SetItemGood(ts: Tokens, n: nat)
    requires Lexed(ts) && n <= |ts| && SetItemAt(ts, n).Done?
    ensures var item := SetItemAt(ts, n).value; IsTarget(item.target) && Producible(item.value)
  {
    hide ExprAt, ChainAt, Producible, Lexed;
    var name := Variable(IdentAt(ts, n).value);
    TargetGood(ts, n + 1, name);
    ExprGood(ts, ChainAt(ts, n + 1, name).pos + 1);
  }

  lemma {:induction false} SetItemsGood(ts: Tokens, n: nat, before: seq<SetItem>)
    requires Lexed(ts) && n <= |ts| && SetItemsAt(ts, n, before).Done? && GoodSets(before)
    ensures var items := SetItemsAt(ts, n, before).value; items != [] && GoodSets(items)
    decreases |ts| - n
  {
    hide SetItemAt, IsTarget, Producible, Lexed;
    SetItemGood(ts, n);
    var item := SetItemAt(ts, n);
    if TokenAt(ts, item.pos, Comma) {
      SetItemsGood(ts, item.pos + 1, before + [item.value]);
    }
  }

  lemma {:induction false} RemoveItemsGood(ts: Tokens, n: nat, before: seq<RemoveItem>)
    requires n <= |ts| && RemoveItemsAt(ts, n, before).Done? && forall i | 0 <= i < |before| :: GoodRemove(before[i])
    ensures var items := RemoveItemsAt(ts, n, before).value; items != [] && forall i | 0 <= i < |items| :: GoodRemove(items[i])
    decreases |ts| - n
  {
    var item := RemoveItemAt(ts, n);
    if TokenAt(ts, item.pos, Comma) {
      RemoveItemsGood(ts, item.pos + 1, before + [item.value]);
    }
  }

  lemma {:induction false} ExprsGood(ts: Tokens, n: nat, before: seq<Expression>)
    requires Lexed(ts) && n <= |ts| && ExprsAt(ts, n, before).Done? && forall i | 0 <= i < |before| :: Producible(before[i])
    ensures var items := ExprsAt(ts, n, before).value; items != [] && forall i | 0 <= i < |items| :: Producible(items[i])
    decreases |ts| - n
  {
    hide ExprAt, Producible, Lexed;
    ExprGood(ts, n);
    var item := ExprAt(ts, n);
    if TokenAt(ts, item.pos, Comma) {
      ExprsGood(ts, item.pos + 1, before + [item.value]);
    }
  }

  lemma {:induction false} ParticipantsGood(ts: Tokens, n: nat, before: seq<Participant>)
    requires Lexed(ts) && n <= |ts| && ParticipantsAt(ts, n, before).Done? && GoodParticipants(before)
    ensures GoodParticipants(ParticipantsAt(ts, n, before).value)
    decreases |ts| - n
  {
    hide AtTimeAt, GoodOption, Lexed;
    AtTimeGood(ts, n + 1);
    var p := ParticipantAt(ts, n);
    if TokenAt(ts, p.pos, Comma) {
      ParticipantsGood(ts, p.pos + 1, before + [p.value]);
    }
  }

  lemma ParticipantListGood(ts: Tokens, n: nat)
    requires Lexed(ts) && n <= |ts| && ParticipantListAt(ts, n).Done?
    ensures GoodParticipants(ParticipantListAt(ts, n).value)
  {
    hide ParticipantsAt, GoodOption, Lexed;
    if !TokenAt(ts, n + 1, RParen) {
      ParticipantsGood(ts, n + 1, []);
    }
  }

  // ---------------------------------------------------------------------------
  // Clauses
  // ---------------------------------------------------------------------------

  lemma MatchGood(ts: Tokens, n: nat, optional: bool)
    requires Lexed(ts) && n <= |ts| && MatchAt(ts, n, optional).Done?
    ensures var m := MatchAt(ts, n, optional).value; GoodMatch(m) && m.optional == optional
  {
    hide PatternAt, TemporalAt, ExprAfter, GoodPattern, GoodTemporal, GoodOption, Lexed;
    var pattern := PatternAt(ts, n + 1);
    var temporal := TemporalAt(ts, pattern.pos);
    PatternGood(ts, n + 1);
    TemporalGood(ts, pattern.pos);
    AfterGood(ts, temporal.pos, Where);
  }

  lemma OrderGood(ts: Tokens, n: nat)
    requires Lexed(ts) && n <= |ts| && OrderAt(ts, n).Done?
    ensures var order := OrderAt(ts, n).value; order.Some? ==> order.value != [] && GoodOrder(order.value)
  {
    hide OrderItemsAt, Lexed;
    if TokenAt(ts, n, Word(Order)) {
      OrderItemsGood(ts, n + 2, []);
    }
  }

  lemma ReturnGood(ts: Tokens, n: nat)
    requires Lexed(ts) && n <= |ts| && ReturnAt(ts, n).Done?
    ensures GoodClause(ReturnAt(ts, n).value)
  {
    hide ReturnItemsAt, OrderAt, ExprAfter, GoodItems, GoodOption, Producible, Lexed;
    var m := if TokenAt(ts, n + 1, Distinct) then n + 2 else n + 1;
    var items := ReturnItemsAt(ts, m, []);
    var order := OrderAt(ts, items.pos);
    var skip := ExprAfter(ts, order.pos, Skip);
    ItemsGood(ts, m, []);
    OrderGood(ts, items.pos);
    AfterGood(ts, order.pos, Skip);
    AfterGood(ts, skip.pos, Limit);
  }

  lemma WithGood(ts: Tokens, n: nat)
    requires Lexed(ts) && n <= |ts| && WithAt(ts, n).Done?
    ensures GoodClause(WithAt(ts, n).value)
  {
    hide ReturnItemsAt, ExprAfter, GoodItems, GoodOption, Producible, Lexed;
    var m := if TokenAt(ts, n + 1, Distinct) then n + 2 else n + 1;
    ItemsGood(ts, m, []);
    AfterGood(ts, ReturnItemsAt(ts, m, []).pos, Where);
  }

  lemma {:induction false} ActionsGood(ts: Tokens, n: nat, before: MergeActions)
    requires Lexed(ts) && n <= |ts| && ActionsAt(ts, n, before).Done? && GoodSets(before.onMatch) && GoodSets(before.onCreate)
    ensures var a := ActionsAt(ts, n, before).value; GoodSets(a.onMatch) && GoodSets(a.onCreate)
    decreases |ts| - n
  {
    hide SetItemsAt, GoodSets, Lexed;
    if TokenAt(ts, n, Word(On)) && (TokenAt(ts, n + 1, Word(Match)) || TokenAt(ts, n + 1, Word(Create))) {
      SetItemsGood(ts, n + 3, if ts[n + 1] == Word(Match) then before.onMatch else before.onCreate);
      var a := ActionAt(ts, n + 2, before, ts[n + 1] == Word(Match));
      ActionsGood(ts, a.pos, a.value);
    }
  }

  lemma MergeGood(ts: Tokens, n: nat)
    requires Lexed(ts) && n <= |ts| && MergeAt(ts, n).Done?
    ensures GoodClause(MergeAt(ts, n).value)
  {
    hide PatternAt, ActionsAt, GoodPattern, Lexed;
    PatternGood(ts, n + 1);
    ActionsGood(ts, PatternAt(ts, n + 1).pos, MergeActions([], []));
  }

  lemma SnapshotGood(ts: Tokens, n: nat)
    requires Lexed(ts) && n <= |ts| && SnapshotAt(ts, n).Done?
    ensures GoodClause(SnapshotAt(ts, n).value)
  {
    hide NodePatternAt, AtTimeAt, SnapshotSourceAt, GoodMap, GoodOption, GoodMatch, GoodItems, Lexed;
    var node := NodePatternAt(ts, n + 1);
    var anchor := AtTimeAt(ts, node.pos);
    NodeGood(ts, n + 1);
    AtTimeGood(ts, node.pos);
    SourceGood(ts, anchor.pos);
  }

  lemma SourceGood(ts: Tokens, n: nat)
    requires Lexed(ts) && n <= |ts| && SnapshotSourceAt(ts, n).Done?
    ensures var s := SnapshotSourceAt(ts, n).value; GoodMatch(s.0) && !s.0.optional && GoodItems(s.1)
  {
    hide MatchAt, ReturnItemsAt, GoodMatch, GoodItems, Producible, Lexed;
    var from := MatchAt(ts, n + 1, false);
    MatchGood(ts, n + 1, false);
    ItemsGood(ts, from.pos + 1, []);
  }

  lemma HyperedgeGood(ts: Tokens, n: nat)
    requires Lexed(ts) && n <= |ts| && HyperedgeAt(ts, n).Done?
    ensures GoodClause(HyperedgeAt(ts, n).value)
  {
    hide NodeHeadAt, ParticipantListAt, GoodParticipants, Lexed;
    var from := NodeHeadAt(ts, n + 1).pos + 2;
    ParticipantListGood(ts, from);
    ParticipantListGood(ts, ParticipantListAt(ts, from).pos + 1);
  }

  lemma CreateGood(ts: Tokens, n: nat)
    requires Lexed(ts) && n < |ts| && CreateClauseAt(ts, n).Done?
    ensures GoodClause(CreateClauseAt(ts, n).value)
  {
    hide IndexAt, HyperedgeAt, SnapshotAt, PatternAt, GoodClause, Lexed;
    if TokenAt(ts, n + 1, Word(Index)) {
      IndexGood(ts, n + 1, false);
    } else if TokenAt(ts, n + 1, Word(Edge)) && TokenAt(ts, n + 2, Word(Index)) {
      IndexGood(ts, n + 2, true);
    } else if TokenAt(ts, n + 1, Word(Hyperedge)) {
      HyperedgeGood(ts, n + 1);
    } else if TokenAt(ts, n + 1, Word(Snapshot)) {
      SnapshotGood(ts, n + 1);
    } else {
      PatternGood(ts, n + 1);
      PatternClauseGood(PatternAt(ts, n + 1).value);
    }
  }

  lemma PatternClauseGood(p: Pattern)
    requires GoodPattern(p)
    ensures GoodClause(CreateC(p))
  {
  }

  lemma IndexGood(ts: Tokens, n: nat, onEdges: bool)
    requires n <= |ts| && IndexAt(ts, n, onEdges).Done?
    ensures GoodClause(IndexAt(ts, n, onEdges).value)
  {
    hide IndexTargetAt;
  }

  lemma MatchClauseGood(ts: Tokens, n: nat, optional: bool)
    requires Lexed(ts) && n <= |ts| && MatchClauseAt(ts, n, optional).Done?
    ensures GoodClause(MatchClauseAt(ts, n, optional).value)
  {
    hide MatchAt, GoodMatch, Lexed;
    MatchGood(ts, n, optional);
  }

  lemma MatchHyperedgeGood(ts: Tokens, n: nat)
    requires n <= |ts| && MatchHyperedgeAt(ts, n).Done?
    ensures GoodClause(MatchHyperedgeAt(ts, n).value)
  {
    hide NodeHeadAt;
  }

  lemma SetGood(ts: Tokens, n: nat)
    requires Lexed(ts) && n <= |ts| && SetClauseAt(ts, n).Done?
    ensures GoodClause(SetClauseAt(ts, n).value)
  {
    hide SetItemsAt, Lexed;
    SetItemsGood(ts, n + 1, []);
  }

  lemma RemoveGood(ts: Tokens, n: nat)
    requires n <= |ts| && RemoveClauseAt(ts, n).Done?
    ensures GoodClause(RemoveClauseAt(ts, n).value)
  {
    hide RemoveItemsAt;
    RemoveItemsGood(ts, n + 1, []);
  }

  lemma DeleteGood(ts: Tokens, n: nat, detach: bool)
    requires Lexed(ts) && n <= |ts| && DeleteClauseAt(ts, n, detach).Done?
    ensures GoodClause(DeleteClauseAt(ts, n, detach).value)
  {
    hide ExprsAt, Lexed;
    ExprsGood(ts, n + 1, []);
  }

  lemma UnwindGood(ts: Tokens, n: nat)
    requires Lexed(ts) && n <= |ts| && UnwindAt(ts, n).Done?
    ensures GoodClause(UnwindAt(ts, n).value)
  {
    hide ExprAt, Lexed;
    ExprGood(ts, n + 1);
  }

  /** Every clause the parser takes from lexed tokens has a text. */
  lemma ClauseGood(ts: Tokens, n: nat)
    requires Lexed(ts) && n < |ts| && ClauseAt(ts, n).Done?
    ensures GoodClause(ClauseAt(ts, n).value)
  {
    hide MatchClauseAt, MatchHyperedgeAt, ReturnAt, CreateClauseAt, SetClauseAt, RemoveClauseAt, DeleteClauseAt, WithAt, MergeAt,
         UnwindAt, NoClause, GoodClause, Lexed;
    match ts[n]
    case Word(Optional) => MatchClauseGood(ts, n + 1, true);
    case Word(Match) =>
      if TokenAt(ts, n + 1, Word(Hyperedge)) {
        MatchHyperedgeGood(ts, n + 1);
      } else {
        MatchClauseGood(ts, n, false);
      }
    case Word(Return) => ReturnGood(ts, n);
    case Word(Create) => CreateGood(ts, n);
    case Word(Set) => SetGood(ts, n);
    case Word(Remove) => RemoveGood(ts, n);
    case Word(Delete) => DeleteGood(ts, n, false);
    case Word(Detach) => DeleteGood(ts, n + 1, true);
    case Word(With) => WithGood(ts, n);
    case Word(Merge) => MergeGood(ts, n);
    case Word(Unwind) => UnwindGood(ts, n);
    case _ => DropGood(ts, n);
  }

  lemma DropGood(ts: Tokens, n: nat)
    requires n < |ts| && ClauseAt(ts, n).Done? && ts[n] == Word(Drop)
    ensures GoodClause(ClauseAt(ts, n).value)
  {
  }

  // ---------------------------------------------------------------------------
  // Clauses and queries again
  // ---------------------------------------------------------------------------

  /** Main result. Whatever clause the parser takes from lexed tokens, its text in any style,
      with any clause or end after it, gives the same clause and ends where the text ends. */
  lemma ClausePrintParse(ts: Tokens, n: nat, st: Style, rest: Tokens)
    requires Lexed(ts) && n < |ts| && ClauseAt(ts, n).Done? && GoodStyle(st) && Over(rest, 0)
    ensures var text := ClauseText(st, ClauseAt(ts, n).value);
            text != [] && ClauseAt(text + rest, 0) == Done(ClauseAt(ts, n).value, |text|)
  {
    hide ClauseAt, ClauseText, GoodClause, GoodStyle, Lexed;
    var c := ClauseAt(ts, n).value;
    var text := ClauseText(st, c);
    ClauseGood(ts, n);
    assert (text + rest)[0..|text|] == text;
    assert rest != [] ==> (text + rest)[|text|] == rest[0];
    ClauseRead(text + rest, 0, st, c);
  }

  function Texts(st: Style, clauses: seq<Clause>): seq<Tokens> {
    seq(|clauses|, i requires 0 <= i < |clauses| => ClauseText(st, clauses[i]))
  }

  /** Main result. The texts of one or more clauses, one after the other, are a query with
      exactly these clauses. */
  lemma QueryRead(st: Style, clauses: seq<Clause>)
    requires clauses != [] && GoodStyle(st) && forall i | 0 <= i < |clauses| :: GoodClause(clauses[i])
    ensures var text := Q.Concat(Texts(st, clauses)); QueryAt(text) == Done(clauses, |text|)
  {
    hide ClauseAt, ClauseText, GoodClause, GoodStyle, QueryAt;
    var texts := Texts(st, clauses);
    forall i | 0 <= i < |texts|
      ensures Q.OneClause(texts[i], clauses[i])
    {
      assert texts[i][0..] == texts[i];
      ClauseRead(texts[i], 0, st, clauses[i]);
    }
    assert Q.Spells(texts, clauses);
    Q.QueryIsClauses(Q.Concat(texts), clauses);
  }
}
