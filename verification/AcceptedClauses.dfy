/** What the clause parser accepts is what the grammar says: no token is skipped, and none is
    taken for what it is not. */
module AcceptedClauses {
  import opened Syntax
  import opened Grammar
  import opened Patterns
  import opened Clauses
  import opened ClauseGrammar
  import L = ClauseLocality

  // ---------------------------------------------------------------------------
  // Patterns
  // ---------------------------------------------------------------------------

  lemma IdentReads(ts: Tokens, n: nat)
    requires n <= |ts| && IdentAt(ts, n).Done?
    ensures NameReads(ts, n, n + 1, IdentAt(ts, n).value)
  {
  }

  lemma EntryRead(ts: Tokens, n: nat)
    requires n <= |ts| && EntryAt(ts, n).Done?
    ensures EntryReads(ts, n, EntryAt(ts, n).pos, EntryAt(ts, n).value)
  {
    hide ExprAt;
  }

  lemma {:induction false} EntriesRead(ts: Tokens, n: nat, before: MapLiteral) returns (items: MapLiteral)
    requires n <= |ts| && EntriesAt(ts, n, before).Done?
    ensures EntriesAt(ts, n, before).value == before + items && Listed(ts, n, EntriesAt(ts, n, before).pos, items, AnEntry(ts))
    decreases |ts| - n
  {
    hide EntryAt, EntryReads;
    EntryRead(ts, n);
    var one := EntryAt(ts, n);
    items := [one.value];
    if TokenAt(ts, one.pos, Comma) {
      var more := EntriesRead(ts, one.pos + 1, before + [one.value]);
      items := [one.value] + more;
      assert items[1..] == more && before + [one.value] + more == before + items;
    }
  }

  lemma MapRead(ts: Tokens, n: nat)
    requires n <= |ts| && MapAt(ts, n).Done?
    ensures MapReads(ts, n, MapAt(ts, n).pos, MapAt(ts, n).value)
  {
    hide EntriesAt, AnEntry, Listed;
    if TokenAt(ts, n, Punct(LBrace)) && !TokenAt(ts, n + 1, Punct(RBrace)) {
      var items := EntriesRead(ts, n + 1, []);
      assert [] + items == items;
      ListedSome(ts, n + 1, EntriesAt(ts, n + 1, []).pos, items, AnEntry(ts));
    }
  }

  lemma ListedSome<T(!new)>(ts: Tokens, n: nat, m: nat, items: seq<T>, one: (nat, nat, T) -> bool)
    requires Listed(ts, n, m, items, one)
    ensures items != []
  {
  }

  lemma {:induction false} LabelsRead(ts: Tokens, n: nat, before: seq<string>) returns (names: seq<string>)
    requires n <= |ts| && LabelsAt(ts, n, before).Done?
    ensures LabelsAt(ts, n, before).value == before + names && MarkedNames(ts, n, LabelsAt(ts, n, before).pos, Punct(Colon), names)
    decreases |ts| - n
  {
    names := [];
    assert before + [] == before;
    if TokenAt(ts, n, Punct(Colon)) {
      var name := IdentAt(ts, n + 1).value;
      var more := LabelsRead(ts, n + 2, before + [name]);
      names := [name] + more;
      assert names[1..] == more && before + [name] + more == before + names;
    }
  }

  lemma HeadRead(ts: Tokens, n: nat)
    requires n <= |ts| && NodeHeadAt(ts, n).Done?
    ensures var h := NodeHeadAt(ts, n); HeadReads(ts, n, h.pos, h.value.0, h.value.1)
  {
    hide LabelsAt, MarkedNames;
    var a := if IsIdent(ts, n + 1) then n + 2 else n + 1;
    var names := LabelsRead(ts, a, []);
    assert [] + names == names;
    assert OptionalName(ts, n + 1, a, NodeHeadAt(ts, n).value.0);
  }

  lemma NodeRead(ts: Tokens, n: nat)
    requires n <= |ts| && NodePatternAt(ts, n).Done?
    ensures NodeReads(ts, n, NodePatternAt(ts, n).pos, NodePatternAt(ts, n).value)
  {
    hide NodeHeadAt, MapAt, HeadReads, MapReads;
    HeadRead(ts, n);
    MapRead(ts, NodeHeadAt(ts, n).pos);
  }

  lemma StarRead(ts: Tokens, n: nat)
    requires n <= |ts| && StarAt(ts, n).Done?
    ensures HopsRead(ts, n, StarAt(ts, n).pos, StarAt(ts, n).value)
  {
  }

  lemma {:induction false} MoreTypesRead(ts: Tokens, n: nat, before: seq<string>) returns (names: seq<string>)
    requires n <= |ts| && MoreTypesAt(ts, n, before).Done?
    ensures MoreTypesAt(ts, n, before).value == before + names
    ensures MarkedNames(ts, n, MoreTypesAt(ts, n, before).pos, Punct(Pipe), names)
    decreases |ts| - n
  {
    names := [];
    assert before + [] == before;
    if TokenAt(ts, n, Punct(Pipe)) {
      var name := IdentAt(ts, n + 1).value;
      var more := MoreTypesRead(ts, n + 2, before + [name]);
      names := [name] + more;
      assert names[1..] == more && before + [name] + more == before + names;
    }
  }

  lemma TypesAreRead(ts: Tokens, n: nat)
    requires n <= |ts| && TypesAt(ts, n).Done?
    ensures TypesRead(ts, n, TypesAt(ts, n).pos, TypesAt(ts, n).value)
  {
    hide MoreTypesAt, MarkedNames;
    if TokenAt(ts, n, Punct(Colon)) {
      var name := IdentAt(ts, n + 1).value;
      var more := MoreTypesRead(ts, n + 2, [name]);
      assert ([name] + more)[1..] == more;
    }
  }

  lemma ContentRead(ts: Tokens, n: nat)
    requires n <= |ts| && ContentAt(ts, n).Done?
    ensures ContentReads(ts, n, ContentAt(ts, n).pos, ContentAt(ts, n).value)
  {
    hide TypesAt, StarAt, MapAt, TypesRead, HopsRead, MapReads;
    var a := if IsIdent(ts, n) then n + 1 else n;
    var types := TypesAt(ts, a);
    var hops := StarAt(ts, types.pos);
    TypesAreRead(ts, a);
    StarRead(ts, types.pos);
    MapRead(ts, hops.pos);
    assert OptionalName(ts, n, a, ContentAt(ts, n).value.variable);
  }

  lemma BracketsAreRead(ts: Tokens, n: nat)
    requires n <= |ts| && BracketsAt(ts, n).Done?
    ensures BracketsRead(ts, n, BracketsAt(ts, n).pos, BracketsAt(ts, n).value)
  {
    hide ContentAt, ContentReads;
    ContentRead(ts, n + 1);
  }

  lemma RelationshipRead(ts: Tokens, n: nat)
    requires StartsRelationship(ts, n) && RelationshipAt(ts, n).Done?
    ensures ElementReads(ts, n, RelationshipAt(ts, n).pos, RelationshipAt(ts, n).value)
  {
    hide BracketsAt, BracketsRead;
    if !TokenAt(ts, n, Punct(DoubleDash)) {
      BracketsAreRead(ts, n + 1);
    }
  }

  lemma {:induction false} ElementsAreRead(ts: Tokens, n: nat, before: seq<Element>) returns (es: seq<Element>)
    requires n <= |ts| && ElementsAt(ts, n, before).Done?
    ensures ElementsAt(ts, n, before).value == before + es && ElementsRead(ts, n, ElementsAt(ts, n, before).pos, es)
    decreases |ts| - n
  {
    hide RelationshipAt, NodePatternAt, RelationshipReads, NodeReads, StartsRelationship;
    es := [];
    assert before + [] == before;
    if StartsRelationship(ts, n) {
      var rel := RelationshipAt(ts, n);
      var node := NodePatternAt(ts, rel.pos);
      RelationshipRead(ts, n);
      NodeRead(ts, rel.pos);
      var more := ElementsAreRead(ts, node.pos, before + [rel.value] + [NodeElement(node.value)]);
      es := TwoElements(ts, n, rel.value, rel.pos, node.value, node.pos, more, ElementsAt(ts, n, before).pos);
      assert before + [rel.value] + [NodeElement(node.value)] + more == before + es;
    }
  }

  lemma TwoElements(ts: Tokens, n: nat, rel: Element, a: nat, node: NodePattern, b: nat, more: seq<Element>, m: nat)
    returns (es: seq<Element>)
    requires ElementReads(ts, n, a, rel) && NodeReads(ts, a, b, node) && ElementsRead(ts, b, m, more)
    ensures es == [rel] + [NodeElement(node)] + more && ElementsRead(ts, n, m, es)
  {
    hide RelationshipReads, NodeReads;
    var rest := [NodeElement(node)] + more;
    assert rest[1..] == more && ElementReads(ts, a, b, rest[0]);
    assert ElementsRead(ts, a, m, rest);
    es := [rel] + rest;
    assert es[1..] == rest && es == [rel] + [NodeElement(node)] + more;
  }

  lemma ChainRead(ts: Tokens, n: nat)
    requires n <= |ts| && PatternChainAt(ts, n).Done?
    ensures ChainReads(ts, n, PatternChainAt(ts, n).pos, PatternChainAt(ts, n).value)
  {
    hide NodePatternAt, ElementsAt, NodeReads;
    var node := NodePatternAt(ts, n);
    NodeRead(ts, n);
    var more := ElementsAreRead(ts, node.pos, [NodeElement(node.value)]);
    var es := [NodeElement(node.value)] + more;
    assert es[1..] == more && ElementReads(ts, n, node.pos, es[0]);
    ElementsAlternate(ts, node.pos, [NodeElement(node.value)]);
  }

  lemma {:induction false} ChainsRead(ts: Tokens, n: nat, before: seq<seq<Element>>) returns (chains: seq<seq<Element>>)
    requires n <= |ts| && PatternChainsAt(ts, n, before).Done?
    ensures PatternChainsAt(ts, n, before).value == before + chains
    ensures Listed(ts, n, PatternChainsAt(ts, n, before).pos, chains, AChain(ts))
    decreases |ts| - n
  {
    hide PatternChainAt, ChainReads;
    ChainRead(ts, n);
    var one := PatternChainAt(ts, n);
    chains := [one.value];
    if TokenAt(ts, one.pos, Comma) {
      var more := ChainsRead(ts, one.pos + 1, before + [one.value]);
      chains := [one.value] + more;
      assert chains[1..] == more && before + [one.value] + more == before + chains;
    }
  }

  lemma PatternRead(ts: Tokens, n: nat)
    requires n <= |ts| && PatternAt(ts, n).Done?
    ensures PatternReads(ts, n, PatternAt(ts, n).pos, PatternAt(ts, n).value)
  {
    hide PatternChainsAt, AChain, Listed;
    var chains := ChainsRead(ts, n, []);
    assert [] + chains == chains;
  }

  // ---------------------------------------------------------------------------
  // Parts of clauses
  // ---------------------------------------------------------------------------

  lemma TailRead(ts: Tokens, n: nat, keyword: Keyword)
    requires n <= |ts| && ExprAfter(ts, n, keyword).Done?
    ensures TailReads(ts, n, ExprAfter(ts, n, keyword).pos, keyword, ExprAfter(ts, n, keyword).value)
  {
    hide ExprAt;
  }

  lemma AtTimeRead(ts: Tokens, n: nat)
    requires n <= |ts| && AtTimeAt(ts, n).Done?
    ensures AtTimeReads(ts, n, AtTimeAt(ts, n).pos, AtTimeAt(ts, n).value)
  {
    hide ExprAt;
  }

  lemma TemporalRead(ts: Tokens, n: nat)
    requires n <= |ts| && TemporalAt(ts, n).Done?
    ensures TemporalReads(ts, n, TemporalAt(ts, n).pos, TemporalAt(ts, n).value)
  {
    hide TemporalAt, ExprAt, L.BoundAt;
    if TokenAt(ts, n, Word(Keyword.At)) {
      L.AsOfIs(ts, n);
      AtTimeRead(ts, n);
    } else if TokenAt(ts, n, Word(Between)) {
      L.BetweenIs(ts, n);
    } else {
      L.NoTemporal(ts, n);
    }
  }

  lemma ItemRead(ts: Tokens, n: nat)
    requires n <= |ts| && ReturnItemAt(ts, n).Done?
    ensures ItemReads(ts, n, ReturnItemAt(ts, n).pos, ReturnItemAt(ts, n).value)
  {
    hide ExprAt;
  }

  lemma {:induction false} ItemsAreRead(ts: Tokens, n: nat, before: seq<ReturnItem>) returns (items: seq<ReturnItem>)
    requires n <= |ts| && ReturnItemsAt(ts, n, before).Done?
    ensures ReturnItemsAt(ts, n, before).value == before + items && Listed(ts, n, ReturnItemsAt(ts, n, before).pos, items, AnItem(ts))
    decreases |ts| - n
  {
    hide ReturnItemAt, ItemReads;
    ItemRead(ts, n);
    var one := ReturnItemAt(ts, n);
    items := [one.value];
    if TokenAt(ts, one.pos, Comma) {
      var more := ItemsAreRead(ts, one.pos + 1, before + [one.value]);
      items := [one.value] + more;
      assert items[1..] == more && before + [one.value] + more == before + items;
    }
  }

  lemma OrderItemRead(ts: Tokens, n: nat)
    requires n <= |ts| && OrderItemAt(ts, n).Done?
    ensures OrderItemReads(ts, n, OrderItemAt(ts, n).pos, OrderItemAt(ts, n).value)
  {
    hide ExprAt;
  }

  lemma {:induction false} OrderItemsRead(ts: Tokens, n: nat, before: seq<OrderItem>) returns (items: seq<OrderItem>)
    requires n <= |ts| && OrderItemsAt(ts, n, before).Done?
    ensures OrderItemsAt(ts, n, before).value == before + items && Listed(ts, n, OrderItemsAt(ts, n, before).pos, items, AnOrderItem(ts))
    decreases |ts| - n
  {
    hide OrderItemAt, OrderItemReads;
    OrderItemRead(ts, n);
    var one := OrderItemAt(ts, n);
    items := [one.value];
    if TokenAt(ts, one.pos, Comma) {
      var more := OrderItemsRead(ts, one.pos + 1, before + [one.value]);
      items := [one.value] + more;
      assert items[1..] == more && before + [one.value] + more == before + items;
    }
  }

  lemma OrderRead(ts: Tokens, n: nat)
    requires n <= |ts| && OrderAt(ts, n).Done?
    ensures OrderReads(ts, n, OrderAt(ts, n).pos, OrderAt(ts, n).value)
  {
    hide OrderItemsAt, AnOrderItem, Listed;
    if TokenAt(ts, n, Word(Order)) {
      var items := OrderItemsRead(ts, n + 2, []);
      assert [] + items == items;
    }
  }

  lemma {:induction false} TargetRead(ts: Tokens, start: nat, n: nat, base: Expression)
    requires n <= |ts| && ChainAt(ts, n, base).Done? && TargetReads(ts, start, n, base)
    ensures TargetReads(ts, start, ChainAt(ts, n, base).pos, ChainAt(ts, n, base).value)
    decreases |ts| - n
  {
    if TokenAt(ts, n, Dot) {
      TargetRead(ts, start, n + 2, Property(base, IdentAt(ts, n + 1).value));
    }
  }

  lemma SetItemRead(ts: Tokens, n: nat)
    requires n <= |ts| && SetItemAt(ts, n).Done?
    ensures SetItemReads(ts, n, SetItemAt(ts, n).pos, SetItemAt(ts, n).value)
  {
    hide ExprAt, ChainAt, TargetReads;
    var name := Variable(IdentAt(ts, n).value);
    VariableRead(ts, n);
    TargetRead(ts, n, n + 1, name);
  }

  lemma {:induction false} SetsAreRead(ts: Tokens, n: nat, before: seq<SetItem>) returns (items: seq<SetItem>)
    requires n <= |ts| && SetItemsAt(ts, n, before).Done?
    ensures SetItemsAt(ts, n, before).value == before + items && Listed(ts, n, SetItemsAt(ts, n, before).pos, items, ASetItem(ts))
    decreases |ts| - n
  {
    hide SetItemAt, SetItemReads;
    SetItemRead(ts, n);
    var one := SetItemAt(ts, n);
    items := [one.value];
    if TokenAt(ts, one.pos, Comma) {
      var more := SetsAreRead(ts, one.pos + 1, before + [one.value]);
      items := [one.value] + more;
      assert items[1..] == more && before + [one.value] + more == before + items;
    }
  }

  lemma VariableRead(ts: Tokens, n: nat)
    requires n <= |ts| && IdentAt(ts, n).Done?
    ensures TargetReads(ts, n, n + 1, Variable(IdentAt(ts, n).value))
  {
  }

  lemma RemoveItemRead(ts: Tokens, n: nat)
    requires n <= |ts| && RemoveItemAt(ts, n).Done?
    ensures RemoveItemReads(ts, n, RemoveItemAt(ts, n).pos, RemoveItemAt(ts, n).value)
  {
  }

  lemma {:induction false} RemovesRead(ts: Tokens, n: nat, before: seq<RemoveItem>) returns (items: seq<RemoveItem>)
    requires n <= |ts| && RemoveItemsAt(ts, n, before).Done?
    ensures RemoveItemsAt(ts, n, before).value == before + items && Listed(ts, n, RemoveItemsAt(ts, n, before).pos, items, ARemoveItem(ts))
    decreases |ts| - n
  {
    hide RemoveItemAt, RemoveItemReads;
    RemoveItemRead(ts, n);
    var one := RemoveItemAt(ts, n);
    items := [one.value];
    if TokenAt(ts, one.pos, Comma) {
      var more := RemovesRead(ts, one.pos + 1, before + [one.value]);
      items := [one.value] + more;
      assert items[1..] == more && before + [one.value] + more == before + items;
    }
  }

  lemma {:induction false} ExprsRead(ts: Tokens, n: nat, before: seq<Expression>) returns (items: seq<Expression>)
    requires n <= |ts| && ExprsAt(ts, n, before).Done?
    ensures ExprsAt(ts, n, before).value == before + items && Listed(ts, n, ExprsAt(ts, n, before).pos, items, AnExpr(ts))
    decreases |ts| - n
  {
    hide ExprAt;
    var one := ExprAt(ts, n);
    items := [one.value];
    assert ExprReads(ts, n, one.pos, one.value);
    if TokenAt(ts, one.pos, Comma) {
      var more := ExprsRead(ts, one.pos + 1, before + [one.value]);
      items := [one.value] + more;
      assert items[1..] == more && before + [one.value] + more == before + items;
    }
  }

  lemma ParticipantRead(ts: Tokens, n: nat)
    requires n <= |ts| && ParticipantAt(ts, n).Done?
    ensures ParticipantReads(ts, n, ParticipantAt(ts, n).pos, ParticipantAt(ts, n).value)
  {
    hide AtTimeAt, AtTimeReads;
    AtTimeRead(ts, n + 1);
  }

  lemma {:induction false} ParticipantsAreRead(ts: Tokens, n: nat, before: seq<Participant>) returns (items: seq<Participant>)
    requires n <= |ts| && ParticipantsAt(ts, n, before).Done?
    ensures ParticipantsAt(ts, n, before).value == before + items && Listed(ts, n, ParticipantsAt(ts, n, before).pos, items, AParticipant(ts))
    decreases |ts| - n
  {
    hide ParticipantAt, ParticipantReads;
    ParticipantRead(ts, n);
    var one := ParticipantAt(ts, n);
    items := [one.value];
    if TokenAt(ts, one.pos, Comma) {
      var more := ParticipantsAreRead(ts, one.pos + 1, before + [one.value]);
      items := [one.value] + more;
      assert items[1..] == more && before + [one.value] + more == before + items;
    }
  }

  lemma ParticipantListRead(ts: Tokens, n: nat)
    requires n <= |ts| && ParticipantListAt(ts, n).Done?
    ensures ParticipantsRead(ts, n, ParticipantListAt(ts, n).pos, ParticipantListAt(ts, n).value)
  {
    hide ParticipantsAt, AParticipant, Listed;
    if !TokenAt(ts, n + 1, RParen) {
      var items := ParticipantsAreRead(ts, n + 1, []);
      assert [] + items == items;
      ListedSome(ts, n + 1, ParticipantsAt(ts, n + 1, []).pos, items, AParticipant(ts));
    }
  }

  lemma MatchRead(ts: Tokens, n: nat, optional: bool)
    requires n <= |ts| && MatchAt(ts, n, optional).Done?
    ensures var r := MatchAt(ts, n, optional); MatchReads(ts, n, r.pos, r.value) && r.value.optional == optional
  {
    hide PatternAt, TemporalAt, ExprAfter, PatternReads, TemporalReads, TailReads;
    var pattern := PatternAt(ts, n + 1);
    var temporal := TemporalAt(ts, pattern.pos);
    PatternRead(ts, n + 1);
    TemporalRead(ts, pattern.pos);
    TailRead(ts, temporal.pos, Where);
  }

  /** The items read, put behind those of before. */
  lemma {:induction false} ActionsAreRead(ts: Tokens, n: nat, before: MergeActions) returns (a: MergeActions)
    requires n <= |ts| && ActionsAt(ts, n, before).Done?
    ensures ActionsAt(ts, n, before).value == Together(before, a)
    ensures ActionsRead(ts, n, ActionsAt(ts, n, before).pos, a)
    decreases |ts| - n
  {
    hide SetItemsAt, SetsRead, ActionsRead, ActionsAt;
    if TokenAt(ts, n, Word(On)) && (TokenAt(ts, n + 1, Word(Match)) || TokenAt(ts, n + 1, Word(Create))) {
      a := PartRead(ts, n, before);
    } else {
      a := MergeActions([], []);
      NoPart(ts, n, before);
      assert before.onMatch + [] == before.onMatch && before.onCreate + [] == before.onCreate;
    }
  }

  lemma NoPart(ts: Tokens, n: nat, before: MergeActions)
    requires n <= |ts| && !(TokenAt(ts, n, Word(On)) && (TokenAt(ts, n + 1, Word(Match)) || TokenAt(ts, n + 1, Word(Create))))
    ensures ActionsAt(ts, n, before) == Done(before, n) && ActionsRead(ts, n, n, MergeActions([], []))
  {
  }

  lemma {:induction false} PartRead(ts: Tokens, n: nat, before: MergeActions) returns (a: MergeActions)
    requires n <= |ts| && ActionsAt(ts, n, before).Done?
    requires TokenAt(ts, n, Word(On)) && (TokenAt(ts, n + 1, Word(Match)) || TokenAt(ts, n + 1, Word(Create)))
    ensures ActionsAt(ts, n, before).value == Together(before, a)
    ensures ActionsRead(ts, n, ActionsAt(ts, n, before).pos, a)
    decreases |ts| - n, 0
  {
    hide SetItemsAt, ActionsRead, Listed, ASetItem;
    var onMatch := ts[n + 1] == Word(Match);
    var held := if onMatch then before.onMatch else before.onCreate;
    var k := SetItemsAt(ts, n + 3, held).pos;
    var items := SetsAreRead(ts, n + 3, held);
    var part := if onMatch then MergeActions(items, []) else MergeActions([], items);
    assert before.onMatch + [] == before.onMatch && before.onCreate + [] == before.onCreate;
    assert ActionAt(ts, n + 2, before, onMatch) == Done(Together(before, part), k);
    assert PartReads(ts, n, k, part);
    hide PartReads;
    var rest := ActionsAreRead(ts, k, Together(before, part));
    a := Together(part, rest);
    TogetherThree(before, part, rest);
    OnePart(ts, n, part, k, rest, ActionsAt(ts, n, before).pos);
  }

  lemma TogetherThree(a: MergeActions, b: MergeActions, c: MergeActions)
    ensures Together(Together(a, b), c) == Together(a, Together(b, c))
  {
    assert a.onMatch + b.onMatch + c.onMatch == a.onMatch + (b.onMatch + c.onMatch);
    assert a.onCreate + b.onCreate + c.onCreate == a.onCreate + (b.onCreate + c.onCreate);
  }

  lemma OnePart(ts: Tokens, n: nat, part: MergeActions, k: nat, rest: MergeActions, m: nat)
    requires n < k <= m && n < |ts| && PartReads(ts, n, k, part) && ActionsRead(ts, k, m, rest)
    ensures ActionsRead(ts, n, m, Together(part, rest))
  {
    hide PartReads;
  }

  // ---------------------------------------------------------------------------
  // Clauses
  // ---------------------------------------------------------------------------

  lemma ReturnRead(ts: Tokens, n: nat)
    requires n <= |ts| && ReturnAt(ts, n).Done?
    ensures ClauseReads(ts, n, ReturnAt(ts, n).pos, ReturnAt(ts, n).value)
  {
    hide ReturnItemsAt, OrderAt, ExprAfter, Listed, AnItem, OrderReads, TailReads;
    var i := if TokenAt(ts, n + 1, Distinct) then n + 2 else n + 1;
    var items := ReturnItemsAt(ts, i, []);
    var order := OrderAt(ts, items.pos);
    var skip := ExprAfter(ts, order.pos, Skip);
    var list := ItemsAreRead(ts, i, []);
    assert [] + list == list;
    OrderRead(ts, items.pos);
    TailRead(ts, order.pos, Skip);
    TailRead(ts, skip.pos, Limit);
    assert DistinctReads(ts, n + 1, i, TokenAt(ts, n + 1, Distinct));
    assert ItemsRead(ts, i, items.pos, list);
  }

  lemma WithRead(ts: Tokens, n: nat)
    requires n <= |ts| && WithAt(ts, n).Done?
    ensures ClauseReads(ts, n, WithAt(ts, n).pos, WithAt(ts, n).value)
  {
    hide ReturnItemsAt, ExprAfter, Listed, AnItem, TailReads;
    var i := if TokenAt(ts, n + 1, Distinct) then n + 2 else n + 1;
    var items := ReturnItemsAt(ts, i, []);
    var list := ItemsAreRead(ts, i, []);
    assert [] + list == list;
    TailRead(ts, items.pos, Where);
    assert DistinctReads(ts, n + 1, i, TokenAt(ts, n + 1, Distinct));
    assert ItemsRead(ts, i, items.pos, list);
  }

  lemma UnwindRead(ts: Tokens, n: nat)
    requires n <= |ts| && UnwindAt(ts, n).Done?
    ensures ClauseReads(ts, n, UnwindAt(ts, n).pos, UnwindAt(ts, n).value)
  {
    hide ExprAt;
  }

  lemma MergeRead(ts: Tokens, n: nat)
    requires n <= |ts| && MergeAt(ts, n).Done?
    ensures ClauseReads(ts, n, MergeAt(ts, n).pos, MergeAt(ts, n).value)
  {
    hide PatternAt, ActionsAt, PatternReads, ActionsRead;
    var pattern := PatternAt(ts, n + 1);
    PatternRead(ts, n + 1);
    var a := ActionsAreRead(ts, pattern.pos, MergeActions([], []));
    assert [] + a.onMatch == a.onMatch && [] + a.onCreate == a.onCreate;
  }

  /** Of an index the name and the target; the words before are told apart by the caller. */
  lemma IndexRead(ts: Tokens, n: nat, onEdges: bool)
    requires n <= |ts| && IndexAt(ts, n, onEdges).Done?
    requires if onEdges then n >= 2 && ts[n - 2] == Word(Create) && ts[n - 1] == Word(Edge) else n >= 1 && ts[n - 1] == Word(Create)
    ensures ClauseReads(ts, if onEdges then n - 2 else n - 1, IndexAt(ts, n, onEdges).pos, IndexAt(ts, n, onEdges).value)
  {
    hide IndexTargetAt, NameReads, OptionalName;
    var b := NamePlace(ts, n, onEdges);
    TargetPlace(ts, b);
  }

  lemma NamePlace(ts: Tokens, n: nat, onEdges: bool) returns (b: nat)
    requires n <= |ts| && IndexAt(ts, n, onEdges).Done?
    ensures b <= |ts| && OptionalName(ts, n + 1, b, IndexAt(ts, n, onEdges).value.name) && TokenAt(ts, n, Word(Index))
    ensures var t := IndexTargetAt(ts, b);
            t.Done? && IndexAt(ts, n, onEdges).pos == t.pos
            && IndexAt(ts, n, onEdges).value == CreateIndexC(onEdges, IndexAt(ts, n, onEdges).value.name, t.value.0, t.value.1)
  {
    hide IndexTargetAt;
    b := if TokenAt(ts, n + 1, Word(On)) then n + 1 else n + 2;
  }

  lemma TargetPlace(ts: Tokens, n: nat)
    requires n <= |ts| && IndexTargetAt(ts, n).Done?
    ensures var t := IndexTargetAt(ts, n);
            && t.pos == n + 6 && TokenAt(ts, n, Word(On)) && TokenAt(ts, n + 1, Punct(Colon)) && NameReads(ts, n + 2, n + 3, t.value.0)
            && TokenAt(ts, n + 3, LParen) && NameReads(ts, n + 4, n + 5, t.value.1) && TokenAt(ts, n + 5, RParen)
  {
  }

  lemma SnapshotRead(ts: Tokens, n: nat)
    requires 1 <= n <= |ts| && SnapshotAt(ts, n).Done? && ts[n - 1] == Word(Create)
    ensures ClauseReads(ts, n - 1, SnapshotAt(ts, n).pos, SnapshotAt(ts, n).value)
  {
    hide NodePatternAt, AtTimeAt, MatchAt, ReturnItemsAt, NodeReads, AtTimeReads, MatchReads, Listed, AnItem;
    var node := NodePatternAt(ts, n + 1);
    var anchor := AtTimeAt(ts, node.pos);
    var from := MatchAt(ts, anchor.pos + 1, false);
    NodeRead(ts, n + 1);
    AtTimeRead(ts, node.pos);
    MatchRead(ts, anchor.pos + 1, false);
    var list := ItemsAreRead(ts, from.pos + 1, []);
    assert [] + list == list;
  }

  lemma HyperedgeRead(ts: Tokens, n: nat)
    requires 1 <= n <= |ts| && HyperedgeAt(ts, n).Done? && ts[n - 1] == Word(Create)
    ensures ClauseReads(ts, n - 1, HyperedgeAt(ts, n).pos, HyperedgeAt(ts, n).value)
  {
    hide NodeHeadAt, EndsAt, HeadReads, EndsRead;
    var head := NodeHeadAt(ts, n + 1);
    HeadRead(ts, n + 1);
    EndsAreRead(ts, head.pos + 1);
  }

  lemma EndsAreRead(ts: Tokens, n: nat)
    requires n <= |ts| && EndsAt(ts, n).Done?
    ensures var e := EndsAt(ts, n); EndsRead(ts, n, e.pos, e.value.0, e.value.1)
  {
    hide ParticipantListAt, ParticipantsRead;
    var sources := ParticipantListAt(ts, n + 1);
    ParticipantListRead(ts, n + 1);
    ParticipantListRead(ts, sources.pos + 1);
    ToRead(ts, sources.pos);
  }

  lemma ToRead(ts: Tokens, n: nat)
    requires n <= |ts| && ToAt(ts, n).Done?
    ensures ToReads(ts, n)
  {
  }

  lemma MatchHyperedgeRead(ts: Tokens, n: nat)
    requires 1 <= n <= |ts| && MatchHyperedgeAt(ts, n).Done? && ts[n - 1] == Word(Match)
    ensures ClauseReads(ts, n - 1, MatchHyperedgeAt(ts, n).pos, MatchHyperedgeAt(ts, n).value)
  {
    hide NodeHeadAt, HeadReads;
    HeadRead(ts, n + 1);
  }

  lemma MatchClauseRead(ts: Tokens, n: nat, optional: bool)
    requires n <= |ts| && MatchClauseAt(ts, n, optional).Done? && (optional ==> n >= 1 && ts[n - 1] == Word(Optional))
    ensures ClauseReads(ts, if optional then n - 1 else n, MatchClauseAt(ts, n, optional).pos, MatchClauseAt(ts, n, optional).value)
  {
    hide MatchAt, MatchReads;
    MatchRead(ts, n, optional);
  }

  lemma CreateRead(ts: Tokens, n: nat)
    requires n < |ts| && CreateClauseAt(ts, n).Done? && ts[n] == Word(Create)
    ensures ClauseReads(ts, n, CreateClauseAt(ts, n).pos, CreateClauseAt(ts, n).value)
  {
    hide IndexAt, HyperedgeAt, SnapshotAt, PatternAt, PatternReads, ClauseReads;
    if TokenAt(ts, n + 1, Word(Index)) {
      IndexRead(ts, n + 1, false);
    } else if TokenAt(ts, n + 1, Word(Edge)) && TokenAt(ts, n + 2, Word(Index)) {
      IndexRead(ts, n + 2, true);
    } else if TokenAt(ts, n + 1, Word(Hyperedge)) {
      HyperedgeRead(ts, n + 1);
    } else if TokenAt(ts, n + 1, Word(Snapshot)) {
      SnapshotRead(ts, n + 1);
    } else {
      PatternRead(ts, n + 1);
      PatternClause(ts, n, PatternAt(ts, n + 1).pos, PatternAt(ts, n + 1).value);
    }
  }

  lemma PatternClause(ts: Tokens, n: nat, m: nat, p: Pattern)
    requires TokenAt(ts, n, Word(Create)) && PatternReads(ts, n + 1, m, p)
    ensures ClauseReads(ts, n, m, CreateC(p))
  {
  }

  lemma SetRead(ts: Tokens, n: nat)
    requires n <= |ts| && SetClauseAt(ts, n).Done?
    ensures ClauseReads(ts, n, SetClauseAt(ts, n).pos, SetClauseAt(ts, n).value)
  {
    hide SetItemsAt, Listed, ASetItem;
    var items := SetsAreRead(ts, n + 1, []);
    assert [] + items == items;
  }

  lemma RemoveRead(ts: Tokens, n: nat)
    requires n <= |ts| && RemoveClauseAt(ts, n).Done?
    ensures ClauseReads(ts, n, RemoveClauseAt(ts, n).pos, RemoveClauseAt(ts, n).value)
  {
    hide RemoveItemsAt, Listed, ARemoveItem;
    var items := RemovesRead(ts, n + 1, []);
    assert [] + items == items;
  }

  lemma DeleteRead(ts: Tokens, n: nat, detach: bool)
    requires n <= |ts| && DeleteClauseAt(ts, n, detach).Done? && (detach ==> n >= 1 && ts[n - 1] == Word(Detach))
    ensures ClauseReads(ts, if detach then n - 1 else n, DeleteClauseAt(ts, n, detach).pos, DeleteClauseAt(ts, n, detach).value)
  {
    hide ExprsAt, Listed, AnExpr;
    var items := ExprsRead(ts, n + 1, []);
    assert [] + items == items;
  }

  lemma DropRead(ts: Tokens, n: nat)
    requires n < |ts| && ClauseAt(ts, n).Done? && ts[n] == Word(Drop)
    ensures ClauseReads(ts, n, ClauseAt(ts, n).pos, ClauseAt(ts, n).value)
  {
  }

  /** Main result. Whatever clause the parser accepts, the tokens it took are that clause by the
      grammar. */
  lemma AcceptedIsRead(ts: Tokens, n: nat)
    requires n < |ts| && ClauseAt(ts, n).Done?
    ensures ClauseReads(ts, n, ClauseAt(ts, n).pos, ClauseAt(ts, n).value)
  {
    hide MatchClauseAt, MatchHyperedgeAt, ReturnAt, CreateClauseAt, SetClauseAt, RemoveClauseAt, DeleteClauseAt, WithAt, MergeAt,
         UnwindAt, DropIndexAt, NoClause, ClauseReads;
    match ts[n]
    case Word(Optional) => MatchClauseRead(ts, n + 1, true);
    case Word(Match) =>
      if TokenAt(ts, n + 1, Word(Hyperedge)) {
        MatchHyperedgeRead(ts, n + 1);
      } else {
        MatchClauseRead(ts, n, false);
      }
    case Word(Return) => ReturnRead(ts, n);
    case Word(Create) => CreateRead(ts, n);
    case Word(Set) => SetRead(ts, n);
    case Word(Remove) => RemoveRead(ts, n);
    case Word(Delete) => DeleteRead(ts, n, false);
    case Word(Detach) => DeleteRead(ts, n + 1, true);
    case Word(With) => WithRead(ts, n);
    case Word(Merge) => MergeRead(ts, n);
    case Word(Unwind) => UnwindRead(ts, n);
    case _ => DropRead(ts, n);
  }
}
