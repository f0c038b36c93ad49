/** The clause parsers as methods that move the cursor of a parser and push onto vectors. Each
    is proved to return, and to leave the cursor, as the clause function of the same name says. */
module ClauseParsers {
  import opened Wrappers
  import opened Syntax
  import opened Grammar
  import opened ExpressionParser
  import opened Patterns
  import opened PatternParsers
  import opened Clauses

  class ClauseParser {
    const p: Parser
    const q: PatternParser

    constructor (tokens: Tokens)
      ensures Valid() && p.tokens == tokens && p.pos == 0 && fresh(p)
    {
      var parser := new PatternParser(tokens);
      q := parser;
      p := parser.p;
    }

    ghost predicate Valid()
      reads p
    {
      q.p == p && p.Valid()
    }

    method Temporal() returns (r: Outcome<Option<TemporalPredicate>>)
      requires Valid()
      modifies p`pos
      ensures Agrees(p, r, TemporalAt(p.tokens, old(p.pos)))
    {
      hide ParseTemporal;
      r := p.ParseOptionalTemporalPredicate();
    }

    method ExprAfterWord(keyword: Keyword) returns (r: Outcome<Option<Expression>>)
      requires Valid()
      modifies p`pos
      ensures Agrees(p, r, ExprAfter(p.tokens, old(p.pos), keyword))
    {
      hide ExprAt;
      var found := q.Eat(Word(keyword));
      if !found {
        return Success(None);
      }
      var e :- q.Expr();
      r := Success(Some(e));
    }

    // -------------------------------------------------------------------------
    // Lists
    // -------------------------------------------------------------------------

    method OneReturnItem() returns (r: Outcome<ReturnItem>)
      requires Valid()
      modifies p`pos
      ensures Agrees(p, r, ReturnItemAt(p.tokens, old(p.pos)))
    {
      hide ExprAt;
      var e :- q.Expr();
      var aliased := q.Eat(Word(As));
      if !aliased {
        return Success(ReturnItem(e, None));
      }
      var name :- q.Name();
      r := Success(ReturnItem(e, Some(name)));
    }

    method ReturnItems() returns (r: Outcome<seq<ReturnItem>>)
      requires Valid()
      modifies p`pos
      ensures Agrees(p, r, ReturnItemsAt(p.tokens, old(p.pos), []))
    {
      hide ReturnItemAt;
      var items := [];
      var item :- OneReturnItem();
      items := items + [item];
      var comma := q.Eat(Comma);
      while comma
        invariant Valid()
        invariant ReturnItemsAt(p.tokens, old(p.pos), []) == if comma then ReturnItemsAt(p.tokens, p.pos, items) else Done(items, p.pos)
        decreases |p.tokens| - p.pos, comma
      {
        item :- OneReturnItem();
        items := items + [item];
        comma := q.Eat(Comma);
      }
      r := Success(items);
    }

    method OneOrderItem() returns (r: Outcome<OrderItem>)
      requires Valid()
      modifies p`pos
      ensures Agrees(p, r, OrderItemAt(p.tokens, old(p.pos)))
    {
      hide ExprAt;
      var e :- q.Expr();
      var descending := q.Eat(Word(Desc));
      if descending {
        return Success(OrderItem(e, false));
      }
      var _ := q.Eat(Word(Asc));
      r := Success(OrderItem(e, true));
    }

    method OrderBy() returns (r: Outcome<Option<seq<OrderItem>>>)
      requires Valid()
      modifies p`pos
      ensures Agrees(p, r, OrderAt(p.tokens, old(p.pos)))
    {
      hide OrderItemsAt;
      if !q.Check(Word(Order)) {
        return Success(None);
      }
      q.Skip();
      var _ :- q.Expect(Word(By));
      var items :- OrderItems();
      r := Success(Some(items));
    }

    method OrderItems() returns (r: Outcome<seq<OrderItem>>)
      requires Valid()
      modifies p`pos
      ensures Agrees(p, r, OrderItemsAt(p.tokens, old(p.pos), []))
    {
      hide OrderItemAt;
      var items := [];
      var item :- OneOrderItem();
      items := items + [item];
      var comma := q.Eat(Comma);
      while comma
        invariant Valid()
        invariant OrderItemsAt(p.tokens, old(p.pos), []) == if comma then OrderItemsAt(p.tokens, p.pos, items) else Done(items, p.pos)
        decreases |p.tokens| - p.pos, comma
      {
        item :- OneOrderItem();
        items := items + [item];
        comma := q.Eat(Comma);
      }
      r := Success(items);
    }

    /** `.name` any number of times. */
    method PropertyChain(base: Expression) returns (r: Outcome<Expression>)
      requires Valid()
      modifies p`pos
      ensures Agrees(p, r, ChainAt(p.tokens, old(p.pos), base))
    {
      var target := base;
      while q.Check(Dot)
        invariant Valid()
        invariant ChainAt(p.tokens, old(p.pos), base) == ChainAt(p.tokens, p.pos, target)
        decreases |p.tokens| - p.pos
      {
        q.Skip();
        var prop :- q.Name();
        target := Property(target, prop);
      }
      r := Success(target);
    }

    method OneSetItem() returns (r: Outcome<SetItem>)
      requires Valid()
      modifies p`pos
      ensures Agrees(p, r, SetItemAt(p.tokens, old(p.pos)))
    {
      hide ExprAt, ChainAt;
      var name :- q.Name();
      var target :- PropertyChain(Variable(name));
      var _ :- q.Expect(Eq);
      var value :- q.Expr();
      r := Success(SetItem(target, value));
    }

    /** SET items, pushed behind those there are. */
    method SetItems(before: seq<SetItem>) returns (r: Outcome<seq<SetItem>>)
      requires Valid()
      modifies p`pos
      ensures Agrees(p, r, SetItemsAt(p.tokens, old(p.pos), before))
    {
      hide SetItemAt;
      var items := before;
      var item :- OneSetItem();
      items := items + [item];
      var comma := q.Eat(Comma);
      while comma
        invariant Valid()
        invariant SetItemsAt(p.tokens, old(p.pos), before) == if comma then SetItemsAt(p.tokens, p.pos, items) else Done(items, p.pos)
        decreases |p.tokens| - p.pos, comma
      {
        item :- OneSetItem();
        items := items + [item];
        comma := q.Eat(Comma);
      }
      r := Success(items);
    }

    method OneRemoveItem() returns (r: Outcome<RemoveItem>)
      requires Valid()
      modifies p`pos
      ensures Agrees(p, r, RemoveItemAt(p.tokens, old(p.pos)))
    {
      hide IdentAt;
      var name :- q.Name();
      if q.Check(Punct(Colon)) {
        q.Skip();
        var tag :- q.Name();
        return Success(RemoveLabel(name, tag));
      }
      if q.Check(Dot) {
        q.Skip();
        var prop :- q.Name();
        return Success(RemoveProperty(Property(Variable(name), prop)));
      }
      r := Failure(q.Error("expected '.' or ':' after identifier in REMOVE item"));
    }

    method RemoveItems() returns (r: Outcome<seq<RemoveItem>>)
      requires Valid()
      modifies p`pos
      ensures Agrees(p, r, RemoveItemsAt(p.tokens, old(p.pos), []))
    {
      hide RemoveItemAt;
      var items := [];
      var item :- OneRemoveItem();
      items := items + [item];
      var comma := q.Eat(Comma);
      while comma
        invariant Valid()
        invariant RemoveItemsAt(p.tokens, old(p.pos), []) == if comma then RemoveItemsAt(p.tokens, p.pos, items) else Done(items, p.pos)
        decreases |p.tokens| - p.pos, comma
      {
        item :- OneRemoveItem();
        items := items + [item];
        comma := q.Eat(Comma);
      }
      r := Success(items);
    }

    method Exprs() returns (r: Outcome<seq<Expression>>)
      requires Valid()
      modifies p`pos
      ensures Agrees(p, r, ExprsAt(p.tokens, old(p.pos), []))
    {
      hide ExprAt;
      var items := [];
      var item :- q.Expr();
      items := items + [item];
      var comma := q.Eat(Comma);
      while comma
        invariant Valid()
        invariant ExprsAt(p.tokens, old(p.pos), []) == if comma then ExprsAt(p.tokens, p.pos, items) else Done(items, p.pos)
        decreases |p.tokens| - p.pos, comma
      {
        item :- q.Expr();
        items := items + [item];
        comma := q.Eat(Comma);
      }
      r := Success(items);
    }

    method AtTime() returns (r: Outcome<Option<Expression>>)
      requires Valid()
      modifies p`pos
      ensures Agrees(p, r, AtTimeAt(p.tokens, old(p.pos)))
    {
      hide ExprAt;
      if !q.Check(Word(At)) {
        return Success(None);
      }
      q.Skip();
      var _ :- q.Expect(Word(Time));
      var e :- q.Expr();
      r := Success(Some(e));
    }

    method OneParticipant() returns (r: Outcome<Participant>)
      requires Valid()
      modifies p`pos
      ensures Agrees(p, r, ParticipantAt(p.tokens, old(p.pos)))
    {
      hide AtTimeAt;
      var name :- q.Name();
      var at :- AtTime();
      r := Success(Participant(name, at));
    }

    method Participants() returns (r: Outcome<seq<Participant>>)
      requires Valid()
      modifies p`pos
      ensures Agrees(p, r, ParticipantsAt(p.tokens, old(p.pos), []))
    {
      hide ParticipantAt;
      var items := [];
      var item :- OneParticipant();
      items := items + [item];
      var comma := q.Eat(Comma);
      while comma
        invariant Valid()
        invariant ParticipantsAt(p.tokens, old(p.pos), []) == if comma then ParticipantsAt(p.tokens, p.pos, items) else Done(items, p.pos)
        decreases |p.tokens| - p.pos, comma
      {
        item :- OneParticipant();
        items := items + [item];
        comma := q.Eat(Comma);
      }
      r := Success(items);
    }

    method ParticipantList() returns (r: Outcome<seq<Participant>>)
      requires Valid()
      modifies p`pos
      ensures Agrees(p, r, ParticipantListAt(p.tokens, old(p.pos)))
    {
      hide ParticipantsAt;
      var _ :- q.Expect(LParen);
      var items := [];
      if !q.Check(RParen) {
        items :- Participants();
      }
      var _ :- q.Expect(RParen);
      r := Success(items);
    }

    // -------------------------------------------------------------------------
    // Clauses
    // -------------------------------------------------------------------------

    method ParseMatch(optional: bool) returns (r: Outcome<MatchBody>)
      requires Valid()
      modifies p`pos
      ensures Agrees(p, r, MatchAt(p.tokens, old(p.pos), optional))
    {
      hide TemporalAt, ExprAfter;
      var _ :- q.Expect(Word(Match));
      var pattern :- q.ParsePattern();
      var temporal :- Temporal();
      var filter :- ExprAfterWord(Where);
      r := Success(MatchBody(optional, pattern, temporal, filter));
    }

    method ParseReturn() returns (r: Outcome<Clause>)
      requires Valid()
      modifies p`pos
      ensures Agrees(p, r, ReturnAt(p.tokens, old(p.pos)))
    {
      hide ReturnItemsAt, OrderAt, ExprAfter;
      var _ :- q.Expect(Word(Return));
      var distinct := q.Eat(Distinct);
      var items :- ReturnItems();
      var order :- OrderBy();
      var skip :- ExprAfterWord(Keyword.Skip);
      var limit :- ExprAfterWord(Limit);
      r := Success(ReturnC(distinct, items, order, skip, limit));
    }

    method ParseCreate() returns (r: Outcome<Clause>)
      requires Valid()
      modifies p`pos
      ensures Agrees(p, r, CreateAt(p.tokens, old(p.pos)))
    {
      var _ :- q.Expect(Word(Create));
      var pattern :- q.ParsePattern();
      r := Success(CreateC(pattern));
    }

    method ParseSet() returns (r: Outcome<Clause>)
      requires Valid()
      modifies p`pos
      ensures Agrees(p, r, SetClauseAt(p.tokens, old(p.pos)))
    {
      hide SetItemsAt;
      var _ :- q.Expect(Word(Set));
      var items :- SetItems([]);
      r := Success(SetC(items));
    }

    method ParseRemove() returns (r: Outcome<Clause>)
      requires Valid()
      modifies p`pos
      ensures Agrees(p, r, RemoveClauseAt(p.tokens, old(p.pos)))
    {
      hide RemoveItemsAt;
      var _ :- q.Expect(Word(Remove));
      var items :- RemoveItems();
      r := Success(RemoveC(items));
    }

    method ParseDelete(detach: bool) returns (r: Outcome<Clause>)
      requires Valid()
      modifies p`pos
      ensures Agrees(p, r, DeleteClauseAt(p.tokens, old(p.pos), detach))
    {
      hide ExprsAt;
      var _ :- q.Expect(Word(Delete));
      var items :- Exprs();
      r := Success(DeleteC(detach, items));
    }

    method ParseWith() returns (r: Outcome<Clause>)
      requires Valid()
      modifies p`pos
      ensures Agrees(p, r, WithAt(p.tokens, old(p.pos)))
    {
      hide ReturnItemsAt, ExprAfter;
      var _ :- q.Expect(Word(With));
      var distinct := q.Eat(Distinct);
      var items :- ReturnItems();
      var filter :- ExprAfterWord(Where);
      r := Success(WithC(distinct, items, filter));
    }

    method ParseUnwind() returns (r: Outcome<Clause>)
      requires Valid()
      modifies p`pos
      ensures Agrees(p, r, UnwindAt(p.tokens, old(p.pos)))
    {
      hide ExprAt;
      var _ :- q.Expect(Word(Unwind));
      var e :- q.Expr();
      var _ :- q.Expect(Word(As));
      var name :- q.Name();
      r := Success(UnwindC(e, name));
    }

    method OneAction(before: MergeActions, onMatch: bool) returns (r: Outcome<MergeActions>)
      requires Valid()
      modifies p`pos
      ensures Agrees(p, r, ActionAt(p.tokens, old(p.pos), before, onMatch))
    {
      hide SetItemsAt;
      var _ :- q.Expect(Word(Set));
      var items :- SetItems(if onMatch then before.onMatch else before.onCreate);
      r := Success(if onMatch then before.(onMatch := items) else before.(onCreate := items));
    }

    method MergeActionsLoop() returns (r: Outcome<MergeActions>)
      requires Valid()
      modifies p`pos
      ensures Agrees(p, r, ActionsAt(p.tokens, old(p.pos), MergeActions([], [])))
    {
      hide ActionAt;
      var actions := MergeActions([], []);
      while q.Check(Word(On)) && (q.CheckAhead(1, Word(Match)) || q.CheckAhead(1, Word(Create)))
        invariant Valid()
        invariant ActionsAt(p.tokens, old(p.pos), MergeActions([], [])) == ActionsAt(p.tokens, p.pos, actions)
        decreases |p.tokens| - p.pos
      {
        var onMatch := q.CheckAhead(1, Word(Match));
        q.Skip();
        q.Skip();
        actions :- OneAction(actions, onMatch);
      }
      r := Success(actions);
    }

    method ParseMerge() returns (r: Outcome<Clause>)
      requires Valid()
      modifies p`pos
      ensures Agrees(p, r, MergeAt(p.tokens, old(p.pos)))
    {
      hide ActionsAt;
      var _ :- q.Expect(Word(Merge));
      var pattern :- q.ParsePattern();
      var actions :- MergeActionsLoop();
      r := Success(MergeC(pattern, actions));
    }

    method IndexTarget() returns (r: Outcome<(string, string)>)
      requires Valid()
      modifies p`pos
      ensures Agrees(p, r, IndexTargetAt(p.tokens, old(p.pos)))
    {
      hide ExpectAt, IdentAt;
      var _ :- q.Expect(Word(On));
      var _ :- q.Expect(Punct(Colon));
      var target :- q.Name();
      var _ :- q.Expect(LParen);
      var property :- q.Name();
      var _ :- q.Expect(RParen);
      r := Success((target, property));
    }

    method ParseIndex(onEdges: bool) returns (r: Outcome<Clause>)
      requires Valid()
      modifies p`pos
      ensures Agrees(p, r, IndexAt(p.tokens, old(p.pos), onEdges))
    {
      hide IndexTargetAt, ExpectAt, IdentAt;
      var _ :- q.Expect(Word(Index));
      var name: Option<string> := None;
      if !q.Check(Word(On)) {
        var found :- q.Name();
        name := Some(found);
      }
      var target :- IndexTarget();
      r := Success(CreateIndexC(onEdges, name, target.0, target.1));
    }

    method ParseEdgeIndex() returns (r: Outcome<Clause>)
      requires Valid()
      modifies p`pos
      ensures Agrees(p, r, EdgeIndexAt(p.tokens, old(p.pos)))
    {
      hide IndexAt;
      var _ :- q.Expect(Word(Edge));
      r := ParseIndex(true);
    }

    method ParseDropIndex() returns (r: Outcome<Clause>)
      requires Valid()
      modifies p`pos
      ensures Agrees(p, r, DropIndexAt(p.tokens, old(p.pos)))
    {
      var _ :- q.Expect(Word(Drop));
      var _ :- q.Expect(Word(Index));
      var name :- q.Name();
      r := Success(DropIndexC(name));
    }

    method SnapshotSource() returns (r: Outcome<(MatchBody, seq<ReturnItem>)>)
      requires Valid()
      modifies p`pos
      ensures Agrees(p, r, SnapshotSourceAt(p.tokens, old(p.pos)))
    {
      hide MatchAt, ReturnItemsAt, ExpectAt;
      var _ :- q.Expect(Word(From));
      var from :- ParseMatch(false);
      var _ :- q.Expect(Word(Return));
      var items :- ReturnItems();
      r := Success((from, items));
    }

    method ParseSnapshot() returns (r: Outcome<Clause>)
      requires Valid()
      modifies p`pos
      ensures Agrees(p, r, SnapshotAt(p.tokens, old(p.pos)))
    {
      hide NodePatternAt, SnapshotSourceAt, AtTimeAt, ExpectAt;
      var _ :- q.Expect(Word(Snapshot));
      var node :- q.ParseNodePattern();
      var anchor :- AtTime();
      var source :- SnapshotSource();
      r := Success(CreateSnapshotC(node, anchor, source.0, source.1));
    }

    method ExpectTo() returns (r: Outcome<()>)
      requires Valid()
      modifies p`pos
      ensures Agrees(p, r, ToAt(p.tokens, old(p.pos)))
    {
      if p.pos < |p.tokens| && p.tokens[p.pos].Ident? && p.tokens[p.pos].name in {"TO", "To", "tO", "to"} {
        q.Skip();
        return Success(());
      }
      r := Failure(q.Error("expected TO keyword"));
    }

    method HyperedgeEnds() returns (r: Outcome<(seq<Participant>, seq<Participant>)>)
      requires Valid()
      modifies p`pos
      ensures Agrees(p, r, EndsAt(p.tokens, old(p.pos)))
    {
      hide ParticipantListAt, ToAt, ExpectAt;
      var _ :- q.Expect(Word(From));
      var sources :- ParticipantList();
      var _ :- ExpectTo();
      var targets :- ParticipantList();
      r := Success((sources, targets));
    }

    method ParseHyperedge() returns (r: Outcome<Clause>)
      requires Valid()
      modifies p`pos
      ensures Agrees(p, r, HyperedgeAt(p.tokens, old(p.pos)))
    {
      hide NodeHeadAt, EndsAt, ExpectAt;
      var _ :- q.Expect(Word(Hyperedge));
      var head :- q.NodeHead();
      var _ :- q.Expect(RParen);
      var ends :- HyperedgeEnds();
      r := Success(CreateHyperedgeC(head.0, head.1, ends.0, ends.1));
    }

    method ParseMatchHyperedge() returns (r: Outcome<Clause>)
      requires Valid()
      modifies p`pos
      ensures Agrees(p, r, MatchHyperedgeAt(p.tokens, old(p.pos)))
    {
      hide NodeHeadAt;
      var _ :- q.Expect(Word(Hyperedge));
      var head :- q.NodeHead();
      var _ :- q.Expect(RParen);
      r := Success(MatchHyperedgeC(head.0, head.1));
    }

    // -------------------------------------------------------------------------
    // Queries
    // -------------------------------------------------------------------------

    method ParseMatchClause(optional: bool) returns (r: Outcome<Clause>)
      requires Valid()
      modifies p`pos
      ensures Agrees(p, r, MatchClauseAt(p.tokens, old(p.pos), optional))
    {
      hide MatchAt;
      var body :- ParseMatch(optional);
      r := Success(MatchC(body));
    }

    method ParseCreateClause() returns (r: Outcome<Clause>)
      requires Valid() && p.pos < |p.tokens|
      modifies p`pos
      ensures Agrees(p, r, CreateClauseAt(p.tokens, old(p.pos)))
    {
      hide IndexAt, EdgeIndexAt, HyperedgeAt, SnapshotAt, CreateAt;
      if q.CheckAhead(1, Word(Index)) {
        q.Skip();
        r := ParseIndex(false);
      } else if q.CheckAhead(1, Word(Edge)) && q.CheckAhead(2, Word(Index)) {
        q.Skip();
        r := ParseEdgeIndex();
      } else if q.CheckAhead(1, Word(Hyperedge)) {
        q.Skip();
        r := ParseHyperedge();
      } else if q.CheckAhead(1, Word(Snapshot)) {
        q.Skip();
        r := ParseSnapshot();
      } else {
        r := ParseCreate();
      }
    }

    method ParseClause() returns (r: Outcome<Clause>)
      requires Valid() && p.pos < |p.tokens|
      modifies p`pos
      ensures Agrees(p, r, ClauseAt(p.tokens, old(p.pos)))
    {
      hide MatchClauseAt, MatchHyperedgeAt, ReturnAt, CreateClauseAt, SetClauseAt, RemoveClauseAt, DeleteClauseAt, WithAt, MergeAt,
           UnwindAt, DropIndexAt, NoClause;
      var token := p.tokens[p.pos];
      if token == Word(Optional) {
        q.Skip();
        if !q.Check(Word(Match)) {
          return Failure(q.Error("expected MATCH after OPTIONAL"));
        }
        r := ParseMatchClause(true);
      } else if token == Word(Match) {
        if q.CheckAhead(1, Word(Hyperedge)) {
          q.Skip();
          r := ParseMatchHyperedge();
        } else {
          r := ParseMatchClause(false);
        }
      } else if token == Word(Return) {
        r := ParseReturn();
      } else if token == Word(Create) {
        r := ParseCreateClause();
      } else if token == Word(Set) {
        r := ParseSet();
      } else if token == Word(Remove) {
        r := ParseRemove();
      } else if token == Word(Delete) {
        r := ParseDelete(false);
      } else if token == Word(Detach) {
        q.Skip();
        if !q.Check(Word(Delete)) {
          return Failure(q.Error("expected DELETE after DETACH"));
        }
        r := ParseDelete(true);
      } else if token == Word(With) {
        r := ParseWith();
      } else if token == Word(Merge) {
        r := ParseMerge();
      } else if token == Word(Unwind) {
        r := ParseUnwind();
      } else if token == Word(Drop) {
        r := ParseDropIndex();
      } else {
        r := Failure(NoClause(p.tokens, p.pos));
      }
    }

    /** The loop over all clauses. */
    method ParseQuery() returns (r: Outcome<seq<Clause>>)
      requires Valid() && p.pos == 0
      modifies p`pos
      ensures Agrees(p, r, QueryAt(p.tokens))
    {
      hide ClauseAt;
      var clauses := [];
      while p.pos < |p.tokens|
        invariant Valid()
        invariant ClausesFrom(p.tokens, 0, []) == ClausesFrom(p.tokens, p.pos, clauses)
        decreases |p.tokens| - p.pos
      {
        var clause :- ParseClause();
        clauses := clauses + [clause];
      }
      if clauses == [] {
        return Failure(ParseError(Because("empty query"), |p.tokens|));
      }
      r := Success(clauses);
    }
  }
}
