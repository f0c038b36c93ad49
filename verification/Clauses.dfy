/** Clauses and whole queries, as functions of a token position. */
module Clauses {
  import opened Wrappers
  import opened Syntax
  import opened Grammar
  import opened Patterns

  datatype ReturnItem = ReturnItem(expr: Expression, alias: Option<string>)
  datatype OrderItem = OrderItem(expr: Expression, ascending: bool)
  datatype SetItem = SetItem(target: Expression, value: Expression)
  datatype RemoveItem = RemoveLabel(variable: string, name: string) | RemoveProperty(expr: Expression)
  datatype Participant = Participant(name: string, at: Option<Expression>)
  datatype MergeActions = MergeActions(onMatch: seq<SetItem>, onCreate: seq<SetItem>)

  datatype MatchBody = MatchBody(optional: bool, pattern: Pattern, temporal: Option<TemporalPredicate>, filter: Option<Expression>)

  datatype Clause =
    | MatchC(body: MatchBody)
    | ReturnC(distinct: bool, items: seq<ReturnItem>, order: Option<seq<OrderItem>>, skip: Option<Expression>, limit: Option<Expression>)
    | CreateC(pattern: Pattern)
    | SetC(sets: seq<SetItem>)
    | RemoveC(removes: seq<RemoveItem>)
    | DeleteC(detach: bool, exprs: seq<Expression>)
    | WithC(distinct: bool, items: seq<ReturnItem>, filter: Option<Expression>)
    | MergeC(pattern: Pattern, actions: MergeActions)
    | UnwindC(expr: Expression, element: string)
    | CreateIndexC(onEdges: bool, name: Option<string>, target: string, property: string)
    | DropIndexC(dropped: string)
    | CreateSnapshotC(node: NodePattern, anchor: Option<Expression>, from: MatchBody, returned: seq<ReturnItem>)
    | CreateHyperedgeC(variable: Option<string>, labels: seq<string>, sources: seq<Participant>, targets: seq<Participant>)
    | MatchHyperedgeC(variable: Option<string>, labels: seq<string>)

  function TemporalAt(ts: Tokens, n: nat): (r: Step<Option<TemporalPredicate>>)
    requires n <= |ts|
    ensures r.Done? ==> n <= r.pos <= |ts|
  {
    match ParseTemporal(ts[n..])
    case Ok(t, rest) => Done(t, |ts| - |rest|)
    case Err(e) => Stuck(e)
  }

  /** An expression after a keyword, if the keyword is there. */
  function ExprAfter(ts: Tokens, n: nat, keyword: Keyword): (r: Step<Option<Expression>>)
    requires n <= |ts|
    ensures r.Done? ==> n <= r.pos <= |ts|
  {
    if !TokenAt(ts, n, Word(keyword)) then Done(None, n)
    else
      var (e, m) :- ExprAt(ts, n + 1);
      Done(Some(e), m)
  }

  // ---------------------------------------------------------------------------
  // Lists
  // ---------------------------------------------------------------------------

  function ReturnItemAt(ts: Tokens, n: nat): (r: Step<ReturnItem>)
    requires n <= |ts|
    ensures r.Done? ==> n < r.pos <= |ts|
  {
    var (e, m) :- ExprAt(ts, n);
    if !TokenAt(ts, m, Word(As)) then Done(ReturnItem(e, None), m)
    else
      var (name, k) :- IdentAt(ts, m + 1);
      Done(ReturnItem(e, Some(name)), k)
  }

  /** One item, then more after every comma. `before` are the items read so far. */
  function ReturnItemsAt(ts: Tokens, n: nat, before: seq<ReturnItem>): (r: Step<seq<ReturnItem>>)
    requires n <= |ts|
    ensures r.Done? ==> n < r.pos <= |ts|
    decreases |ts| - n
  {
    var (item, m) :- ReturnItemAt(ts, n);
    if TokenAt(ts, m, Comma) then ReturnItemsAt(ts, m + 1, before + [item]) else Done(before + [item], m)
  }

  function OrderItemAt(ts: Tokens, n: nat): (r: Step<OrderItem>)
    requires n <= |ts|
    ensures r.Done? ==> n < r.pos <= |ts|
  {
    var (e, m) :- ExprAt(ts, n);
    if TokenAt(ts, m, Word(Desc)) then Done(OrderItem(e, false), m + 1)
    else Done(OrderItem(e, true), if TokenAt(ts, m, Word(Asc)) then m + 1 else m)
  }

  function OrderItemsAt(ts: Tokens, n: nat, before: seq<OrderItem>): (r: Step<seq<OrderItem>>)
    requires n <= |ts|
    ensures r.Done? ==> n < r.pos <= |ts|
    decreases |ts| - n
  {
    var (item, m) :- OrderItemAt(ts, n);
    if TokenAt(ts, m, Comma) then OrderItemsAt(ts, m + 1, before + [item]) else Done(before + [item], m)
  }

  function OrderAt(ts: Tokens, n: nat): (r: Step<Option<seq<OrderItem>>>)
    requires n <= |ts|
    ensures r.Done? ==> n <= r.pos <= |ts|
  {
    if !TokenAt(ts, n, Word(Order)) then Done(None, n)
    else
      var (_, m) :- ExpectAt(ts, n + 1, Word(By));
      var (items, k) :- OrderItemsAt(ts, m, []);
      Done(Some(items), k)
  }

  /** `.name` any number of times. */
  function ChainAt(ts: Tokens, n: nat, base: Expression): (r: Step<Expression>)
    requires n <= |ts|
    ensures r.Done? ==> n <= r.pos <= |ts|
    decreases |ts| - n
  {
    if !TokenAt(ts, n, Dot) then Done(base, n)
    else
      var (name, m) :- IdentAt(ts, n + 1);
      ChainAt(ts, m, Property(base, name))
  }

  /** The target is not an expression: the `=` would be taken for a comparison. */
  function SetItemAt(ts: Tokens, n: nat): (r: Step<SetItem>)
    requires n <= |ts|
    ensures r.Done? ==> n < r.pos <= |ts|
  {
    var (name, m) :- IdentAt(ts, n);
    var (target, k) :- ChainAt(ts, m, Variable(name));
    var (_, j) :- ExpectAt(ts, k, Eq);
    var (value, i) :- ExprAt(ts, j);
    Done(SetItem(target, value), i)
  }

  function SetItemsAt(ts: Tokens, n: nat, before: seq<SetItem>): (r: Step<seq<SetItem>>)
    requires n <= |ts|
    ensures r.Done? ==> n < r.pos <= |ts|
    decreases |ts| - n
  {
    var (item, m) :- SetItemAt(ts, n);
    if TokenAt(ts, m, Comma) then SetItemsAt(ts, m + 1, before + [item]) else Done(before + [item], m)
  }

  function RemoveItemAt(ts: Tokens, n: nat): (r: Step<RemoveItem>)
    requires n <= |ts|
    ensures r.Done? ==> n < r.pos <= |ts|
  {
    var (name, m) :- IdentAt(ts, n);
    if TokenAt(ts, m, Punct(Colon)) then
      var (tag, k) :- IdentAt(ts, m + 1);
      Done(RemoveLabel(name, tag), k)
    else if TokenAt(ts, m, Dot) then
      var (prop, k) :- IdentAt(ts, m + 1);
      Done(RemoveProperty(Property(Variable(name), prop)), k)
    else Stuck(Fail(ts, m, "expected '.' or ':' after identifier in REMOVE item"))
  }

  function RemoveItemsAt(ts: Tokens, n: nat, before: seq<RemoveItem>): (r: Step<seq<RemoveItem>>)
    requires n <= |ts|
    ensures r.Done? ==> n < r.pos <= |ts|
    decreases |ts| - n
  {
    var (item, m) :- RemoveItemAt(ts, n);
    if TokenAt(ts, m, Comma) then RemoveItemsAt(ts, m + 1, before + [item]) else Done(before + [item], m)
  }

  function ExprsAt(ts: Tokens, n: nat, before: seq<Expression>): (r: Step<seq<Expression>>)
    requires n <= |ts|
    ensures r.Done? ==> n < r.pos <= |ts|
    decreases |ts| - n
  {
    var (item, m) :- ExprAt(ts, n);
    if TokenAt(ts, m, Comma) then ExprsAt(ts, m + 1, before + [item]) else Done(before + [item], m)
  }

  function AtTimeAt(ts: Tokens, n: nat): (r: Step<Option<Expression>>)
    requires n <= |ts|
    ensures r.Done? ==> n <= r.pos <= |ts|
  {
    if !TokenAt(ts, n, Word(Keyword.At)) then Done(None, n)
    else
      var (_, m) :- ExpectAt(ts, n + 1, Word(Time));
      var (e, k) :- ExprAt(ts, m);
      Done(Some(e), k)
  }

  function ParticipantAt(ts: Tokens, n: nat): (r: Step<Participant>)
    requires n <= |ts|
    ensures r.Done? ==> n < r.pos <= |ts|
  {
    var (name, m) :- IdentAt(ts, n);
    var (at, k) :- AtTimeAt(ts, m);
    Done(Participant(name, at), k)
  }

  function ParticipantsAt(ts: Tokens, n: nat, before: seq<Participant>): (r: Step<seq<Participant>>)
    requires n <= |ts|
    ensures r.Done? ==> n < r.pos <= |ts|
    decreases |ts| - n
  {
    var (item, m) :- ParticipantAt(ts, n);
    if TokenAt(ts, m, Comma) then ParticipantsAt(ts, m + 1, before + [item]) else Done(before + [item], m)
  }

  function ParticipantListAt(ts: Tokens, n: nat): (r: Step<seq<Participant>>)
    requires n <= |ts|
    ensures r.Done? ==> n < r.pos <= |ts|
  {
    var (_, m) :- ExpectAt(ts, n, LParen);
    var (list, k) :- if TokenAt(ts, m, RParen) then Done([], m) else ParticipantsAt(ts, m, []);
    var (_, j) :- ExpectAt(ts, k, RParen);
    Done(list, j)
  }

  // ---------------------------------------------------------------------------
  // Clauses
  // ---------------------------------------------------------------------------

  function MatchAt(ts: Tokens, n: nat, optional: bool): (r: Step<MatchBody>)
    requires n <= |ts|
    ensures r.Done? ==> n < r.pos <= |ts|
  {
    var (_, m) :- ExpectAt(ts, n, Word(Match));
    var (pattern, k) :- PatternAt(ts, m);
    var (temporal, j) :- TemporalAt(ts, k);
    var (filter, i) :- ExprAfter(ts, j, Where);
    Done(MatchBody(optional, pattern, temporal, filter), i)
  }

  function ReturnAt(ts: Tokens, n: nat): (r: Step<Clause>)
    requires n <= |ts|
    ensures r.Done? ==> n < r.pos <= |ts|
  {
    var (_, m) :- ExpectAt(ts, n, Word(Return));
    var distinct := TokenAt(ts, m, Distinct);
    var (items, k) :- ReturnItemsAt(ts, if distinct then m + 1 else m, []);
    var (order, j) :- OrderAt(ts, k);
    var (skip, i) :- ExprAfter(ts, j, Skip);
    var (limit, h) :- ExprAfter(ts, i, Limit);
    Done(ReturnC(distinct, items, order, skip, limit), h)
  }

  function CreateAt(ts: Tokens, n: nat): (r: Step<Clause>)
    requires n <= |ts|
    ensures r.Done? ==> n < r.pos <= |ts|
  {
    var (_, m) :- ExpectAt(ts, n, Word(Create));
    var (pattern, k) :- PatternAt(ts, m);
    Done(CreateC(pattern), k)
  }

  function WithAt(ts: Tokens, n: nat): (r: Step<Clause>)
    requires n <= |ts|
    ensures r.Done? ==> n < r.pos <= |ts|
  {
    var (_, m) :- ExpectAt(ts, n, Word(With));
    var distinct := TokenAt(ts, m, Distinct);
    var (items, k) :- ReturnItemsAt(ts, if distinct then m + 1 else m, []);
    var (filter, j) :- ExprAfter(ts, k, Where);
    Done(WithC(distinct, items, filter), j)
  }

  function UnwindAt(ts: Tokens, n: nat): (r: Step<Clause>)
    requires n <= |ts|
    ensures r.Done? ==> n < r.pos <= |ts|
  {
    var (_, m) :- ExpectAt(ts, n, Word(Unwind));
    var (e, k) :- ExprAt(ts, m);
    var (_, j) :- ExpectAt(ts, k, Word(As));
    var (variable, i) :- IdentAt(ts, j);
    Done(UnwindC(e, variable), i)
  }

  /** SET items for one of the two lists. */
  function ActionAt(ts: Tokens, n: nat, before: MergeActions, onMatch: bool): (r: Step<MergeActions>)
    requires n <= |ts|
    ensures r.Done? ==> n < r.pos <= |ts|
  {
    var (_, m) :- ExpectAt(ts, n, Word(Set));
    var (items, k) :- SetItemsAt(ts, m, if onMatch then before.onMatch else before.onCreate);
    Done(if onMatch then before.(onMatch := items) else before.(onCreate := items), k)
  }

  /** `ON MATCH SET` and `ON CREATE SET` parts, in any order and number. */
  function ActionsAt(ts: Tokens, n: nat, before: MergeActions): (r: Step<MergeActions>)
    requires n <= |ts|
    ensures r.Done? ==> n <= r.pos <= |ts|
    decreases |ts| - n
  {
    if TokenAt(ts, n, Word(On)) && (TokenAt(ts, n + 1, Word(Match)) || TokenAt(ts, n + 1, Word(Create))) then
      var (actions, m) :- ActionAt(ts, n + 2, before, ts[n + 1] == Word(Match));
      ActionsAt(ts, m, actions)
    else Done(before, n)
  }

  function MergeAt(ts: Tokens, n: nat): (r: Step<Clause>)
    requires n <= |ts|
    ensures r.Done? ==> n < r.pos <= |ts|
  {
    var (_, m) :- ExpectAt(ts, n, Word(Merge));
    var (pattern, k) :- PatternAt(ts, m);
    var (actions, j) :- ActionsAt(ts, k, MergeActions([], []));
    Done(MergeC(pattern, actions), j)
  }

  /** `ON :Target(property)`. */
  function IndexTargetAt(ts: Tokens, n: nat): (r: Step<(string, string)>)
    requires n <= |ts|
    ensures r.Done? ==> n < r.pos <= |ts|
  {
    var (_, a) :- ExpectAt(ts, n, Word(On));
    var (_, b) :- ExpectAt(ts, a, Punct(Colon));
    var (target, c) :- IdentAt(ts, b);
    var (_, d) :- ExpectAt(ts, c, LParen);
    var (property, e) :- IdentAt(ts, d);
    var (_, f) :- ExpectAt(ts, e, RParen);
    Done((target, property), f)
  }

  /** From INDEX on: an optional name, then the target. */
  function IndexAt(ts: Tokens, n: nat, onEdges: bool): (r: Step<Clause>)
    requires n <= |ts|
    ensures r.Done? ==> n < r.pos <= |ts|
  {
    var (_, a) :- ExpectAt(ts, n, Word(Index));
    var (name, b) :- if TokenAt(ts, a, Word(On)) then Done(None, a) else SomeIdentAt(ts, a);
    var (target, c) :- IndexTargetAt(ts, b);
    Done(CreateIndexC(onEdges, name, target.0, target.1), c)
  }

  function SomeIdentAt(ts: Tokens, n: nat): (r: Step<Option<string>>)
    requires n <= |ts|
    ensures r.Done? ==> r.pos == n + 1 <= |ts|
  {
    var (name, m) :- IdentAt(ts, n);
    Done(Some(name), m)
  }

  function EdgeIndexAt(ts: Tokens, n: nat): (r: Step<Clause>)
    requires n <= |ts|
    ensures r.Done? ==> n < r.pos <= |ts|
  {
    var (_, m) :- ExpectAt(ts, n, Word(Edge));
    IndexAt(ts, m, true)
  }

  function DropIndexAt(ts: Tokens, n: nat): (r: Step<Clause>)
    requires n <= |ts|
    ensures r.Done? ==> n < r.pos <= |ts|
  {
    var (_, m) :- ExpectAt(ts, n, Word(Drop));
    var (_, k) :- ExpectAt(ts, m, Word(Index));
    var (name, j) :- IdentAt(ts, k);
    Done(DropIndexC(name), j)
  }

  /** `FROM MATCH ... RETURN items`. */
  function SnapshotSourceAt(ts: Tokens, n: nat): (r: Step<(MatchBody, seq<ReturnItem>)>)
    requires n <= |ts|
    ensures r.Done? ==> n < r.pos <= |ts|
  {
    var (_, a) :- ExpectAt(ts, n, Word(From));
    var (from, b) :- MatchAt(ts, a, false);
    var (_, c) :- ExpectAt(ts, b, Word(Return));
    var (items, d) :- ReturnItemsAt(ts, c, []);
    Done((from, items), d)
  }

  function SnapshotAt(ts: Tokens, n: nat): (r: Step<Clause>)
    requires n <= |ts|
    ensures r.Done? ==> n < r.pos <= |ts|
  {
    var (_, a) :- ExpectAt(ts, n, Word(Snapshot));
    var (node, b) :- NodePatternAt(ts, a);
    var (anchor, c) :- AtTimeAt(ts, b);
    var (source, d) :- SnapshotSourceAt(ts, c);
    Done(CreateSnapshotC(node, anchor, source.0, source.1), d)
  }

  /** TO is not a keyword: it comes as an identifier, in any case. */
  function ToAt(ts: Tokens, n: nat): (r: Step<()>)
    requires n <= |ts|
    ensures r.Done? ==> r.pos == n + 1 <= |ts|
  {
    if n < |ts| && ts[n].Ident? && ts[n].name in {"TO", "To", "tO", "to"} then Done((), n + 1)
    else Stuck(Fail(ts, n, "expected TO keyword"))
  }

  /** `FROM (participants) TO (participants)`. */
  function EndsAt(ts: Tokens, n: nat): (r: Step<(seq<Participant>, seq<Participant>)>)
    requires n <= |ts|
    ensures r.Done? ==> n < r.pos <= |ts|
  {
    var (_, a) :- ExpectAt(ts, n, Word(From));
    var (sources, b) :- ParticipantListAt(ts, a);
    var (_, c) :- ToAt(ts, b);
    var (targets, d) :- ParticipantListAt(ts, c);
    Done((sources, targets), d)
  }

  function HyperedgeAt(ts: Tokens, n: nat): (r: Step<Clause>)
    requires n <= |ts|
    ensures r.Done? ==> n < r.pos <= |ts|
  {
    var (_, a) :- ExpectAt(ts, n, Word(Hyperedge));
    var (head, b) :- NodeHeadAt(ts, a);
    var (_, c) :- ExpectAt(ts, b, RParen);
    var (ends, d) :- EndsAt(ts, c);
    Done(CreateHyperedgeC(head.0, head.1, ends.0, ends.1), d)
  }

  function MatchHyperedgeAt(ts: Tokens, n: nat): (r: Step<Clause>)
    requires n <= |ts|
    ensures r.Done? ==> n < r.pos <= |ts|
  {
    var (_, a) :- ExpectAt(ts, n, Word(Hyperedge));
    var (head, b) :- NodeHeadAt(ts, a);
    var (_, c) :- ExpectAt(ts, b, RParen);
    Done(MatchHyperedgeC(head.0, head.1), c)
  }

  function MatchClauseAt(ts: Tokens, n: nat, optional: bool): (r: Step<Clause>)
    requires n <= |ts|
    ensures r.Done? ==> n < r.pos <= |ts|
  {
    var (body, m) :- MatchAt(ts, n, optional);
    Done(MatchC(body), m)
  }

  function SetClauseAt(ts: Tokens, n: nat): (r: Step<Clause>)
    requires n <= |ts|
    ensures r.Done? ==> n < r.pos <= |ts|
  {
    var (_, m) :- ExpectAt(ts, n, Word(Set));
    var (items, k) :- SetItemsAt(ts, m, []);
    Done(SetC(items), k)
  }

  function RemoveClauseAt(ts: Tokens, n: nat): (r: Step<Clause>)
    requires n <= |ts|
    ensures r.Done? ==> n < r.pos <= |ts|
  {
    var (_, m) :- ExpectAt(ts, n, Word(Remove));
    var (items, k) :- RemoveItemsAt(ts, m, []);
    Done(RemoveC(items), k)
  }

  function DeleteClauseAt(ts: Tokens, n: nat, detach: bool): (r: Step<Clause>)
    requires n <= |ts|
    ensures r.Done? ==> n < r.pos <= |ts|
  {
    var (_, m) :- ExpectAt(ts, n, Word(Delete));
    var (items, k) :- ExprsAt(ts, m, []);
    Done(DeleteC(detach, items), k)
  }

  /** CREATE, told apart by the one or two tokens after it. */
  function CreateClauseAt(ts: Tokens, n: nat): (r: Step<Clause>)
    requires n < |ts|
    ensures r.Done? ==> n < r.pos <= |ts|
  {
    if TokenAt(ts, n + 1, Word(Index)) then IndexAt(ts, n + 1, false)
    else if TokenAt(ts, n + 1, Word(Edge)) && TokenAt(ts, n + 2, Word(Index)) then EdgeIndexAt(ts, n + 1)
    else if TokenAt(ts, n + 1, Word(Hyperedge)) then HyperedgeAt(ts, n + 1)
    else if TokenAt(ts, n + 1, Word(Snapshot)) then SnapshotAt(ts, n + 1)
    else CreateAt(ts, n)
  }

  /** The error at a token that starts no clause. */
  function NoClause(ts: Tokens, n: nat): ParseError
    requires n < |ts|
  {
    if ts[n] == Word(Where) then Fail(ts, n, "WHERE clause must follow a MATCH clause")
    else if ts[n] in {Word(Order), Word(Limit), Word(Skip)} then Fail(ts, n, MISPLACED)
    else Fail(ts, n, "unexpected token at top level")
  }

  /** The clause that starts with the token at `n`. */
  function ClauseAt(ts: Tokens, n: nat): (r: Step<Clause>)
    requires n < |ts|
    ensures r.Done? ==> n < r.pos <= |ts|
  {
    match ts[n]
    case Word(Optional) =>
      if !TokenAt(ts, n + 1, Word(Match)) then Stuck(Fail(ts, n + 1, "expected MATCH after OPTIONAL"))
      else MatchClauseAt(ts, n + 1, true)
    case Word(Match) =>
      if TokenAt(ts, n + 1, Word(Hyperedge)) then MatchHyperedgeAt(ts, n + 1) else MatchClauseAt(ts, n, false)
    case Word(Return) => ReturnAt(ts, n)
    case Word(Create) => CreateClauseAt(ts, n)
    case Word(Set) => SetClauseAt(ts, n)
    case Word(Remove) => RemoveClauseAt(ts, n)
    case Word(Delete) => DeleteClauseAt(ts, n, false)
    case Word(Detach) =>
      if !TokenAt(ts, n + 1, Word(Delete)) then Stuck(Fail(ts, n + 1, "expected DELETE after DETACH"))
      else DeleteClauseAt(ts, n + 1, true)
    case Word(With) => WithAt(ts, n)
    case Word(Merge) => MergeAt(ts, n)
    case Word(Unwind) => UnwindAt(ts, n)
    case Word(Drop) => DropIndexAt(ts, n)
    case _ => Stuck(NoClause(ts, n))
  }

  const MISPLACED: string := "ORDER BY / SKIP / LIMIT must be part of a RETURN clause"

  // ---------------------------------------------------------------------------
  // Queries
  // ---------------------------------------------------------------------------

  /** The clauses from position `n` on, after those read before. */
  function ClausesFrom(ts: Tokens, n: nat, before: seq<Clause>): (r: Step<seq<Clause>>)
    requires n <= |ts|
    decreases |ts| - n
  {
    if n == |ts| then Done(before, n)
    else
      var (clause, m) :- ClauseAt(ts, n);
      ClausesFrom(ts, m, before + [clause])
  }

  function QueryAt(ts: Tokens): Step<seq<Clause>>
  {
    var (clauses, n) :- ClausesFrom(ts, 0, []);
    if clauses == [] then Stuck(Fail(ts, 0, "empty query")) else Done(clauses, n)
  }
}
