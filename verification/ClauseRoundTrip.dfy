/** Reading a printed clause gives the clause back, whatever clause or end follows. */
module ClauseRoundTrip {
  import opened Wrappers
  import opened Syntax
  import opened Grammar
  import opened Printer
  import opened Patterns
  import opened PatternLocality
  import opened Clauses
  import opened ClausePrinter
  import opened PatternRoundTrip
  import L = ClauseLocality

  // ---------------------------------------------------------------------------
  // Optional parts
  // ---------------------------------------------------------------------------

  /** The clause ends here: no token follows that one of its parts could go on with. */
  lemma OverStops(ts: Tokens, n: nat)
    requires Over(ts, n)
    ensures Stops(ts, n)
    ensures forall t | t !in STARTS :: !TokenAt(ts, n, t)
    ensures !StartsRelationship(ts, n)
  {
  }

  lemma TailFirst(ts: Tokens, n: nat, keyword: Keyword, e: Option<Expression>)
    requires Stands(ts, n, TailText(keyword, e))
    ensures e.Some? ==> TokenAt(ts, n, Word(keyword))
    ensures e.None? ==> TailText(keyword, e) == []
  {
    hide ExprText, Stands;
    if e.Some? {
      AtToken(ts, n, Word(keyword), ExprText(e.value));
    }
  }

  lemma TailRead(ts: Tokens, n: nat, keyword: Keyword, e: Option<Expression>)
    requires GoodOption(e) && Stands(ts, n, TailText(keyword, e)) && Stops(ts, n + |TailText(keyword, e)|)
    requires e.None? ==> !TokenAt(ts, n, Word(keyword))
    ensures n + |TailText(keyword, e)| <= |ts| && ExprAfter(ts, n, keyword) == Done(e, n + |TailText(keyword, e)|)
  {
    hide ExprText, ExprAt, Stands, Stops;
    AtBound(ts, n, TailText(keyword, e));
    if e.Some? {
      AtToken(ts, n, Word(keyword), ExprText(e.value));
      ExprRead(ts, n + 1, e.value);
    }
  }

  lemma AtTimeRead(ts: Tokens, n: nat, at: Option<Expression>)
    requires GoodOption(at) && Stands(ts, n, AtTimeText(at)) && Stops(ts, n + |AtTimeText(at)|)
    requires at.None? ==> !TokenAt(ts, n, Word(Keyword.At))
    ensures n + |AtTimeText(at)| <= |ts| && AtTimeAt(ts, n) == Done(at, n + |AtTimeText(at)|)
  {
    hide ExprText, ExprAt, Stands, Stops;
    AtBound(ts, n, AtTimeText(at));
    if at.Some? {
      AtTwo(ts, n, Word(Keyword.At), Word(Time), ExprText(at.value));
      ExprRead(ts, n + 2, at.value);
    }
  }

  // ---------------------------------------------------------------------------
  // Lists
  // ---------------------------------------------------------------------------

  lemma ItemRead(ts: Tokens, n: nat, st: Style, item: ReturnItem)
    requires Producible(item.expr) && Stands(ts, n, ItemText(st)(item))
    requires var k := n + |ItemText(st)(item)|; Stops(ts, k) && !TokenAt(ts, k, Word(As))
    ensures n + |ItemText(st)(item)| <= |ts| && ReturnItemAt(ts, n) == Done(item, n + |ItemText(st)(item)|)
  {
    hide ExprText, ExprAt, Stands, Stops, Producible;
    AtBound(ts, n, ItemText(st)(item));
    var text := ExprText(item.expr);
    if item.alias.Some? {
      AtBoth(ts, n, text, [Word(As), Name(st, item.alias.value)]);
      AtPair(ts, n + |text|, Word(As), Name(st, item.alias.value));
      MarkStops(ts, n + |text|);
    } else {
      assert text + [] == text;
    }
    ExprRead(ts, n, item.expr);
  }

  lemma AtPair(ts: Tokens, n: nat, t: Token, u: Token)
    requires Stands(ts, n, [t, u])
    ensures n + 2 <= |ts| && ts[n] == t && ts[n + 1] == u
  {
    assert ts[n..n + 2][0] == t && ts[n..n + 2][1] == u;
  }

  lemma AtTriple(ts: Tokens, n: nat, t: Token, u: Token, v: Token)
    requires Stands(ts, n, [t, u, v])
    ensures n + 3 <= |ts| && ts[n] == t && ts[n + 1] == u && ts[n + 2] == v
  {
    assert ts[n..n + 3][0] == t && ts[n..n + 3][1] == u && ts[n..n + 3][2] == v;
  }

  lemma {:induction false} ItemsRead(ts: Tokens, n: nat, st: Style, items: seq<ReturnItem>, before: seq<ReturnItem>)
    requires items != [] && (forall i | 0 <= i < |items| :: Producible(items[i].expr))
    requires Stands(ts, n, Commas(items, ItemText(st)))
    requires var k := n + |Commas(items, ItemText(st))|; Stops(ts, k) && !TokenAt(ts, k, Word(As)) && !TokenAt(ts, k, Comma)
    ensures n + |Commas(items, ItemText(st))| <= |ts|
    ensures ReturnItemsAt(ts, n, before) == Done(before + items, n + |Commas(items, ItemText(st))|)
    decreases |items|
  {
    hide ReturnItemAt, ItemText, Stands, Stops, Commas, Producible;
    var first, rest := items[0], items[1..];
    var k := n + |ItemText(st)(first)|;
    CommasRead(ts, n, items, ItemText(st));
    if |items| == 1 {
      ItemRead(ts, n, st, first);
      assert before + [first] == before + items;
    } else {
      MarkStops(ts, k);
      ItemRead(ts, n, st, first);
      ItemsRead(ts, k + 1, st, rest, before + [first]);
      assert before + [first] + rest == before + items;
    }
  }

  lemma OrderItemRead(ts: Tokens, n: nat, st: Style, item: OrderItem)
    requires Producible(item.expr) && Stands(ts, n, OrderItemText(st)(item))
    requires var k := n + |OrderItemText(st)(item)|; Stops(ts, k) && !TokenAt(ts, k, Word(Asc)) && !TokenAt(ts, k, Word(Desc))
    ensures n + |OrderItemText(st)(item)| <= |ts| && OrderItemAt(ts, n) == Done(item, n + |OrderItemText(st)(item)|)
  {
    hide ExprText, ExprAt, Stands, Stops, Producible;
    AtBound(ts, n, OrderItemText(st)(item));
    var text := ExprText(item.expr);
    if !item.ascending || st.asc {
      var last := if item.ascending then Word(Asc) else Word(Desc);
      AtBoth(ts, n, text, [last]);
      AtOne(ts, n + |text|, last);
      MarkStops(ts, n + |text|);
    } else {
      assert text + [] == text;
    }
    ExprRead(ts, n, item.expr);
  }

  lemma {:induction false} OrderItemsRead(ts: Tokens, n: nat, st: Style, items: seq<OrderItem>, before: seq<OrderItem>)
    requires items != [] && (forall i | 0 <= i < |items| :: Producible(items[i].expr))
    requires Stands(ts, n, Commas(items, OrderItemText(st)))
    requires var k := n + |Commas(items, OrderItemText(st))|;
             Stops(ts, k) && !TokenAt(ts, k, Word(Asc)) && !TokenAt(ts, k, Word(Desc)) && !TokenAt(ts, k, Comma)
    ensures n + |Commas(items, OrderItemText(st))| <= |ts|
    ensures OrderItemsAt(ts, n, before) == Done(before + items, n + |Commas(items, OrderItemText(st))|)
    decreases |items|
  {
    hide OrderItemAt, OrderItemText, Stands, Stops, Commas, Producible;
    var first, rest := items[0], items[1..];
    var k := n + |OrderItemText(st)(first)|;
    CommasRead(ts, n, items, OrderItemText(st));
    if |items| == 1 {
      OrderItemRead(ts, n, st, first);
      assert before + [first] == before + items;
    } else {
      MarkStops(ts, k);
      OrderItemRead(ts, n, st, first);
      OrderItemsRead(ts, k + 1, st, rest, before + [first]);
      assert before + [first] + rest == before + items;
    }
  }

  function Root(e: Expression): string
    requires IsTarget(e)
  {
    if e.Variable? then e.name else Root(e.base)
  }

  /** Reading a target from its variable on comes past the whole of it. */
  lemma {:induction false} TargetRead(ts: Tokens, n: nat, st: Style, e: Expression)
    requires IsTarget(e) && Stands(ts, n, TargetText(st, e))
    ensures IsIdent(ts, n) && ts[n].name == Root(e) && n + |TargetText(st, e)| <= |ts|
    ensures ChainAt(ts, n + 1, Variable(Root(e))) == ChainAt(ts, n + |TargetText(st, e)|, e)
    decreases e
  {
    hide Stands;
    AtBound(ts, n, TargetText(st, e));
    if e.Variable? {
      AtOne(ts, n, Name(st, e.name));
    } else {
      var text := TargetText(st, e.base);
      AtBoth(ts, n, text, [Dot, Name(st, e.prop)]);
      AtPair(ts, n + |text|, Dot, Name(st, e.prop));
      TargetRead(ts, n, st, e.base);
    }
  }

  lemma SetItemRead(ts: Tokens, n: nat, st: Style, item: SetItem)
    requires IsTarget(item.target) && Producible(item.value) && Stands(ts, n, SetItemText(st)(item))
    requires Stops(ts, n + |SetItemText(st)(item)|)
    ensures n + |SetItemText(st)(item)| <= |ts| && SetItemAt(ts, n) == Done(item, n + |SetItemText(st)(item)|)
  {
    hide ExprText, ExprAt, Stands, Stops, Producible, TargetText, IsTarget;
    AtBound(ts, n, SetItemText(st)(item));
    var text := TargetText(st, item.target);
    AtBoth(ts, n, text, [Eq] + ExprText(item.value));
    AtToken(ts, n + |text|, Eq, ExprText(item.value));
    TargetRead(ts, n, st, item.target);
    ExprRead(ts, n + |text| + 1, item.value);
  }

  lemma {:induction false} SetItemsRead(ts: Tokens, n: nat, st: Style, items: seq<SetItem>, before: seq<SetItem>)
    requires items != [] && GoodSets(items)
    requires Stands(ts, n, Commas(items, SetItemText(st)))
    requires var k := n + |Commas(items, SetItemText(st))|; Stops(ts, k) && !TokenAt(ts, k, Comma)
    ensures n + |Commas(items, SetItemText(st))| <= |ts|
    ensures SetItemsAt(ts, n, before) == Done(before + items, n + |Commas(items, SetItemText(st))|)
    decreases |items|
  {
    hide SetItemAt, SetItemText, Stands, Stops, Commas, Producible;
    var first, rest := items[0], items[1..];
    var k := n + |SetItemText(st)(first)|;
    CommasRead(ts, n, items, SetItemText(st));
    if |items| == 1 {
      SetItemRead(ts, n, st, first);
      assert before + [first] == before + items;
    } else {
      MarkStops(ts, k);
      SetItemRead(ts, n, st, first);
      SetItemsRead(ts, k + 1, st, rest, before + [first]);
      assert before + [first] + rest == before + items;
    }
  }

  lemma RemoveItemRead(ts: Tokens, n: nat, st: Style, item: RemoveItem)
    requires GoodRemove(item) && Stands(ts, n, RemoveItemText(st)(item))
    ensures n + |RemoveItemText(st)(item)| <= |ts| && RemoveItemAt(ts, n) == Done(item, n + |RemoveItemText(st)(item)|)
  {
    hide Stands, TargetText;
    match item
    case RemoveLabel(variable, tag) => AtTriple(ts, n, Name(st, variable), Punct(Colon), Name(st, tag));
    case RemoveProperty(e) =>
      PropertyText(st, e.base.name, e.prop);
      AtTriple(ts, n, Name(st, e.base.name), Dot, Name(st, e.prop));
  }

  lemma PropertyText(st: Style, name: string, prop: string)
    ensures TargetText(st, Property(Variable(name), prop)) == [Name(st, name), Dot, Name(st, prop)]
  {
    assert TargetText(st, Variable(name)) == [Name(st, name)];
  }

  lemma {:induction false} RemoveItemsRead(ts: Tokens, n: nat, st: Style, items: seq<RemoveItem>, before: seq<RemoveItem>)
    requires items != [] && (forall i | 0 <= i < |items| :: GoodRemove(items[i]))
    requires Stands(ts, n, Commas(items, RemoveItemText(st)))
    requires var k := n + |Commas(items, RemoveItemText(st))|; k <= |ts| && !TokenAt(ts, k, Comma)
    ensures n + |Commas(items, RemoveItemText(st))| <= |ts|
    ensures RemoveItemsAt(ts, n, before) == Done(before + items, n + |Commas(items, RemoveItemText(st))|)
    decreases |items|
  {
    hide RemoveItemAt, RemoveItemText, Stands, Stops, Commas, GoodRemove;
    var first, rest := items[0], items[1..];
    var k := n + |RemoveItemText(st)(first)|;
    CommasRead(ts, n, items, RemoveItemText(st));
    if |items| == 1 {
      RemoveItemRead(ts, n, st, first);
      assert before + [first] == before + items;
    } else {
      MarkStops(ts, k);
      RemoveItemRead(ts, n, st, first);
      RemoveItemsRead(ts, k + 1, st, rest, before + [first]);
      assert before + [first] + rest == before + items;
    }
  }

  lemma {:induction false} ExprsRead(ts: Tokens, n: nat, items: seq<Expression>, before: seq<Expression>)
    requires items != [] && (forall i | 0 <= i < |items| :: Producible(items[i]))
    requires Stands(ts, n, Commas(items, ExprText))
    requires var k := n + |Commas(items, ExprText)|; Stops(ts, k) && !TokenAt(ts, k, Comma)
    ensures n + |Commas(items, ExprText)| <= |ts|
    ensures ExprsAt(ts, n, before) == Done(before + items, n + |Commas(items, ExprText)|)
    decreases |items|
  {
    hide ExprAt, ExprText, Stands, Stops, Commas, Producible;
    var first, rest := items[0], items[1..];
    var k := n + |ExprText(first)|;
    CommasRead(ts, n, items, ExprText);
    if |items| == 1 {
      ExprRead(ts, n, first);
      assert before + [first] == before + items;
    } else {
      MarkStops(ts, k);
      ExprRead(ts, n, first);
      ExprsRead(ts, k + 1, rest, before + [first]);
      assert before + [first] + rest == before + items;
    }
  }

  lemma ParticipantRead(ts: Tokens, n: nat, st: Style, p: Participant)
    requires GoodOption(p.at) && Stands(ts, n, ParticipantText(st)(p))
    requires var k := n + |ParticipantText(st)(p)|; Stops(ts, k) && !TokenAt(ts, k, Word(Keyword.At))
    ensures n + |ParticipantText(st)(p)| <= |ts| && ParticipantAt(ts, n) == Done(p, n + |ParticipantText(st)(p)|)
  {
    hide AtTimeAt, Stands, Stops, GoodOption;
    AtToken(ts, n, Name(st, p.name), AtTimeText(p.at));
    AtTimeFirst(ts, n + 1, p.at);
    hide AtTimeText;
    AtTimeRead(ts, n + 1, p.at);
  }

  lemma AtTimeFirst(ts: Tokens, n: nat, at: Option<Expression>)
    requires Stands(ts, n, AtTimeText(at))
    ensures at.None? ==> AtTimeText(at) == []
    ensures at.Some? ==> TokenAt(ts, n, Word(Keyword.At))
  {
    hide ExprText, Stands;
    if at.Some? {
      AtTwo(ts, n, Word(Keyword.At), Word(Time), ExprText(at.value));
    }
  }

  lemma {:induction false} ParticipantsRead(ts: Tokens, n: nat, st: Style, items: seq<Participant>, before: seq<Participant>)
    requires items != [] && GoodParticipants(items)
    requires Stands(ts, n, Commas(items, ParticipantText(st)))
    requires var k := n + |Commas(items, ParticipantText(st))|; Stops(ts, k) && !TokenAt(ts, k, Word(Keyword.At)) && !TokenAt(ts, k, Comma)
    ensures n + |Commas(items, ParticipantText(st))| <= |ts|
    ensures ParticipantsAt(ts, n, before) == Done(before + items, n + |Commas(items, ParticipantText(st))|)
    decreases |items|
  {
    hide ParticipantAt, ParticipantText, Stands, Stops, Commas, GoodOption;
    var first, rest := items[0], items[1..];
    var k := n + |ParticipantText(st)(first)|;
    CommasRead(ts, n, items, ParticipantText(st));
    if |items| == 1 {
      ParticipantRead(ts, n, st, first);
      assert before + [first] == before + items;
    } else {
      MarkStops(ts, k);
      ParticipantRead(ts, n, st, first);
      ParticipantsRead(ts, k + 1, st, rest, before + [first]);
      assert before + [first] + rest == before + items;
    }
  }

  lemma ParticipantListRead(ts: Tokens, n: nat, st: Style, ps: seq<Participant>)
    requires GoodParticipants(ps) && Stands(ts, n, ParticipantsText(st, ps))
    ensures n + |ParticipantsText(st, ps)| <= |ts| && ParticipantListAt(ts, n) == Done(ps, n + |ParticipantsText(st, ps)|)
  {
    hide ParticipantsAt, Stands, Stops, GoodParticipants, ParticipantText;
    var list := Commas(ps, ParticipantText(st));
    AtToken(ts, n, LParen, list + [RParen]);
    AtBoth(ts, n + 1, list, [RParen]);
    AtOne(ts, n + 1 + |list|, RParen);
    if ps != [] {
      MarkStops(ts, n + 1 + |list|);
      ParticipantFirst(ts, n + 1, st, ps);
      ParticipantsRead(ts, n + 1, st, ps, []);
      assert [] + ps == ps;
    }
  }

  lemma ParticipantFirst(ts: Tokens, n: nat, st: Style, ps: seq<Participant>)
    requires ps != [] && Stands(ts, n, Commas(ps, ParticipantText(st)))
    ensures !TokenAt(ts, n, RParen)
  {
    hide Stands, AtTimeText;
    CommasRead(ts, n, ps, ParticipantText(st));
    AtToken(ts, n, Name(st, ps[0].name), AtTimeText(ps[0].at));
  }

  // ---------------------------------------------------------------------------
  // Parts of clauses
  // ---------------------------------------------------------------------------

  lemma OrderFirst(ts: Tokens, n: nat, st: Style, order: Option<seq<OrderItem>>)
    requires Stands(ts, n, OrderText(st, order))
    ensures order.None? ==> OrderText(st, order) == []
    ensures order.Some? ==> TokenAt(ts, n, Word(Order))
  {
    hide Stands, Commas, OrderItemText;
    if order.Some? {
      AtTwo(ts, n, Word(Order), Word(By), Commas(order.value, OrderItemText(st)));
    }
  }

  lemma OrderRead(ts: Tokens, n: nat, st: Style, order: Option<seq<OrderItem>>)
    requires order.Some? ==> order.value != [] && forall i | 0 <= i < |order.value| :: Producible(order.value[i].expr)
    requires Stands(ts, n, OrderText(st, order)) && (order.None? ==> !TokenAt(ts, n, Word(Order)))
    requires var k := n + |OrderText(st, order)|;
             Stops(ts, k) && !TokenAt(ts, k, Word(Asc)) && !TokenAt(ts, k, Word(Desc)) && !TokenAt(ts, k, Comma)
    ensures n + |OrderText(st, order)| <= |ts| && OrderAt(ts, n) == Done(order, n + |OrderText(st, order)|)
  {
    hide Stands, Commas, OrderItemText, OrderItemsAt, Stops, Producible;
    AtBound(ts, n, OrderText(st, order));
    if order.Some? {
      AtTwo(ts, n, Word(Order), Word(By), Commas(order.value, OrderItemText(st)));
      OrderItemsRead(ts, n + 2, st, order.value, []);
      assert [] + order.value == order.value;
    }
  }

  lemma TemporalFirst(ts: Tokens, n: nat, t: Option<TemporalPredicate>)
    requires Stands(ts, n, TemporalText(t))
    ensures t.None? ==> TemporalText(t) == []
    ensures t.Some? && t.value.AsOf? ==> TokenAt(ts, n, Word(Keyword.At))
    ensures t.Some? && t.value.BetweenTimes? ==> TokenAt(ts, n, Word(Between))
  {
    hide Stands, ExprText, Print;
    match t
    case Some(AsOf(at)) => AtTwo(ts, n, Word(Keyword.At), Word(Time), ExprText(at));
    case Some(BetweenTimes(start, end)) =>
      AtTwo(ts, n, Word(Between), Word(Time), Print(start, 4, 3, []) + ([And] + Print(end, 4, INERT, [])));
    case None =>
  }

  lemma TemporalRead(ts: Tokens, n: nat, t: Option<TemporalPredicate>)
    requires GoodTemporal(t) && Stands(ts, n, TemporalText(t)) && Stops(ts, n + |TemporalText(t)|)
    requires t.None? ==> !TokenAt(ts, n, Word(Keyword.At)) && !TokenAt(ts, n, Word(Between))
    ensures n + |TemporalText(t)| <= |ts| && TemporalAt(ts, n) == Done(t, n + |TemporalText(t)|)
  {
    hide Stands, Stops, TemporalAt, L.BoundsAt, AtTimeAt, ExprText, Print, Producible;
    AtBound(ts, n, TemporalText(t));
    TemporalFirst(ts, n, t);
    match t
    case None => L.NoTemporal(ts, n);
    case Some(AsOf(at)) =>
      AtTimeRead(ts, n, Some(at));
      L.AsOfIs(ts, n);
    case Some(BetweenTimes(start, end)) =>
      BoundsRead(ts, n, start, end);
      L.BetweenIs(ts, n);
  }

  lemma BoundsRead(ts: Tokens, n: nat, start: Expression, end: Expression)
    requires Producible(start) && Producible(end)
    requires var text := TemporalText(Some(BetweenTimes(start, end))); Stands(ts, n, text) && Stops(ts, n + |text|)
    ensures var text := TemporalText(Some(BetweenTimes(start, end)));
            n + |text| <= |ts| && L.BoundsAt(ts, n) == Done(Some(BetweenTimes(start, end)), n + |text|)
  {
    hide Stands, Stops, Print, L.BoundsAt, L.BoundAt, Producible, TemporalText;
    var a, b := Print(start, 4, 3, []), Print(end, 4, INERT, []);
    var k := n + 2 + |a|;
    BoundsText(start, end);
    AtTwo(ts, n, Word(Between), Word(Time), a + ([And] + b));
    AtBoth(ts, n + 2, a, [And] + b);
    AtToken(ts, k, And, b);
    LastBoundRead(ts, n + 2, start, 3);
    LastBoundRead(ts, k + 1, end, INERT);
    BoundsStep(ts, n, start, k, end, k + 1 + |b|);
  }

  lemma BoundsText(start: Expression, end: Expression)
    ensures var a, b := Print(start, 4, 3, []), Print(end, 4, INERT, []);
            TemporalText(Some(BetweenTimes(start, end))) == [Word(Between), Word(Time)] + (a + ([And] + b))
  {
    hide Print;
  }

  lemma BoundsStep(ts: Tokens, n: nat, start: Expression, k: nat, end: Expression, j: nat)
    requires n + 2 <= k < |ts| && ts[n] == Word(Between) && ts[n + 1] == Word(Time) && ts[k] == And
    requires L.BoundAt(ts, n + 2) == Done(start, k) && L.BoundAt(ts, k + 1) == Done(end, j)
    ensures L.BoundsAt(ts, n) == Done(Some(BetweenTimes(start, end)), j)
  {
    hide L.BoundAt;
  }

  /** A bound of BETWEEN TIME, before AND or at the end. */
  lemma LastBoundRead(ts: Tokens, n: nat, e: Expression, next: int)
    requires Producible(e) && Stands(ts, n, Print(e, 4, next, []))
    requires var k := n + |Print(e, 4, next, [])|; if next == 3 then TokenAt(ts, k, And) else next == INERT && Stops(ts, k)
    ensures n + |Print(e, 4, next, [])| <= |ts| && L.BoundAt(ts, n) == Done(e, n + |Print(e, 4, next, [])|)
  {
    hide Stands, Print, ParseBp;
    AtBound(ts, n, Print(e, 4, next, []));
    BpRead(ts, n, e, 4, next);
  }

  lemma MatchRead(ts: Tokens, n: nat, st: Style, m: MatchBody)
    requires GoodMatch(m) && Stands(ts, n, MatchText(st, m)) && Over(ts, n + |MatchText(st, m)|)
    ensures n + |MatchText(st, m)| <= |ts| && MatchAt(ts, n, m.optional) == Done(m, n + |MatchText(st, m)|)
  {
    hide Stands, Stops, PatternText, TemporalText, TailText, PatternAt, TemporalAt, ExprAfter, GoodPattern, GoodTemporal, GoodOption,
         StartsRelationship, Over;
    var pattern, temporal, filter := PatternText(st, m.pattern), TemporalText(m.temporal), TailText(Where, m.filter);
    AtToken(ts, n, Word(Match), pattern + (temporal + filter));
    AtBoth(ts, n + 1, pattern, temporal + filter);
    var a := n + 1 + |pattern|;
    AtBoth(ts, a, temporal, filter);
    var b := a + |temporal|;
    OverStops(ts, b + |filter|);
    TailFirst(ts, b, Where, m.filter);
    TemporalFirst(ts, a, m.temporal);
    WordAt(ts, b);
    WordAt(ts, a);
    PatternRead(ts, n + 1, st, m.pattern);
    TemporalRead(ts, a, m.temporal);
    TailRead(ts, b, Where, m.filter);
  }

  /** A keyword ends an expression and a pattern. */
  lemma WordAt(ts: Tokens, n: nat)
    ensures n < |ts| && ts[n].Word? ==> Stops(ts, n) && !StartsRelationship(ts, n) && !TokenAt(ts, n, Comma)
  {
  }

  lemma {:induction false} PartsRead(ts: Tokens, n: nat, st: Style, onMatch: bool, items: seq<SetItem>, before: MergeActions)
    requires var text := PartsText(st, if onMatch then Match else Create, items);
             && GoodSets(items) && Stands(ts, n, text)
             && (Over(ts, n + |text|) || TokenAt(ts, n + |text|, Word(On)))
    ensures var text := PartsText(st, if onMatch then Match else Create, items);
            n + |text| <= |ts| && ActionsAt(ts, n, before) == ActionsAt(ts, n + |text|, Joined(before, onMatch, items))
    decreases |items|, 1
  {
    var event := if onMatch then Match else Create;
    hide Stands, Stops, SetItemText, SetItemsAt, Commas, Over, ActionsAt, GoodSets;
    AtBound(ts, n, PartsText(st, event, items));
    if items == [] {
      assert before.onMatch + items == before.onMatch && before.onCreate + items == before.onCreate;
    } else if st.split {
      SplitRead(ts, n, st, onMatch, items, before);
    } else {
      AtBoth(ts, n, [Word(On), Word(event), Word(Set)], Commas(items, SetItemText(st)));
      AtTriple(ts, n, Word(On), Word(event), Word(Set));
      PartRead(ts, n, st, onMatch, items, before);
    }
  }

  lemma {:induction false} SplitRead(ts: Tokens, n: nat, st: Style, onMatch: bool, items: seq<SetItem>, before: MergeActions)
    requires var text := PartsText(st, if onMatch then Match else Create, items);
             && st.split && items != [] && GoodSets(items) && Stands(ts, n, text)
             && (Over(ts, n + |text|) || TokenAt(ts, n + |text|, Word(On)))
    ensures var text := PartsText(st, if onMatch then Match else Create, items);
            n + |text| <= |ts| && ActionsAt(ts, n, before) == ActionsAt(ts, n + |text|, Joined(before, onMatch, items))
    decreases |items|, 0
  {
    var event := if onMatch then Match else Create;
    hide Stands, Stops, SetItemText, SetItemsAt, Commas, Over, ActionsAt;
    var one, rest := [items[0]], items[1..];
    var text, more := SetItemText(st)(items[0]), PartsText(st, event, rest);
    AtBoth(ts, n, [Word(On), Word(event), Word(Set)], text + more);
    AtTriple(ts, n, Word(On), Word(event), Word(Set));
    AtBoth(ts, n + 3, text, more);
    var k := n + 3 + |text|;
    PartsFirst(ts, k, st, event, rest);
    OneCommas(items[0], SetItemText(st));
    PartRead(ts, n, st, onMatch, one, before);
    hide PartsText, GoodSets;
    PartsRead(ts, k, st, onMatch, rest, Joined(before, onMatch, one));
    JoinedTwice(before, onMatch, one, rest);
    assert one + rest == items;
  }

  lemma JoinedTwice(before: MergeActions, onMatch: bool, a: seq<SetItem>, b: seq<SetItem>)
    ensures Joined(Joined(before, onMatch, a), onMatch, b) == Joined(before, onMatch, a + b)
  {
    assert before.onMatch + a + b == before.onMatch + (a + b);
    assert before.onCreate + a + b == before.onCreate + (a + b);
  }

  lemma OneCommas<T>(item: T, text: T -> Tokens)
    ensures Commas([item], text) == text(item)
  {
  }

  function Joined(before: MergeActions, onMatch: bool, items: seq<SetItem>): MergeActions {
    if onMatch then before.(onMatch := before.onMatch + items) else before.(onCreate := before.onCreate + items)
  }

  lemma PartsFirst(ts: Tokens, n: nat, st: Style, event: Keyword, items: seq<SetItem>)
    requires Stands(ts, n, PartsText(st, event, items))
    ensures items == [] ==> PartsText(st, event, items) == []
    ensures items != [] ==> TokenAt(ts, n, Word(On))
  {
    hide Stands, SetItemText, Commas;
    if items != [] {
      var rest := if st.split then SetItemText(st)(items[0]) + PartsText(st, event, items[1..]) else Commas(items, SetItemText(st));
      AtBoth(ts, n, [Word(On), Word(event), Word(Set)], rest);
      AtTriple(ts, n, Word(On), Word(event), Word(Set));
    }
  }

  /** One ON part. */
  lemma PartRead(ts: Tokens, n: nat, st: Style, onMatch: bool, items: seq<SetItem>, before: MergeActions)
    requires items != [] && GoodSets(items) && n + 3 <= |ts|
    requires ts[n] == Word(On) && ts[n + 1] == Word(if onMatch then Match else Create) && ts[n + 2] == Word(Set)
    requires Stands(ts, n + 3, Commas(items, SetItemText(st)))
    requires var k := n + 3 + |Commas(items, SetItemText(st))|; Over(ts, k) || TokenAt(ts, k, Word(On))
    ensures var k := n + 3 + |Commas(items, SetItemText(st))|;
            k <= |ts| && ActionsAt(ts, n, before) == ActionsAt(ts, k, Joined(before, onMatch, items))
  {
    hide Stands, Stops, SetItemText, SetItemsAt, Commas, Over, GoodSets;
    var k := n + 3 + |Commas(items, SetItemText(st))|;
    if Over(ts, k) {
      OverStops(ts, k);
    }
    WordAt(ts, k);
    SetItemsRead(ts, n + 3, st, items, if onMatch then before.onMatch else before.onCreate);
  }

  // ---------------------------------------------------------------------------
  // Clauses
  // ---------------------------------------------------------------------------

  lemma DistinctRead(ts: Tokens, n: nat, distinct: bool, rest: Tokens)
    requires Stands(ts, n, DistinctText(distinct) + rest)
    requires rest != [] && rest[0] != Distinct
    ensures Stands(ts, n + |DistinctText(distinct)|, rest) && TokenAt(ts, n, Distinct) == distinct
  {
    hide Stands;
    if distinct {
      AtToken(ts, n, Distinct, rest);
    } else {
      assert [] + rest == rest;
      AtTokens(ts, n, rest);
      assert ts[n + 0] == rest[0];
    }
  }

  /** A list of items does not start with DISTINCT. */
  lemma ItemsStart(st: Style, items: seq<ReturnItem>, rest: Tokens)
    requires items != []
    ensures Commas(items, ItemText(st)) + rest != [] && (Commas(items, ItemText(st)) + rest)[0] != Distinct
  {
    hide Print;
    PrintStart(items[0].expr, 0, INERT, []);
  }

  /** RETURN or WITH, DISTINCT, and the items up to what follows them. */
  lemma ItemsPlaced(ts: Tokens, n: nat, st: Style, keyword: Keyword, distinct: bool, items: seq<ReturnItem>, rest: Tokens)
    requires items != []
    requires Stands(ts, n, [Word(keyword)] + (DistinctText(distinct) + (Commas(items, ItemText(st)) + rest)))
    ensures n + 1 < |ts| && ts[n] == Word(keyword) && TokenAt(ts, n + 1, Distinct) == distinct
    ensures var i := if distinct then n + 2 else n + 1;
            var k := i + |Commas(items, ItemText(st))|;
            i <= |ts| && Stands(ts, i, Commas(items, ItemText(st))) && Stands(ts, k, rest)
  {
    hide Stands, Commas, ItemText, DistinctText;
    var text := Commas(items, ItemText(st));
    AtToken(ts, n, Word(keyword), DistinctText(distinct) + (text + rest));
    ItemsStart(st, items, rest);
    DistinctRead(ts, n + 1, distinct, text + rest);
    DistinctLength(distinct);
    AtBoth(ts, if distinct then n + 2 else n + 1, text, rest);
  }

  lemma ReturnRead(ts: Tokens, n: nat, st: Style, c: Clause)
    requires c.ReturnC? && GoodClause(c) && Stands(ts, n, ClauseText(st, c)) && Over(ts, n + |ClauseText(st, c)|)
    ensures n + |ClauseText(st, c)| <= |ts| && ReturnAt(ts, n) == Done(c, n + |ClauseText(st, c)|)
  {
    hide *;
    ReturnText(st, c);
    ItemsPlaced(ts, n, st, Return, c.distinct, c.items, TailsText(st, c));
    var i := if c.distinct then n + 2 else n + 1;
    var k := i + |Commas(c.items, ItemText(st))|;
    ReturnTails(ts, k, st, c);
    ItemsRead(ts, i, st, c.items, []);
    assert [] + c.items == c.items;
    var s := k + |OrderText(st, c.order)|;
    ReturnStep(ts, n, c, k, s, s + |TailText(Skip, c.skip)|, k + |TailsText(st, c)|);
  }

  lemma ReturnStep(ts: Tokens, n: nat, c: Clause, k: nat, s: nat, l: nat, e: nat)
    requires c.ReturnC? && n + 1 < |ts| && ts[n] == Word(Return) && TokenAt(ts, n + 1, Distinct) == c.distinct
    requires k <= |ts| && s <= |ts| && l <= |ts|
    requires ReturnItemsAt(ts, if c.distinct then n + 2 else n + 1, []) == Done(c.items, k)
    requires OrderAt(ts, k) == Done(c.order, s) && ExprAfter(ts, s, Skip) == Done(c.skip, l) && ExprAfter(ts, l, Limit) == Done(c.limit, e)
    ensures ReturnAt(ts, n) == Done(c, e)
  {
    hide ReturnItemsAt, OrderAt, ExprAfter;
  }

  function TailsText(st: Style, c: Clause): Tokens
    requires c.ReturnC?
  {
    OrderText(st, c.order) + (TailText(Skip, c.skip) + TailText(Limit, c.limit))
  }

  lemma ReturnText(st: Style, c: Clause)
    requires c.ReturnC? && GoodClause(c)
    ensures c.items != [] && forall i | 0 <= i < |c.items| :: Producible(c.items[i].expr)
    ensures ClauseText(st, c) == [Word(Return)] + (DistinctText(c.distinct) + (Commas(c.items, ItemText(st)) + TailsText(st, c)))
    ensures |ClauseText(st, c)| == (if c.distinct then 2 else 1) + |Commas(c.items, ItemText(st))| + |TailsText(st, c)|
  {
    DistinctLength(c.distinct);
    hide DistinctText, Commas, ItemText, OrderText, TailText, Producible;
  }

  lemma DistinctLength(distinct: bool)
    ensures |DistinctText(distinct)| == if distinct then 1 else 0
  {
  }

  /** ORDER BY, SKIP and LIMIT, each if it is there, and what stands where they start. */
  lemma ReturnTails(ts: Tokens, n: nat, st: Style, c: Clause)
    requires c.ReturnC? && GoodClause(c) && Stands(ts, n, TailsText(st, c)) && Over(ts, n + |TailsText(st, c)|)
    ensures var s := n + |OrderText(st, c.order)|;
            var l := s + |TailText(Skip, c.skip)|;
            var e := n + |TailsText(st, c)|;
            && n <= s <= l <= e <= |ts|
            && OrderAt(ts, n) == Done(c.order, s) && ExprAfter(ts, s, Skip) == Done(c.skip, l) && ExprAfter(ts, l, Limit) == Done(c.limit, e)
            && Stops(ts, n) && !TokenAt(ts, n, Word(As)) && !TokenAt(ts, n, Comma)
  {
    hide Stands, Stops, OrderText, TailText, OrderAt, ExprAfter, Producible, GoodOption, GoodItems, Over, StartsRelationship;
    var order, skip, limit := OrderText(st, c.order), TailText(Skip, c.skip), TailText(Limit, c.limit);
    var s := n + |order|;
    var l := s + |skip|;
    var e := l + |limit|;
    AtBoth(ts, n, order, skip + limit);
    AtBoth(ts, s, skip, limit);
    OverStops(ts, e);
    TailFirst(ts, l, Limit, c.limit);
    TailFirst(ts, s, Skip, c.skip);
    OrderFirst(ts, n, st, c.order);
    WordAt(ts, l);
    WordAt(ts, s);
    WordAt(ts, n);
    TailRead(ts, l, Limit, c.limit);
    TailRead(ts, s, Skip, c.skip);
    OrderRead(ts, n, st, c.order);
  }

  lemma WithRead(ts: Tokens, n: nat, st: Style, c: Clause)
    requires c.WithC? && GoodClause(c) && Stands(ts, n, ClauseText(st, c)) && Over(ts, n + |ClauseText(st, c)|)
    ensures n + |ClauseText(st, c)| <= |ts| && WithAt(ts, n) == Done(c, n + |ClauseText(st, c)|)
  {
    hide Stands, Stops, Commas, ItemText, TailText, ReturnItemsAt, ExprAfter, Producible, GoodOption, Over, StartsRelationship,
         DistinctText;
    var filter := TailText(Where, c.filter);
    ItemsPlaced(ts, n, st, With, c.distinct, c.items, filter);
    DistinctLength(c.distinct);
    var i := if c.distinct then n + 2 else n + 1;
    var f := i + |Commas(c.items, ItemText(st))|;
    OverStops(ts, f + |filter|);
    TailFirst(ts, f, Where, c.filter);
    WordAt(ts, f);
    TailRead(ts, f, Where, c.filter);
    ItemsRead(ts, i, st, c.items, []);
    assert [] + c.items == c.items;
  }

  lemma UnwindRead(ts: Tokens, n: nat, st: Style, c: Clause)
    requires c.UnwindC? && GoodClause(c) && Stands(ts, n, ClauseText(st, c))
    ensures n + |ClauseText(st, c)| <= |ts| && UnwindAt(ts, n) == Done(c, n + |ClauseText(st, c)|)
  {
    hide Stands, Stops, ExprText, ExprAt, Producible;
    var text := ExprText(c.expr);
    AtToken(ts, n, Word(Unwind), text + [Word(As), Name(st, c.element)]);
    AtBoth(ts, n + 1, text, [Word(As), Name(st, c.element)]);
    AtPair(ts, n + 1 + |text|, Word(As), Name(st, c.element));
    MarkStops(ts, n + 1 + |text|);
    ExprRead(ts, n + 1, c.expr);
  }

  lemma MergeRead(ts: Tokens, n: nat, st: Style, c: Clause)
    requires c.MergeC? && GoodClause(c) && Stands(ts, n, ClauseText(st, c)) && Over(ts, n + |ClauseText(st, c)|)
    ensures n + |ClauseText(st, c)| <= |ts| && MergeAt(ts, n) == Done(c, n + |ClauseText(st, c)|)
  {
    hide Stands, Stops, PatternText, PartsText, PatternAt, ActionsAt, GoodPattern, GoodSets, Over, StartsRelationship;
    var pattern, actions := PatternText(st, c.pattern), ActionsText(st, c.actions);
    AtToken(ts, n, Word(Merge), pattern + actions);
    AtBoth(ts, n + 1, pattern, actions);
    var a := n + 1 + |pattern|;
    ActionsRead(ts, a, st, c.actions);
    WordAt(ts, a);
    PatternRead(ts, n + 1, st, c.pattern);
  }

  /** ON MATCH and ON CREATE parts, in either order. */
  lemma ActionsRead(ts: Tokens, n: nat, st: Style, a: MergeActions)
    requires GoodSets(a.onMatch) && GoodSets(a.onCreate) && Stands(ts, n, ActionsText(st, a)) && Over(ts, n + |ActionsText(st, a)|)
    ensures n + |ActionsText(st, a)| <= |ts|
    ensures ActionsAt(ts, n, MergeActions([], [])) == Done(a, n + |ActionsText(st, a)|)
    ensures !StartsRelationship(ts, n) && !TokenAt(ts, n, Comma)
  {
    hide Stands, Stops, PartsText, ActionsAt, GoodSets, Over, StartsRelationship;
    var e := n + |ActionsText(st, a)|;
    var first, second := if st.createFirst then Create else Match, if st.createFirst then Match else Create;
    var items, others := if st.createFirst then a.onCreate else a.onMatch, if st.createFirst then a.onMatch else a.onCreate;
    var text, more := PartsText(st, first, items), PartsText(st, second, others);
    AtBoth(ts, n, text, more);
    var k := n + |text|;
    PartsFirst(ts, n, st, first, items);
    PartsFirst(ts, k, st, second, others);
    OverStops(ts, e);
    WordAt(ts, n);
    PartsRead(ts, n, st, !st.createFirst, items, MergeActions([], []));
    PartsRead(ts, k, st, st.createFirst, others, Joined(MergeActions([], []), !st.createFirst, items));
    ActionsEnd(ts, e, a);
    assert [] + a.onMatch == a.onMatch && [] + a.onCreate == a.onCreate;
  }

  lemma ActionsEnd(ts: Tokens, n: nat, a: MergeActions)
    requires n <= |ts| && !TokenAt(ts, n, Word(On))
    ensures ActionsAt(ts, n, a) == Done(a, n)
  {
  }

  lemma IndexRead(ts: Tokens, n: nat, st: Style, c: Clause)
    requires c.CreateIndexC? && Stands(ts, n, ClauseText(st, c))
    ensures n + |ClauseText(st, c)| <= |ts| && n < |ts| && CreateClauseAt(ts, n) == Done(c, n + |ClauseText(st, c)|)
  {
    hide Stands, NameText, IndexAt, IndexTargetAt;
    var head := if c.onEdges then [Word(Create), Word(Edge), Word(Index)] else [Word(Create), Word(Index)];
    var name := NameText(st, c.name);
    var target := [Word(On), Punct(Colon), Name(st, c.target), LParen, Name(st, c.property), RParen];
    AtBoth(ts, n, head, name + target);
    var i := n + |head|;
    if c.onEdges {
      AtTriple(ts, n, Word(Create), Word(Edge), Word(Index));
    } else {
      AtPair(ts, n, Word(Create), Word(Index));
    }
    AtBoth(ts, i, name, target);
    IndexFrom(ts, i, st, c);
  }

  /** From the optional name of an index on. */
  lemma IndexFrom(ts: Tokens, n: nat, st: Style, c: Clause)
    requires c.CreateIndexC? && 0 < n <= |ts| && ts[n - 1] == Word(Index)
    requires var target := [Word(On), Punct(Colon), Name(st, c.target), LParen, Name(st, c.property), RParen];
             Stands(ts, n, NameText(st, c.name) + target)
    ensures IndexAt(ts, n - 1, c.onEdges) == Done(c, n + |NameText(st, c.name)| + 6)
  {
    hide Stands, IndexTargetAt;
    NameRead(ts, n, st, c.name, [Word(On), Punct(Colon), Name(st, c.target), LParen, Name(st, c.property), RParen]);
    IndexTargetRead(ts, n + |NameText(st, c.name)|, st, c.target, c.property);
  }

  lemma IndexTargetRead(ts: Tokens, n: nat, st: Style, target: string, property: string)
    requires Stands(ts, n, [Word(On), Punct(Colon), Name(st, target), LParen, Name(st, property), RParen])
    ensures n + 6 <= |ts| && ts[n] == Word(On) && IndexTargetAt(ts, n) == Done((target, property), n + 6)
  {
    var text := [Word(On), Punct(Colon), Name(st, target), LParen, Name(st, property), RParen];
    AtTokens(ts, n, text);
    assert ts[n + 0] == text[0] && ts[n + 1] == text[1] && ts[n + 2] == text[2];
    assert ts[n + 3] == text[3] && ts[n + 4] == text[4] && ts[n + 5] == text[5];
  }

  lemma CreateRead(ts: Tokens, n: nat, st: Style, c: Clause)
    requires c.CreateC? && GoodClause(c) && Stands(ts, n, ClauseText(st, c)) && Over(ts, n + |ClauseText(st, c)|)
    ensures n + |ClauseText(st, c)| <= |ts| && n < |ts| && CreateClauseAt(ts, n) == Done(c, n + |ClauseText(st, c)|)
  {
    hide Stands, Stops, PatternText, PatternAt, GoodPattern, Over, StartsRelationship;
    AtToken(ts, n, Word(Create), PatternText(st, c.pattern));
    OverStops(ts, n + |ClauseText(st, c)|);
    PatternRead(ts, n + 1, st, c.pattern);
    L.PatternStarts(ts, n + 1);
  }

  lemma SnapshotRead(ts: Tokens, n: nat, st: Style, c: Clause)
    requires c.CreateSnapshotC? && GoodClause(c) && Stands(ts, n, ClauseText(st, c)) && Over(ts, n + |ClauseText(st, c)|)
    ensures n + |ClauseText(st, c)| <= |ts| && n < |ts| && CreateClauseAt(ts, n) == Done(c, n + |ClauseText(st, c)|)
  {
    hide Stands, NodeText, AtTimeText, SourceText, ClauseText, SnapshotAt, GoodClause, Over;
    var rest := NodeText(st, c.node) + (AtTimeText(c.anchor) + SourceText(st, c.from, c.returned));
    SnapshotText(st, c);
    AtTwo(ts, n, Word(Create), Word(Snapshot), rest);
    SnapshotFrom(ts, n + 2, st, c);
  }

  lemma SnapshotText(st: Style, c: Clause)
    requires c.CreateSnapshotC?
    ensures ClauseText(st, c) == [Word(Create), Word(Snapshot)] +
              (NodeText(st, c.node) + (AtTimeText(c.anchor) + SourceText(st, c.from, c.returned)))
  {
    hide NodeText, AtTimeText, MatchText, Commas, ItemText;
  }

  function SourceText(st: Style, from: MatchBody, items: seq<ReturnItem>): Tokens {
    [Word(From)] + (MatchText(st, from) + ([Word(Return)] + Commas(items, ItemText(st))))
  }

  lemma SnapshotFrom(ts: Tokens, n: nat, st: Style, c: Clause)
    requires c.CreateSnapshotC? && GoodClause(c) && 0 < n <= |ts| && ts[n - 1] == Word(Snapshot)
    requires var text := NodeText(st, c.node) + (AtTimeText(c.anchor) + SourceText(st, c.from, c.returned));
             Stands(ts, n, text) && Over(ts, n + |text|)
    ensures var text := NodeText(st, c.node) + (AtTimeText(c.anchor) + SourceText(st, c.from, c.returned));
            n + |text| <= |ts| && SnapshotAt(ts, n - 1) == Done(c, n + |text|)
  {
    hide Stands, Stops, NodeText, AtTimeText, SourceText, NodePatternAt, AtTimeAt, SnapshotSourceAt, GoodMap, GoodOption, GoodMatch,
         GoodItems, Over, StartsRelationship;
    var node, anchor, source := NodeText(st, c.node), AtTimeText(c.anchor), SourceText(st, c.from, c.returned);
    AtBoth(ts, n, node, anchor + source);
    var a := n + |node|;
    AtBoth(ts, a, anchor, source);
    var f := a + |anchor|;
    SourceRead(ts, f, st, c.from, c.returned);
    AtTimeFirst(ts, a, c.anchor);
    WordAt(ts, f);
    AtTimeRead(ts, a, c.anchor);
    NodeRead(ts, n, st, c.node);
  }

  /** FROM MATCH and RETURN of a snapshot. */
  lemma SourceRead(ts: Tokens, n: nat, st: Style, from: MatchBody, items: seq<ReturnItem>)
    requires GoodMatch(from) && !from.optional && GoodItems(items)
    requires var text := SourceText(st, from, items); Stands(ts, n, text) && Over(ts, n + |text|)
    ensures var text := SourceText(st, from, items);
            n + |text| <= |ts| && n < |ts| && ts[n] == Word(From) && SnapshotSourceAt(ts, n) == Done((from, items), n + |text|)
  {
    hide Stands, Stops, MatchText, Commas, ItemText, MatchAt, ReturnItemsAt, GoodMatch, Producible;
    var source, list := MatchText(st, from), Commas(items, ItemText(st));
    AtToken(ts, n, Word(From), source + ([Word(Return)] + list));
    AtBoth(ts, n + 1, source, [Word(Return)] + list);
    var r := n + 1 + |source|;
    AtToken(ts, r, Word(Return), list);
    OverStops(ts, r + 1 + |list|);
    MatchRead(ts, n + 1, st, from);
    ItemsRead(ts, r + 1, st, items, []);
    assert [] + items == items;
  }

  lemma HyperedgeRead(ts: Tokens, n: nat, st: Style, c: Clause)
    requires c.CreateHyperedgeC? && GoodClause(c) && GoodStyle(st) && Stands(ts, n, ClauseText(st, c))
    ensures n + |ClauseText(st, c)| <= |ts| && n < |ts| && CreateClauseAt(ts, n) == Done(c, n + |ClauseText(st, c)|)
  {
    hide Stands, HyperedgeTail, HyperedgeAt, GoodParticipants, GoodStyle;
    HyperedgeText(st, c);
    hide ClauseText;
    AtTwo(ts, n, Word(Create), Word(Hyperedge), HyperedgeTail(st, c));
    HyperedgeFrom(ts, n + 2, st, c);
  }

  lemma HyperedgeFrom(ts: Tokens, n: nat, st: Style, c: Clause)
    requires c.CreateHyperedgeC? && GoodClause(c) && GoodStyle(st) && Stands(ts, n, HyperedgeTail(st, c))
    requires 0 < n <= |ts| && ts[n - 1] == Word(Hyperedge)
    ensures n + |HyperedgeTail(st, c)| <= |ts| && HyperedgeAt(ts, n - 1) == Done(c, n + |HyperedgeTail(st, c)|)
  {
    hide Stands, HeadText, EndsText, NodeHeadAt, EndsAt, GoodParticipants, GoodStyle;
    var head, ends := HeadText(st, c.variable, c.labels), EndsText(st, c.sources, c.targets);
    AtBoth(ts, n, head, [RParen] + ends);
    var h := n + |head|;
    AtToken(ts, h, RParen, ends);
    HeadRead(ts, n, st, c.variable, c.labels);
    EndsRead(ts, h + 1, st, c.sources, c.targets);
  }

  function HyperedgeTail(st: Style, c: Clause): Tokens
    requires c.CreateHyperedgeC?
  {
    HeadText(st, c.variable, c.labels) + ([RParen] + EndsText(st, c.sources, c.targets))
  }

  function EndsText(st: Style, sources: seq<Participant>, targets: seq<Participant>): Tokens {
    [Word(From)] + (ParticipantsText(st, sources) + ([Ident(st.to)] + ParticipantsText(st, targets)))
  }

  lemma HyperedgeText(st: Style, c: Clause)
    requires c.CreateHyperedgeC?
    ensures ClauseText(st, c) == [Word(Create), Word(Hyperedge)] + HyperedgeTail(st, c)
  {
    hide HeadText, ParticipantsText;
    var rest := ParticipantsText(st, c.sources) + ([Ident(st.to)] + ParticipantsText(st, c.targets));
    assert [RParen, Word(From)] + rest == [RParen] + ([Word(From)] + rest);
  }

  lemma EndsRead(ts: Tokens, n: nat, st: Style, sources: seq<Participant>, targets: seq<Participant>)
    requires GoodParticipants(sources) && GoodParticipants(targets) && GoodStyle(st) && Stands(ts, n, EndsText(st, sources, targets))
    ensures n + |EndsText(st, sources, targets)| <= |ts|
    ensures EndsAt(ts, n) == Done((sources, targets), n + |EndsText(st, sources, targets)|)
  {
    hide Stands, ParticipantsText, ParticipantListAt, GoodParticipants;
    var from, to := ParticipantsText(st, sources), ParticipantsText(st, targets);
    AtToken(ts, n, Word(From), from + ([Ident(st.to)] + to));
    AtBoth(ts, n + 1, from, [Ident(st.to)] + to);
    var s := n + 1 + |from|;
    AtToken(ts, s, Ident(st.to), to);
    ParticipantListRead(ts, n + 1, st, sources);
    ParticipantListRead(ts, s + 1, st, targets);
  }

  lemma MatchHyperedgeRead(ts: Tokens, n: nat, st: Style, c: Clause)
    requires c.MatchHyperedgeC? && Stands(ts, n, ClauseText(st, c))
    ensures n + |ClauseText(st, c)| <= |ts| && n < |ts| && ClauseAt(ts, n) == Done(c, n + |ClauseText(st, c)|)
  {
    hide Stands, HeadText, NodeHeadAt;
    var head := HeadText(st, c.variable, c.labels);
    AtTwo(ts, n, Word(Match), Word(Hyperedge), head + [RParen]);
    AtBoth(ts, n + 2, head, [RParen]);
    AtOne(ts, n + 2 + |head|, RParen);
    HeadRead(ts, n + 2, st, c.variable, c.labels);
    hide MatchClauseAt;
  }

  lemma MatchClauseRead(ts: Tokens, n: nat, st: Style, c: Clause)
    requires c.MatchC? && GoodClause(c) && Stands(ts, n, ClauseText(st, c)) && Over(ts, n + |ClauseText(st, c)|)
    ensures n + |ClauseText(st, c)| <= |ts| && n < |ts| && ClauseAt(ts, n) == Done(c, n + |ClauseText(st, c)|)
  {
    hide Stands, MatchText, MatchAt, GoodMatch, Over;
    var m := if c.body.optional then n + 1 else n;
    if c.body.optional {
      AtToken(ts, n, Word(Optional), MatchText(st, c.body));
    }
    MatchStarts(ts, m, st, c.body);
    MatchRead(ts, m, st, c.body);
  }

  lemma MatchStarts(ts: Tokens, n: nat, st: Style, m: MatchBody)
    requires GoodMatch(m) && Stands(ts, n, MatchText(st, m))
    ensures n + 1 < |ts| && ts[n] == Word(Match) && ts[n + 1] == LParen
  {
    hide Stands, ElementsText, TemporalText, TailText, GoodChain;
    var pattern, rest := PatternText(st, m.pattern), TemporalText(m.temporal) + TailText(Where, m.filter);
    AtToken(ts, n, Word(Match), pattern + rest);
    AtBoth(ts, n + 1, pattern, rest);
    CommasRead(ts, n + 1, m.pattern.chains, ChainText(st));
    ChainStarts(ts, n + 1, st, m.pattern.chains[0]);
  }

  lemma ChainStarts(ts: Tokens, n: nat, st: Style, es: seq<Element>)
    requires GoodChain(es) && Stands(ts, n, ElementsText(st, es))
    ensures TokenAt(ts, n, LParen)
  {
    hide Stands, MapText, LabelsText, GoodElement;
    assert es[0].NodeElement?;
    AtBoth(ts, n, ElementText(st, es[0]), ElementsText(st, es[1..]));
    var node := es[0].node;
    AtBoth(ts, n, HeadText(st, node.variable, node.labels), MapText(st, node.properties) + [RParen]);
    AtToken(ts, n, LParen, NameText(st, node.variable) + LabelsText(st, node.labels));
  }

  lemma SetRead(ts: Tokens, n: nat, st: Style, c: Clause)
    requires c.SetC? && GoodClause(c) && Stands(ts, n, ClauseText(st, c)) && Over(ts, n + |ClauseText(st, c)|)
    ensures n + |ClauseText(st, c)| <= |ts| && SetClauseAt(ts, n) == Done(c, n + |ClauseText(st, c)|)
  {
    hide Stands, Stops, Commas, SetItemText, SetItemsAt, GoodSets, Over;
    OverStops(ts, n + |ClauseText(st, c)|);
    AtToken(ts, n, Word(Set), Commas(c.sets, SetItemText(st)));
    SetItemsRead(ts, n + 1, st, c.sets, []);
    assert [] + c.sets == c.sets;
  }

  lemma RemoveRead(ts: Tokens, n: nat, st: Style, c: Clause)
    requires c.RemoveC? && GoodClause(c) && Stands(ts, n, ClauseText(st, c)) && Over(ts, n + |ClauseText(st, c)|)
    ensures n + |ClauseText(st, c)| <= |ts| && RemoveClauseAt(ts, n) == Done(c, n + |ClauseText(st, c)|)
  {
    hide Stands, Stops, Commas, RemoveItemText, RemoveItemsAt, GoodRemove, Over;
    OverStops(ts, n + |ClauseText(st, c)|);
    AtBound(ts, n, ClauseText(st, c));
    AtToken(ts, n, Word(Remove), Commas(c.removes, RemoveItemText(st)));
    RemoveItemsRead(ts, n + 1, st, c.removes, []);
    assert [] + c.removes == c.removes;
  }

  lemma DropIndexRead(ts: Tokens, n: nat, st: Style, c: Clause)
    requires c.DropIndexC? && Stands(ts, n, ClauseText(st, c))
    ensures n + |ClauseText(st, c)| <= |ts| && DropIndexAt(ts, n) == Done(c, n + |ClauseText(st, c)|)
  {
    hide Stands;
    AtTriple(ts, n, Word(Drop), Word(Index), Name(st, c.dropped));
  }

  lemma DeleteRead(ts: Tokens, n: nat, st: Style, detach: bool, exprs: seq<Expression>)
    requires var c := DeleteC(detach, exprs);
             GoodClause(c) && Stands(ts, n, ClauseText(st, c)) && Over(ts, n + |ClauseText(st, c)|)
    ensures var c := DeleteC(detach, exprs);
            n + |ClauseText(st, c)| <= |ts| && n < |ts| && ClauseAt(ts, n) == Done(c, n + |ClauseText(st, c)|)
  {
    hide Stands, Commas, ExprText, DeleteClauseAt, Producible, Over;
    var list := Commas(exprs, ExprText);
    if detach {
      AtToken(ts, n, Word(Detach), [Word(Delete)] + list);
      DeletedRead(ts, n + 1, detach, exprs);
    } else {
      assert [] + ([Word(Delete)] + list) == [Word(Delete)] + list;
      DeletedRead(ts, n, detach, exprs);
    }
  }

  lemma DeletedRead(ts: Tokens, n: nat, detach: bool, exprs: seq<Expression>)
    requires exprs != [] && forall i | 0 <= i < |exprs| :: Producible(exprs[i])
    requires var text := [Word(Delete)] + Commas(exprs, ExprText); Stands(ts, n, text) && Over(ts, n + |text|)
    ensures var k := n + 1 + |Commas(exprs, ExprText)|;
            k <= |ts| && ts[n] == Word(Delete) && DeleteClauseAt(ts, n, detach) == Done(DeleteC(detach, exprs), k)
  {
    hide Stands, Stops, Commas, ExprText, ExprsAt, Producible, Over;
    OverStops(ts, n + 1 + |Commas(exprs, ExprText)|);
    AtToken(ts, n, Word(Delete), Commas(exprs, ExprText));
    ExprsRead(ts, n + 1, exprs, []);
    assert [] + exprs == exprs;
  }

  /** Main result. The printed text of a clause, in any style, wherever it stands and whatever
      clause or end follows, reads back as that clause and nothing more. */
  lemma ClauseRead(ts: Tokens, n: nat, st: Style, c: Clause)
    requires GoodClause(c) && GoodStyle(st) && Stands(ts, n, ClauseText(st, c)) && Over(ts, n + |ClauseText(st, c)|)
    ensures n < n + |ClauseText(st, c)| <= |ts| && ClauseAt(ts, n) == Done(c, n + |ClauseText(st, c)|)
  {
    hide Stands, ClauseText, GoodClause, Over, MatchClauseAt, MatchHyperedgeAt, ReturnAt, CreateClauseAt, SetClauseAt, RemoveClauseAt,
         DeleteClauseAt, WithAt, MergeAt, UnwindAt, DropIndexAt, NoClause, GoodStyle;
    match c
    case MatchC(_) => MatchClauseRead(ts, n, st, c);
    case ReturnC(_, _, _, _, _) => ReturnRead(ts, n, st, c); FirstWord(ts, n, st, c);
    case CreateC(_) => CreateRead(ts, n, st, c); FirstWord(ts, n, st, c);
    case WithC(_, _, _) => WithRead(ts, n, st, c); FirstWord(ts, n, st, c);
    case MergeC(_, _) => MergeRead(ts, n, st, c); FirstWord(ts, n, st, c);
    case UnwindC(_, _) => UnwindRead(ts, n, st, c); FirstWord(ts, n, st, c);
    case CreateIndexC(_, _, _, _) => IndexRead(ts, n, st, c); FirstWord(ts, n, st, c);
    case CreateSnapshotC(_, _, _, _) => SnapshotRead(ts, n, st, c); FirstWord(ts, n, st, c);
    case CreateHyperedgeC(_, _, _, _) => HyperedgeRead(ts, n, st, c); FirstWord(ts, n, st, c);
    case MatchHyperedgeC(_, _) => MatchHyperedgeRead(ts, n, st, c);
    case SetC(_) => SetRead(ts, n, st, c); FirstWord(ts, n, st, c);
    case RemoveC(_) => RemoveRead(ts, n, st, c); FirstWord(ts, n, st, c);
    case DeleteC(detach, exprs) => DeleteRead(ts, n, st, detach, exprs);
    case DropIndexC(_) => DropIndexRead(ts, n, st, c); FirstWord(ts, n, st, c);
  }

  lemma FirstWord(ts: Tokens, n: nat, st: Style, c: Clause)
    requires !c.MatchC? && !c.MatchHyperedgeC? && !c.DeleteC? && Stands(ts, n, ClauseText(st, c))
    ensures n < |ts|
    ensures c.ReturnC? ==> ts[n] == Word(Return)
    ensures c.CreateC? || c.CreateIndexC? || c.CreateSnapshotC? || c.CreateHyperedgeC? ==> ts[n] == Word(Create)
    ensures c.WithC? ==> ts[n] == Word(With)
    ensures c.MergeC? ==> ts[n] == Word(Merge)
    ensures c.UnwindC? ==> ts[n] == Word(Unwind)
    ensures c.SetC? ==> ts[n] == Word(Set)
    ensures c.RemoveC? ==> ts[n] == Word(Remove)
    ensures c.DropIndexC? ==> ts[n] == Word(Drop)
  {
    hide Stands, Commas, ItemText, OrderText, TailText, PatternText, ActionsText, NodeText, AtTimeText, MatchText, HeadText,
         ParticipantsText, ExprText, SetItemText, RemoveItemText, TargetText, DistinctText, NameText;
    var text := ClauseText(st, c);
    assert text != [] && text[0].Word?;
    AtTokens(ts, n, text);
    assert ts[n + 0] == text[0];
  }
}
