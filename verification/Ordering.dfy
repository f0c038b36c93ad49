/** The order on property values that keys a property index. */
module Ordering {
  import opened Graph

  function TypeTag(v: Value): nat {
    match v
    case NullVal => 0
    case BoolVal(_) => 1
    case IntVal(_) => 2
    case FloatVal(_) => 3
    case StringVal(_) => 4
    case BytesVal(_) => 5
    case ArrayVal(_) => 6
    case DateTimeVal(_) => 7
  }

  function CompareInt(a: int, b: int): int {
    if a < b then -1 else if a > b then 1 else 0
  }

  const SIGN := 0x8000_0000_0000_0000

  /** The key of the totalOrder of IEEE 754: negative numbers come first, in reverse. */
  function TotalKey(bits: Bits64): int {
    if bits < SIGN then bits else SIGN - 1 - bits
  }

  /** Lexicographic order, a prefix before its extensions. */
  function CompareBytes(a: seq<Byte>, b: seq<Byte>): int {
    if a == [] || b == [] then CompareInt(|a|, |b|)
    else if a[0] != b[0] then CompareInt(a[0], b[0])
    else CompareBytes(a[1..], b[1..])
  }

  /** By type first, then by value; arrays by length, then element by element. */
  function Compare(a: Value, b: Value): int
    decreases a, 1
  {
    if TypeTag(a) != TypeTag(b) then CompareInt(TypeTag(a), TypeTag(b))
    else
      match (a, b)
      case (BoolVal(x), BoolVal(y)) => CompareInt(if x then 1 else 0, if y then 1 else 0)
      case (IntVal(x), IntVal(y)) => CompareInt(x, y)
      case (FloatVal(x), FloatVal(y)) => CompareInt(TotalKey(x), TotalKey(y))
      case (StringVal(x), StringVal(y)) => CompareBytes(x, y)
      case (BytesVal(x), BytesVal(y)) => CompareBytes(x, y)
      case (ArrayVal(x), ArrayVal(y)) => if |x| != |y| then CompareInt(|x|, |y|) else CompareItems(x, y)
      case (DateTimeVal(x), DateTimeVal(y)) => CompareInt(x, y)
      case _ => 0
  }

  function CompareItems(a: seq<Value>, b: seq<Value>): int
    requires |a| == |b|
    decreases a, 0
  {
    if a == [] then 0
    else
      var c := Compare(a[0], b[0]);
      if c != 0 then c else CompareItems(a[1..], b[1..])
  }

  lemma {:induction false} BytesOrder(a: seq<Byte>, b: seq<Byte>, c: seq<Byte>)
    ensures CompareBytes(a, b) == 0 <==> a == b
    ensures CompareBytes(b, a) == -CompareBytes(a, b)
    ensures CompareBytes(a, b) <= 0 && CompareBytes(b, c) <= 0 ==> CompareBytes(a, c) <= 0
  {
    if a != [] && b != [] {
      if c != [] {
        BytesOrder(a[1..], b[1..], c[1..]);
      } else {
        BytesOrder(a[1..], b[1..], []);
      }
      assert a == [a[0]] + a[1..] && b == [b[0]] + b[1..];
    }
  }

  /** Keys compare equal exactly when the values are equal, the order is antisymmetric and
      transitive: a total order, so an ordered map may be keyed by it. */
  lemma {:induction false} CompareOrder(a: Value, b: Value, c: Value)
    ensures Compare(a, b) == 0 <==> a == b
    ensures Compare(b, a) == -Compare(a, b)
    ensures Compare(a, b) <= 0 && Compare(b, c) <= 0 ==> Compare(a, c) <= 0
    decreases a, 1
  {
    match (a, b)
    case (StringVal(x), StringVal(y)) => BytesOrder(x, y, if c.StringVal? then c.utf8 else []);
    case (BytesVal(x), BytesVal(y)) => BytesOrder(x, y, if c.BytesVal? then c.bytes else []);
    case (ArrayVal(x), ArrayVal(y)) =>
      if |x| == |y| {
        ItemsOrder(x, y, if c.ArrayVal? && |c.items| == |x| then c.items else x);
      }
    case _ =>
  }

  lemma {:induction false} ItemsOrder(a: seq<Value>, b: seq<Value>, c: seq<Value>)
    requires |a| == |b| == |c|
    ensures CompareItems(a, b) == 0 <==> a == b
    ensures CompareItems(b, a) == -CompareItems(a, b)
    ensures CompareItems(a, b) <= 0 && CompareItems(b, c) <= 0 ==> CompareItems(a, c) <= 0
    decreases a, 0
  {
    hide Compare;
    if a != [] {
      CompareOrder(a[0], b[0], c[0]);
      CompareOrder(a[0], c[0], c[0]);
      ItemsOrder(a[1..], b[1..], c[1..]);
      assert a == [a[0]] + a[1..] && b == [b[0]] + b[1..];
    }
  }

  // ---------------------------------------------------------------------------
  // Equality of values
  // ---------------------------------------------------------------------------

  // The index compares keys by the order above, the linear scan by `==`, which on floating
  // point is that of IEEE 754: no NaN equals anything, and the two zeros are equal.

  const INFINITY := 0x7FF0_0000_0000_0000

  function Magnitude(bits: Bits64): int {
    if bits < SIGN then bits else bits - SIGN
  }

  predicate IsNaN(bits: Bits64) {
    Magnitude(bits) > INFINITY
  }

  predicate IsZero(bits: Bits64) {
    Magnitude(bits) == 0
  }

  predicate SameFloat(a: Bits64, b: Bits64) {
    !IsNaN(a) && !IsNaN(b) && (a == b || (IsZero(a) && IsZero(b)))
  }

  /** The `==` of the source. */
  predicate Same(a: Value, b: Value)
    decreases a, 1
  {
    match (a, b)
    case (FloatVal(x), FloatVal(y)) => SameFloat(x, y)
    case (ArrayVal(x), ArrayVal(y)) => |x| == |y| && SameItems(x, y)
    case _ => a == b
  }

  predicate SameItems(a: seq<Value>, b: seq<Value>)
    requires |a| == |b|
    decreases a, 0
  {
    a == [] || (Same(a[0], b[0]) && SameItems(a[1..], b[1..]))
  }

  /** No NaN and no zero in it, however deep. */
  predicate Definite(v: Value)
    decreases v, 1
  {
    match v
    case FloatVal(bits) => !IsNaN(bits) && !IsZero(bits)
    case ArrayVal(items) => AllDefinite(items)
    case _ => true
  }

  predicate AllDefinite(items: seq<Value>)
    decreases items, 0
  {
    items == [] || (Definite(items[0]) && AllDefinite(items[1..]))
  }

  lemma {:induction false} DefiniteIsSame(w: Value, v: Value)
    requires Definite(v)
    ensures Same(w, v) <==> w == v
    decreases v, 1
  {
    if v.ArrayVal? && w.ArrayVal? && |w.items| == |v.items| {
      DefiniteItemsSame(w.items, v.items);
    }
  }

  lemma {:induction false} DefiniteItemsSame(a: seq<Value>, b: seq<Value>)
    requires |a| == |b| && AllDefinite(b)
    ensures SameItems(a, b) <==> a == b
    decreases b, 0
  {
    if a != [] {
      DefiniteIsSame(a[0], b[0]);
      DefiniteItemsSame(a[1..], b[1..]);
      assert a == [a[0]] + a[1..] && b == [b[0]] + b[1..];
    }
  }

  /** The value with the sign of every zero turned. */
  function Turned(v: Value): Value
    decreases v, 1
  {
    match v
    case FloatVal(bits) => if bits == 0 then FloatVal(SIGN) else if bits == SIGN then FloatVal(0) else v
    case ArrayVal(items) => ArrayVal(TurnedItems(items))
    case _ => v
  }

  function TurnedItems(items: seq<Value>): (out: seq<Value>)
    ensures |out| == |items|
    decreases items, 0
  {
    if items == [] then [] else [Turned(items[0])] + TurnedItems(items[1..])
  }

  lemma {:induction false} TurnedIsSame(v: Value)
    requires Same(v, v) && !Definite(v)
    ensures Same(Turned(v), v) && Turned(v) != v
    decreases v, 1
  {
    if v.ArrayVal? {
      TurnedItemsSame(v.items);
    }
  }

  lemma {:induction false} TurnedItemsSame(items: seq<Value>)
    requires SameItems(items, items)
    ensures SameItems(TurnedItems(items), items)
    ensures !AllDefinite(items) ==> TurnedItems(items) != items
    decreases items, 0
  {
    if items != [] {
      var first, rest := items[0], items[1..];
      TurnedItemsSame(rest);
      if Definite(first) {
        DefiniteTurned(first);
      } else {
        TurnedIsSame(first);
      }
      var out := TurnedItems(items);
      assert out[0] == Turned(first) && out[1..] == TurnedItems(rest);
    }
  }

  lemma {:induction false} DefiniteTurned(v: Value)
    requires Definite(v)
    ensures Turned(v) == v && Same(v, v)
    decreases v, 1
  {
    DefiniteIsSame(v, v);
    if v.ArrayVal? {
      DefiniteItemsTurned(v.items);
    }
  }

  lemma {:induction false} DefiniteItemsTurned(items: seq<Value>)
    requires AllDefinite(items)
    ensures TurnedItems(items) == items
    decreases items, 0
  {
    if items != [] {
      DefiniteTurned(items[0]);
      DefiniteItemsTurned(items[1..]);
    }
  }

  /** A value that the two equalities tell apart from this one. */
  function Confused(v: Value): Value {
    if Same(v, v) then Turned(v) else v
  }

  /** Being equal to a value means being that value exactly for values without NaN and zeros. */
  lemma SameExactly(v: Value)
    ensures Definite(v) <==> forall w :: Same(w, v) <==> w == v
    ensures !Definite(v) ==> !(Same(Confused(v), v) <==> Confused(v) == v)
  {
    if Definite(v) {
      forall w
        ensures Same(w, v) <==> w == v
      {
        DefiniteIsSame(w, v);
      }
    } else {
      if Same(v, v) {
        TurnedIsSame(v);
      }
      var w := Confused(v);
      assert !(Same(w, v) <==> w == v);
    }
  }
}
