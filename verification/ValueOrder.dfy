/** Which order the indexes keep, written out type by type. */
module ValueOrder {
  import opened Graph
  import opened Ordering

  /** Null, booleans, integers, floating point, text, bytes, arrays, times. */
  predicate EarlierType(a: Value, b: Value) {
    || (a.NullVal? && !b.NullVal?)
    || (a.BoolVal? && !b.NullVal? && !b.BoolVal?)
    || (a.IntVal? && (b.FloatVal? || b.StringVal? || b.BytesVal? || b.ArrayVal? || b.DateTimeVal?))
    || (a.FloatVal? && (b.StringVal? || b.BytesVal? || b.ArrayVal? || b.DateTimeVal?))
    || (a.StringVal? && (b.BytesVal? || b.ArrayVal? || b.DateTimeVal?))
    || (a.BytesVal? && (b.ArrayVal? || b.DateTimeVal?))
    || (a.ArrayVal? && b.DateTimeVal?)
  }

  /** The first byte that differs decides; without one, the shorter comes first. */
  ghost predicate EarlierBytes(a: seq<Byte>, b: seq<Byte>) {
    exists k | 0 <= k <= |a| && k <= |b| ::
      a[..k] == b[..k] && if k < |a| && k < |b| then a[k] < b[k] else |a| == k < |b|
  }

  predicate Negative(bits: Bits64) {
    bits >= 0x8000_0000_0000_0000
  }

  /** The number that 64 bits stand for, in units of the smallest one, 2 to the power of -1074.
      The bits below the exponent are the fraction; infinity is as if the exponents went on. */
  function Number(bits: Bits64): int {
    if Negative(bits) then 0 - Units(bits - 0x8000_0000_0000_0000) else Units(bits)
  }

  const FRACTION := 0x10_0000_0000_0000

  function Units(magnitude: nat): nat {
    var exponent, fraction := magnitude / FRACTION, magnitude % FRACTION;
    if exponent == 0 then fraction else (FRACTION + fraction) * Power2(exponent - 1)
  }

  function Power2(n: nat): (p: nat)
    ensures p > 0
  {
    if n == 0 then 1 else 2 * Power2(n - 1)
  }

  /** All exponent bits set and a fraction. */
  predicate NoNumber(bits: Bits64) {
    bits / FRACTION % 2048 == 2047 && bits % FRACTION != 0
  }

  /** By number; of the two zeros the negative one comes first. What is no number comes before
      all numbers if its sign is negative, else after them, and is in order of its bits. */
  predicate EarlierFloat(a: Bits64, b: Bits64) {
    if NoNumber(a) && NoNumber(b) then
      if Negative(a) && Negative(b) then a > b else if !Negative(a) && !Negative(b) then a < b else Negative(a)
    else if NoNumber(a) then Negative(a)
    else if NoNumber(b) then !Negative(b)
    else Number(a) < Number(b) || (Number(a) == Number(b) && Negative(a) && !Negative(b))
  }

  ghost predicate Earlier(a: Value, b: Value)
    decreases a
  {
    || EarlierType(a, b)
    || (a.BoolVal? && b.BoolVal? && !a.b && b.b)
    || (a.IntVal? && b.IntVal? && a.n < b.n)
    || (a.FloatVal? && b.FloatVal? && EarlierFloat(a.bits, b.bits))
    || (a.StringVal? && b.StringVal? && EarlierBytes(a.utf8, b.utf8))
    || (a.BytesVal? && b.BytesVal? && EarlierBytes(a.bytes, b.bytes))
    || (a.ArrayVal? && b.ArrayVal? &&
        (|a.items| < |b.items|
         || (|a.items| == |b.items|
             && exists k | 0 <= k < |a.items| :: a.items[..k] == b.items[..k] && Earlier(a.items[k], b.items[k]))))
    || (a.DateTimeVal? && b.DateTimeVal? && a.millis < b.millis)
  }

  // ---------------------------------------------------------------------------
  // The comparison of the code is this order
  // ---------------------------------------------------------------------------

  lemma {:induction false} BytesAreEarlier(a: seq<Byte>, b: seq<Byte>)
    ensures CompareBytes(a, b) < 0 <==> EarlierBytes(a, b)
  {
    if a == [] || b == [] {
      if a == [] && b != [] {
        assert a[..0] == b[..0];
      }
    } else if a[0] != b[0] {
      assert a[..0] == b[..0];
      forall k | 0 < k <= |a| && k <= |b|
        ensures a[..k] != b[..k]
      {
        assert a[..k][0] == a[0] && b[..k][0] == b[0];
      }
    } else {
      BytesAreEarlier(a[1..], b[1..]);
      forall k | 0 <= k < |a| && k < |b|
        ensures a[1..][..k] == b[1..][..k] <==> a[..k + 1] == b[..k + 1]
      {
        assert a[..k + 1] == [a[0]] + a[1..][..k] && b[..k + 1] == [b[0]] + b[1..][..k];
        assert a[..k + 1][1..] == a[1..][..k] && b[..k + 1][1..] == b[1..][..k];
      }
      EarlierShifts(a, b);
    }
  }

  lemma EarlierShifts(a: seq<Byte>, b: seq<Byte>)
    requires a != [] && b != [] && a[0] == b[0]
    requires forall k | 0 <= k < |a| && k < |b| :: a[1..][..k] == b[1..][..k] <==> a[..k + 1] == b[..k + 1]
    ensures EarlierBytes(a[1..], b[1..]) <==> EarlierBytes(a, b)
  {
    var p, q := a[1..], b[1..];
    if EarlierBytes(p, q) {
      var k :| 0 <= k <= |p| && k <= |q| && p[..k] == q[..k] && if k < |p| && k < |q| then p[k] < q[k] else |p| == k < |q|;
      assert a[..k + 1] == b[..k + 1];
    }
    if EarlierBytes(a, b) {
      var k :| 0 <= k <= |a| && k <= |b| && a[..k] == b[..k] && if k < |a| && k < |b| then a[k] < b[k] else |a| == k < |b|;
      assert k > 0;
      assert p[..k - 1] == q[..k - 1];
    }
  }

  lemma {:induction false} PowersGrow(m: nat, n: nat)
    requires m <= n
    ensures Power2(m) <= Power2(n)
    decreases n
  {
    if m < n {
      PowersGrow(m, n - 1);
    }
  }

  lemma UnitsBounds(m: nat)
    ensures m / FRACTION == 0 ==> Units(m) < FRACTION
    ensures m / FRACTION > 0 ==> FRACTION * Power2(m / FRACTION - 1) <= Units(m) < FRACTION * Power2(m / FRACTION)
  {
    var exponent, fraction := m / FRACTION, m % FRACTION;
    if exponent > 0 {
      var p := Power2(exponent - 1);
      assert fraction * p >= 0 && (FRACTION - fraction) * p > 0;
      assert (FRACTION + fraction) * p == FRACTION * p + fraction * p;
      assert (FRACTION - fraction) * p == FRACTION * p - fraction * p;
    }
  }

  lemma UnitsGrow(m: nat, n: nat)
    requires m < n
    ensures Units(m) < Units(n)
  {
    hide Units, Power2;
    var d, e := m / FRACTION, n / FRACTION;
    UnitsBounds(m);
    UnitsBounds(n);
    if d == e {
      SameExponent(m, n);
    } else {
      assert d < e;
      PowersGrow(d, e - 1);
      if d == 0 {
        assert Power2(e - 1) >= 1;
      }
    }
  }

  lemma SameExponent(m: nat, n: nat)
    requires m < n && m / FRACTION == n / FRACTION
    ensures Units(m) < Units(n)
  {
    assert m % FRACTION < n % FRACTION;
    if m / FRACTION > 0 {
      assert (n % FRACTION - m % FRACTION) * Power2(m / FRACTION - 1) > 0;
    }
  }

  lemma UnitsOrder(m: nat, n: nat)
    ensures Units(m) < Units(n) <==> m < n
    ensures Units(m) == 0 <==> m == 0
  {
    if m < n {
      UnitsGrow(m, n);
    } else if n < m {
      UnitsGrow(n, m);
    }
    if m > 0 {
      UnitsGrow(0, m);
    }
  }

  lemma NumbersApart(bits: Bits64)
    ensures IsNaN(bits) <==> NoNumber(bits)
    ensures Magnitude(bits) == if Negative(bits) then bits - 0x8000_0000_0000_0000 else bits
  {
  }

  lemma FloatsAreEarlier(a: Bits64, b: Bits64)
    ensures TotalKey(a) < TotalKey(b) <==> EarlierFloat(a, b)
  {
    hide Units, NoNumber;
    NumbersApart(a);
    NumbersApart(b);
    UnitsOrder(Magnitude(a), Magnitude(b));
    UnitsOrder(Magnitude(b), Magnitude(a));
  }

  lemma {:induction false} ItemsAreEarlier(a: seq<Value>, b: seq<Value>)
    requires |a| == |b|
    ensures CompareItems(a, b) < 0 <==> exists k | 0 <= k < |a| :: a[..k] == b[..k] && Earlier(a[k], b[k])
    decreases a, 0
  {
    hide Compare, Earlier;
    if a != [] {
      var p, q := a[1..], b[1..];
      CompareOrder(a[0], b[0], b[0]);
      CompareIsEarlier(a[0], b[0]);
      ItemsAreEarlier(p, q);
      if a[0] != b[0] {
        assert a[..0] == b[..0];
        forall k | 0 < k < |a|
          ensures a[..k] != b[..k]
        {
          assert a[..k][0] == a[0] && b[..k][0] == b[0];
        }
      } else {
        NotEarlierThanItself(a[0]);
        ItemsShift(a, b);
      }
    }
  }

  lemma NotEarlierThanItself(v: Value)
    requires Compare(v, v) < 0 <==> Earlier(v, v)
    ensures !Earlier(v, v)
  {
    hide Compare, Earlier;
    CompareOrder(v, v, v);
  }

  lemma ItemsShift(a: seq<Value>, b: seq<Value>)
    requires |a| == |b| && a != [] && a[0] == b[0] && !Earlier(a[0], b[0])
    ensures (exists k | 0 <= k < |a| :: a[..k] == b[..k] && Earlier(a[k], b[k]))
       <==> exists k | 0 <= k < |a[1..]| :: a[1..][..k] == b[1..][..k] && Earlier(a[1..][k], b[1..][k])
  {
    hide Earlier;
    var p, q := a[1..], b[1..];
    if k :| 0 <= k < |a| && a[..k] == b[..k] && Earlier(a[k], b[k]) {
      assert k > 0;
      assert p[..k - 1] == a[..k][1..] && q[..k - 1] == b[..k][1..];
      assert p[k - 1] == a[k] && q[k - 1] == b[k];
    }
    if k :| 0 <= k < |p| && p[..k] == q[..k] && Earlier(p[k], q[k]) {
      assert a[..k + 1] == [a[0]] + p[..k] && b[..k + 1] == [b[0]] + q[..k];
      assert a[k + 1] == p[k] && b[k + 1] == q[k];
    }
  }

  /** Main result: the comparison that keys the indexes and bounds the ranges is the order
      written out above. */
  lemma {:induction false} CompareIsEarlier(a: Value, b: Value)
    ensures Compare(a, b) < 0 <==> Earlier(a, b)
    decreases a, 1
  {
    hide EarlierBytes, EarlierFloat, TotalKey, CompareBytes, CompareItems;
    match (a, b)
    case (FloatVal(x), FloatVal(y)) => FloatsAreEarlier(x, y);
    case (StringVal(x), StringVal(y)) => BytesAreEarlier(x, y);
    case (BytesVal(x), BytesVal(y)) => BytesAreEarlier(x, y);
    case (ArrayVal(x), ArrayVal(y)) =>
      if |x| == |y| {
        ItemsAreEarlier(x, y);
      }
    case _ =>
  }

  // ---------------------------------------------------------------------------
  // The equality of the code
  // ---------------------------------------------------------------------------

  /** Floating-point values are equal when they are numbers, and the same one. */
  lemma EqualNumbers(a: Bits64, b: Bits64)
    ensures SameFloat(a, b) <==> !NoNumber(a) && !NoNumber(b) && Number(a) == Number(b)
  {
    hide Units, NoNumber;
    NumbersApart(a);
    NumbersApart(b);
    UnitsOrder(Magnitude(a), Magnitude(b));
    UnitsOrder(Magnitude(b), Magnitude(a));
  }

  lemma {:induction false} EqualItems(a: seq<Value>, b: seq<Value>)
    requires |a| == |b|
    ensures SameItems(a, b) <==> forall k | 0 <= k < |a| :: Same(a[k], b[k])
  {
    hide Same;
    if a != [] {
      EqualItems(a[1..], b[1..]);
      forall k | 0 <= k < |a[1..]|
        ensures Same(a[1..][k], b[1..][k]) <==> Same(a[k + 1], b[k + 1])
      {
      }
      assert forall k | 1 <= k < |a| :: a[k] == a[1..][k - 1] && b[k] == b[1..][k - 1];
    }
  }

  /** Arrays are equal item by item; everything else but floating point, when it is the same. */
  lemma EqualValues(a: Value, b: Value)
    ensures Same(a, b) <==>
            if a.FloatVal? && b.FloatVal? then !NoNumber(a.bits) && !NoNumber(b.bits) && Number(a.bits) == Number(b.bits)
            else if a.ArrayVal? && b.ArrayVal? then
              |a.items| == |b.items| && forall k | 0 <= k < |a.items| :: Same(a.items[k], b.items[k])
            else a == b
  {
    hide NoNumber, Number, SameFloat;
    if a.FloatVal? && b.FloatVal? {
      EqualNumbers(a.bits, b.bits);
    } else if a.ArrayVal? && b.ArrayVal? && |a.items| == |b.items| {
      EqualItems(a.items, b.items);
    }
  }
}
