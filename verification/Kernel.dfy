/** Decimal helpers, text helpers and sums shared by the other modules.

    Decimals are exact reals here, so the checked operations of the source never overflow. */
module Kernel {

  datatype Option<+T> = None | Some(value: T)

  /** The reasons for which a backtest case is refused. */
  datatype Error =
    | BadIncrement
    | DivisionByZero
    | UnsupportedSide
    | UnsupportedAction
    | UnsupportedBasis
    | UnsupportedRounding
    | UnsupportedFeeGroup
    | MissingIdOrQuantity
    | MissingPrice
    | DuplicateOrderId
    | BadAtomicGroup
    | AtomicParentMissing
    | NoCurrentBar
    | BadCase
    | Overflow
    | BadPeriod

  datatype Result<+T> = Ok(value: T) | Err(error: Error) {
    predicate IsFailure() { Err? }
    function PropagateFailure<U>(): Result<U>
      requires Err?
    {
      Err(error)
    }
    function Extract(): T
      requires Ok?
    {
      value
    }
  }

  /** The result of an operation that fails with an error of its own kind. */
  datatype Outcome<+T, +E> = Success(value: T) | Failure(error: E)

  const U64_MAX: nat := 0xFFFF_FFFF_FFFF_FFFF

  /** Division of whole numbers as machines do it: towards zero. */
  function Quotient(a: int, b: int): int
    requires b > 0
  {
    if a >= 0 then a / b else -((-a) / b)
  }

  function Remainder(a: int, b: int): int
    requires b > 0
  {
    a - b * Quotient(a, b)
  }

  function Abs(x: real): (r: real)
    ensures r >= 0.0 && (r == x || r == -x)
  {
    if x < 0.0 then -x else x
  }

  function Min(a: real, b: real): (r: real)
    ensures r <= a && r <= b && (r == a || r == b)
  {
    if a <= b then a else b
  }

  function Max(a: real, b: real): (r: real)
    ensures r >= a && r >= b && (r == a || r == b)
  {
    if a >= b then a else b
  }

  /** What `quantity` is worth at `price`. */
  function Worth(price: real, quantity: real): real {
    price * quantity
  }

  // ---- products --------------------------------------------------------------------------

  lemma ProductPositive(x: real, y: real)
    requires x > 0.0 && y > 0.0
    ensures x * y > 0.0
  {
  }

  lemma Distributes(x: real, y: real, factor: real)
    ensures (y - x) * factor == y * factor - x * factor
  {
  }

  lemma ProductGrows(x: real, y: real, factor: real)
    requires x <= y && factor >= 0.0
    ensures x * factor <= y * factor
    ensures x < y && factor > 0.0 ==> x * factor < y * factor
  {
    Distributes(x, y, factor);
    if x < y && factor > 0.0 {
      ProductPositive(y - x, factor);
    }
  }

  lemma FactorPositive(x: real, y: real, product: real)
    requires y > 0.0 && product > 0.0 && x * y == product
    ensures x > 0.0
  {
    if x <= 0.0 {
      ProductGrows(x, 0.0, y);
    }
  }

  lemma WorthGrows(x: real, y: real, factor: real)
    requires x <= y && factor >= 0.0
    ensures Worth(x, factor) <= Worth(y, factor)
  {
    ProductGrows(x, y, factor);
  }

  lemma WorthRises(x: real, y: real, factor: real)
    requires x < y && factor > 0.0
    ensures Worth(x, factor) < Worth(y, factor)
  {
    ProductGrows(x, y, factor);
  }

  // ---- increments ------------------------------------------------------------------------

  function Trunc(q: real): int {
    if q >= 0.0 then q.Floor else -((-q).Floor)
  }

  function Ceil(q: real): int {
    -((-q).Floor)
  }

  function Units(units: int, increment: real): real {
    units as real * increment
  }

  ghost predicate IsMultiple(x: real, increment: real) {
    exists units: int :: x == Units(units, increment)
  }

  /** Comparing a quotient with a whole number of units compares the value with that multiple. */
  lemma UnitsOrder(value: real, increment: real, units: int)
    requires increment > 0.0
    ensures units as real <= value / increment <==> Units(units, increment) <= value
    ensures Units(units + 1, increment) == Units(units, increment) + increment
    ensures Units(units - 1, increment) == Units(units, increment) - increment
  {
    var q := value / increment;
    assert q * increment == value;
    if units as real <= q {
      assert units as real * increment <= q * increment;
    } else {
      assert units as real * increment > q * increment;
    }
    assert (units as real + 1.0) * increment == units as real * increment + increment;
    assert (units as real - 1.0) * increment == units as real * increment - increment;
  }

  lemma QuotientSign(value: real, increment: real)
    requires increment > 0.0
    ensures value >= 0.0 <==> value / increment >= 0.0
    ensures -(value / increment) == (-value) / increment
  {
    UnitsOrder(value, increment, 0);
    assert (-value) / increment * increment == -value;
    assert (-(value / increment)) * increment == -value;
  }

  /** The multiple of `increment` nearest to `value` on the side of zero. */
  function TruncateToIncrement(value: real, increment: real): (r: Result<real>)
    ensures r.Err? <==> increment <= 0.0
    ensures r.Ok? && value >= 0.0 ==> 0.0 <= r.value <= value < r.value + increment
    ensures r.Ok? && value < 0.0 ==> r.value - increment < value <= r.value <= 0.0
    ensures r.Ok? ==> IsMultiple(r.value, increment)
  {
    if increment <= 0.0 then Err(BadIncrement)
    else
      var units := Trunc(value / increment);
      UnitsOrder(value, increment, units);
      UnitsOrder(value, increment, units + 1);
      UnitsOrder(-value, increment, -units);
      UnitsOrder(-value, increment, -units + 1);
      UnitsOrder(0.0, increment, units);
      UnitsOrder(0.0, increment, -units);
      QuotientSign(value, increment);
      Ok(Units(units, increment))
  }

  /** The least multiple of `increment` that is not below `value`. */
  function CeilToIncrement(value: real, increment: real): (r: Result<real>)
    ensures r.Err? <==> increment <= 0.0
    ensures r.Ok? ==> r.value - increment < value <= r.value
    ensures r.Ok? ==> IsMultiple(r.value, increment)
  {
    if increment <= 0.0 then Err(BadIncrement)
    else
      var units := Ceil(value / increment);
      QuotientSign(value, increment);
      UnitsOrder(-value, increment, -units);
      UnitsOrder(-value, increment, -units + 1);
      Ok(Units(units, increment))
  }

  lemma CeilMonotone(a: real, b: real, increment: real)
    requires a <= b && increment > 0.0
    ensures CeilToIncrement(a, increment).value <= CeilToIncrement(b, increment).value
  {
    var i, j := Ceil(a / increment), Ceil(b / increment);
    QuotientSign(a, increment);
    QuotientSign(b, increment);
    UnitsOrder(-a, increment, -j);
    UnitsOrder(-b, increment, -j);
    assert -j <= -i;
    assert Units(j, increment) == Units(i, increment) + Units(j - i, increment);
    UnitsOrder(0.0, increment, i - j);
  }

  lemma Further(x: real, steps: real, unit: real)
    requires unit > 0.0 && steps >= 1.0
    ensures x * unit + unit <= (x + steps) * unit
  {
    ProductGrows(1.0, steps, unit);
    assert (x + steps) * unit == x * unit + steps * unit;
  }

  lemma MultiplesApart(a: real, b: real, unit: real)
    requires unit > 0.0 && IsMultiple(a, unit) && IsMultiple(b, unit) && a < b
    ensures a + unit <= b
  {
    var i: int :| a == Units(i, unit);
    var j: int :| b == Units(j, unit);
    UnitsApart(i, j, unit);
    UnitsApart(j, i, unit);
  }

  lemma UnitsApart(i: int, j: int, unit: real)
    requires unit > 0.0
    ensures i < j ==> Units(i, unit) + unit <= Units(j, unit)
  {
    if i < j {
      Further(i as real, (j - i) as real, unit);
    }
  }

  // ---- text ------------------------------------------------------------------------------

  predicate IsWhitespace(c: char) {
    c in "\t\n\r \U{0b}\U{0c}\U{85}\U{a0}\U{1680}\U{2028}\U{2029}\U{202f}\U{205f}\U{3000}"
    || '\U{2000}' <= c <= '\U{200a}'
  }

  function TrimStart(s: string): string {
    if s != "" && IsWhitespace(s[0]) then TrimStart(s[1..]) else s
  }

  function TrimEnd(s: string): string {
    if s != "" && IsWhitespace(s[|s| - 1]) then TrimEnd(s[..|s| - 1]) else s
  }

  function Trim(s: string): string {
    TrimEnd(TrimStart(s))
  }

  lemma {:induction false} TrimEndClean(s: string)
    ensures var r := TrimEnd(s); r <= s && TrimEnd(r) == r
    decreases |s|
  {
    if s != "" && IsWhitespace(s[|s| - 1]) {
      TrimEndClean(s[..|s| - 1]);
    }
  }

  lemma {:induction false} TrimStartClean(s: string)
    ensures var r := TrimStart(s); r == "" || !IsWhitespace(r[0])
    decreases |s|
  {
    if s != "" && IsWhitespace(s[0]) {
      TrimStartClean(s[1..]);
    }
  }

  /** Trimmed text has nothing left to trim. */
  lemma TrimIdempotent(s: string)
    ensures Trim(Trim(s)) == Trim(s)
  {
    TrimStartClean(s);
    TrimEndClean(TrimStart(s));
    hide IsWhitespace;
    assert Trim(s) != "" ==> Trim(s)[0] == TrimStart(s)[0];
  }

  predicate AllWhitespace(s: string) {
    forall i | 0 <= i < |s| :: IsWhitespace(s[i])
  }

  lemma {:induction false} StartTrimmed(s: string) returns (n: nat)
    ensures n <= |s| && s[n..] == TrimStart(s) && AllWhitespace(s[..n])
    decreases |s|
  {
    hide IsWhitespace;
    n := 0;
    if s != "" && IsWhitespace(s[0]) {
      n := StartTrimmed(s[1..]);
      assert s[1..][n..] == s[n + 1..];
      assert s[..n + 1] == [s[0]] + s[1..][..n];
      n := n + 1;
    }
  }

  lemma {:induction false} EndTrimmed(s: string)
    ensures var r := TrimEnd(s); |r| <= |s| && s[..|r|] == r && AllWhitespace(s[|r|..])
    decreases |s|
  {
    hide IsWhitespace;
    if s != "" && IsWhitespace(s[|s| - 1]) {
      var shorter := s[..|s| - 1];
      EndTrimmed(shorter);
      var r := TrimEnd(s);
      assert s[|r|..] == shorter[|r|..] + [s[|s| - 1]];
    }
  }

  lemma {:induction false} TrimEndEnds(s: string)
    ensures var r := TrimEnd(s); r == "" || !IsWhitespace(r[|r| - 1])
    decreases |s|
  {
    hide IsWhitespace;
    if s != "" && IsWhitespace(s[|s| - 1]) {
      TrimEndEnds(s[..|s| - 1]);
    }
  }

  /** Trimming cuts off white space on both sides and leaves none at either end. */
  lemma TrimIs(s: string) returns (from: nat, until: nat)
    ensures from <= until <= |s| && Trim(s) == s[from..until]
    ensures AllWhitespace(s[..from]) && AllWhitespace(s[until..])
    ensures from < until ==> !IsWhitespace(s[from]) && !IsWhitespace(s[until - 1])
  {
    hide IsWhitespace, TrimStart, TrimEnd, AllWhitespace;
    from := StartTrimmed(s);
    var rest := TrimStart(s);
    var r := TrimEnd(rest);
    EndTrimmed(rest);
    TrimEndEnds(rest);
    TrimStartClean(s);
    until := from + |r|;
    assert s[from..until] == rest[..|r|] && s[until..] == rest[|r|..];
  }

  /** Nothing is left exactly of a text of white space alone. */
  lemma TrimBlank(s: string)
    ensures Trim(s) == "" <==> AllWhitespace(s)
  {
    var from, until := TrimIs(s);
    hide Trim, IsWhitespace;
    if from == until {
      assert s == s[..from] + s[until..];
      forall i | 0 <= i < |s| ensures IsWhitespace(s[i]) {
        assert i < from ==> s[i] == s[..from][i];
        assert i >= until ==> s[i] == s[until..][i - until];
      }
    }
  }

  datatype Side = Buy | Sell {
    /** An amount with the sign of this side: what a fill of that size adds to the position. */
    function Signed(amount: real): real {
      if Buy? then amount else -amount
    }
  }

  // ---- sums ------------------------------------------------------------------------------

  function Sum<T>(f: T -> real, s: seq<T>): real {
    if s == [] then 0.0 else Sum(f, s[..|s| - 1]) + f(s[|s| - 1])
  }

  lemma SumAppend<T>(f: T -> real, s: seq<T>, x: T)
    ensures Sum(f, s + [x]) == Sum(f, s) + f(x)
  {
    assert (s + [x])[..|s|] == s;
  }

  lemma SumShort<T>(f: T -> real, x: T, y: T)
    ensures Sum(f, [x]) == f(x) && Sum(f, [x, y]) == f(x) + f(y)
  {
    assert [x] == [] + [x] && [x, y] == [x] + [y];
    SumAppend(f, [], x);
    SumAppend(f, [x], y);
  }

  lemma {:induction false} SumConcat<T>(f: T -> real, s: seq<T>, t: seq<T>)
    ensures Sum(f, s + t) == Sum(f, s) + Sum(f, t)
    decreases |t|
  {
    if t == [] {
      assert s + t == s;
    } else {
      SumConcat(f, s, t[..|t| - 1]);
      assert (s + t)[..|s + t| - 1] == s + t[..|t| - 1];
    }
  }

  lemma {:induction false} SumUpdate<T>(f: T -> real, s: seq<T>, i: nat, x: T)
    requires i < |s|
    ensures Sum(f, s[i := x]) == Sum(f, s) - f(s[i]) + f(x)
  {
    var n := |s| - 1;
    if i == n {
      assert s[i := x][..n] == s[..n];
    } else {
      SumUpdate(f, s[..n], i, x);
      assert s[i := x][..n] == s[..n][i := x];
    }
  }

  lemma {:induction false} SumPointwise<T>(f: T -> real, s: seq<T>, t: seq<T>)
    requires |s| == |t| && forall i :: 0 <= i < |s| ==> f(s[i]) == f(t[i])
    ensures Sum(f, s) == Sum(f, t)
  {
    if s == [] {
    } else {
      SumPointwise(f, s[..|s| - 1], t[..|t| - 1]);
    }
  }

  lemma {:induction false} SumZero<T>(f: T -> real, s: seq<T>)
    requires forall i :: 0 <= i < |s| ==> f(s[i]) == 0.0
    ensures Sum(f, s) == 0.0
  {
    if s == [] {
    } else {
      SumZero(f, s[..|s| - 1]);
    }
  }

  /** The sum of `f` over the values of a map, in any order of its keys. */
  ghost function MapSum<K, V>(f: V -> real, m: map<K, V>): real
    decreases |m|
  {
    if m == map[] then 0.0
    else
      var k :| k in m;
      f(m[k]) + MapSum(f, m - {k})
  }

  lemma {:induction false} MapSumRemove<K, V>(f: V -> real, m: map<K, V>, k: K)
    requires k in m
    ensures MapSum(f, m) == f(m[k]) + MapSum(f, m - {k})
    decreases |m|
  {
    var j :| j in m && MapSum(f, m) == f(m[j]) + MapSum(f, m - {j});
    if j != k {
      MapSumRemove(f, m - {j}, k);
      MapSumRemove(f, m - {k}, j);
      assert m - {j} - {k} == m - {k} - {j};
    }
  }

  lemma MapSumUpdate<K, V>(f: V -> real, m: map<K, V>, k: K, v: V)
    ensures MapSum(f, m[k := v]) == MapSum(f, m) - (if k in m then f(m[k]) else 0.0) + f(v)
  {
    MapSumRemove(f, m[k := v], k);
    if k in m {
      MapSumRemove(f, m, k);
      assert m[k := v] - {k} == m - {k};
    } else {
      assert m[k := v] - {k} == m;
    }
  }
}
