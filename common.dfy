/** Shared vocabulary of the intersection: the four approach directions, the
    light colours, the two signal phases, a total per-direction table and the
    integer helpers that stand in for Python's `int(a / b)`. */
module Common {

  datatype Option<+T> = None | Some(value: T)

  datatype Direction = North | South | East | West

  /** The directions in the order Python's `Direction` enum iterates them. */
  const AllDirections: seq<Direction> := [North, South, East, West]

  datatype LightState = Red | Yellow | Green

  /** The active axis: north-south or east-west. */
  datatype Phase = NS | EW

  function Flip(p: Phase): (q: Phase)
    ensures q != p
  {
    if p == NS then EW else NS
  }

  function AxisOf(d: Direction): Phase {
    if d == North || d == South then NS else EW
  }

  /** A dictionary keyed by every direction, such as `actual_traffic` or the
      controller's history table: it always holds all four keys. */
  datatype ByDirection<T> = ByDirection(north: T, south: T, east: T, west: T)
  {
    function Get(d: Direction): T {
      match d
      case North => north
      case South => south
      case East => east
      case West => west
    }

    function Set(d: Direction, v: T): (r: ByDirection<T>)
      ensures r.Get(d) == v
      ensures forall e :: e != d ==> r.Get(e) == Get(e)
    {
      match d
      case North => this.(north := v)
      case South => this.(south := v)
      case East => this.(east := v)
      case West => this.(west := v)
    }
  }

  /** Two tables are equal when they agree on every direction. */
  lemma TablesEqual<T>(a: ByDirection<T>, b: ByDirection<T>)
    requires forall d :: a.Get(d) == b.Get(d)
    ensures a == b
  {
    assert a.north == b.Get(North) && a.south == b.Get(South);
    assert a.east == b.Get(East) && a.west == b.Get(West);
  }

  /** `base` with its first `k` directions in enum order taken from `top`:
      the table a loop over the enum that rewrites one direction per turn
      has built after `k` turns. */
  function Overlaid<T>(k: nat, base: ByDirection<T>, top: ByDirection<T>): ByDirection<T>
    requires k <= |AllDirections|
  {
    if k == 0 then base
    else
      var d := AllDirections[k - 1];
      Overlaid(k - 1, base, top).Set(d, top.Get(d))
  }

  /** A direction still holds its `base` entry when its turn comes, and after
      all four turns the table is `top`. */
  lemma OverlaidInOrder<T>(base: ByDirection<T>, top: ByDirection<T>)
    ensures forall k :: 0 <= k < |AllDirections| ==>
      Overlaid(k, base, top).Get(AllDirections[k]) == base.Get(AllDirections[k])
    ensures Overlaid(|AllDirections|, base, top) == top
  {
    var t1 := base.(north := top.north);
    var t2 := t1.(south := top.south);
    var t3 := t2.(east := top.east);
    assert Overlaid(1, base, top) == t1;
    assert Overlaid(2, base, top) == t2;
    assert Overlaid(3, base, top) == t3;
    assert Overlaid(4, base, top) == top;
  }

  function Uniform<T>(v: T): (r: ByDirection<T>)
    ensures forall d :: r.Get(d) == v
  {
    ByDirection(v, v, v, v)
  }

  /** Where `d` comes in the enum's iteration order. */
  function DirectionIndex(d: Direction): (k: nat)
    ensures k < |AllDirections| && AllDirections[k] == d
  {
    match d
    case North => 0
    case South => 1
    case East => 2
    case West => 3
  }

  /** `DirectionIndex` undoes indexing into the enum order. */
  lemma DirectionIndexOf(k: nat)
    requires k < |AllDirections|
    ensures DirectionIndex(AllDirections[k]) == k
  {
  }

  function Abs(x: int): nat {
    if x < 0 then -x else x
  }

  /** Python's `int(a / b)`: the quotient truncated toward zero. Its
      magnitude is the floor of |a| / |b| and its sign is that of a / b. */
  function TruncDiv(a: int, b: int): (q: int)
    requires b != 0
    ensures Abs(q) == Abs(a) / Abs(b)
    ensures q > 0 ==> (a > 0) == (b > 0)
    ensures q < 0 ==> (a > 0) != (b > 0)
  {
    var m: int := NatDiv(Abs(a), Abs(b));
    if (a >= 0) == (b > 0) || m == 0 then m else -m
  }

  /** Division of naturals, with the facts about it that the solver does not
      find on its own. */
  function NatDiv(a: nat, b: nat): (q: nat)
    requires b > 0
    ensures q == a / b
    ensures q * b <= a < q * b + b
    ensures q > 0 ==> a > 0
  {
    assert a == b * (a / b) + a % b;
    a / b
  }

  lemma {:induction false} MulMono(x: int, y: int, n: nat)
    requires x <= y
    ensures x * n <= y * n
  {
    if n > 0 {
      MulMono(x, y, n - 1);
      assert x * n == x * (n - 1) + x;
      assert y * n == y * (n - 1) + y;
    }
  }

  /** Python's `int(x)` on a real number: truncation toward zero. */
  function Trunc(x: real): (n: int)
    ensures x >= 0.0 ==> n as real <= x < n as real + 1.0
    ensures x < 0.0 ==> n as real - 1.0 < x <= n as real
  {
    if x >= 0.0 then x.Floor else -((-x).Floor)
  }

  function Sum(xs: seq<int>): int {
    if xs == [] then 0 else Sum(xs[..|xs| - 1]) + xs[|xs| - 1]
  }

  /** `int(sum(xs) / len(xs))`, used for every mean the controller takes. */
  function TruncMean(xs: seq<int>): int
    requires xs != []
  {
    TruncDiv(Sum(xs), |xs|)
  }

  lemma {:induction false} SumAtMost(xs: seq<int>, hi: int)
    requires forall i :: 0 <= i < |xs| ==> xs[i] <= hi
    ensures Sum(xs) <= hi * |xs|
  {
    if xs != [] {
      SumAtMost(xs[..|xs| - 1], hi);
    }
  }

  lemma {:induction false} SumAtLeast(xs: seq<int>, lo: int)
    requires forall i :: 0 <= i < |xs| ==> lo <= xs[i]
    ensures lo * |xs| <= Sum(xs)
  {
    if xs != [] {
      SumAtLeast(xs[..|xs| - 1], lo);
    }
  }

  lemma {:induction false} SumConstant(xs: seq<int>, c: int)
    requires forall i :: 0 <= i < |xs| ==> xs[i] == c
    ensures Sum(xs) == c * |xs|
  {
    if xs != [] {
      SumConstant(xs[..|xs| - 1], c);
    }
  }

  /** On naturals the truncated quotient is the plain one. */
  lemma TruncDivOfNat(a: nat, n: nat)
    requires n > 0
    ensures TruncDiv(a, n) == NatDiv(a, n)
  {
  }

  /** The quotient of naturals reaches every integer bound the exact quotient reaches. */
  lemma NatDivAtLeast(a: nat, n: nat, lo: int)
    requires n > 0 && lo * n <= a
    ensures lo <= NatDiv(a, n)
  {
    var q := NatDiv(a, n);
    if q < lo {
      assert (q + 1) * n == q * n + n;
      MulMono(q + 1, lo, n);
    }
  }

  /** The quotient of naturals stays below every strict bound on the exact one. */
  lemma NatDivBelow(a: nat, n: nat, hi: int)
    requires n > 0 && a < hi * n
    ensures NatDiv(a, n) < hi
  {
    var q := NatDiv(a, n);
    if q >= hi {
      MulMono(hi, q, n);
    }
  }

  /** A truncated quotient stays below any integer bound on the exact one. */
  lemma TruncDivAtMost(s: int, n: int, hi: int)
    requires n > 0 && s <= hi * n
    ensures TruncDiv(s, n) <= hi
  {
    if s >= 0 {
      assert TruncDiv(s, n) == NatDiv(s, n);
      NatDivBelow(s, n, hi + 1);
    } else {
      var m: nat := -s;
      assert TruncDiv(s, n) == -(NatDiv(m, n) as int);
      assert (-hi) * n == -(hi * n);
      NatDivAtLeast(m, n, -hi);
    }
  }

  /** A truncated quotient stays above any integer bound on the exact one. */
  lemma TruncDivAtLeast(s: int, n: int, lo: int)
    requires n > 0 && lo * n <= s
    ensures lo <= TruncDiv(s, n)
  {
    if s >= 0 {
      assert TruncDiv(s, n) == NatDiv(s, n);
      NatDivAtLeast(s, n, lo);
    } else {
      var m: nat := -s;
      assert TruncDiv(s, n) == -(NatDiv(m, n) as int);
      assert (-lo + 1) * n == -(lo * n) + n;
      NatDivBelow(m, n, -lo + 1);
    }
  }

  /** The truncated mean never exceeds an integer bound of its inputs. */
  lemma TruncMeanAtMost(xs: seq<int>, hi: int)
    requires xs != []
    requires forall i :: 0 <= i < |xs| ==> xs[i] <= hi
    ensures TruncMean(xs) <= hi
  {
    SumAtMost(xs, hi);
    TruncDivAtMost(Sum(xs), |xs|, hi);
  }

  /** The truncated mean is never below an integer bound of its inputs. */
  lemma TruncMeanAtLeast(xs: seq<int>, lo: int)
    requires xs != []
    requires forall i :: 0 <= i < |xs| ==> lo <= xs[i]
    ensures lo <= TruncMean(xs)
  {
    SumAtLeast(xs, lo);
    TruncDivAtLeast(Sum(xs), |xs|, lo);
  }

  /** `v` lies between the smallest and the largest of `xs`. */
  ghost predicate InRange(xs: seq<int>, v: int) {
    (exists i :: 0 <= i < |xs| && xs[i] <= v) && (exists j :: 0 <= j < |xs| && v <= xs[j])
  }

  /** The truncated mean lies between the smallest and the largest input. */
  lemma TruncMeanWithin(xs: seq<int>)
    requires xs != []
    ensures InRange(xs, TruncMean(xs))
  {
    var m := TruncMean(xs);
    if forall i :: 0 <= i < |xs| ==> m + 1 <= xs[i] {
      TruncMeanAtLeast(xs, m + 1);
    }
    if forall j :: 0 <= j < |xs| ==> xs[j] <= m - 1 {
      TruncMeanAtMost(xs, m - 1);
    }
  }

  /** The mean of a constant sequence is that constant, truncation or not. */
  lemma TruncMeanConstant(xs: seq<int>, c: int)
    requires xs != []
    requires forall i :: 0 <= i < |xs| ==> xs[i] == c
    ensures TruncMean(xs) == c
  {
    TruncMeanAtMost(xs, c);
    TruncMeanAtLeast(xs, c);
  }

  function Min(a: int, b: int): int {
    if a < b then a else b
  }

  function Max(a: int, b: int): int {
    if a < b then b else a
  }
}
