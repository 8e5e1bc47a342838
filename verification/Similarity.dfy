/**
 Vectors for recommendation: cosine similarity and normalisation
 (backend/internal/domain/embedding/hash_ngram.go) and the interest vector of a user
 (backend/internal/infra/persistence/recommendation/gorm.go). Numbers are exact reals.
 */
module Similarity {
  import opened Options

  type Vector = seq<real>

  // ---------------------------------------------------------------------------------------------
  // Inner products
  // ---------------------------------------------------------------------------------------------

  function Times(x: real, y: real): real {
    x * y
  }

  function DotUpTo(a: Vector, b: Vector, n: nat): real
    requires n <= |a| == |b|
  {
    if n == 0 then 0.0 else DotUpTo(a, b, n - 1) + Times(a[n - 1], b[n - 1])
  }

  function Dot(a: Vector, b: Vector): real
    requires |a| == |b|
  {
    DotUpTo(a, b, |a|)
  }

  function NormSquared(a: Vector): real {
    Dot(a, a)
  }

  lemma SquareIsNotNegative(x: real)
    ensures x * x >= 0.0
  {
  }

  lemma {:induction false} SquaresSum(a: Vector, n: nat)
    requires n <= |a|
    ensures DotUpTo(a, a, n) >= 0.0
  {
    if n != 0 {
      SquaresSum(a, n - 1);
      SquareIsNotNegative(a[n - 1]);
    }
  }

  lemma PositiveProduct(x: real, y: real)
    requires x > 0.0 && y > 0.0
    ensures x * y > 0.0 && Times(x, y) > 0.0
  {
  }

  lemma NegativeProduct(x: real, y: real)
    requires x < 0.0 && y < 0.0
    ensures Times(x, y) > 0.0
  {
  }

  lemma PositiveSquare(x: real)
    requires x != 0.0
    ensures Times(x, x) > 0.0
  {
    hide Times;
    if x > 0.0 {
      PositiveProduct(x, x);
    } else {
      NegativeProduct(x, x);
    }
  }

  lemma ZeroTimes(y: real)
    ensures Times(0.0, y) == 0.0
  {
  }

  lemma ZeroSquare(x: real, p: real, q: real)
    requires p == 0.0 && Times(x, x) <= Times(p, q)
    ensures x == 0.0
  {
    hide Times;
    ZeroTimes(q);
    if x != 0.0 {
      PositiveSquare(x);
    }
  }

  lemma SameProduct(x: real, y: real, u: real, v: real)
    requires x == u && y == v
    ensures x * y == u * v
  {
  }

  lemma Cancel(p: real, g: real)
    requires p > 0.0 && p * g >= 0.0
    ensures g >= 0.0
  {
    if g < 0.0 {
      PositiveProduct(p, -g);
    }
  }

  lemma NotNegativeProduct(x: real, y: real)
    requires x >= 0.0 && y >= 0.0
    ensures x * y >= 0.0
  {
  }

  /** What one more coordinate adds to d * d is at most what it adds to p * q. */
  lemma CrossTerm(d: real, p: real, q: real, x: real, y: real)
    requires p >= 0.0 && q >= 0.0 && Times(d, d) <= Times(p, q)
    ensures 2.0 * d * x * y <= p * (y * y) + q * (x * x)
  {
    SquareIsNotNegative(x);
    if p == 0.0 {
      ZeroSquare(d, p, q);
      NotNegativeProduct(q, x * x);
    } else {
      var g := p * (y * y) + q * (x * x) - 2.0 * d * x * y;
      var square := (p * y - d * x) * (p * y - d * x);
      SquareIsNotNegative(p * y - d * x);
      NotNegativeProduct(p * q - d * d, x * x);
      assert p * g == square + (p * q - d * d) * (x * x);
      Cancel(p, g);
    }
  }

  predicate CauchySchwarzHolds(d: real, p: real, q: real) {
    p >= 0.0 && q >= 0.0 && Times(d, d) <= Times(p, q)
  }

  lemma OneMoreCoordinate(d: real, p: real, q: real, x: real, y: real)
    requires CauchySchwarzHolds(d, p, q)
    ensures CauchySchwarzHolds(d + Times(x, y), p + Times(x, x), q + Times(y, y))
  {
    SquareIsNotNegative(x);
    SquareIsNotNegative(y);
    CrossTerm(d, p, q, x, y);
    assert (d + x * y) * (d + x * y) == d * d + 2.0 * d * x * y + x * x * (y * y);
    assert (p + x * x) * (q + y * y) == p * q + (p * (y * y) + q * (x * x)) + x * x * (y * y);
  }

  lemma {:induction false} CauchySchwarzUpTo(a: Vector, b: Vector, n: nat)
    requires n <= |a| == |b|
    ensures CauchySchwarzHolds(DotUpTo(a, b, n), DotUpTo(a, a, n), DotUpTo(b, b, n))
  {
    if n != 0 {
      hide CauchySchwarzHolds, Times;
      CauchySchwarzUpTo(a, b, n - 1);
      OneMoreCoordinate(DotUpTo(a, b, n - 1), DotUpTo(a, a, n - 1), DotUpTo(b, b, n - 1), a[n - 1], b[n - 1]);
    }
  }

  /** The square of the dot product is at most the product of the squared norms. */
  lemma CauchySchwarz(a: Vector, b: Vector)
    requires |a| == |b|
    ensures Dot(a, b) * Dot(a, b) <= NormSquared(a) * NormSquared(b)
  {
    CauchySchwarzUpTo(a, b, |a|);
  }

  // ---------------------------------------------------------------------------------------------
  // Cosine similarity
  // ---------------------------------------------------------------------------------------------

  /** The square root function, exact on numbers that are not negative. */
  ghost predicate IsSqrt(sqrt: real -> real) {
    forall x: real :: x >= 0.0 ==> sqrt(x) >= 0.0 && sqrt(x) * sqrt(x) == x
  }

  lemma RootIsPositive(sqrt: real -> real, x: real)
    requires IsSqrt(sqrt) && x > 0.0
    ensures sqrt(x) > 0.0
  {
    assert sqrt(x) * sqrt(x) == x;
  }

  lemma RootProduct(sqrt: real -> real, p: real, q: real)
    requires IsSqrt(sqrt) && p > 0.0 && q > 0.0
    ensures sqrt(p) * sqrt(q) > 0.0
    ensures (sqrt(p) * sqrt(q)) * (sqrt(p) * sqrt(q)) == p * q
  {
    RootIsPositive(sqrt, p);
    RootIsPositive(sqrt, q);
    PositiveProduct(sqrt(p), sqrt(q));
    var u, v := sqrt(p), sqrt(q);
    assert (u * v) * (u * v) == (u * u) * (v * v);
  }

  /** The mathematical definition; zero when one of the vectors is zero. */
  ghost function Cosine(a: Vector, b: Vector, sqrt: real -> real): real
    requires |a| == |b| && IsSqrt(sqrt)
  {
    if NormSquared(a) <= 0.0 || NormSquared(b) <= 0.0 then 0.0
    else
      RootProduct(sqrt, NormSquared(a), NormSquared(b));
      Ratio(Dot(a, b), sqrt(NormSquared(a)), sqrt(NormSquared(b)))
  }

  function Ratio(d: real, u: real, v: real): real
    requires u * v > 0.0
  {
    d / (u * v)
  }

  /** None stands for vectors of different dimensions. */
  method CosineSimilarity(left: Vector, right: Vector, sqrt: real -> real) returns (r: Option<real>)
    requires IsSqrt(sqrt)
    ensures r.None? <==> |left| != |right|
    ensures r.Some? ==> r.value == Cosine(left, right, sqrt)
    ensures r.Some? ==> -1.0 <= r.value <= 1.0
  {
    if |left| != |right| {
      return None;
    }
    var dot, leftNorm, rightNorm := 0.0, 0.0, 0.0;
    for i := 0 to |left|
      invariant dot == DotUpTo(left, right, i)
      invariant leftNorm == DotUpTo(left, left, i) && rightNorm == DotUpTo(right, right, i)
    {
      dot := dot + left[i] * right[i];
      leftNorm := leftNorm + left[i] * left[i];
      rightNorm := rightNorm + right[i] * right[i];
    }
    SquaresSum(left, |left|);
    SquaresSum(right, |right|);
    if leftNorm == 0.0 || rightNorm == 0.0 {
      return Some(0.0);
    }
    RootProduct(sqrt, leftNorm, rightNorm);
    CosineIsBounded(left, right, sqrt);
    r := Some(Ratio(dot, sqrt(leftNorm), sqrt(rightNorm)));
  }

  lemma SquareDifference(d: real, m: real)
    ensures (d - m) * (d + m) == d * d - m * m
    ensures (-d - m) * (m - d) == d * d - m * m
  {
  }

  lemma QuotientBounds(d: real, m: real)
    requires m > 0.0 && d * d <= m * m
    ensures -1.0 <= d / m <= 1.0
  {
    SquareDifference(d, m);
    if d > m {
      PositiveProduct(d - m, d + m);
    } else if d < -m {
      PositiveProduct(-d - m, m - d);
    }
    var q := d / m;
    assert q * m == d;
    if q > 1.0 {
      PositiveProduct(q - 1.0, m);
    } else if q < -1.0 {
      PositiveProduct(-1.0 - q, m);
    }
  }

  lemma CosineIsBounded(a: Vector, b: Vector, sqrt: real -> real)
    requires |a| == |b| && IsSqrt(sqrt)
    ensures -1.0 <= Cosine(a, b, sqrt) <= 1.0
  {
    if NormSquared(a) > 0.0 && NormSquared(b) > 0.0 {
      CauchySchwarz(a, b);
      RootProduct(sqrt, NormSquared(a), NormSquared(b));
      QuotientBounds(Dot(a, b), sqrt(NormSquared(a)) * sqrt(NormSquared(b)));
    }
  }

  // ---------------------------------------------------------------------------------------------
  // Normalisation
  // ---------------------------------------------------------------------------------------------

  function Scaled(a: Vector, c: real): (r: Vector)
    ensures |r| == |a|
  {
    seq(|a|, i requires 0 <= i < |a| => c * a[i])
  }

  predicate IsMultiple(r: real, c: real, e: real, d: real) {
    r == c * e * d
  }

  lemma ScaledTerm(r: real, c: real, e: real, d: real, x: real, y: real, x': real, y': real)
    requires IsMultiple(r, c, e, d) && x' == c * x && y' == e * y
    ensures IsMultiple(r + Times(x', y'), c, e, d + Times(x, y))
  {
    SameProduct(x', y', c * x, e * y);
    assert (c * x) * (e * y) == c * e * (x * y);
    assert c * e * (d + x * y) == c * e * d + c * e * (x * y);
  }

  lemma {:induction false} ScaledDotUpTo(a: Vector, b: Vector, c: real, e: real, n: nat)
    requires n <= |a| == |b|
    ensures IsMultiple(DotUpTo(Scaled(a, c), Scaled(b, e), n), c, e, DotUpTo(a, b, n))
  {
    if n != 0 {
      hide IsMultiple, Times;
      ScaledDotUpTo(a, b, c, e, n - 1);
      ScaledTerm(DotUpTo(Scaled(a, c), Scaled(b, e), n - 1), c, e, DotUpTo(a, b, n - 1), a[n - 1], b[n - 1],
                 Scaled(a, c)[n - 1], Scaled(b, e)[n - 1]);
    } else {
      assert c * e * 0.0 == 0.0;
    }
  }

  /** A vector divided by its norm, or itself when it is zero. */
  ghost function Normalized(a: Vector, sqrt: real -> real): Vector
    requires IsSqrt(sqrt)
  {
    if NormSquared(a) <= 0.0 then a
    else
      RootIsPositive(sqrt, NormSquared(a));
      Scaled(a, 1.0 / sqrt(NormSquared(a)))
  }

  lemma QuotientIsProduct(x: real, norm: real)
    requires norm > 0.0
    ensures x / norm == 1.0 / norm * x
  {
  }

  method SumOfSquares(vector: array<real>) returns (sum: real)
    ensures sum == NormSquared(vector[..])
  {
    ghost var a := vector[..];
    sum := 0.0;
    for i := 0 to vector.Length
      invariant sum == DotUpTo(a, a, i)
    {
      sum := sum + vector[i] * vector[i];
      SameProduct(vector[i], vector[i], a[i], a[i]);
    }
  }

  method NormalizeVector(vector: array<real>, sqrt: real -> real)
    requires IsSqrt(sqrt)
    modifies vector
    ensures vector[..] == Normalized(old(vector[..]), sqrt)
  {
    hide DotUpTo;
    ghost var a := vector[..];
    var sum := SumOfSquares(vector);
    SquaresSum(a, |a|);
    if sum == 0.0 {
      return;
    }
    var norm := sqrt(sum);
    RootIsPositive(sqrt, sum);
    for i := 0 to vector.Length
      invariant forall k | 0 <= k < i :: vector[k] == Scaled(a, 1.0 / norm)[k]
      invariant forall k | i <= k < vector.Length :: vector[k] == a[k]
    {
      QuotientIsProduct(a[i], norm);
      vector[i] := vector[i] / norm;
    }
  }

  /** A vector that is not zero gets norm one. */
  lemma NormalizedHasNormOne(a: Vector, sqrt: real -> real)
    requires IsSqrt(sqrt) && NormSquared(a) > 0.0
    ensures NormSquared(Normalized(a, sqrt)) == 1.0
  {
    var p := NormSquared(a);
    RootIsPositive(sqrt, p);
    var c := 1.0 / sqrt(p);
    ScaledDotUpTo(a, a, c, c, |a|);
    assert c * sqrt(p) == 1.0;
    assert c * c * p == (c * sqrt(p)) * (c * sqrt(p));
  }

  /** After normalising, the plain dot product is the cosine similarity. */
  lemma NormalizedDotIsCosine(a: Vector, b: Vector, sqrt: real -> real)
    requires |a| == |b| && IsSqrt(sqrt) && NormSquared(a) > 0.0 && NormSquared(b) > 0.0
    ensures |Normalized(a, sqrt)| == |Normalized(b, sqrt)|
    ensures Dot(Normalized(a, sqrt), Normalized(b, sqrt)) == Cosine(a, b, sqrt)
  {
    hide IsMultiple, Times;
    var u, v := sqrt(NormSquared(a)), sqrt(NormSquared(b));
    RootProduct(sqrt, NormSquared(a), NormSquared(b));
    RootIsPositive(sqrt, NormSquared(a));
    RootIsPositive(sqrt, NormSquared(b));
    ScaledDotUpTo(a, b, 1.0 / u, 1.0 / v, |a|);
    ProductOfReciprocals(Dot(Scaled(a, 1.0 / u), Scaled(b, 1.0 / v)), u, v, Dot(a, b));
    assert Normalized(a, sqrt) == Scaled(a, 1.0 / u) && Normalized(b, sqrt) == Scaled(b, 1.0 / v);
  }

  lemma ProductOfReciprocals(r: real, u: real, v: real, d: real)
    requires u > 0.0 && v > 0.0 && u * v > 0.0 && IsMultiple(r, 1.0 / u, 1.0 / v, d)
    ensures r == Ratio(d, u, v)
  {
    var s, t := 1.0 / u, 1.0 / v;
    assert s * u == 1.0 && t * v == 1.0;
    assert (s * t * d) * (u * v) == (s * u) * (t * v) * d;
  }

  // ---------------------------------------------------------------------------------------------
  // The interest vector
  // ---------------------------------------------------------------------------------------------

  datatype EventType = Play | Complete | Other

  /** An event joined with its video's stored vector; None when it cannot be decoded. */
  datatype Row = Row(vector: Option<Vector>, kind: EventType, watchMs: int, completed: bool)

  function EventWeight(kind: EventType, watchMs: int, completed: bool): real {
    match kind
    case Complete => 3.0
    case Play =>
      var weight := 1.0 + watchMs as real / 30000.0;
      var capped := if weight > 2.0 then 2.0 else weight;
      if completed then capped + 1.0 else capped
    case Other => 1.0
  }

  /** A weight lies between one and three exactly when the watched time is not (too far) below zero. */
  lemma WeightBounds(kind: EventType, watchMs: int, completed: bool)
    ensures 1.0 <= EventWeight(kind, watchMs, completed) <= 3.0 <==>
            kind != Play || watchMs >= 0 || (completed && watchMs >= -30000)
  {
    var q := watchMs as real / 30000.0;
    assert q * 30000.0 == watchMs as real;
  }

  /** A completion weighs three, more than any play that is not completed and no less than any that is. */
  lemma CompletionWeighsMost(watchMs: int, completed: bool, other: int, flag: bool)
    ensures EventWeight(Complete, other, flag) == 3.0
    ensures EventWeight(Play, watchMs, completed) <= EventWeight(Complete, other, flag)
    ensures EventWeight(Play, watchMs, completed) == EventWeight(Complete, other, flag) <==>
            completed && watchMs >= 30000
    ensures EventWeight(Other, other, flag) == 1.0
  {
    var q := watchMs as real / 30000.0;
    assert q * 30000.0 == watchMs as real;
  }

  /** The weight of a play grows with the time watched, up to 30 seconds, by one in all; completing adds one. */
  lemma PlaysGrow(watchMs: int, longer: int, completed: bool)
    requires watchMs <= longer
    ensures EventWeight(Play, watchMs, completed) <= EventWeight(Play, longer, completed)
    ensures EventWeight(Play, watchMs, completed) < EventWeight(Play, longer, completed) <==>
            watchMs < longer && watchMs < 30000
    ensures EventWeight(Play, 0, false) == 1.0 && EventWeight(Play, 15000, false) == 1.5
    ensures EventWeight(Play, 30000, false) == 2.0
    ensures EventWeight(Play, watchMs, true) == EventWeight(Play, watchMs, false) + 1.0
  {
    var q, r := watchMs as real / 30000.0, longer as real / 30000.0;
    assert q * 30000.0 == watchMs as real && r * 30000.0 == longer as real;
  }

  /** The weighted sum so far and the weight in it; no sum until the first vector arrives. */
  datatype Total = Total(sum: Vector, weight: real)

  function Zeros(n: nat): (r: Vector)
    ensures |r| == n
  {
    seq(n, _ => 0.0)
  }

  function Plus(a: Vector, b: Vector, w: real): (r: Vector)
    requires |a| == |b|
    ensures |r| == |a|
  {
    seq(|a|, i requires 0 <= i < |a| => a[i] + b[i] * w)
  }

  function Added(t: Total, row: Row): Total {
    if row.vector.None? || row.vector.value == [] then t
    else
      var v := row.vector.value;
      var sum := if t.sum == [] then Zeros(|v|) else t.sum;
      if |v| != |sum| then t
      else
        var w := EventWeight(row.kind, row.watchMs, row.completed);
        Total(Plus(sum, v, w), t.weight + w)
  }

  function AddedAll(t: Total, rows: seq<Row>): Total
    decreases |rows|
  {
    if rows == [] then t else AddedAll(Added(t, rows[0]), rows[1..])
  }

  function Mean(t: Total): Vector
    requires t.weight != 0.0
  {
    seq(|t.sum|, i requires 0 <= i < |t.sum| => t.sum[i] / t.weight)
  }

  lemma {:induction false} AddedAllAppend(t: Total, rows: seq<Row>, row: Row)
    ensures AddedAll(t, rows + [row]) == Added(AddedAll(t, rows), row)
    decreases |rows|
  {
    hide Added;
    if rows == [] {
      assert AddedAll(Added(t, row), []) == Added(t, row);
    } else {
      assert (rows + [row])[1..] == rows[1..] + [row];
      AddedAllAppend(Added(t, rows[0]), rows[1..], row);
    }
  }

  const NOTHING := Total([], 0.0)

  /** None when there is no usable vector or no weight. */
  method LoadUserInterestVector(rows: seq<Row>) returns (interest: Option<Vector>)
    ensures var t := AddedAll(NOTHING, rows);
            interest == if t.sum == [] || t.weight == 0.0 then None else Some(Mean(t))
  {
    var sum := new real[0];
    var totalWeight := 0.0;
    for k := 0 to |rows|
      invariant fresh(sum) && Total(sum[..], totalWeight) == AddedAll(NOTHING, rows[..k])
    {
      AddedAllAppend(NOTHING, rows[..k], rows[k]);
      assert rows[..k + 1] == rows[..k] + [rows[k]];
      var row := rows[k];
      if row.vector.Some? && |row.vector.value| != 0 {
        var v := row.vector.value;
        ghost var before := Total(sum[..], totalWeight);
        if sum.Length == 0 {
          sum := new real[|v|](_ => 0.0);
          assert sum[..] == Zeros(|v|);
        }
        if |v| == sum.Length {
          var weight := EventWeight(row.kind, row.watchMs, row.completed);
          AddScaled(sum, v, weight);
          totalWeight := totalWeight + weight;
        }
        assert Total(sum[..], totalWeight) == Added(before, row);
      }
    }
    assert rows[..|rows|] == rows;
    if sum.Length == 0 || totalWeight == 0.0 {
      return None;
    }
    ghost var t := Total(sum[..], totalWeight);
    for i := 0 to sum.Length
      invariant forall k | 0 <= k < i :: sum[k] == Mean(t)[k]
      invariant forall k | i <= k < sum.Length :: sum[k] == t.sum[k]
    {
      sum[i] := sum[i] / totalWeight;
    }
    assert sum[..] == Mean(t);
    interest := Some(sum[..]);
  }

  method AddScaled(sum: array<real>, v: Vector, weight: real)
    requires sum.Length == |v|
    modifies sum
    ensures sum[..] == Plus(old(sum[..]), v, weight)
  {
    ghost var before := sum[..];
    for i := 0 to |v|
      invariant forall k | 0 <= k < i :: sum[k] == Plus(before, v, weight)[k]
      invariant forall k | i <= k < |v| :: sum[k] == before[k]
    {
      sum[i] := sum[i] + v[i] * weight;
    }
  }

  // ---------------------------------------------------------------------------------------------
  // The interest vector is the weighted mean
  // ---------------------------------------------------------------------------------------------

  predicate HasVector(row: Row) {
    row.vector.Some? && row.vector.value != []
  }

  /** The rows whose vectors count: those of the given dimension. */
  predicate Counts(row: Row, dimension: nat) {
    row.vector.Some? && |row.vector.value| == dimension
  }

  function Weight(row: Row): real {
    EventWeight(row.kind, row.watchMs, row.completed)
  }

  function WeightedSum(rows: seq<Row>, dimension: nat, i: nat): real
    requires i < dimension
  {
    if rows == [] then 0.0
    else WeightedSum(rows[..|rows| - 1], dimension, i) +
         if Counts(rows[|rows| - 1], dimension) then rows[|rows| - 1].vector.value[i] * Weight(rows[|rows| - 1])
         else 0.0
  }

  function WeightSum(rows: seq<Row>, dimension: nat): real {
    if rows == [] then 0.0
    else WeightSum(rows[..|rows| - 1], dimension) +
         if Counts(rows[|rows| - 1], dimension) then Weight(rows[|rows| - 1]) else 0.0
  }

  /** The dimension is that of the first vector that is not empty; zero when there is none. */
  function Dimension(rows: seq<Row>): nat {
    if rows == [] then 0 else if HasVector(rows[0]) then |rows[0].vector.value| else Dimension(rows[1..])
  }

  lemma {:induction false} DimensionAppend(rows: seq<Row>, row: Row)
    ensures Dimension(rows + [row]) ==
            if Dimension(rows) > 0 then Dimension(rows) else if HasVector(row) then |row.vector.value| else 0
  {
    if rows != [] {
      assert (rows + [row])[1..] == rows[1..] + [row];
      DimensionAppend(rows[1..], row);
    }
  }

  lemma {:induction false} NothingCounts(rows: seq<Row>, dimension: nat, i: nat)
    requires Dimension(rows) == 0 && i < dimension
    ensures WeightedSum(rows, dimension, i) == 0.0 && WeightSum(rows, dimension) == 0.0
  {
    if rows != [] {
      var front := rows[..|rows| - 1];
      assert rows == front + [rows[|rows| - 1]];
      DimensionAppend(front, rows[|rows| - 1]);
      NothingCounts(front, dimension, i);
    }
  }

  /** The total holds the weighted sum, coordinate by coordinate, of the vectors of the first one's dimension. */
  lemma {:induction false} TotalIsWeightedSum(rows: seq<Row>)
    ensures var t := AddedAll(NOTHING, rows);
            && |t.sum| == Dimension(rows)
            && t.weight == (if Dimension(rows) == 0 then 0.0 else WeightSum(rows, Dimension(rows)))
            && forall i | 0 <= i < |t.sum| :: t.sum[i] == WeightedSum(rows, Dimension(rows), i)
  {
    if rows != [] {
      var front, row := rows[..|rows| - 1], rows[|rows| - 1];
      assert rows == front + [row];
      TotalIsWeightedSum(front);
      AddedAllAppend(NOTHING, front, row);
      DimensionAppend(front, row);
      var d := Dimension(rows);
      if Dimension(front) == 0 && d > 0 {
        forall i | 0 <= i < d ensures WeightedSum(front, d, i) == 0.0 && WeightSum(front, d) == 0.0 {
          NothingCounts(front, d, i);
        }
        assert WeightSum(front, d) == 0.0 by { NothingCounts(front, d, 0); }
      }
    }
  }

  /** Each coordinate of an interest vector, times the whole weight, is the weighted sum of that coordinate. */
  lemma InterestIsWeightedMean(rows: seq<Row>, i: nat)
    requires AddedAll(NOTHING, rows).weight != 0.0 && i < Dimension(rows)
    ensures var mean := Mean(AddedAll(NOTHING, rows));
            |mean| == Dimension(rows) &&
            mean[i] * WeightSum(rows, Dimension(rows)) == WeightedSum(rows, Dimension(rows), i)
  {
    hide WeightSum, WeightedSum, Dimension, AddedAll;
    TotalIsWeightedSum(rows);
    var t := AddedAll(NOTHING, rows);
    QuotientTimes(t.sum[i], t.weight, Mean(t)[i]);
  }

  lemma QuotientTimes(x: real, w: real, q: real)
    requires w != 0.0 && q == x / w
    ensures q * w == x
  {
  }

  // ---------------------------------------------------------------------------------------------
  // The interest vector is never longer than one
  // ---------------------------------------------------------------------------------------------

  predicate IsSquareOfSum(r: real, p: real, d: real, q: real, w: real) {
    r == p + 2.0 * w * d + w * w * q
  }

  lemma SquareOfSumTerm(r: real, p: real, d: real, q: real, w: real, x: real, y: real, z: real)
    requires IsSquareOfSum(r, p, d, q, w) && z == x + y * w
    ensures IsSquareOfSum(r + Times(z, z), p + Times(x, x), d + Times(x, y), q + Times(y, y), w)
  {
    SameProduct(z, z, x + y * w, x + y * w);
    assert (x + y * w) * (x + y * w) == x * x + 2.0 * w * (x * y) + w * w * (y * y);
    assert 2.0 * w * (d + x * y) == 2.0 * w * d + 2.0 * w * (x * y);
    assert w * w * (q + y * y) == w * w * q + w * w * (y * y);
  }

  lemma {:induction false} PlusNormUpTo(a: Vector, b: Vector, w: real, n: nat)
    requires n <= |a| == |b|
    ensures IsSquareOfSum(DotUpTo(Plus(a, b, w), Plus(a, b, w), n), DotUpTo(a, a, n), DotUpTo(a, b, n),
                          DotUpTo(b, b, n), w)
  {
    if n != 0 {
      hide IsSquareOfSum, Times;
      PlusNormUpTo(a, b, w, n - 1);
      SquareOfSumTerm(DotUpTo(Plus(a, b, w), Plus(a, b, w), n - 1), DotUpTo(a, a, n - 1), DotUpTo(a, b, n - 1),
                      DotUpTo(b, b, n - 1), w, a[n - 1], b[n - 1], Plus(a, b, w)[n - 1]);
    } else {
      assert 2.0 * w * 0.0 == 0.0 && w * w * 0.0 == 0.0;
    }
  }

  lemma Ordered(x: real, y: real, c: real)
    requires x <= y && c >= 0.0
    ensures Times(c, x) <= Times(c, y)
  {
    NotNegativeProduct(c, y - x);
    assert c * (y - x) == c * y - c * x;
  }

  lemma RootOrder(d: real, w: real)
    requires w >= 0.0 && Times(d, d) <= Times(w, w)
    ensures d <= w
  {
    if d > w {
      PositiveProduct(d - w, d + w);
      SquareDifference(d, w);
    }
  }

  predicate WithinWeight(p: real, weight: real) {
    weight >= 0.0 && p <= Times(weight, weight)
  }

  /** Adding a vector of norm at most one, w times, lengthens the sum by at most w. */
  lemma TriangleStep(r: real, p: real, d: real, q: real, weight: real, w: real)
    requires WithinWeight(p, weight) && CauchySchwarzHolds(d, p, q) && q <= 1.0 && w >= 0.0
    requires IsSquareOfSum(r, p, d, q, w)
    ensures WithinWeight(r, weight + w)
  {
    assert Times(p, q) <= p by {
      Ordered(q, 1.0, p);
    }
    RootOrder(d, weight);
    Ordered(d, weight, 2.0 * w);
    NotNegativeProduct(w, w);
    Ordered(q, 1.0, w * w);
    assert (weight + w) * (weight + w) == weight * weight + 2.0 * w * weight + w * w;
  }

  /** A usable row: a vector of norm at most one and a watched time that is not negative. */
  ghost predicate Proper(row: Row) {
    row.watchMs >= 0 && (row.vector.Some? ==> NormSquared(row.vector.value) <= 1.0)
  }

  ghost predicate Bounded(t: Total) {
    WithinWeight(NormSquared(t.sum), t.weight) && (t.sum != [] ==> t.weight > 0.0) && (t.sum == [] ==> t.weight == 0.0)
  }

  lemma {:induction false} ZerosNorm(n: nat, k: nat)
    requires k <= n
    ensures DotUpTo(Zeros(n), Zeros(n), k) == 0.0
  {
    if k != 0 {
      ZerosNorm(n, k - 1);
      assert Zeros(n)[k - 1] == 0.0;
      ZeroTimes(0.0);
    }
  }

  lemma AddedIsBounded(t: Total, row: Row)
    requires Bounded(t) && Proper(row)
    ensures Bounded(Added(t, row))
  {
    if Added(t, row) != t {
      hide Times, WithinWeight, CauchySchwarzHolds, IsSquareOfSum, EventWeight, DotUpTo;
      var v := row.vector.value;
      var sum := if t.sum == [] then Zeros(|v|) else t.sum;
      var w := EventWeight(row.kind, row.watchMs, row.completed);
      WeightBounds(row.kind, row.watchMs, row.completed);
      assert WithinWeight(NormSquared(sum), t.weight) by {
        if t.sum == [] {
          ZerosNorm(|v|, |v|);
          EmptySum(t);
        }
      }
      CauchySchwarzUpTo(sum, v, |v|);
      PlusNormUpTo(sum, v, w, |v|);
      TriangleStep(NormSquared(Plus(sum, v, w)), NormSquared(sum), Dot(sum, v), NormSquared(v), t.weight, w);
      assert t.weight >= 0.0 by { EmptySum(t); }
    }
  }

  lemma EmptySum(t: Total)
    requires Bounded(t)
    ensures t.weight >= 0.0 && (t.sum == [] ==> WithinWeight(0.0, t.weight))
  {
  }

  lemma {:induction false} AddedAllIsBounded(t: Total, rows: seq<Row>)
    requires Bounded(t) && forall row | row in rows :: Proper(row)
    ensures Bounded(AddedAll(t, rows))
    decreases |rows|
  {
    hide Bounded, Proper, Added;
    if rows != [] {
      assert rows[0] in rows;
      AddedIsBounded(t, rows[0]);
      AddedAllIsBounded(Added(t, rows[0]), rows[1..]);
    }
  }

  lemma MeanNorm(t: Total)
    requires Bounded(t) && t.weight > 0.0
    ensures NormSquared(Mean(t)) <= 1.0
  {
    var c := 1.0 / t.weight;
    forall i | 0 <= i < |t.sum| ensures Mean(t)[i] == Scaled(t.sum, c)[i] {
      QuotientIsProduct(t.sum[i], t.weight);
    }
    assert Mean(t) == Scaled(t.sum, c);
    ScaledDotUpTo(t.sum, t.sum, c, c, |t.sum|);
    MeanBound(NormSquared(Mean(t)), NormSquared(t.sum), t.weight);
  }

  lemma MeanBound(r: real, p: real, weight: real)
    requires weight > 0.0 && WithinWeight(p, weight) && IsMultiple(r, 1.0 / weight, 1.0 / weight, p)
    ensures r <= 1.0
  {
    var c := 1.0 / weight;
    assert c * weight == 1.0;
    NotNegativeProduct(c, c);
    Ordered(p, weight * weight, c * c);
    assert c * c * (weight * weight) == (c * weight) * (c * weight);
  }

  /**
   Main result. Whatever the events, an interest vector exists exactly when some event has a vector that is
   not empty, and its norm is at most one.
   */
  lemma InterestIsBounded(rows: seq<Row>)
    requires forall row | row in rows :: Proper(row)
    ensures var t := AddedAll(NOTHING, rows);
            && ((t.sum != [] && t.weight != 0.0) <==>
                exists row :: row in rows && row.vector.Some? && row.vector.value != [])
            && (t.weight != 0.0 ==> NormSquared(Mean(t)) <= 1.0)
  {
    var t := AddedAll(NOTHING, rows);
    assert Bounded(NOTHING) by { ZeroTimes(0.0); }
    AddedAllIsBounded(NOTHING, rows);
    SumExistsIff(NOTHING, rows);
    if t.weight != 0.0 { MeanNorm(t); }
  }

  lemma {:induction false} SumExistsIff(t: Total, rows: seq<Row>)
    ensures AddedAll(t, rows).sum != [] <==>
            t.sum != [] || exists row :: row in rows && row.vector.Some? && row.vector.value != []
    decreases |rows|
  {
    if rows != [] {
      SumExistsIff(Added(t, rows[0]), rows[1..]);
      assert forall row :: row in rows <==> row == rows[0] || row in rows[1..];
    }
  }
}
