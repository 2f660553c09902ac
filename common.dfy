/**
 * Values shared by the mesh and network models: optional results, the
 * exceptions the Python code can raise, and the small pieces of numpy
 * arithmetic the models need (powers, sums, means, products with a vector).
 */
module Common {

  /** A value that may be missing, e.g. the `None` that `applyTo` returns. */
  datatype Option<+T> = None | Some(value: T)

  /** Why a call would end in a Python exception. */
  datatype Fault =
    | ShapeMismatch         // numpy refuses to broadcast or multiply two shapes
    | MaskMismatch          // a boolean mask whose shape differs from the array it indexes
    | NotSubscriptable      // `None[:n]`: a mesh product that failed is sliced
    | IndexOutOfRange       // a list index that does not exist
    | UnboundResult         // a loop variable read although the loop never ran
    | UnsupportedOperation  // `set` on a feedback mesh
    | UnexpectedKeyword     // a call names a keyword argument the callee does not declare

  /** The result of a call: a value, or the exception the source raises. */
  datatype Outcome<+T> = Ok(value: T) | Raised(fault: Fault)

  function Min(a: nat, b: nat): nat { if a < b then a else b }

  function Max(a: nat, b: nat): (r: nat)
    ensures r >= a && r >= b && (r == a || r == b)
  {
    if a > b then a else b
  }

  function Abs(x: real): (r: real)
    ensures r >= 0.0 && (r == x || r == -x)
  {
    if x < 0.0 then -x else x
  }

  /** `np.zeros(n)` */
  function Zeros(n: nat): (z: seq<real>)
    ensures |z| == n && forall i :: 0 <= i < n ==> z[i] == 0.0
  {
    seq(n, _ => 0.0)
  }

  lemma MulPositive(a: real, b: real)
    requires a > 0.0 && b > 0.0
    ensures a * b > 0.0
  {
  }

  lemma MulNonNegative(a: real, b: real)
    requires a >= 0.0 && b >= 0.0
    ensures a * b >= 0.0
  {
  }

  lemma MulMonotone(a: real, b: real, c: real)
    requires a <= b && c >= 0.0
    ensures a * c <= b * c
  {
  }

  lemma ScaleMonotone(c: real, a: real, b: real)
    requires a <= b && c >= 0.0
    ensures c * a <= c * b
  {
    MulMonotone(a, b, c);
  }

  lemma MulAssociates(a: real, b: real, c: real)
    ensures a * (b * c) == (a * b) * c
  {
  }

  lemma QuotientPositive(a: real, b: real)
    requires a > 0.0 && b > 0.0
    ensures a / b > 0.0
  {
  }

  /** Taking reciprocals reverses the order of positive numbers. */
  lemma ReciprocalDecreasing(x: real, y: real)
    requires 0.0 < x <= y
    ensures 0.0 < 1.0 / y <= 1.0 / x
    ensures x < y ==> 1.0 / y < 1.0 / x
  {
    assert x * (1.0 / x) == 1.0;
    assert y * (1.0 / y) == 1.0;
  }

  /** `x ** n` for a natural exponent. */
  function Pow(x: real, n: nat): real
  {
    if n == 0 then 1.0 else x * Pow(x, n - 1)
  }

  lemma {:induction false} PowPositive(x: real, n: nat)
    requires x > 0.0
    ensures Pow(x, n) > 0.0
  {
    if n > 0 {
      PowPositive(x, n - 1);
    }
  }

  lemma {:induction false} PowOfZero(n: nat)
    requires n >= 1
    ensures Pow(0.0, n) == 0.0
  {
  }

  /** Raising to a positive power is strictly increasing on the non-negative reals. */
  lemma {:induction false} PowStrictlyIncreasing(x: real, y: real, n: nat)
    requires 0.0 <= x < y && n >= 1
    ensures Pow(x, n) < Pow(y, n)
  {
    if n > 1 {
      PowStrictlyIncreasing(x, y, n - 1);
      PowNonNegative(x, n - 1);
      var px, py := Pow(x, n - 1), Pow(y, n - 1);
      assert x * px <= x * py;
      assert x * py < y * py by {
        PowPositive(y, n - 1);
      }
    }
  }

  lemma {:induction false} PowNonNegative(x: real, n: nat)
    requires x >= 0.0
    ensures Pow(x, n) >= 0.0
  {
    if n > 0 {
      PowNonNegative(x, n - 1);
    }
  }

  /** Two non-negative numbers with the same positive power are equal. */
  lemma PowInjective(x: real, y: real, n: nat)
    requires x >= 0.0 && y >= 0.0 && n >= 1
    requires Pow(x, n) == Pow(y, n)
    ensures x == y
  {
    if x < y {
      PowStrictlyIncreasing(x, y, n);
    } else if y < x {
      PowStrictlyIncreasing(y, x, n);
    }
  }

  /** `sum(a[i] * b[i])` */
  function Dot(a: seq<real>, b: seq<real>): real
    requires |a| == |b|
  {
    if |a| == 0 then 0.0 else Dot(a[..|a| - 1], b[..|b| - 1]) + a[|a| - 1] * b[|b| - 1]
  }

  lemma {:induction false} DotNonNegative(a: seq<real>, b: seq<real>)
    requires |a| == |b|
    requires forall i :: 0 <= i < |a| ==> a[i] >= 0.0 && b[i] >= 0.0
    ensures Dot(a, b) >= 0.0
  {
    if |a| > 0 {
      DotNonNegative(a[..|a| - 1], b[..|b| - 1]);
    }
  }

  /** Every row of `m` has `cols` entries. */
  predicate Rectangular(m: seq<seq<real>>, cols: nat)
  {
    forall i :: 0 <= i < |m| ==> |m[i]| == cols
  }

  /**
   * `m @ v` for a matrix with `cols` columns, given as its list of rows:
   * numpy multiplies exactly when `v` has `cols` entries.
   */
  function MatVec(m: seq<seq<real>>, cols: nat, v: seq<real>): (r: Option<seq<real>>)
    requires Rectangular(m, cols)
    ensures r.Some? <==> |v| == cols
    ensures r.Some? ==> |r.value| == |m| && forall i :: 0 <= i < |m| ==> r.value[i] == Dot(m[i], v)
  {
    if |v| == cols then Some(seq(|m|, i requires 0 <= i < |m| => Dot(m[i], v))) else None
  }

  /** `c * m` */
  function Scale(c: real, m: seq<seq<real>>): (r: seq<seq<real>>)
    ensures |r| == |m| && forall i :: 0 <= i < |m| ==> |r[i]| == |m[i]|
    ensures forall i, j :: 0 <= i < |m| && 0 <= j < |m[i]| ==> r[i][j] == c * m[i][j]
  {
    seq(|m|, i requires 0 <= i < |m| => seq(|m[i]|, j requires 0 <= j < |m[i]| => c * m[i][j]))
  }

  /** `m.T` for a matrix with `cols` columns. */
  function Transpose(m: seq<seq<real>>, cols: nat): (t: seq<seq<real>>)
    requires Rectangular(m, cols)
    ensures |t| == cols && Rectangular(t, |m|)
    ensures forall i, j :: 0 <= i < |m| && 0 <= j < cols ==> t[j][i] == m[i][j]
  {
    seq(cols, j requires 0 <= j < cols => seq(|m|, i requires 0 <= i < |m| => m[i][j]))
  }

  /** `np.eye(n)` */
  function Identity(n: nat): (e: seq<seq<real>>)
    ensures |e| == n && Rectangular(e, n)
    ensures forall i, j :: 0 <= i < n && 0 <= j < n ==> e[i][j] == if i == j then 1.0 else 0.0
  {
    seq(n, i => seq(n, j => if i == j then 1.0 else 0.0))
  }

  function Sum(s: seq<real>): real
  {
    if |s| == 0 then 0.0 else Sum(s[..|s| - 1]) + s[|s| - 1]
  }

  /** The sum of a sequence of numbers in [0,1] lies between 0 and its length. */
  lemma {:induction false} SumInUnitBounds(s: seq<real>)
    requires forall i :: 0 <= i < |s| ==> 0.0 <= s[i] <= 1.0
    ensures 0.0 <= Sum(s) <= |s| as real
  {
    if |s| > 0 {
      SumInUnitBounds(s[..|s| - 1]);
    }
  }

  /** The entries of a matrix, row after row (`m.flatten()`). */
  function Flatten(m: seq<seq<real>>): (f: seq<real>)
  {
    if |m| == 0 then [] else Flatten(m[..|m| - 1]) + m[|m| - 1]
  }

  lemma {:induction false} FlattenInUnit(m: seq<seq<real>>)
    requires forall i, j :: 0 <= i < |m| && 0 <= j < |m[i]| ==> 0.0 <= m[i][j] <= 1.0
    ensures forall k :: 0 <= k < |Flatten(m)| ==> 0.0 <= Flatten(m)[k] <= 1.0
  {
    if |m| > 0 {
      FlattenInUnit(m[..|m| - 1]);
      var front, last := Flatten(m[..|m| - 1]), m[|m| - 1];
      assert Flatten(m) == front + last;
      forall k | 0 <= k < |Flatten(m)|
        ensures 0.0 <= Flatten(m)[k] <= 1.0
      {
        if k >= |front| {
          assert Flatten(m)[k] == last[k - |front|];
        }
      }
    }
  }

  /**
   * `np.mean(m)`. An empty matrix has no mean (numpy returns NaN, which
   * every later comparison treats as false), hence the `Option`.
   */
  function Mean(m: seq<seq<real>>): (r: Option<real>)
    ensures r.Some? <==> |Flatten(m)| > 0
  {
    var f := Flatten(m);
    if |f| == 0 then None else Some(Sum(f) / (|f| as real))
  }

  /** The mean of a matrix whose entries lie in [0,1] lies in [0,1]. */
  lemma MeanInUnit(m: seq<seq<real>>)
    requires forall i, j :: 0 <= i < |m| && 0 <= j < |m[i]| ==> 0.0 <= m[i][j] <= 1.0
    requires Mean(m).Some?
    ensures 0.0 <= Mean(m).value <= 1.0
  {
    var f := Flatten(m);
    FlattenInUnit(m);
    SumInUnitBounds(f);
    var n := |f| as real;
    assert Sum(f) / n <= 1.0 by {
      assert Sum(f) <= n;
    }
  }

  /** A two-dimensional array read as its list of rows. */
  function Snapshot(a: array2<real>): (s: seq<seq<real>>)
    reads a
    ensures |s| == a.Length0 && Rectangular(s, a.Length1)
    ensures forall i, j :: 0 <= i < a.Length0 && 0 <= j < a.Length1 ==> s[i][j] == a[i, j]
  {
    seq(a.Length0, i requires 0 <= i < a.Length0 reads a =>
      seq(a.Length1, j requires 0 <= j < a.Length1 reads a => a[i, j]))
  }

  /** Two arrays with the same shape and entries read as the same list of rows. */
  lemma SameEntriesSameSnapshot(a: array2<real>, b: array2<real>)
    requires a.Length0 == b.Length0 && a.Length1 == b.Length1
    requires forall i, j :: 0 <= i < a.Length0 && 0 <= j < a.Length1 ==> a[i, j] == b[i, j]
    ensures Snapshot(a) == Snapshot(b)
  {
    var sa, sb := Snapshot(a), Snapshot(b);
    forall i | 0 <= i < a.Length0
      ensures sa[i] == sb[i]
    {
      assert forall j :: 0 <= j < a.Length1 ==> sa[i][j] == sb[i][j];
    }
  }
}
