/**
 * The two array helpers of the photonic utilities: `Diagonalize`, which
 * turns a vector of wavelength amplitudes into a diagonal matrix, and
 * `BoundTheta`, which folds phase shifts back towards [0, 2π] in place.
 */
module PhotonicsUtils {
  import opened Common

  /** `2*np.pi`: the exact value of the double closest to 2π. */
  const TWO_PI: real := 6.28318530717958623199592693708837032318115234375

  /** The n×n matrix with `v` on its diagonal and zeros elsewhere, n = |v|. */
  function Diagonal(v: seq<real>): seq<seq<real>>
  {
    seq(|v|, i requires 0 <= i < |v| => seq(|v|, j => if i == j then v[i] else 0.0))
  }

  /**
   * `Diagonalize(vector)`: start from the identity of size `len(vector)`
   * and overwrite each diagonal entry with the vector's entry.
   */
  method Diagonalize(v: seq<real>) returns (d: array2<real>)
    ensures fresh(d) && d.Length0 == |v| && d.Length1 == |v|
    ensures forall i, j :: 0 <= i < |v| && 0 <= j < |v| ==> d[i, j] == if i == j then v[i] else 0.0
    ensures Snapshot(d) == Diagonal(v)
  {
    d := new real[|v|, |v|]((i, j) => if i == j then 1.0 else 0.0);
    for i := 0 to |v|
      invariant forall r, c :: 0 <= r < |v| && 0 <= c < |v| ==>
        d[r, c] == if r != c then 0.0 else if r < i then v[r] else 1.0
    {
      d[i, i] := v[i];
    }
    var s := Snapshot(d);
    forall r | 0 <= r < |v|
      ensures s[r] == Diagonal(v)[r]
    {
      assert forall c :: 0 <= c < |v| ==> s[r][c] == Diagonal(v)[r][c];
    }
  }

  /** A row that is zero except at `i` picks out `row[i] * x[i]`. */
  lemma {:induction false} DotPicksOne(row: seq<real>, x: seq<real>, i: nat)
    requires |row| == |x| && i < |row|
    requires forall j :: 0 <= j < |row| && j != i ==> row[j] == 0.0
    ensures Dot(row, x) == row[i] * x[i]
  {
    var n := |row| - 1;
    if i < n {
      DotPicksOne(row[..n], x[..n], i);
    } else {
      DotOfZeros(row[..n], x[..n]);
    }
  }

  lemma {:induction false} DotOfZeros(row: seq<real>, x: seq<real>)
    requires |row| == |x|
    requires forall j :: 0 <= j < |row| ==> row[j] == 0.0
    ensures Dot(row, x) == 0.0
  {
    if |row| > 0 {
      DotOfZeros(row[..|row| - 1], x[..|x| - 1]);
    }
  }

  /**
   * A diagonal matrix keeps the wavelength components independent: each
   * output component is its input component scaled by the diagonal entry,
   * with no cross terms.
   */
  lemma DiagonalScales(v: seq<real>, x: seq<real>)
    requires |x| == |v|
    ensures Rectangular(Diagonal(v), |v|)
    ensures MatVec(Diagonal(v), |v|, x) == Some(seq(|v|, i requires 0 <= i < |v| => v[i] * x[i]))
  {
    var d := Diagonal(v);
    assert Rectangular(d, |v|);
    var r := MatVec(d, |v|, x);
    forall i | 0 <= i < |v|
      ensures r.value[i] == v[i] * x[i]
    {
      DotPicksOne(d[i], x, i);
    }
    var scaled := seq(|v|, i requires 0 <= i < |v| => v[i] * x[i]);
    assert |r.value| == |scaled|;
    assert forall i :: 0 <= i < |v| ==> r.value[i] == scaled[i];
    assert r.value == scaled;
  }

  /** Diagonalizing a vector of ones gives `np.eye`. */
  lemma DiagonalOfOnes(n: nat)
    ensures Diagonal(seq(n, _ => 1.0)) == Identity(n)
  {
    var d, e := Diagonal(seq(n, _ => 1.0)), Identity(n);
    forall i | 0 <= i < n
      ensures d[i] == e[i]
    {
      assert forall j :: 0 <= j < n ==> d[i][j] == e[i][j];
    }
  }

  /** The first masked update: an entry above 2π loses 2π. */
  function WrapDown(x: real): real
  {
    if x > TWO_PI then x - TWO_PI else x
  }

  /** The second masked update: an entry below 0 gains 2π. */
  function WrapUp(x: real): real
  {
    if x < 0.0 then x + TWO_PI else x
  }

  /**
   * What `BoundTheta` does to one entry: both updates in order. The phase
   * is kept modulo 2π, an entry already in [0, 2π] is left alone, and an
   * entry in [-2π, 4π] lands in [0, 2π].
   */
  function BoundOne(x: real): (y: real)
    ensures y == x || y == x - TWO_PI || y == x + TWO_PI
    ensures 0.0 <= x <= TWO_PI ==> y == x
    ensures -TWO_PI <= x <= 2.0 * TWO_PI ==> 0.0 <= y <= TWO_PI
    ensures x > TWO_PI ==> y == x - TWO_PI
    ensures x < 0.0 ==> y == x + TWO_PI
  {
    WrapUp(WrapDown(x))
  }

  /** Bounding twice is bounding once, for entries in [-2π, 4π]. */
  lemma BoundOneIdempotent(x: real)
    requires -TWO_PI <= x <= 2.0 * TWO_PI
    ensures BoundOne(BoundOne(x)) == BoundOne(x)
  {
  }

  /**
   * `BoundTheta(thetas)`: subtract 2π from every entry above 2π, then add
   * 2π to every entry below 0, in place, and hand back the same array.
   */
  method BoundTheta(thetas: array<real>) returns (r: array<real>)
    modifies thetas
    ensures r == thetas
    ensures forall k :: 0 <= k < thetas.Length ==> thetas[k] == BoundOne(old(thetas[k]))
  {
    for i := 0 to thetas.Length
      invariant forall k :: 0 <= k < i ==> thetas[k] == WrapDown(old(thetas[k]))
      invariant forall k :: i <= k < thetas.Length ==> thetas[k] == old(thetas[k])
    {
      if thetas[i] > TWO_PI {
        thetas[i] := thetas[i] - TWO_PI;
      }
    }
    for i := 0 to thetas.Length
      invariant forall k :: 0 <= k < i ==> thetas[k] == BoundOne(old(thetas[k]))
      invariant forall k :: i <= k < thetas.Length ==> thetas[k] == WrapDown(old(thetas[k]))
    {
      if thetas[i] < 0.0 {
        thetas[i] := thetas[i] + TWO_PI;
      }
    }
    r := thetas;
  }
}
