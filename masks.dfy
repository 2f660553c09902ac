/**
 * The two in-place kernels behind numpy's masked assignments on weight
 * matrices. A statement such as `a[a < 0] = 0` rewrites every entry through
 * a scalar rule (`MapInPlace`); `dst[:m, :n][mask] = g(src[:m, :n])`
 * rewrites the top-left block of one matrix from the same block of another
 * (`Combine`).
 */
module Masks {

  method MapInPlace(a: array2<real>, f: real -> real)
    modifies a
    ensures forall i, j :: 0 <= i < a.Length0 && 0 <= j < a.Length1 ==> a[i, j] == f(old(a[i, j]))
  {
    var i := 0;
    while i < a.Length0
      invariant 0 <= i <= a.Length0
      invariant forall p, q :: 0 <= p < i && 0 <= q < a.Length1 ==> a[p, q] == f(old(a[p, q]))
      invariant forall p, q :: i <= p < a.Length0 && 0 <= q < a.Length1 ==> a[p, q] == old(a[p, q])
    {
      var j := 0;
      while j < a.Length1
        invariant 0 <= j <= a.Length1
        invariant forall p, q :: 0 <= p < i && 0 <= q < a.Length1 ==> a[p, q] == f(old(a[p, q]))
        invariant forall q :: 0 <= q < j ==> a[i, q] == f(old(a[i, q]))
        invariant forall q :: j <= q < a.Length1 ==> a[i, q] == old(a[i, q])
        invariant forall p, q :: i < p < a.Length0 && 0 <= q < a.Length1 ==> a[p, q] == old(a[p, q])
      {
        a[i, j] := f(a[i, j]);
        j := j + 1;
      }
      i := i + 1;
    }
  }

  method Combine(dst: array2<real>, src: array2<real>, m: nat, n: nat, f: (real, real) -> real)
    requires dst != src
    requires m <= dst.Length0 && m <= src.Length0 && n <= dst.Length1 && n <= src.Length1
    modifies dst
    ensures forall i, j :: 0 <= i < m && 0 <= j < n ==> dst[i, j] == f(old(dst[i, j]), src[i, j])
    ensures forall i, j :: 0 <= i < dst.Length0 && 0 <= j < dst.Length1 && !(i < m && j < n) ==>
              dst[i, j] == old(dst[i, j])
  {
    var i := 0;
    while i < m
      invariant 0 <= i <= m
      invariant forall p, q :: 0 <= p < i && 0 <= q < n ==> dst[p, q] == f(old(dst[p, q]), src[p, q])
      invariant forall p, q :: 0 <= p < dst.Length0 && 0 <= q < dst.Length1 && !(p < i && q < n) ==>
                  dst[p, q] == old(dst[p, q])
    {
      var j := 0;
      while j < n
        invariant 0 <= j <= n
        invariant forall p, q :: 0 <= p < i && 0 <= q < n ==> dst[p, q] == f(old(dst[p, q]), src[p, q])
        invariant forall q :: 0 <= q < j ==> dst[i, q] == f(old(dst[i, q]), src[i, q])
        invariant forall p, q :: 0 <= p < dst.Length0 && 0 <= q < dst.Length1 && !(p < i && q < n) && !(p == i && q < j) ==>
                    dst[p, q] == old(dst[p, q])
      {
        dst[i, j] := f(dst[i, j], src[i, j]);
        j := j + 1;
      }
      i := i + 1;
    }
  }
}
