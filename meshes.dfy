/**
 * The bounded-weight synapse meshes of src/vivilux/meshes.py.
 *
 * A `Mesh` keeps two size×size matrices: `linMatrix`, the linear weights
 * that learning moves, and `matrix`, the implementable weights obtained from
 * them through the sigmoid of `MeshRules`. `apply` feeds the sending layer's
 * activity through a delta-sender (`lastAct`, `inAct`) and multiplies the
 * result by the scaled weights. An `AbsMesh` is a `Mesh` whose `absolute`
 * flag is set; a `TransposeMesh` is a read-only feedback view of another
 * mesh.
 *
 * What the source takes from the sending layer (its length and the `Send`
 * and `Delta` thresholds of its `OptThreshParams`) is given to the
 * constructors; the activity it reads is passed to `Apply`; the deltas that
 * `XCAL.GetDeltas` computes are passed to `Update`; the random initial
 * weights are the values of a function `init`.
 */
module Meshes {
  import opened Common
  import opened MeshRules
  import Masks

  /**
   * `np.pad(data[:n], (0, n - len(data)))` for an input no longer than `n`:
   * the input followed by zeros up to length `n`.
   */
  function Fit(data: seq<real>, n: nat): (r: seq<real>)
    requires |data| <= n
    ensures |r| == n
    ensures forall i :: 0 <= i < |data| ==> r[i] == data[i]
    ensures forall i :: |data| <= i < n ==> r[i] == 0.0
  {
    data + Zeros(n - |data|)
  }

  /**
   * The delta-sender of `apply`: every entry of `lastAct` and `inAct` moves
   * by one `SenderStep` on the matching input.
   */
  method Send(data: seq<real>, lastAct: array<real>, inAct: array<real>, send: real, delta: real)
    requires lastAct != inAct && lastAct.Length == |data| && inAct.Length == |data|
    modifies lastAct, inAct
    ensures forall i :: 0 <= i < |data| ==> lastAct[i] == SenderStep(data[i], old(lastAct[i]), send, delta).last
    ensures forall i :: 0 <= i < |data| ==>
              inAct[i] == old(inAct[i]) + SenderStep(data[i], old(lastAct[i]), send, delta).change
  {
    for i := 0 to |data|
      invariant forall k :: 0 <= k < i ==> lastAct[k] == SenderStep(data[k], old(lastAct[k]), send, delta).last
      invariant forall k :: 0 <= k < i ==>
                  inAct[k] == old(inAct[k]) + SenderStep(data[k], old(lastAct[k]), send, delta).change
      invariant forall k :: i <= k < |data| ==> lastAct[k] == old(lastAct[k]) && inAct[k] == old(inAct[k])
    {
      var s := SenderStep(data[i], lastAct[i], send, delta);
      lastAct[i] := s.last;
      inAct[i] := inAct[i] + s.change;
    }
  }

  /**
   * The sender's invariant: `inAct` equals `lastAct` and every entry of
   * `lastAct` is 0 or above `send`. It holds of the two zero vectors the
   * constructors start from.
   */
  ghost predicate SenderInvariant(lastAct: seq<real>, inAct: seq<real>, send: real)
  {
    inAct == lastAct && forall i :: 0 <= i < |lastAct| ==> lastAct[i] == 0.0 || lastAct[i] > send
  }

  /** `Send` keeps the sender's invariant. */
  lemma SendKeepsInvariant(data: seq<real>, last: seq<real>, inAct: seq<real>, last': seq<real>, inAct': seq<real>,
                           send: real, delta: real)
    requires |data| == |last| == |inAct| == |last'| == |inAct'|
    requires SenderInvariant(last, inAct, send)
    requires forall i :: 0 <= i < |data| ==> last'[i] == SenderStep(data[i], last[i], send, delta).last
    requires forall i :: 0 <= i < |data| ==> inAct'[i] == inAct[i] + SenderStep(data[i], last[i], send, delta).change
    ensures SenderInvariant(last', inAct', send)
  {
    forall i | 0 <= i < |data|
      ensures inAct'[i] == last'[i]
    {
      assert inAct[i] == last[i];
    }
  }

  /** `np.abs(a)`, a new array. */
  method AbsOf(a: array2<real>) returns (b: array2<real>)
    ensures fresh(b) && b.Length0 == a.Length0 && b.Length1 == a.Length1
    ensures forall i, j :: 0 <= i < a.Length0 && 0 <= j < a.Length1 ==> b[i, j] == Abs(a[i, j])
  {
    b := new real[a.Length0, a.Length1]((i, j) requires 0 <= i < a.Length0 && 0 <= j < a.Length1 reads a => Abs(a[i, j]));
  }

  class Mesh {
    const size: nat
    /** The length of the sending layer. */
    const inLayerLen: nat
    const Off: real
    const Gain: nat
    /** The `Gain`-th root that `invSigmoid` takes. */
    const root: real -> real
    /** Stored, but never read: the guard in `WtBalance` tests the method itself. */
    const wbOn: bool
    const balance: BalanceParams
    const WtBalInterval: int
    const softBound: bool
    /** The sending layer's `Send` and `Delta` thresholds. */
    const send: real
    const deltaThr: real
    /** Set for an `AbsMesh`. */
    const absolute: bool
    const AbsScale: real
    const RelScale: real
    const trainable: bool

    var wbFact: real
    var wbInc: real
    var wbDec: real
    var WtBalCtr: int
    var Gscale: real
    var modified: bool

    var matrix: array2<real>
    const linMatrix: array2<real>
    const lastAct: array<real>
    const inAct: array<real>

    /** The shapes and settings that every method relies on. */
    ghost predicate Shaped()
      reads this
    {
      && inLayerLen <= size
      && matrix != linMatrix && lastAct != inAct
      && matrix.Length0 == size && matrix.Length1 == size
      && linMatrix.Length0 == size && linMatrix.Length1 == size
      && lastAct.Length == size && inAct.Length == size
      && Off > 0.0 && Gain >= 1 && IsRoot(root, Gain) && SaneBalance(balance)
      && WtBalInterval == 0
    }

    /** Implementable weights lie in [0,1], and the sender's invariant holds. */
    ghost predicate Valid()
      reads this, matrix, lastAct, inAct
    {
      && Shaped()
      && (forall i, j :: 0 <= i < size && 0 <= j < size ==> 0.0 <= matrix[i, j] <= 1.0)
      && SenderInvariant(lastAct[..], inAct[..], send)
      && wbInc >= 0.0 && wbDec >= 0.0
      && WtBalCtr == 0
    }

    /**
     * A mesh of `max(size, inLayerLen)` neurons whose weights start from
     * `init`. The interval argument is ignored: the interval is always 0.
     */
    constructor (size: nat, inLayerLen: nat, init: (nat, nat) -> real,
                 AbsScale: real, RelScale: real, Off: real, Gain: nat, root: real -> real,
                 wbOn: bool, balance: BalanceParams, wbInc: real, wbDec: real, WtBalInterval: int,
                 softBound: bool, send: real, deltaThr: real, absolute: bool)
      requires Off > 0.0 && Gain >= 1 && IsRoot(root, Gain) && SaneBalance(balance)
      requires wbInc >= 0.0 && wbDec >= 0.0
      ensures this.size == Max(size, inLayerLen) && Valid()
      ensures fresh(matrix) && fresh(linMatrix) && fresh(lastAct) && fresh(inAct)
      ensures forall i, j :: 0 <= i < this.size && 0 <= j < this.size ==> matrix[i, j] == Clip(init(i, j))
      ensures forall i, j :: 0 <= i < this.size && 0 <= j < this.size ==>
                linMatrix[i, j] == if 0.0 < init(i, j) < 1.0 then InvSigmoid(init(i, j), Off, Gain, root) else init(i, j)
      ensures forall i :: 0 <= i < this.size ==> lastAct[i] == 0.0 && inAct[i] == 0.0
      ensures this.WtBalInterval == 0 && WtBalCtr == 0 && wbFact == 0.0 && this.wbInc == wbInc && this.wbDec == wbDec
      ensures Gscale == 1.0 && !modified && trainable
      ensures this.inLayerLen == inLayerLen && this.Off == Off && this.Gain == Gain && this.root == root
      ensures this.balance == balance && this.softBound == softBound && this.absolute == absolute
      ensures this.send == send && this.deltaThr == deltaThr && this.wbOn == wbOn
    {
      var n := Max(size, inLayerLen);
      this.size := n;
      this.inLayerLen := inLayerLen;
      this.Off := Off;
      this.Gain := Gain;
      this.root := root;
      this.wbOn := wbOn;
      this.balance := balance;
      this.WtBalInterval := 0;
      this.softBound := softBound;
      this.send := send;
      this.deltaThr := deltaThr;
      this.absolute := absolute;
      this.AbsScale := AbsScale;
      this.RelScale := RelScale;
      this.trainable := true;
      this.wbInc := wbInc;
      this.wbDec := wbDec;
      wbFact := 0.0;
      WtBalCtr := 0;
      Gscale := 1.0;
      modified := false;
      var raw := new real[n, n]((i, j) requires 0 <= i && 0 <= j => init(i, j));
      matrix := raw;
      linMatrix := new real[n, n]((i, j) requires 0 <= i < n && 0 <= j < n reads raw => raw[i, j]);
      lastAct := new real[n](_ => 0.0);
      inAct := new real[n](_ => 0.0);
      new;
      assert Shaped();
      InvSigMatrix();
      forall i, j | 0 <= i < n && 0 <= j < n
        ensures matrix[i, j] == Clip(init(i, j))
        ensures linMatrix[i, j] == if 0.0 < init(i, j) < 1.0 then InvSigmoid(init(i, j), Off, Gain, root) else init(i, j)
      {
      }
      if absolute {
        Absolutize();
      }
      assert lastAct[..] == inAct[..];
    }

    /**
     * `set`: the mesh keeps the caller's matrix (an `AbsMesh` keeps a
     * non-negative copy), after clamping it in place into [0,1] and
     * recomputing the linear weights at its interior entries.
     */
    method Set(m: array2<real>)
      requires Valid() && m != linMatrix && m.Length0 == size && m.Length1 == size
      modifies this`matrix, this`modified, m, linMatrix
      ensures Valid() && modified
      ensures !absolute ==> matrix == m
      ensures absolute ==> fresh(matrix)
      ensures forall i, j :: 0 <= i < size && 0 <= j < size ==> m[i, j] == Clip(old(m[i, j])) && matrix[i, j] == m[i, j]
      ensures forall i, j :: 0 <= i < size && 0 <= j < size ==>
                linMatrix[i, j] == if 0.0 < m[i, j] < 1.0 then InvSigmoid(m[i, j], Off, Gain, root) else old(linMatrix[i, j])
    {
      modified := true;
      matrix := m;
      InvSigMatrix();
      if absolute {
        Absolutize();
      }
    }

    /** `get`: the weights scaled by `Gscale`. */
    function Get(): (g: seq<seq<real>>)
      reads this, matrix
      ensures |g| == matrix.Length0 && Rectangular(g, matrix.Length1)
      ensures forall i, j :: 0 <= i < matrix.Length0 && 0 <= j < matrix.Length1 ==> g[i][j] == Gscale * matrix[i, j]
    {
      Scale(Gscale, Snapshot(matrix))
    }

    /** `applyTo`: the product of the scaled weights with `data`, or `None` when the shapes do not fit. */
    function ApplyTo(data: seq<real>): (r: Option<seq<real>>)
      reads this, matrix
      ensures r.Some? <==> |data| == matrix.Length1
      ensures r.Some? ==> |r.value| == matrix.Length0
      ensures r.Some? ==> forall i :: 0 <= i < matrix.Length0 ==> r.value[i] == Dot(Get()[i], data)
    {
      MatVec(Get(), matrix.Length1, data)
    }

    /** Implementable weights with a non-negative scale carry non-negative activity to non-negative input. */
    lemma ApplyToNonNegative(data: seq<real>)
      requires Valid() && Gscale >= 0.0 && |data| == size
      requires forall k :: 0 <= k < |data| ==> data[k] >= 0.0
      ensures ApplyTo(data).Some?
      ensures forall i :: 0 <= i < size ==> ApplyTo(data).value[i] >= 0.0
    {
      var g := Get();
      forall i | 0 <= i < size
        ensures ApplyTo(data).value[i] >= 0.0
      {
        forall j | 0 <= j < size
          ensures g[i][j] >= 0.0
        {
          MulNonNegative(Gscale, matrix[i, j]);
        }
        DotNonNegative(g[i], data);
      }
    }

    /**
     * `apply`, given the sending layer's activity: the activity is padded
     * to `size`, passed through the delta-sender, and the accumulated input
     * is multiplied by the weights.
     */
    method Apply(data: seq<real>) returns (r: Option<seq<real>>)
      requires Valid() && |data| == inLayerLen
      modifies lastAct, inAct
      ensures Valid()
      ensures forall i :: 0 <= i < size ==> lastAct[i] == SenderStep(Fit(data, size)[i], old(lastAct[i]), send, deltaThr).last
      ensures r == ApplyTo(inAct[..]) && r.Some?
    {
      var fitted := Fit(data, size);
      ghost var last, acc := lastAct[..], inAct[..];
      Send(fitted, lastAct, inAct, send, deltaThr);
      SendKeepsInvariant(fitted, last, acc, lastAct[..], inAct[..], send, deltaThr);
      r := ApplyTo(inAct[..]);
    }

    /**
     * `WtBalance`: the counter passes the interval at once (the interval is
     * 0) and is reset, then the controller moves the factors according to
     * the mean implementable weight. `wbOn` plays no part.
     */
    method WtBalance()
      requires Shaped() && WtBalCtr >= 0
      modifies this`wbFact, this`wbInc, this`wbDec, this`WtBalCtr
      ensures WtBalCtr == 0
      ensures Factors(wbFact, wbInc, wbDec) ==
              BalanceStep(Mean(Snapshot(matrix)), balance, Factors(old(wbFact), old(wbInc), old(wbDec)))
    {
      WtBalCtr := WtBalCtr + 1;
      if WtBalCtr >= WtBalInterval {
        WtBalCtr := 0;
        var f := BalanceStep(Mean(Snapshot(matrix)), balance, Factors(wbFact, wbInc, wbDec));
        wbFact, wbInc, wbDec := f.fact, f.inc, f.dec;
      }
    }

    /**
     * The mean `WtBalance` reads: `np.mean` of a non-empty mesh is a number
     * in [0,1], the range of the weights; only an empty mesh gives NaN.
     */
    lemma BalanceMeanInUnit()
      requires Valid()
      ensures Mean(Snapshot(matrix)).Some? <==> size > 0
      ensures Mean(Snapshot(matrix)).Some? ==> 0.0 <= Mean(Snapshot(matrix)).value <= 1.0
    {
      var s := Snapshot(matrix);
      if size > 0 {
        assert |Flatten(s)| >= |s[size - 1]|;
        MeanInUnit(s);
      } else {
        assert s == [];
      }
    }

    /**
     * `SoftBound`: scales `delta` in place entry by entry. With soft
     * bounding on, the scale reads the linear weights of the same block,
     * which fails when `delta` is larger than the mesh.
     */
    method SoftBound(delta: array2<real>) returns (r: Outcome<array2<real>>)
      requires Shaped() && delta != linMatrix
      modifies delta
      ensures r.Raised? <==> softBound && !(delta.Length0 <= size && delta.Length1 <= size)
      ensures r.Raised? ==> r.fault == MaskMismatch && unchanged(delta)
      ensures r.Ok? ==> r.value == delta
      ensures r.Ok? && softBound ==> forall i, j :: 0 <= i < delta.Length0 && 0 <= j < delta.Length1 ==>
                delta[i, j] == SoftBoundEntry(old(delta[i, j]), linMatrix[i, j], wbInc, wbDec, true)
      ensures !softBound ==> forall i, j :: 0 <= i < delta.Length0 && 0 <= j < delta.Length1 ==>
                delta[i, j] == SoftBoundEntry(old(delta[i, j]), 0.0, wbInc, wbDec, false)
    {
      var inc, dec := wbInc, wbDec;
      if softBound {
        if delta.Length0 <= size && delta.Length1 <= size {
          Masks.Combine(delta, linMatrix, delta.Length0, delta.Length1, (d, lin) => SoftBoundEntry(d, lin, inc, dec, true));
          r := Ok(delta);
        } else {
          r := Raised(MaskMismatch);
        }
      } else {
        Masks.MapInPlace(delta, d => SoftBoundEntry(d, 0.0, inc, dec, false));
        r := Ok(delta);
      }
    }

    /**
     * numpy broadcasts a delta dimension of length `k` onto the slice `[:k]`
     * of a weight dimension of length `size` exactly when the slice is `k`
     * long or `k` is 1; a 1 longer than the slice only happens for an empty
     * mesh, whose slice is empty.
     */
    predicate BlockFits(k: nat)
    {
      k <= size || k == 1
    }

    /** `linMatrix[:m, :n] += delta` */
    method AddBlock(delta: array2<real>)
      requires Shaped() && delta != linMatrix && BlockFits(delta.Length0) && BlockFits(delta.Length1)
      modifies linMatrix
      ensures forall i, j :: 0 <= i < size && 0 <= j < size ==>
                linMatrix[i, j] == old(linMatrix[i, j]) + if i < delta.Length0 && j < delta.Length1 then delta[i, j] else 0.0
    {
      Masks.Combine(linMatrix, delta, Min(delta.Length0, size), Min(delta.Length1, size), (lin, d) => lin + d);
    }

    /** `ClipLinMatrix`: negative linear weights become 0, then those above 1 become 1. */
    method ClipLinMatrix()
      requires Shaped()
      modifies linMatrix
      ensures forall i, j :: 0 <= i < size && 0 <= j < size ==> linMatrix[i, j] == Clip(old(linMatrix[i, j]))
      ensures forall i, j :: 0 <= i < size && 0 <= j < size ==> 0.0 <= linMatrix[i, j] <= 1.0
    {
      Masks.MapInPlace(linMatrix, FloorAtZero);
      Masks.MapInPlace(linMatrix, CapAtOne);
      forall i, j | 0 <= i < size && 0 <= j < size
        ensures 0.0 <= linMatrix[i, j] <= 1.0
      {
        ClipProperties(old(linMatrix[i, j]));
      }
    }

    /** `SigMatrix`: every implementable weight is recomputed from its linear weight. */
    method SigMatrix()
      requires Shaped()
      modifies matrix
      ensures forall i, j :: 0 <= i < size && 0 <= j < size ==> matrix[i, j] == Transfer(linMatrix[i, j], Off, Gain)
      ensures forall i, j :: 0 <= i < size && 0 <= j < size ==> 0.0 <= matrix[i, j] <= 1.0
    {
      var off, gain := Off, Gain;
      Masks.Combine(matrix, linMatrix, size, size, (w, lin) => Transfer(lin, off, gain));
      forall i, j | 0 <= i < size && 0 <= j < size
        ensures 0.0 <= matrix[i, j] <= 1.0
      {
        TransferBounds(linMatrix[i, j], Off, Gain);
      }
    }

    /**
     * `InvSigMatrix`: the implementable weights are clamped into [0,1] in
     * place; the linear weights are recomputed only where the clamped
     * weight lies strictly inside (0,1), and keep their value elsewhere.
     */
    method InvSigMatrix()
      requires Shaped()
      modifies matrix, linMatrix
      ensures forall i, j :: 0 <= i < size && 0 <= j < size ==> matrix[i, j] == Clip(old(matrix[i, j]))
      ensures forall i, j :: 0 <= i < size && 0 <= j < size ==> 0.0 <= matrix[i, j] <= 1.0
      ensures forall i, j :: 0 <= i < size && 0 <= j < size ==>
                linMatrix[i, j] == if 0.0 < matrix[i, j] < 1.0 then InvSigmoid(matrix[i, j], Off, Gain, root) else old(linMatrix[i, j])
    {
      Masks.MapInPlace(matrix, FloorAtZero);
      Masks.MapInPlace(matrix, CapAtOne);
      forall i, j | 0 <= i < size && 0 <= j < size
        ensures 0.0 <= matrix[i, j] <= 1.0
      {
        ClipProperties(old(matrix[i, j]));
      }
      var off, gain, r := Off, Gain, root;
      Masks.Combine(linMatrix, matrix, size, size,
        (lin, w) => if 0.0 < w < 1.0 then InvSigmoid(w, off, gain, r) else lin);
    }

    /**
     * `Update`, given the deltas of the learning rule: soft-bound them, add
     * them to the top-left block of the linear weights, clip, recompute the
     * implementable weights, and balance. An `AbsMesh` overrides `Update`
     * with one that passes `debugDwt=` to this method, which declares no
     * such keyword: the call raises before anything changes.
     */
    method Update(delta: array2<real>) returns (r: Outcome<()>)
      requires Valid() && delta != linMatrix && delta != matrix
      modifies this`wbFact, this`wbInc, this`wbDec, this`WtBalCtr, matrix, linMatrix, delta
      ensures Valid() && matrix == old(matrix)
      ensures r.Raised? <==> absolute || (softBound && !(delta.Length0 <= size && delta.Length1 <= size)) ||
                              !(BlockFits(delta.Length0) && BlockFits(delta.Length1))
      ensures absolute ==> r == Raised(UnexpectedKeyword) && unchanged(delta)
      ensures !absolute && r.Raised? ==> r.fault == if softBound then MaskMismatch else ShapeMismatch
      ensures softBound && r.Raised? ==> unchanged(delta)
      ensures !absolute && !softBound ==> forall i, j :: 0 <= i < delta.Length0 && 0 <= j < delta.Length1 ==>
                delta[i, j] == SoftBoundEntry(old(delta[i, j]), 0.0, old(wbInc), old(wbDec), false)
      ensures r.Raised? ==> unchanged(linMatrix) && unchanged(matrix)
      ensures r.Raised? ==> wbFact == old(wbFact) && wbInc == old(wbInc) && wbDec == old(wbDec) && WtBalCtr == old(WtBalCtr)
      ensures r.Ok? ==> forall i, j :: 0 <= i < size && 0 <= j < size ==>
                linMatrix[i, j] == Clip(old(linMatrix[i, j]) +
                  if i < delta.Length0 && j < delta.Length1
                  then SoftBoundEntry(old(delta[i, j]), old(linMatrix[i, j]), old(wbInc), old(wbDec), softBound)
                  else 0.0)
      ensures r.Ok? ==> forall i, j :: 0 <= i < size && 0 <= j < size ==>
                0.0 <= linMatrix[i, j] <= 1.0 && matrix[i, j] == Transfer(linMatrix[i, j], Off, Gain)
      ensures r.Ok? ==> (Factors(wbFact, wbInc, wbDec) ==
                BalanceStep(Mean(Snapshot(matrix)), balance, Factors(old(wbFact), old(wbInc), old(wbDec))))
    {
      if absolute {
        return Raised(UnexpectedKeyword);
      }
      var scaled := SoftBound(delta);
      if scaled.Raised? {
        return Raised(scaled.fault);
      }
      if !(BlockFits(delta.Length0) && BlockFits(delta.Length1)) {
        return Raised(ShapeMismatch);
      }
      ghost var d := delta;
      assert forall i, j :: 0 <= i < Min(d.Length0, size) && 0 <= j < Min(d.Length1, size) ==>
        d[i, j] == SoftBoundEntry(old(d[i, j]), old(linMatrix[i, j]), old(wbInc), old(wbDec), softBound);
      Reweigh(delta);
      r := Ok(());
    }

    /** The part of `Update` after soft bounding, given the scaled deltas. */
    method Reweigh(delta: array2<real>)
      requires Valid() && delta != linMatrix && delta != matrix
      requires BlockFits(delta.Length0) && BlockFits(delta.Length1)
      modifies this`wbFact, this`wbInc, this`wbDec, this`WtBalCtr, matrix, linMatrix
      ensures Valid()
      ensures forall i, j :: 0 <= i < size && 0 <= j < size ==>
                linMatrix[i, j] == Clip(old(linMatrix[i, j]) + if i < delta.Length0 && j < delta.Length1 then delta[i, j] else 0.0)
      ensures forall i, j :: 0 <= i < size && 0 <= j < size ==>
                0.0 <= linMatrix[i, j] <= 1.0 && matrix[i, j] == Transfer(linMatrix[i, j], Off, Gain)
      ensures Factors(wbFact, wbInc, wbDec) ==
                BalanceStep(Mean(Snapshot(matrix)), balance, Factors(old(wbFact), old(wbInc), old(wbDec)))
    {
      MoveWeights(delta);
      WtBalance();
      BalanceStepKeepsFactors(Mean(Snapshot(matrix)), balance, Factors(old(wbFact), old(wbInc), old(wbDec)));
      assert SenderInvariant(lastAct[..], inAct[..], send);
    }

    /** `linMatrix[:m, :n] += delta`, `ClipLinMatrix()` and `SigMatrix()`. */
    method MoveWeights(delta: array2<real>)
      requires Shaped() && delta != linMatrix && delta != matrix
      requires BlockFits(delta.Length0) && BlockFits(delta.Length1)
      modifies matrix, linMatrix
      ensures forall i, j :: 0 <= i < size && 0 <= j < size ==>
                linMatrix[i, j] == Clip(old(linMatrix[i, j]) + if i < delta.Length0 && j < delta.Length1 then delta[i, j] else 0.0)
      ensures forall i, j :: 0 <= i < size && 0 <= j < size ==>
                0.0 <= linMatrix[i, j] <= 1.0 && matrix[i, j] == Transfer(linMatrix[i, j], Off, Gain)
      ensures forall i, j :: 0 <= i < size && 0 <= j < size ==> 0.0 <= matrix[i, j] <= 1.0
    {
      AddBlock(delta);
      ClipLinMatrix();
      SigMatrix();
    }

    /**
     * `self.matrix = np.abs(self.matrix)` of an `AbsMesh`: a fresh matrix
     * holding the absolute values, which for weights in [0,1] are the
     * weights themselves.
     */
    method Absolutize()
      requires Shaped() && forall i, j :: 0 <= i < size && 0 <= j < size ==> 0.0 <= matrix[i, j]
      modifies this`matrix
      ensures Shaped() && fresh(matrix)
      ensures forall i, j :: 0 <= i < size && 0 <= j < size ==> matrix[i, j] == old(matrix[i, j])
      ensures Snapshot(matrix) == old(Snapshot(matrix))
    {
      var before := matrix;
      matrix := AbsOf(before);
      SameEntriesSameSnapshot(matrix, before);
    }
  }

  /**
   * A feedback mesh reading another mesh backwards. It has its own size
   * (`max(mesh.size, inLayerLen)`) and delta-sender, but its weights are
   * those of `mesh`, transposed.
   */
  class TransposeMesh {
    const mesh: Mesh
    const size: nat
    const inLayerLen: nat
    const AbsScale: real
    const RelScale: real
    const send: real
    const deltaThr: real
    const trainable: bool
    const lastAct: array<real>
    const inAct: array<real>

    ghost predicate Valid()
      reads this, lastAct, inAct
    {
      && lastAct != inAct && lastAct.Length == size && inAct.Length == size
      && size == Max(mesh.size, inLayerLen) && mesh.inLayerLen <= mesh.size
      && SenderInvariant(lastAct[..], inAct[..], send)
    }

    constructor (mesh: Mesh, inLayerLen: nat, AbsScale: real, RelScale: real, send: real, deltaThr: real)
      requires mesh.inLayerLen <= mesh.size
      ensures Valid() && this.mesh == mesh && size == Max(mesh.size, inLayerLen) && !trainable
      ensures fresh(lastAct) && fresh(inAct)
      ensures forall i :: 0 <= i < size ==> lastAct[i] == 0.0 && inAct[i] == 0.0
    {
      this.mesh := mesh;
      size := Max(mesh.size, inLayerLen);
      this.inLayerLen := inLayerLen;
      this.AbsScale := AbsScale;
      this.RelScale := RelScale;
      this.send := send;
      this.deltaThr := deltaThr;
      trainable := false;
      lastAct := new real[Max(mesh.size, inLayerLen)](_ => 0.0);
      inAct := new real[Max(mesh.size, inLayerLen)](_ => 0.0);
      new;
      assert lastAct[..] == inAct[..];
    }

    /** `get`: the wrapped mesh's scaled weights, transposed and scaled by its `Gscale` once more. */
    function Get(): (g: seq<seq<real>>)
      reads this, mesh, mesh.matrix
      ensures |g| == mesh.matrix.Length1 && Rectangular(g, mesh.matrix.Length0)
      ensures forall i, j :: 0 <= i < mesh.matrix.Length0 && 0 <= j < mesh.matrix.Length1 ==>
                g[j][i] == mesh.Gscale * (mesh.Gscale * mesh.matrix[i, j])
    {
      Scale(mesh.Gscale, Transpose(mesh.Get(), mesh.matrix.Length1))
    }

    /** `applyTo` with the transposed weights. */
    function ApplyTo(data: seq<real>): (r: Option<seq<real>>)
      reads this, mesh, mesh.matrix
      ensures r.Some? <==> |data| == mesh.matrix.Length0
      ensures r.Some? ==> |r.value| == mesh.matrix.Length1
      ensures r.Some? ==> forall i :: 0 <= i < mesh.matrix.Length1 ==> r.value[i] == Dot(Get()[i], data)
    {
      MatVec(Get(), mesh.matrix.Length0, data)
    }

    /**
     * `apply`, given the activity of the wrapped mesh's sending layer. The
     * product exists only when this mesh is no larger than the wrapped one.
     */
    method Apply(data: seq<real>) returns (r: Option<seq<real>>)
      requires Valid() && mesh.Shaped() && |data| == mesh.inLayerLen
      modifies lastAct, inAct
      ensures Valid()
      ensures forall i :: 0 <= i < size ==> lastAct[i] == SenderStep(Fit(data, size)[i], old(lastAct[i]), send, deltaThr).last
      ensures r == ApplyTo(inAct[..])
      ensures r.Some? <==> size == mesh.size
    {
      var fitted := Fit(data, size);
      ghost var last, acc := lastAct[..], inAct[..];
      Send(fitted, lastAct, inAct, send, deltaThr);
      SendKeepsInvariant(fitted, last, acc, lastAct[..], inAct[..], send, deltaThr);
      r := ApplyTo(inAct[..]);
    }

    /** `set` always raises. */
    function Set(): (r: Outcome<()>)
      ensures r.Raised? && r.fault == UnsupportedOperation
    {
      Raised(UnsupportedOperation)
    }

    /** `Update` changes nothing (the method may modify nothing) and returns `None`. */
    method Update(delta: array2<real>) returns (r: Option<()>)
      ensures r.None?
    {
      r := None;
    }
  }
}
