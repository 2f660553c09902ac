/**
 * The self-contained network of src/vivilux/__init__.py: layers of neurons
 * with a predict and an observe state, meshes that feed one layer from
 * another (a feedback mesh reads a forward mesh backwards), and the net
 * that runs the two-phase learning protocol over them.
 *
 * Layer state vectors and mesh matrices are values (`seq`) held in fields
 * that the methods reassign. The activation function, the learning rule and
 * the metric are parameters.
 */
module Network {
  import opened Common

  /** The integration step of the leaky integrator. */
  const DELTA_TIME: real := 0.1

  /** The four state vectors of a layer, as a learning rule sees them. */
  datatype Activity = Activity(preLin: seq<real>, preAct: seq<real>, obsLin: seq<real>, obsAct: seq<real>)

  /** A learning rule: the weight change for a mesh, from its sending and receiving layers. */
  type Rule = (Activity, Activity) -> seq<seq<real>>

  /** A metric comparing the network's outputs with the targets. */
  type Metric = (seq<seq<real>>, seq<seq<real>>) -> real

  /**
   * numpy's broadcasting of a vector into `n` places: allowed when the
   * vector has `n` entries or a single one.
   */
  function Broadcast(c: seq<real>, n: nat): (r: Option<seq<real>>)
    ensures r.Some? <==> |c| == n || |c| == 1
    ensures r.Some? ==> |r.value| == n
    ensures r.Some? ==> forall i :: 0 <= i < n ==> r.value[i] == if |c| == n then c[i] else c[0]
  {
    if |c| == n then Some(c)
    else if |c| == 1 then Some(seq(n, _ => c[0]))
    else None
  }

  /**
   * numpy's broadcasting of a matrix into a `rows`×`cols` one, dimension by
   * dimension: each dimension must match or be 1.
   */
  function Broadcast2(d: seq<seq<real>>, rows: nat, cols: nat): (r: Option<seq<seq<real>>>)
    ensures r.Some? <==>
      (|d| == 0 && rows == 0) ||
      (|d| > 0 && (|d| == rows || |d| == 1) && Rectangular(d, |d[0]|) && (|d[0]| == cols || |d[0]| == 1))
    ensures r.Some? ==> |r.value| == rows && Rectangular(r.value, cols)
    ensures r.Some? && |d| > 0 ==> forall i, j :: 0 <= i < rows && 0 <= j < cols ==>
              r.value[i][j] == d[if |d| == rows then i else 0][if |d[0]| == cols then j else 0]
  {
    if |d| == 0 then (if rows == 0 then Some([]) else None)
    else
      var w := |d[0]|;
      if (|d| == rows || |d| == 1) && Rectangular(d, w) && (w == cols || w == 1) then
        Some(seq(rows, i requires 0 <= i < rows =>
          seq(cols, j requires 0 <= j < cols => d[if |d| == rows then i else 0][if w == cols then j else 0])))
      else None
  }

  /** `lin -= DELTA_TIME * lin`: the leak of one step. */
  function Decay(lin: seq<real>): (r: seq<real>)
    ensures |r| == |lin| && forall i :: 0 <= i < |lin| ==> r[i] == 0.9 * lin[i]
  {
    seq(|lin|, i requires 0 <= i < |lin| => lin[i] - DELTA_TIME * lin[i])
  }

  /**
   * `lin += DELTA_TIME * contrib[:len]**2` for one mesh's contribution. A
   * contribution of `None` (a failed product) cannot be sliced; a slice
   * that does not broadcast onto `lin` is refused by numpy.
   */
  function Accumulate(lin: seq<real>, contrib: Option<seq<real>>, len: nat): (r: Outcome<seq<real>>)
    ensures contrib.None? ==> r == Raised(NotSubscriptable)
    ensures contrib.Some? ==>
      (r.Ok? <==> Broadcast(contrib.value[..Min(|contrib.value|, len)], |lin|).Some?)
    ensures r.Raised? && contrib.Some? ==> r.fault == ShapeMismatch
    ensures r.Ok? ==> |r.value| == |lin| && forall i :: 0 <= i < |lin| ==> r.value[i] >= lin[i]
    ensures r.Ok? ==> forall i :: 0 <= i < |lin| ==>
      var b := Broadcast(contrib.value[..Min(|contrib.value|, len)], |lin|).value;
      r.value[i] == lin[i] + DELTA_TIME * (b[i] * b[i])
  {
    match contrib
    case None => Raised(NotSubscriptable)
    case Some(c) =>
      match Broadcast(c[..Min(|c|, len)], |lin|)
      case None => Raised(ShapeMismatch)
      case Some(b) =>
        Ok(seq(|lin|, i requires 0 <= i < |lin| => lin[i] + DELTA_TIME * (b[i] * b[i])))
  }

  /** Where a layer's integration stopped: the linear state reached, and the fault that stopped it. */
  datatype Settled = Settled(lin: seq<real>, fault: Option<Fault>)

  /**
   * The mesh loop of `Predict`/`Observe`: the contributions are added one
   * after the other, and the first that fails stops the loop with the
   * state reached so far.
   */
  function Integrate(lin: seq<real>, contribs: seq<Option<seq<real>>>, len: nat): (s: Settled)
    ensures |s.lin| == |lin|
    ensures forall i :: 0 <= i < |lin| ==> s.lin[i] >= lin[i]
    ensures |contribs| == 0 ==> s == Settled(lin, None)
  {
    if |contribs| == 0 then Settled(lin, None)
    else
      var s := Integrate(lin, contribs[..|contribs| - 1], len);
      if s.fault.Some? then s
      else match Accumulate(s.lin, contribs[|contribs| - 1], len)
        case Ok(next) => Settled(next, None)
        case Raised(f) => Settled(s.lin, Some(f))
  }

  /**
   * The leaky integrator keeps what the leak leaves: one step never takes
   * a linear state below 0.9 of its value, keeps a non-negative state
   * non-negative, and without any mesh it is exactly the leak.
   */
  lemma IntegrateBounds(lin: seq<real>, contribs: seq<Option<seq<real>>>, len: nat)
    ensures var s := Integrate(Decay(lin), contribs, len);
      && |s.lin| == |lin|
      && (forall i :: 0 <= i < |lin| ==> s.lin[i] >= 0.9 * lin[i])
      && ((forall i :: 0 <= i < |lin| ==> lin[i] >= 0.0) ==> forall i :: 0 <= i < |lin| ==> s.lin[i] >= 0.0)
      && (|contribs| == 0 ==> s.fault.None? && forall i :: 0 <= i < |lin| ==> s.lin[i] == 0.9 * lin[i])
  {
  }

  /** One more contribution extends an unfailed integration by one `Accumulate`. */
  lemma IntegrateExtend(lin: seq<real>, contribs: seq<Option<seq<real>>>, len: nat, k: nat, cur: seq<real>)
    requires k < |contribs|
    requires Integrate(lin, contribs[..k], len) == Settled(cur, None)
    ensures Integrate(lin, contribs[..k + 1], len) ==
      match Accumulate(cur, contribs[k], len)
      case Ok(next) => Settled(next, None)
      case Raised(f) => Settled(cur, Some(f))
  {
    assert contribs[..k + 1][..k] == contribs[..k];
  }

  /** Once a contribution has failed, the later ones are never added. */
  lemma {:induction false} IntegrateStopsAtFault(lin: seq<real>, contribs: seq<Option<seq<real>>>, len: nat, k: nat)
    requires k <= |contribs|
    requires Integrate(lin, contribs[..k], len).fault.Some?
    ensures Integrate(lin, contribs, len) == Integrate(lin, contribs[..k], len)
  {
    if k == |contribs| {
      assert contribs[..k] == contribs;
    } else {
      var front := contribs[..|contribs| - 1];
      assert front[..k] == contribs[..k];
      IntegrateStopsAtFault(lin, front, len, k);
    }
  }

  /**
   * The loop over the meshes shared by `Predict` and `Observe`: starting
   * from the leaked state, add one contribution after the other until one
   * fails.
   */
  method Settle(start: seq<real>, contribs: seq<Option<seq<real>>>, len: nat) returns (s: Settled)
    ensures s == Integrate(start, contribs, len)
  {
    var cur := start;
    var k := 0;
    while k < |contribs|
      invariant 0 <= k <= |contribs|
      invariant Integrate(start, contribs[..k], len) == Settled(cur, None)
    {
      IntegrateExtend(start, contribs, len, k, cur);
      var a := Accumulate(cur, contribs[k], len);
      if a.Raised? {
        IntegrateStopsAtFault(start, contribs, len, k + 1);
        return Settled(cur, Some(a.fault));
      }
      cur := a.value;
      k := k + 1;
    }
    assert contribs[..k] == contribs;
    s := Settled(cur, None);
  }

  /** `m.T` for the first `cols` columns of `m`: `Transpose` without asking for a proper matrix. */
  function TransposeAny(m: seq<seq<real>>, cols: nat): (t: seq<seq<real>>)
    ensures |t| == cols && Rectangular(t, |m|)
  {
    seq(cols, j requires 0 <= j < cols => seq(|m|, i requires 0 <= i < |m| => if j < |m[i]| then m[i][j] else 0.0))
  }

  /** `act(lin)` for an activation that acts entry by entry, as the package's sigmoid does. */
  function Activate(act: real -> real, lin: seq<real>): (a: seq<real>)
    ensures |a| == |lin| && forall i :: 0 <= i < |lin| ==> a[i] == act(lin[i])
  {
    seq(|lin|, i requires 0 <= i < |lin| => act(lin[i]))
  }

  /**
   * A mesh feeding a layer. A forward mesh (`target == null`) owns its
   * weights; a feedback mesh (`fbMesh`) multiplies by its target's matrix
   * transposed and ignores its own.
   */
  class Mesh {
    const size: nat
    var matrix: seq<seq<real>>
    var cols: nat
    const inLayer: Layer
    const rate: real
    const target: Mesh?
    /** How many feedback meshes stand between this one and a forward mesh: 0 for a forward mesh. */
    const depth: nat
    /** The meshes `get` reaches by following targets: none for a forward mesh. */
    const below: set<Mesh>

    /** The target of a feedback mesh is nearer to a forward mesh, and its own chain lies below this one. */
    predicate Linked()
    {
      target != null ==> target.depth < depth && target in below && target.below <= below
    }

    /** The weights this mesh multiplies by are a proper matrix. */
    ghost predicate Ready()
      reads this, target
    {
      Rectangular(matrix, cols) && (target != null ==> Rectangular(target.matrix, target.cols))
    }

    /** Every mesh of the chain is a proper matrix and linked, so `get` can follow the targets. */
    ghost predicate Resolved()
      reads {this} + below
      decreases depth
    {
      Rectangular(matrix, cols) && Linked() && (target != null ==> target.Resolved())
    }

    /** A forward mesh of `max(size, len(inLayer))` neurons, starting from the identity. */
    constructor (size: nat, inLayer: Layer, learningRate: real)
      ensures this.size == Max(size, |inLayer.preAct|) && this.inLayer == inLayer && rate == learningRate
      ensures matrix == Identity(this.size) && cols == this.size && target == null && depth == 0 && Ready()
    {
      this.size := Max(size, |inLayer.preAct|);
      this.inLayer := inLayer;
      rate := learningRate;
      target := null;
      depth := 0;
      below := {};
      matrix := Identity(Max(size, |inLayer.preAct|));
      cols := Max(size, |inLayer.preAct|);
    }

    /** `fbMesh(mesh, inLayer)`: a feedback mesh over `mesh`, with the default rate 0.5. */
    constructor Feedback(mesh: Mesh, inLayer: Layer)
      requires Rectangular(mesh.matrix, mesh.cols)
      ensures size == Max(mesh.size, |inLayer.preAct|) && this.inLayer == inLayer && rate == 0.5
      ensures matrix == Identity(size) && cols == size && target == mesh && depth == mesh.depth + 1 && Linked() && Ready()
    {
      size := Max(mesh.size, |inLayer.preAct|);
      this.inLayer := inLayer;
      rate := 0.5;
      target := mesh;
      depth := mesh.depth + 1;
      below := {mesh} + mesh.below;
      matrix := Identity(Max(mesh.size, |inLayer.preAct|));
      cols := Max(mesh.size, |inLayer.preAct|);
    }

    /** The number of columns of `Weights()`. */
    function WeightCols(): nat
      reads this, target
    {
      if target == null then cols else |target.matrix|
    }

    /**
     * The matrix `apply` multiplies by: the own weights of a forward mesh,
     * the target's own matrix transposed for a feedback mesh.
     */
    function Weights(): (w: seq<seq<real>>)
      requires Ready()
      reads this, target
      ensures Rectangular(w, WeightCols())
      ensures target == null ==> w == matrix
      ensures target != null ==> (|w| == target.cols &&
        forall i, j :: 0 <= i < |target.matrix| && 0 <= j < target.cols ==> w[j][i] == target.matrix[i][j])
    {
      if target == null then matrix else Transpose(target.matrix, target.cols)
    }

    /** The number of rows of `Get()`. */
    function GetRows(): nat
      reads {this} + below
      decreases depth
    {
      if target != null && Linked() then target.GetCols() else |matrix|
    }

    /** The number of columns of `Get()`. */
    function GetCols(): nat
      reads {this} + below
      decreases depth
    {
      if target != null && Linked() then target.GetRows() else cols
    }

    /**
     * `get`: the own weights of a forward mesh; for a feedback mesh, the
     * transpose of whatever its target's `get` returns. The constructors
     * only build linked meshes; the test tells Dafny why the recursion ends.
     */
    function Get(): seq<seq<real>>
      reads {this} + below
      decreases depth
    {
      if target != null && Linked() then TransposeAny(target.Get(), target.GetCols()) else matrix
    }

    /** Along a resolved chain, `get` is a proper `GetRows()` by `GetCols()` matrix. */
    lemma {:induction false} GetShape()
      requires Resolved()
      ensures |Get()| == GetRows() && Rectangular(Get(), GetCols())
      decreases depth
    {
      if target != null {
        target.GetShape();
      }
    }

    /** A feedback mesh's `get` is its target's `get` transposed, entry by entry. */
    lemma GetOfFeedback()
      requires Resolved() && target != null
      ensures Rectangular(target.Get(), target.GetCols())
      ensures |Get()| == target.GetCols() && Rectangular(Get(), |target.Get()|) && GetCols() == |target.Get()|
      ensures forall i, j :: 0 <= i < |target.Get()| && 0 <= j < target.GetCols() ==> Get()[j][i] == target.Get()[i][j]
    {
      target.GetShape();
    }

    /** `get` and the matrix `apply` multiplies by agree unless the target is itself a feedback mesh. */
    lemma GetIsWeights()
      requires Resolved() && (target != null ==> target.target == null)
      ensures Ready() && GetCols() == WeightCols() && Get() == Weights()
    {
      if target != null {
        GetOfFeedback();
        var g, w := Get(), Weights();
        assert |g| == |w|;
        forall j | 0 <= j < |g|
          ensures g[j] == w[j]
        {
          assert |g[j]| == |w[j]|;
        }
      }
    }

    /** An `fbMesh` over an `fbMesh` over a forward mesh `get`s the forward mesh's own weights. */
    lemma GetOfNestedFeedback()
      requires Resolved() && target != null && target.target != null && target.target.target == null
      ensures Get() == target.target.matrix
    {
      var m := target.target;
      GetOfFeedback();
      target.GetOfFeedback();
      assert m.Resolved();
      var t := target.Get();
      var g := Get();
      assert |g| == |m.matrix|;
      forall i | 0 <= i < |m.matrix|
        ensures g[i] == m.matrix[i]
      {
        assert |g[i]| == m.cols == |m.matrix[i]|;
        forall j | 0 <= j < m.cols
          ensures g[i][j] == m.matrix[i][j]
        {
          assert g[i][j] == t[j][i];
        }
      }
    }

    /** `apply`: the product with `data`, or `None` when numpy refuses the shapes. */
    function Apply(data: seq<real>): (r: Option<seq<real>>)
      requires Ready()
      reads this, target
      ensures r.Some? <==> |data| == WeightCols()
      ensures r.Some? ==> |r.value| == |Weights()| && forall i :: 0 <= i < |Weights()| ==> r.value[i] == Dot(Weights()[i], data)
    {
      MatVec(Weights(), WeightCols(), data)
    }

    /** `Predict` (`pre`) or `Observe`: the product with the sending layer's activity of that phase. */
    function Output(pre: bool): (r: Option<seq<real>>)
      requires Ready()
      reads this, target, inLayer
      ensures r == Apply(if pre then inLayer.preAct else inLayer.obsAct)
    {
      Apply(if pre then inLayer.preAct else inLayer.obsAct)
    }

    /**
     * The weights after `Update(delta)`: a feedback mesh keeps them; a
     * forward mesh adds `rate * delta`, broadcast onto its shape, or fails.
     */
    function Updated(delta: seq<seq<real>>): (r: Option<seq<seq<real>>>)
      requires Rectangular(matrix, cols)
      reads this
      ensures target != null ==> r == Some(matrix)
      ensures target == null ==> (r.Some? <==> Broadcast2(delta, |matrix|, cols).Some?)
      ensures r.Some? ==> |r.value| == |matrix| && Rectangular(r.value, cols)
      ensures target == null && r.Some? ==> forall i, j :: 0 <= i < |matrix| && 0 <= j < cols ==>
        r.value[i][j] == matrix[i][j] + rate * Broadcast2(delta, |matrix|, cols).value[i][j]
    {
      if target != null then Some(matrix)
      else match Broadcast2(delta, |matrix|, cols)
        case None => None
        case Some(b) =>
          var m, c := matrix, cols;
          Some(seq(|m|, i requires 0 <= i < |m| => seq(c, j requires 0 <= j < c => m[i][j] + rate * b[i][j])))
    }

    /** `Update(delta)`: `matrix += rate * delta` on a forward mesh, nothing on a feedback mesh. */
    method Update(delta: seq<seq<real>>) returns (r: Outcome<()>)
      requires Ready()
      modifies this`matrix
      ensures Ready()
      ensures old(Updated(delta)).None? ==> r == Raised(ShapeMismatch) && matrix == old(matrix)
      ensures old(Updated(delta)).Some? ==> r == Ok(()) && matrix == old(Updated(delta)).value
    {
      match Updated(delta)
      case None => r := Raised(ShapeMismatch);
      case Some(m) => matrix := m; r := Ok(());
    }

    /** `set`: a forward mesh takes the given weights; a feedback mesh raises. */
    method Set(m: seq<seq<real>>, c: nat) returns (r: Outcome<()>)
      requires Rectangular(m, c)
      modifies this`matrix, this`cols
      ensures target != null ==> r == Raised(UnsupportedOperation) && matrix == old(matrix) && cols == old(cols)
      ensures target == null ==> r == Ok(()) && matrix == m && cols == c
    {
      if target != null {
        return Raised(UnsupportedOperation);
      }
      matrix, cols := m, c;
      r := Ok(());
    }
  }

  /** The objects the contributions of `ms` depend on: the meshes, their targets and their sending layers. */
  function Footprint(ms: seq<Mesh>): (fp: set<object?>)
    ensures forall k :: 0 <= k < |ms| ==> ms[k] in fp && ms[k].target in fp && ms[k].inLayer in fp
  {
    if |ms| == 0 then {}
    else
      var m := ms[|ms| - 1];
      Footprint(ms[..|ms| - 1]) + {m, m.target, m.inLayer}
  }

  ghost predicate AllReady(ms: seq<Mesh>)
    reads Footprint(ms)
  {
    forall k :: 0 <= k < |ms| ==> ms[k].Ready()
  }

  /** The contributions of `ms` in one phase, in order. */
  function Contributions(ms: seq<Mesh>, pre: bool): (r: seq<Option<seq<real>>>)
    requires AllReady(ms)
    reads Footprint(ms)
    ensures |r| == |ms| && forall k :: 0 <= k < |ms| ==> r[k] == ms[k].Output(pre)
  {
    if |ms| == 0 then []
    else Contributions(ms[..|ms| - 1], pre) + [ms[|ms| - 1].Output(pre)]
  }

  class Layer {
    var preLin: seq<real>
    var preAct: seq<real>
    var obsLin: seq<real>
    var obsAct: seq<real>
    const act: real -> real
    var rule: Rule
    var meshes: seq<Mesh>
    const isInput: bool
    var freeze: bool

    /** A layer of `length` neurons at rest, with no meshes. */
    constructor (length: nat, activation: real -> real, learningRule: Rule, isInput: bool)
      ensures preLin == Zeros(length) && preAct == Zeros(length) && obsLin == Zeros(length) && obsAct == Zeros(length)
      ensures act == activation && rule == learningRule && this.isInput == isInput && !freeze && meshes == []
    {
      preLin, preAct, obsLin, obsAct := Zeros(length), Zeros(length), Zeros(length), Zeros(length);
      act := activation;
      rule := learningRule;
      meshes := [];
      this.isInput := isInput;
      freeze := false;
    }

    /** `len(layer)` */
    function Len(): nat
      reads this`preAct
    {
      |preAct|
    }

    function State(): Activity
      reads this`preLin, this`preAct, this`obsLin, this`obsAct
    {
      Activity(preLin, preAct, obsLin, obsAct)
    }

    ghost predicate MeshesReady()
      reads this, Footprint(meshes)
    {
      AllReady(meshes)
    }

    /**
     * The predict state is one step of the leaky integrator from `before`:
     * no entry below 0.9 of where it was, and the activity recomputed.
     */
    ghost predicate PredictStepped(before: seq<real>)
      reads this`preLin, this`preAct
    {
      && |preLin| == |before|
      && (forall j :: 0 <= j < |before| ==> preLin[j] >= 0.9 * before[j])
      && preAct == Activate(act, preLin)
    }

    /** The same for the observe state. */
    ghost predicate ObserveStepped(before: seq<real>)
      reads this`obsLin, this`obsAct
    {
      && |obsLin| == |before|
      && (forall j :: 0 <= j < |before| ==> obsLin[j] >= 0.9 * before[j])
      && obsAct == Activate(act, obsLin)
    }

    /**
     * `Predict`: one step of the leaky integrator on the predict state,
     * then the activation; a failing mesh leaves the linear state where it
     * stopped and raises.
     */
    method Predict() returns (r: Outcome<seq<real>>)
      requires MeshesReady()
      modifies this`preLin, this`preAct
      ensures var s := old(Integrate(Decay(preLin), Contributions(meshes, true), Len()));
        && preLin == s.lin
        && (s.fault.None? ==> preAct == Activate(act, preLin) && r == Ok(preAct))
        && (s.fault.Some? ==> preAct == old(preAct) && r == Raised(s.fault.value))
      ensures r.Ok? ==> PredictStepped(old(preLin))
    {
      IntegrateBounds(preLin, Contributions(meshes, true), |preAct|);
      var s := Settle(Decay(preLin), Contributions(meshes, true), |preAct|);
      preLin := s.lin;
      if s.fault.Some? {
        return Raised(s.fault.value);
      }
      preAct := Activate(act, preLin);
      r := Ok(preAct);
    }

    /** `Observe`: the same step on the observe state. */
    method Observe() returns (r: Outcome<seq<real>>)
      requires MeshesReady()
      modifies this`obsLin, this`obsAct
      ensures var s := old(Integrate(Decay(obsLin), Contributions(meshes, false), Len()));
        && obsLin == s.lin
        && (s.fault.None? ==> obsAct == Activate(act, obsLin) && r == Ok(obsAct))
        && (s.fault.Some? ==> obsAct == old(obsAct) && r == Raised(s.fault.value))
      ensures r.Ok? ==> ObserveStepped(old(obsLin))
    {
      IntegrateBounds(obsLin, Contributions(meshes, false), |preAct|);
      var s := Settle(Decay(obsLin), Contributions(meshes, false), |preAct|);
      obsLin := s.lin;
      if s.fault.Some? {
        return Raised(s.fault.value);
      }
      obsAct := Activate(act, obsLin);
      r := Ok(obsAct);
    }

    /** `ClampPre`: both predict vectors become `data` cut to the layer's length, not padded. */
    method ClampPre(data: seq<real>)
      modifies this`preLin, this`preAct
      ensures preLin == data[..Min(|data|, old(Len()))] && preAct == preLin
    {
      preLin := data[..Min(|data|, |preAct|)];
      preAct := preLin;
    }

    /** `ClampObs`: the same for the observe vectors. */
    method ClampObs(data: seq<real>)
      modifies this`obsLin, this`obsAct
      ensures obsLin == data[..Min(|data|, Len())] && obsAct == obsLin
    {
      obsLin := data[..Min(|data|, |preAct|)];
      obsAct := obsLin;
    }

    /** The weight change the layer's rule asks of its first mesh. */
    function Delta(): seq<seq<real>>
      requires |meshes| > 0
      reads this, meshes[0], meshes[0].inLayer
    {
      rule(meshes[0].inLayer.State(), State())
    }

    /**
     * `Learn`: an input or frozen layer does nothing; otherwise only the
     * first mesh is updated, with the rule applied to its sending layer and
     * this one. A layer without meshes fails on `meshes[0]`.
     */
    method Learn() returns (r: Outcome<()>)
      requires MeshesReady()
      modifies (if !(isInput || freeze) && |meshes| > 0 then {meshes[0]} else {})`matrix
      ensures MeshesReady()
      ensures isInput || freeze ==> r == Ok(()) && (|meshes| > 0 ==> meshes[0].matrix == old(meshes[0].matrix))
      ensures !(isInput || freeze) && |meshes| == 0 ==> r == Raised(IndexOutOfRange)
      ensures !(isInput || freeze) && |meshes| > 0 ==>
        var u := old(meshes[0].Updated(Delta()));
        && (u.None? ==> r == Raised(ShapeMismatch) && meshes[0].matrix == old(meshes[0].matrix))
        && (u.Some? ==> r == Ok(()) && meshes[0].matrix == u.value)
    {
      if isInput || freeze {
        return Ok(());
      }
      if |meshes| == 0 {
        return Raised(IndexOutOfRange);
      }
      var delta := Delta();
      r := meshes[0].Update(delta);
    }

    /** All four state vectors are zeros of length `n`. */
    ghost predicate AtRest(n: nat)
      reads this`preLin, this`preAct, this`obsLin, this`obsAct
    {
      preLin == Zeros(n) && preAct == Zeros(n) && obsLin == Zeros(n) && obsAct == Zeros(n)
    }

    /** `resetActivity`: all four vectors become zeros of the layer's length. */
    method ResetActivity()
      modifies this`preLin, this`preAct, this`obsLin, this`obsAct
      ensures AtRest(old(Len()))
    {
      var n := |preAct|;
      preLin, preAct, obsLin, obsAct := Zeros(n), Zeros(n), Zeros(n), Zeros(n);
    }

    method Freeze()
      modifies this`freeze
      ensures freeze
    {
      freeze := true;
    }

    method Unfreeze()
      modifies this`freeze
      ensures !freeze
    {
      freeze := false;
    }

    method AddMesh(mesh: Mesh)
      modifies this`meshes
      ensures meshes == old(meshes) + [mesh]
    {
      meshes := meshes + [mesh];
    }

    /** The observe state holds `lin` and `act`, broadcast onto `nl` and `na` entries. */
    ghost predicate ObserveHolds(lin: seq<real>, act: seq<real>, nl: nat, na: nat)
      reads this`obsLin, this`obsAct
    {
      && Broadcast(lin, nl).Some? && obsLin == Broadcast(lin, nl).value
      && Broadcast(act, na).Some? && obsAct == Broadcast(act, na).value
    }

    /** The predict state holds `lin` and `act`, broadcast onto `nl` and `na` entries. */
    ghost predicate PredictHolds(lin: seq<real>, act: seq<real>, nl: nat, na: nat)
      reads this`preLin, this`preAct
    {
      && Broadcast(lin, nl).Some? && preLin == Broadcast(lin, nl).value
      && Broadcast(act, na).Some? && preAct == Broadcast(act, na).value
    }

    /**
     * `obsLin[:] = preLin; obsAct[:] = preAct`: an in-place copy, which
     * keeps the length of the destination and broadcasts the source onto
     * it; the first copy that numpy refuses raises.
     */
    method HandOff() returns (r: Outcome<()>)
      modifies this`obsLin, this`obsAct
      ensures var l, a := Broadcast(old(preLin), old(|obsLin|)), Broadcast(old(preAct), old(|obsAct|));
        && (l.None? ==> r == Raised(ShapeMismatch) && obsLin == old(obsLin) && obsAct == old(obsAct))
        && (l.Some? ==> obsLin == l.value)
        && (l.Some? && a.None? ==> r == Raised(ShapeMismatch) && obsAct == old(obsAct))
        && (l.Some? && a.Some? ==> r == Ok(()) && obsAct == a.value)
      ensures r.Raised? ==> r.fault == ShapeMismatch
      ensures r.Ok? ==> ObserveHolds(preLin, preAct, old(|obsLin|), old(|obsAct|))
    {
      match Broadcast(preLin, |obsLin|)
      case None => return Raised(ShapeMismatch);
      case Some(l) => obsLin := l;
      match Broadcast(preAct, |obsAct|)
      case None => return Raised(ShapeMismatch);
      case Some(a) => obsAct := a;
      r := Ok(());
    }

    /** `preLin[:] = obsLin; preAct[:] = obsAct`: the same copy, back into the predict state. */
    method CarryOver() returns (r: Outcome<()>)
      modifies this`preLin, this`preAct
      ensures var l, a := Broadcast(old(obsLin), old(|preLin|)), Broadcast(old(obsAct), old(|preAct|));
        && (l.None? ==> r == Raised(ShapeMismatch) && preLin == old(preLin) && preAct == old(preAct))
        && (l.Some? ==> preLin == l.value)
        && (l.Some? && a.None? ==> r == Raised(ShapeMismatch) && preAct == old(preAct))
        && (l.Some? && a.Some? ==> r == Ok(()) && preAct == a.value)
      ensures r.Raised? ==> r.fault == ShapeMismatch
      ensures r.Ok? ==> PredictHolds(obsLin, obsAct, old(|preLin|), old(|preAct|))
    {
      match Broadcast(obsLin, |preLin|)
      case None => return Raised(ShapeMismatch);
      case Some(l) => preLin := l;
      match Broadcast(obsAct, |preAct|)
      case None => return Raised(ShapeMismatch);
      case Some(a) => preAct := a;
      r := Ok(());
    }
  }
}
