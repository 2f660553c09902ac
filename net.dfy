/**
 * `Net` and `FFFB` of src/vivilux/__init__.py: an ordered list of layers,
 * each fed by a forward mesh from its predecessor (and, in `FFFB`, by a
 * feedback mesh reading the next layer's forward mesh backwards), and the
 * predict/observe/learn protocol that drives them.
 *
 * The net records, as a ghost trace, the phases it runs; the learning
 * protocol is stated as the exact sequence of phases it appends.
 */
module Nets {
  import opened Common
  import opened Network

  /** One phase of the network, as the trace records it. */
  datatype Event =
    | Predicted(input: seq<real>, output: seq<real>)  // `Predict(input)` returned `output`
    | Observed(input: seq<real>, target: seq<real>)   // `Observe(input, target)`
    | HandedOff                                       // predict state copied into the observe state
    | Learned                                         // every layer's `Learn`
    | CarriedOver                                     // observe state copied back into the predict state
    | ActivityReset                                   // `resetActivity`

  function Repeat<T>(x: T, n: nat): (r: seq<T>)
    ensures |r| == n && forall t :: 0 <= t < n ==> r[t] == x
  {
    seq(n, _ => x)
  }

  function Concat<T>(xs: seq<seq<T>>): seq<T>
  {
    if |xs| == 0 then [] else Concat(xs[..|xs| - 1]) + xs[|xs| - 1]
  }

  lemma ConcatSnoc<T>(xs: seq<seq<T>>, x: seq<T>)
    ensures Concat(xs + [x]) == Concat(xs) + x
  {
    assert (xs + [x])[..|xs|] == xs;
  }

  lemma AppendAssoc<T>(a: seq<T>, b: seq<T>, c: seq<T>)
    ensures (a + b) + c == a + (b + c)
  {
  }

  /** `k` predictions of `input`, in a row. */
  ghost predicate PredictRun(es: seq<Event>, input: seq<real>, k: nat)
  {
    |es| == k && forall t :: 0 <= t < k ==> es[t].Predicted? && es[t].input == input
  }

  /** The phases of one training sample after its predictions: hand-off, `k` observations, learning, carry-over. */
  ghost function TrainPhases(input: seq<real>, target: seq<real>, k: nat): seq<Event>
  {
    [HandedOff] + Repeat(Observed(input, target), k) + [Learned, CarriedOver]
  }

  /**
   * The phases of one training sample: an optional reset, `k` predictions,
   * then its training phases.
   */
  ghost function SamplePhases(reset: bool, predictions: seq<Event>, input: seq<real>, target: seq<real>, k: nat): seq<Event>
  {
    (if reset then [ActivityReset] else []) + predictions + TrainPhases(input, target, k)
  }

  /** All meshes owned by the layers `ls`. */
  ghost function MeshesOf(ls: seq<Layer>): set<Mesh>
    reads (set k | 0 <= k < |ls| :: ls[k])`meshes
  {
    set k, j | 0 <= k < |ls| && 0 <= j < |ls[k].meshes| :: ls[k].meshes[j]
  }

  /** The meshes `getWeights(ffOnly)` reads from one layer's `ms`: the first only, or all. */
  function Taken(ms: seq<Mesh>, ffOnly: bool): (r: seq<Mesh>)
    ensures |r| <= |ms| && forall t :: 0 <= t < |r| ==> r[t] == ms[t]
  {
    if ffOnly then ms[..Min(1, |ms|)] else ms
  }

  /** The meshes `getWeights(ffOnly)` reads, in order. */
  ghost function WeightMeshes(ls: seq<Layer>, ffOnly: bool): seq<Mesh>
    reads (set k | 0 <= k < |ls| :: ls[k])`meshes
  {
    if |ls| == 0 then [] else WeightMeshes(ls[..|ls| - 1], ffOnly) + Taken(ls[|ls| - 1].meshes, ffOnly)
  }

  /**
   * `getWeights(False)` reads exactly the meshes the layers own, and
   * `getWeights(True)` exactly their first meshes.
   */
  lemma {:induction false} WeightMeshesExactly(ls: seq<Layer>, ffOnly: bool, m: Mesh)
    ensures m in WeightMeshes(ls, ffOnly) <==>
      exists k, j :: 0 <= k < |ls| && 0 <= j < |ls[k].meshes| && (ffOnly ==> j == 0) && ls[k].meshes[j] == m
  {
    if |ls| > 0 {
      var n := |ls| - 1;
      var ms := ls[n].meshes;
      var last := Taken(ms, ffOnly);
      WeightMeshesExactly(ls[..n], ffOnly, m);
      assert WeightMeshes(ls, ffOnly) == WeightMeshes(ls[..n], ffOnly) + last;
      if m in WeightMeshes(ls, ffOnly) {
        if m in last {
          var j :| 0 <= j < |last| && last[j] == m;
          assert ls[n].meshes[j] == m;
        } else {
          var k, j :| 0 <= k < n && 0 <= j < |ls[..n][k].meshes| && (ffOnly ==> j == 0) && ls[..n][k].meshes[j] == m;
          assert ls[k].meshes[j] == m;
        }
      }
      if exists k, j :: 0 <= k < |ls| && 0 <= j < |ls[k].meshes| && (ffOnly ==> j == 0) && ls[k].meshes[j] == m {
        var k, j :| 0 <= k < |ls| && 0 <= j < |ls[k].meshes| && (ffOnly ==> j == 0) && ls[k].meshes[j] == m;
        if k == n {
          assert last[j] == m;
        } else {
          assert ls[..n][k].meshes[j] == m;
        }
      }
    }
  }

  /** The row `Infer` (or `Learn`) keeps for a datum: its last prediction, broadcast to the row width. */
  ghost predicate KeptRow(run: seq<Event>, row: seq<real>, width: nat)
  {
    |run| > 0 && run[|run| - 1].Predicted? && Broadcast(run[|run| - 1].output, width) == Some(row)
  }

  /** `rows` is what `Infer(inData, k)` returns after the prediction runs `runs`. */
  ghost predicate Inferred(rows: seq<seq<real>>, runs: seq<seq<Event>>, inData: seq<seq<real>>, width: nat, k: nat)
  {
    |rows| == |inData| && |runs| == |inData| &&
    forall i :: 0 <= i < |inData| ==> PredictRun(runs[i], inData[i], k) && KeptRow(runs[i], rows[i], width)
  }

  lemma InferredStep(rows: seq<seq<real>>, runs: seq<seq<Event>>, inData: seq<seq<real>>, width: nat, k: nat,
                      i: nat, row: seq<real>, run: seq<Event>)
    requires i < |inData| && Inferred(rows, runs, inData[..i], width, k)
    requires PredictRun(run, inData[i], k) && KeptRow(run, row, width)
    ensures Inferred(rows + [row], runs + [run], inData[..i + 1], width, k)
  {
    var rows', runs', ins := rows + [row], runs + [run], inData[..i + 1];
    forall j | 0 <= j < i + 1
      ensures PredictRun(runs'[j], ins[j], k) && KeptRow(runs'[j], rows'[j], width)
    {
      if j < i {
        assert runs'[j] == runs[j] && rows'[j] == rows[j] && ins[j] == inData[..i][j];
      }
    }
  }

  /**
   * `rows` is `epochResults` after one epoch of `Learn` whose samples ran
   * the prediction runs `runs`: one row per sample of `zip(inData,
   * outData)`, and the rows past the samples still zero.
   */
  ghost predicate EpochRows(rows: seq<seq<real>>, runs: seq<seq<Event>>, inData: seq<seq<real>>,
                            outData: seq<seq<real>>, width: nat, k: nat)
  {
    var m := Min(|inData|, |outData|);
    |rows| == |outData| && |runs| == m &&
    (forall s :: 0 <= s < m ==> PredictRun(runs[s], inData[s], k) && KeptRow(runs[s], rows[s], width)) &&
    (forall s :: m <= s < |outData| ==> rows[s] == Zeros(width))
  }

  /**
   * `current` is `epochResults` after the first `s` samples of an epoch
   * that started from `rows`: the sample rows are the kept predictions of
   * `runs`, the rest are untouched.
   */
  ghost predicate RowsSoFar(current: seq<seq<real>>, runs: seq<seq<Event>>, rows: seq<seq<real>>,
                            inData: seq<seq<real>>, width: nat, k: nat, s: nat)
  {
    |runs| == s && |current| == |rows| && s <= |rows| && s <= |inData| &&
    (forall q :: 0 <= q < s ==> PredictRun(runs[q], inData[q], k) && KeptRow(runs[q], current[q], width)) &&
    (forall q :: s <= q < |rows| ==> current[q] == rows[q])
  }

  /** One more sample: its row joins the rows so far and its phases the epoch's. */
  lemma SampleDone(current: seq<seq<real>>, runs: seq<seq<Event>>, rows: seq<seq<real>>,
                   inData: seq<seq<real>>, outData: seq<seq<real>>, width: nat, k: nat, s: nat,
                   reset: bool, row: seq<real>, run: seq<Event>)
    requires RowsSoFar(current, runs, rows, inData, width, k, s) && s < |rows| == |outData| && s < |inData|
    requires PredictRun(run, inData[s], k) && KeptRow(run, row, width)
    ensures RowsSoFar(current[s := row], runs + [run], rows, inData, width, k, s + 1)
    ensures EpochPhases(reset, runs + [run], inData, outData, k) ==
            EpochPhases(reset, runs, inData, outData, k) + SamplePhases(reset, run, inData[s], outData[s], k)
  {
    assert (runs + [run])[..s] == runs;
  }

  /** The phases of one epoch of `Learn`, sample after sample. */
  ghost function EpochPhases(reset: bool, runs: seq<seq<Event>>, inData: seq<seq<real>>,
                             outData: seq<seq<real>>, k: nat): seq<Event>
    requires |runs| <= |inData| && |runs| <= |outData|
  {
    if |runs| == 0 then []
    else EpochPhases(reset, runs[..|runs| - 1], inData, outData, k) +
         SamplePhases(reset, runs[|runs| - 1], inData[|runs| - 1], outData[|runs| - 1], k)
  }

  /** Every epoch ran no more samples than there are pairs of data. */
  ghost predicate Trained(epochs: seq<seq<seq<Event>>>, inData: seq<seq<real>>, outData: seq<seq<real>>)
  {
    forall e :: 0 <= e < |epochs| ==> |epochs[e]| <= |inData| && |epochs[e]| <= |outData|
  }

  /** The phases of all epochs of `Learn`, epoch after epoch. */
  ghost function TrainingPhases(reset: bool, epochs: seq<seq<seq<Event>>>, inData: seq<seq<real>>,
                                outData: seq<seq<real>>, k: nat): seq<Event>
    requires Trained(epochs, inData, outData)
  {
    if |epochs| == 0 then []
    else TrainingPhases(reset, epochs[..|epochs| - 1], inData, outData, k) +
         EpochPhases(reset, epochs[|epochs| - 1], inData, outData, k)
  }

  class Net {
    const layers: seq<Layer>
    const metric: Metric
    ghost var trace: seq<Event>

    ghost function Layers(): set<Layer>
    {
      set k | 0 <= k < |layers| :: layers[k]
    }

    ghost predicate LayersDistinct()
    {
      forall i, j :: 0 <= i < j < |layers| ==> layers[i] != layers[j]
    }

    /** Every mesh is a proper matrix, and a feedback mesh reads a mesh of the net. */
    ghost predicate MeshesClosed()
      reads Layers()`meshes, MeshesOf(layers)`matrix, MeshesOf(layers)`cols
    {
      forall m :: m in MeshesOf(layers) ==>
        Rectangular(m.matrix, m.cols) && (m.target != null ==> m.target in MeshesOf(layers))
    }

    /** Every mesh's target, if any, is nearer to a forward mesh. */
    ghost predicate MeshesLinked()
      reads Layers()`meshes
    {
      forall m :: m in MeshesOf(layers) ==> m.Linked()
    }

    /** Every mesh of a valid net can follow its targets, so its `get` is defined. */
    lemma MeshResolved(m: Mesh)
      requires Valid() && MeshesLinked() && m in MeshesOf(layers)
      ensures m.Resolved()
      decreases m.depth
    {
      if m.target != null {
        MeshResolved(m.target);
      }
    }

    /** No two layers share their first mesh, so learning in one layer never moves another's weights. */
    ghost predicate FirstMeshesDistinct()
      reads Layers()`meshes
    {
      forall i, j :: 0 <= i < j < |layers| && |layers[i].meshes| > 0 && |layers[j].meshes| > 0 ==>
        layers[i].meshes[0] != layers[j].meshes[0]
    }

    ghost predicate Valid()
      reads Layers()`meshes, MeshesOf(layers)`matrix, MeshesOf(layers)`cols
    {
      LayersDistinct() && MeshesClosed() && FirstMeshesDistinct()
    }

    /** Every layer's meshes are ready to use. */
    ghost predicate LayersReady()
      reads this, Layers(), set p, m | 0 <= p < |layers| && m in Footprint(layers[p].meshes) :: m
    {
      forall p :: 0 <= p < |layers| ==> layers[p].MeshesReady()
    }

    lemma ValidLayersReady()
      requires Valid()
      ensures LayersReady()
    {
      forall p | 0 <= p < |layers|
        ensures layers[p].MeshesReady()
      {
        ValidReady(p);
      }
    }

    lemma ValidReady(i: nat)
      requires Valid() && i < |layers|
      ensures layers[i].MeshesReady()
    {
      var ms := layers[i].meshes;
      forall k | 0 <= k < |ms|
        ensures ms[k].Ready()
      {
        assert ms[k] in MeshesOf(layers);
      }
    }

    /** Changing only activity (no mesh list, weight or width) keeps the net valid. */
    twostate lemma ValidKept()
      requires old(Valid())
      requires forall p :: 0 <= p < |layers| ==> layers[p].meshes == old(layers[p].meshes)
      requires forall m :: m in old(MeshesOf(layers)) ==> m.matrix == old(m.matrix) && m.cols == old(m.cols)
      ensures Valid()
    {
      assert MeshesOf(layers) == old(MeshesOf(layers));
    }

    /** Moving one mesh's weights, and keeping them a proper matrix, keeps the net valid. */
    twostate lemma ValidAfterUpdate(m0: Mesh)
      requires old(Valid())
      requires forall p :: 0 <= p < |layers| ==> layers[p].meshes == old(layers[p].meshes)
      requires forall m :: m in old(MeshesOf(layers)) ==> m.cols == old(m.cols) && (m == m0 || m.matrix == old(m.matrix))
      requires Rectangular(m0.matrix, m0.cols)
      ensures Valid()
    {
      assert MeshesOf(layers) == old(MeshesOf(layers));
    }

    /**
     * `Net(layers, Mesh, metric, learningRate)`: every layer after the
     * first gets one new forward mesh from its predecessor.
     */
    constructor (layers: seq<Layer>, metric: Metric, learningRate: real)
      requires forall i, j :: 0 <= i < j < |layers| ==> layers[i] != layers[j]
      requires forall i :: 0 <= i < |layers| ==> layers[i].meshes == []
      modifies set k | 0 <= k < |layers| :: layers[k]
      ensures this.layers == layers && this.metric == metric && trace == [] && Valid()
      ensures MeshesLinked()
      ensures |layers| > 0 ==> layers[0].meshes == []
      ensures forall i :: 1 <= i < |layers| ==> Forward(i, learningRate) && |layers[i].meshes| == 1
    {
      this.layers := layers;
      this.metric := metric;
      trace := [];
      new;
      Connect(learningRate);
      assert Valid();
    }

    /**
     * `FFFB(layers, Mesh, metric, learningRate)`: the net above, and then
     * every interior layer also gets a feedback mesh over the next layer's
     * forward mesh.
     */
    constructor FFFB(layers: seq<Layer>, metric: Metric, learningRate: real)
      requires forall i, j :: 0 <= i < j < |layers| ==> layers[i] != layers[j]
      requires forall i :: 0 <= i < |layers| ==> layers[i].meshes == []
      modifies set k | 0 <= k < |layers| :: layers[k]
      ensures this.layers == layers && this.metric == metric && trace == [] && Valid()
      ensures MeshesLinked()
      ensures |layers| > 0 ==> layers[0].meshes == []
      ensures forall i :: 1 <= i < |layers| ==> Forward(i, learningRate)
      ensures |layers| > 0 ==> |layers[|layers| - 1].meshes| == Min(|layers| - 1, 1)
      ensures forall i :: 1 <= i < |layers| - 1 ==> |layers[i].meshes| == 2 && Feedback(i)
    {
      this.layers := layers;
      this.metric := metric;
      trace := [];
      new;
      ConnectFeedback(learningRate);
    }

    /** Layer `i`'s first mesh is a new forward mesh from layer `i - 1`. */
    ghost predicate Forward(i: nat, rate: real)
      requires 1 <= i < |layers|
      reads {layers[i - 1], layers[i]}`preAct, {layers[i]}`meshes, layers[i].meshes
    {
      && |layers[i].meshes| > 0
      && var m := layers[i].meshes[0];
      && m.target == null && m.inLayer == layers[i - 1] && m.rate == rate
      && m.size == Max(|layers[i].preAct|, |layers[i - 1].preAct|)
      && m.matrix == Identity(m.size) && m.cols == m.size
    }

    /** Layer `i`'s second mesh is the feedback view of layer `i + 1`'s first mesh. */
    ghost predicate Feedback(i: nat)
      requires 1 <= i < |layers| - 1
      reads {layers[i], layers[i + 1]}`meshes, {layers[i + 1]}`preAct, layers[i].meshes, layers[i + 1].meshes
    {
      && |layers[i].meshes| > 1 && |layers[i + 1].meshes| > 0
      && var fb, m := layers[i].meshes[1], layers[i + 1].meshes[0];
      && fb.target == m && fb.Linked() && fb.inLayer == layers[i + 1] && fb.rate == 0.5
      && fb.size == Max(m.size, |layers[i + 1].preAct|)
      && fb.matrix == Identity(fb.size) && fb.cols == fb.size
    }

    /** A net wired as `Net` builds it, with feedback meshes on the interior layers before `upto` is closed. */
    lemma WiredClosed(rate: real, upto: nat)
      requires |layers| > 0 ==> layers[0].meshes == []
      requires forall p :: 1 <= p < |layers| ==> Forward(p, rate)
      requires forall p :: 1 <= p < |layers| && p >= upto ==> |layers[p].meshes| == 1
      requires forall p :: 1 <= p < upto ==> p < |layers| - 1 && |layers[p].meshes| == 2 && Feedback(p)
      ensures MeshesClosed() && MeshesLinked()
    {
      forall m | m in MeshesOf(layers)
        ensures Rectangular(m.matrix, m.cols) && m.Linked() && (m.target != null ==> m.target in MeshesOf(layers))
      {
        var k, j :| 0 <= k < |layers| && 0 <= j < |layers[k].meshes| && m == layers[k].meshes[j];
        assert 1 <= k;
        assert Forward(k, rate);
        if j == 1 {
          assert Feedback(k);
          assert m.target == layers[k + 1].meshes[0];
        }
      }
    }

    /** Layers `1 .. upto - 1` own one new forward mesh each, the others none. */
    ghost predicate ConnectedUpTo(upto: nat, rate: real)
      reads Layers()`meshes, Layers()`preAct, MeshesOf(layers)
    {
      && (forall p :: 0 <= p < |layers| && (p == 0 || p >= upto) ==> layers[p].meshes == [])
      && (forall p :: 1 <= p < upto && p < |layers| ==> Forward(p, rate) && |layers[p].meshes| == 1)
      && (forall p, q :: 1 <= p < q < upto && q < |layers| ==> layers[p].meshes[0] != layers[q].meshes[0])
    }

    method Connect(rate: real)
      requires LayersDistinct()
      requires forall i :: 0 <= i < |layers| ==> layers[i].meshes == []
      modifies Layers()`meshes
      ensures Valid() && MeshesLinked()
      ensures |layers| > 0 ==> layers[0].meshes == []
      ensures forall i :: 1 <= i < |layers| ==> Forward(i, rate) && |layers[i].meshes| == 1
    {
      var i := 1;
      while i < |layers|
        invariant 1 <= i <= Max(|layers|, 1)
        invariant ConnectedUpTo(i, rate)
      {
        ConnectOne(i, rate);
        i := i + 1;
      }
      WiredClosed(rate, 1);
    }

    method ConnectOne(i: nat, rate: real)
      requires 1 <= i < |layers| && LayersDistinct() && ConnectedUpTo(i, rate)
      modifies {layers[i]}`meshes
      ensures ConnectedUpTo(i + 1, rate)
    {
      var m := new Mesh(|layers[i].preAct|, layers[i - 1], rate);
      forall p | 1 <= p < i
        ensures layers[p].meshes[0] != m
      {
      }
      label Add:
      layers[i].AddMesh(m);
      assert layers[i].meshes == [m];
      assert Forward(i, rate);
      forall p | 0 <= p < |layers| && p != i
        ensures layers[p].meshes == old@Add(layers[p].meshes)
      {
        assert layers[p] != layers[i];
      }
      forall p | 1 <= p < i
        ensures Forward(p, rate) && |layers[p].meshes| == 1
      {
        assert old@Add(Forward(p, rate));
      }
      forall p, q | 1 <= p < q < i + 1
        ensures layers[p].meshes[0] != layers[q].meshes[0]
      {
        if q < i {
          assert old@Add(layers[p].meshes[0] != layers[q].meshes[0]);
        }
      }
    }

    /** The forward wiring, with feedback meshes on the interior layers before `upto`. */
    ghost predicate AttachedUpTo(upto: nat, rate: real)
      reads Layers()`meshes, Layers()`preAct, MeshesOf(layers)
    {
      && (|layers| > 0 ==> layers[0].meshes == [])
      && (forall p :: 1 <= p < |layers| ==> Forward(p, rate))
      && (forall p :: 1 <= p < |layers| && p >= upto ==> |layers[p].meshes| == 1)
      && (forall p :: 1 <= p < upto && p < |layers| - 1 ==> |layers[p].meshes| == 2 && Feedback(p))
    }

    method AttachFeedback(rate: real)
      requires Valid() && AttachedUpTo(1, rate)
      modifies Layers()`meshes
      ensures Valid() && MeshesLinked()
      ensures |layers| > 0 ==> layers[0].meshes == []
      ensures forall i :: 1 <= i < |layers| ==> Forward(i, rate)
      ensures |layers| > 0 ==> |layers[|layers| - 1].meshes| == Min(|layers| - 1, 1)
      ensures forall i :: 1 <= i < |layers| - 1 ==> |layers[i].meshes| == 2 && Feedback(i)
    {
      var i := 1;
      while i < |layers| - 1
        invariant 1 <= i <= if |layers| > 1 then |layers| - 1 else 1
        invariant AttachedUpTo(i, rate)
        invariant forall p :: 1 <= p < |layers| ==> layers[p].meshes[0] == old(layers[p].meshes[0])
      {
        AttachOne(i, rate);
        i := i + 1;
      }
      assert FirstMeshesDistinct() by {
        assert old(FirstMeshesDistinct());
      }
      WiredClosed(rate, i);
    }

    method AttachOne(i: nat, rate: real)
      requires 1 <= i < |layers| - 1 && LayersDistinct() && AttachedUpTo(i, rate)
      modifies {layers[i]}`meshes
      ensures AttachedUpTo(i + 1, rate)
      ensures forall p :: 1 <= p < |layers| ==> layers[p].meshes[0] == old(layers[p].meshes[0])
    {
      var next := layers[i + 1];
      assert Forward(i + 1, rate);
      var fb := new Mesh.Feedback(next.meshes[0], next);
      label Add:
      layers[i].AddMesh(fb);
      forall p | 1 <= p < |layers|
        ensures Forward(p, rate) && layers[p].meshes[0] == old(layers[p].meshes[0])
      {
        assert old@Add(Forward(p, rate));
        if p == i {
          assert layers[i].meshes == old@Add(layers[i].meshes) + [fb];
        } else {
          assert layers[p] != layers[i];
        }
      }
      forall p | 1 <= p < i
        ensures |layers[p].meshes| == 2 && Feedback(p)
      {
        assert layers[p] != layers[i];
        assert old@Add(Feedback(p));
      }
      assert Feedback(i);
    }

    /** The wiring of `FFFB`: forward meshes first, then feedback meshes. */
    method ConnectFeedback(rate: real)
      requires LayersDistinct()
      requires forall i :: 0 <= i < |layers| ==> layers[i].meshes == []
      modifies Layers()`meshes
      ensures Valid() && MeshesLinked()
      ensures |layers| > 0 ==> layers[0].meshes == []
      ensures forall i :: 1 <= i < |layers| ==> Forward(i, rate)
      ensures |layers| > 0 ==> |layers[|layers| - 1].meshes| == Min(|layers| - 1, 1)
      ensures forall i :: 1 <= i < |layers| - 1 ==> |layers[i].meshes| == 2 && Feedback(i)
    {
      Connect(rate);
      AttachFeedback(rate);
    }

    /**
     * `Predict(data)`: clamp the input layer to `data`, step every later
     * layer once in order, and return the last layer's activity. Only the
     * predict state and the trace change.
     */
    method Predict(data: seq<real>) returns (r: Outcome<seq<real>>)
      requires Valid()
      modifies Layers()`preLin, Layers()`preAct, this`trace
      ensures Valid()
      ensures |layers| == 0 ==> r == Raised(IndexOutOfRange)
      ensures r.Raised? ==> trace == old(trace)
      ensures r.Ok? ==> |layers| > 0 && r.value == layers[|layers| - 1].preAct
      ensures r.Ok? ==> trace == old(trace) + [Predicted(data, r.value)]
      ensures r.Ok? && |layers| > 1 ==>
        layers[0].preLin == data[..Min(|data|, old(|layers[0].preAct|))] && layers[0].preAct == layers[0].preLin
      ensures r.Ok? && |layers| == 1 ==>
        layers[0].PredictStepped(data[..Min(|data|, old(|layers[0].preAct|))])
      ensures r.Ok? ==> forall i :: 1 <= i < |layers| ==>
        layers[i].PredictStepped(old(layers[i].preLin))
    {
      if |layers| == 0 {
        return Raised(IndexOutOfRange);
      }
      assert forall p :: 1 <= p < |layers| ==> layers[p] != layers[0];
      ClampInput(data);
      r := PredictFrom(if |layers| == 1 then 0 else 1);
      if r.Ok? {
        trace := trace + [Predicted(data, r.value)];
      }
      ValidKept();
    }

    /** `layers[0].ClampPre(data)`, seen from the net. */
    method ClampInput(data: seq<real>)
      requires Valid() && |layers| > 0
      modifies {layers[0]}`preLin, {layers[0]}`preAct
      ensures Valid()
      ensures layers[0].preLin == data[..Min(|data|, old(|layers[0].preAct|))] && layers[0].preAct == layers[0].preLin
    {
      layers[0].ClampPre(data);
      ValidKept();
    }

    /** The loop of `Predict`: every layer from `start` on is stepped once, in order. */
    method PredictFrom(start: nat) returns (r: Outcome<seq<real>>)
      requires Valid() && start < |layers|
      modifies Layers()`preLin, Layers()`preAct
      ensures Valid()
      ensures forall p :: 0 <= p < start ==>
        layers[p].preLin == old(layers[p].preLin) && layers[p].preAct == old(layers[p].preAct)
      ensures r.Ok? ==> forall p :: start <= p < |layers| ==> layers[p].PredictStepped(old(layers[p].preLin))
      ensures r.Ok? ==> r.value == layers[|layers| - 1].preAct
    {
      var i := start;
      r := Raised(IndexOutOfRange);
      while i < |layers|
        invariant start <= i <= |layers|
        invariant Valid()
        invariant forall p :: start <= p < i ==> layers[p].PredictStepped(old(layers[p].preLin))
        invariant forall p :: 0 <= p < |layers| && (p < start || p >= i) ==>
          layers[p].preLin == old(layers[p].preLin) && layers[p].preAct == old(layers[p].preAct)
        invariant i > start ==> r.Ok? && r.value == layers[i - 1].preAct
      {
        assert forall p :: 0 <= p < |layers| && p != i ==> layers[p] != layers[i];
        r := StepLayer(i);
        if r.Raised? {
          return;
        }
        i := i + 1;
      }
    }

    /** `layers[i].Predict()`: one integration step of layer `i`'s predict state. */
    method StepLayer(i: nat) returns (r: Outcome<seq<real>>)
      requires Valid() && i < |layers|
      modifies {layers[i]}`preLin, {layers[i]}`preAct
      ensures Valid()
      ensures r.Ok? ==> layers[i].PredictStepped(old(layers[i].preLin))
      ensures r.Ok? ==> r.value == layers[i].preAct
    {
      ValidReady(i);
      r := layers[i].Predict();
      ValidKept();
    }

    /** `layers[i].Observe()`: one integration step of layer `i`'s observe state. */
    method ObserveLayer(i: nat) returns (r: Outcome<seq<real>>)
      requires Valid() && i < |layers|
      modifies {layers[i]}`obsLin, {layers[i]}`obsAct
      ensures Valid()
      ensures r.Ok? ==> layers[i].ObserveStepped(old(layers[i].obsLin))
    {
      ValidReady(i);
      r := layers[i].Observe();
      ValidKept();
    }

    /**
     * `Observe(inData, outData)`: clamp the input layer to `inData` and
     * the output layer to `outData`, and step every interior layer once in
     * order. Only the observe state and the trace change.
     */
    method Observe(inData: seq<real>, outData: seq<real>) returns (r: Outcome<()>)
      requires Valid()
      modifies Layers()`obsLin, Layers()`obsAct, this`trace
      ensures Valid()
      ensures |layers| == 0 ==> r == Raised(IndexOutOfRange)
      ensures r.Raised? ==> trace == old(trace)
      ensures r.Ok? ==> |layers| > 0 && trace == old(trace) + [Observed(inData, outData)]
      ensures r.Ok? && |layers| > 1 ==>
        layers[0].obsLin == inData[..Min(|inData|, |layers[0].preAct|)] && layers[0].obsAct == layers[0].obsLin
      ensures r.Ok? ==> var last := layers[|layers| - 1];
        last.obsLin == outData[..Min(|outData|, |last.preAct|)] && last.obsAct == last.obsLin
      ensures r.Ok? ==> forall i :: 1 <= i < |layers| - 1 ==>
        layers[i].ObserveStepped(old(layers[i].obsLin))
    {
      if |layers| == 0 {
        return Raised(IndexOutOfRange);
      }
      ClampEnds(inData, outData);
      var mid := ObserveInterior();
      if mid.Raised? {
        return Raised(mid.fault);
      }
      r := Ok(());
      trace := trace + [Observed(inData, outData)];
      ValidKept();
    }

    /** The clamping of `Observe`: the input layer to `inData`, then the output layer to `outData`. */
    method ClampEnds(inData: seq<real>, outData: seq<real>)
      requires Valid() && |layers| > 0
      modifies Layers()`obsLin, Layers()`obsAct
      ensures Valid()
      ensures |layers| > 1 ==>
        layers[0].obsLin == inData[..Min(|inData|, |layers[0].preAct|)] && layers[0].obsAct == layers[0].obsLin
      ensures var last := layers[|layers| - 1];
        last.obsLin == outData[..Min(|outData|, |last.preAct|)] && last.obsAct == last.obsLin
      ensures forall p :: 1 <= p < |layers| - 1 ==>
        layers[p].obsLin == old(layers[p].obsLin) && layers[p].obsAct == old(layers[p].obsAct)
    {
      var n := |layers|;
      assert forall p :: 1 <= p < n - 1 ==> layers[p] != layers[0] && layers[p] != layers[n - 1];
      assert n > 1 ==> layers[0] != layers[n - 1];
      layers[0].ClampObs(inData);
      layers[n - 1].ClampObs(outData);
      ValidKept();
    }

    /** The loop of `Observe` over the interior layers, in order. */
    method ObserveInterior() returns (r: Outcome<()>)
      requires Valid()
      modifies Layers()`obsLin, Layers()`obsAct
      ensures Valid()
      ensures forall p :: 0 <= p < |layers| && (p == 0 || p == |layers| - 1) ==>
        layers[p].obsLin == old(layers[p].obsLin) && layers[p].obsAct == old(layers[p].obsAct)
      ensures r.Ok? ==> forall p :: 1 <= p < |layers| - 1 ==>
        layers[p].ObserveStepped(old(layers[p].obsLin))
    {
      var i := 1;
      while i < |layers| - 1
        invariant 1 <= i <= if |layers| > 1 then |layers| - 1 else 1
        invariant Valid()
        invariant forall p :: 1 <= p < i && p < |layers| ==>
          layers[p].ObserveStepped(old(layers[p].obsLin))
        invariant forall p :: 0 <= p < |layers| && (p == 0 || p >= i) ==>
          layers[p].obsLin == old(layers[p].obsLin) && layers[p].obsAct == old(layers[p].obsAct)
      {
        assert forall p :: 0 <= p < |layers| && p != i ==> layers[p] != layers[i];
        var s := ObserveLayer(i);
        if s.Raised? {
          return Raised(s.fault);
        }
        i := i + 1;
      }
      r := Ok(());
    }

    /** `for layer in layers[1:]: obsLin[:] = preLin; obsAct[:] = preAct` */
    method HandOff() returns (r: Outcome<()>)
      requires Valid()
      modifies Layers()`obsLin, Layers()`obsAct, this`trace
      ensures Valid()
      ensures r.Raised? ==> r.fault == ShapeMismatch && trace == old(trace)
      ensures r.Ok? ==> trace == old(trace) + [HandedOff]
      ensures r.Ok? ==> forall p :: 1 <= p < |layers| ==>
        layers[p].ObserveHolds(layers[p].preLin, layers[p].preAct, old(|layers[p].obsLin|), old(|layers[p].obsAct|))
    {
      r := HandOffLayers();
      if r.Ok? {
        trace := trace + [HandedOff];
      }
      ValidKept();
    }

    method HandOffLayers() returns (r: Outcome<()>)
      requires Valid()
      modifies Layers()`obsLin, Layers()`obsAct
      ensures Valid()
      ensures r.Raised? ==> r.fault == ShapeMismatch
      ensures r.Ok? ==> forall p :: 1 <= p < |layers| ==>
        layers[p].ObserveHolds(layers[p].preLin, layers[p].preAct, old(|layers[p].obsLin|), old(|layers[p].obsAct|))
    {
      r := Ok(());
      var i := 1;
      while i < |layers|
        invariant 1 <= i <= Max(|layers|, 1)
        invariant Valid() && r.Ok?
        invariant forall p :: 1 <= p < i ==>
          layers[p].ObserveHolds(layers[p].preLin, layers[p].preAct, old(|layers[p].obsLin|), old(|layers[p].obsAct|))
        invariant forall p :: i <= p < |layers| ==>
          layers[p].obsLin == old(layers[p].obsLin) && layers[p].obsAct == old(layers[p].obsAct)
      {
        assert forall p :: 0 <= p < |layers| && p != i ==> layers[p] != layers[i];
        r := HandOffLayer(i);
        if r.Raised? {
          return;
        }
        i := i + 1;
      }
    }

    /** `layers[i]`'s observe state takes its predict state. */
    method HandOffLayer(i: nat) returns (r: Outcome<()>)
      requires Valid() && i < |layers|
      modifies {layers[i]}`obsLin, {layers[i]}`obsAct
      ensures Valid()
      ensures r.Raised? ==> r.fault == ShapeMismatch
      ensures r.Ok? ==>
        layers[i].ObserveHolds(layers[i].preLin, layers[i].preAct, old(|layers[i].obsLin|), old(|layers[i].obsAct|))
    {
      r := layers[i].HandOff();
      ValidKept();
    }

    /** `for layer in layers[1:]: preLin[:] = obsLin; preAct[:] = obsAct` */
    method CarryOver() returns (r: Outcome<()>)
      requires Valid()
      modifies Layers()`preLin, Layers()`preAct, this`trace
      ensures Valid()
      ensures r.Raised? ==> r.fault == ShapeMismatch && trace == old(trace)
      ensures r.Ok? ==> trace == old(trace) + [CarriedOver]
      ensures r.Ok? ==> forall p :: 1 <= p < |layers| ==>
        layers[p].PredictHolds(layers[p].obsLin, layers[p].obsAct, old(|layers[p].preLin|), old(|layers[p].preAct|))
    {
      r := CarryOverLayers();
      if r.Ok? {
        trace := trace + [CarriedOver];
      }
      ValidKept();
    }

    method CarryOverLayers() returns (r: Outcome<()>)
      requires Valid()
      modifies Layers()`preLin, Layers()`preAct
      ensures Valid()
      ensures r.Raised? ==> r.fault == ShapeMismatch
      ensures r.Ok? ==> forall p :: 1 <= p < |layers| ==>
        layers[p].PredictHolds(layers[p].obsLin, layers[p].obsAct, old(|layers[p].preLin|), old(|layers[p].preAct|))
    {
      r := Ok(());
      var i := 1;
      while i < |layers|
        invariant 1 <= i <= Max(|layers|, 1)
        invariant Valid() && r.Ok?
        invariant forall p :: 1 <= p < i ==>
          layers[p].PredictHolds(layers[p].obsLin, layers[p].obsAct, old(|layers[p].preLin|), old(|layers[p].preAct|))
        invariant forall p :: i <= p < |layers| ==>
          layers[p].preLin == old(layers[p].preLin) && layers[p].preAct == old(layers[p].preAct)
      {
        assert forall p :: 0 <= p < |layers| && p != i ==> layers[p] != layers[i];
        r := CarryOverLayer(i);
        if r.Raised? {
          return;
        }
        i := i + 1;
      }
    }

    /** `layers[i]`'s predict state takes its observe state. */
    method CarryOverLayer(i: nat) returns (r: Outcome<()>)
      requires Valid() && i < |layers|
      modifies {layers[i]}`preLin, {layers[i]}`preAct
      ensures Valid()
      ensures r.Raised? ==> r.fault == ShapeMismatch
      ensures r.Ok? ==>
        layers[i].PredictHolds(layers[i].obsLin, layers[i].obsAct, old(|layers[i].preLin|), old(|layers[i].preAct|))
    {
      r := layers[i].CarryOver();
      ValidKept();
    }

    /**
     * `getWeights(ffOnly)`: `get()` of every mesh of every layer in order,
     * or of each layer's first mesh only.
     */
    method GetWeights(ffOnly: bool) returns (ws: seq<seq<seq<real>>>)
      ensures |ws| == |WeightMeshes(layers, ffOnly)|
      ensures forall t :: 0 <= t < |ws| ==> ws[t] == WeightMeshes(layers, ffOnly)[t].Get()
    {
      ghost var read: seq<Mesh> := [];
      ws := [];
      var i := 0;
      while i < |layers|
        invariant 0 <= i <= |layers|
        invariant read == WeightMeshes(layers[..i], ffOnly)
        invariant |ws| == |read| && forall t :: 0 <= t < |read| ==> ws[t] == read[t].Get()
      {
        var ms := layers[i].meshes;
        var j := 0;
        while j < |ms| && (j == 0 || !ffOnly)
          invariant 0 <= j <= |ms| && (ffOnly ==> j <= 1)
          invariant |ws| == |read| + j && forall t :: 0 <= t < |read| ==> ws[t] == read[t].Get()
          invariant forall t :: 0 <= t < j ==> ws[|read| + t] == ms[t].Get()
        {
          ws := ws + [ms[j].Get()];
          j := j + 1;
        }
        assert layers[..i + 1][..i] == layers[..i];
        assert ms[..j] == Taken(ms, ffOnly);
        ghost var next := read + ms[..j];
        forall t | 0 <= t < |next|
          ensures ws[t] == next[t].Get()
        {
          if t < |read| {
            assert next[t] == read[t];
          } else {
            assert next[t] == ms[t - |read|];
          }
        }
        read := next;
        i := i + 1;
      }
      assert layers[..|layers|] == layers;
    }

    /** `resetActivity`: every layer back to zeros of its length. */
    method ResetActivity()
      requires Valid()
      modifies Layers()`preLin, Layers()`preAct, Layers()`obsLin, Layers()`obsAct, this`trace
      ensures Valid()
      ensures trace == old(trace) + [ActivityReset]
      ensures forall p :: 0 <= p < |layers| ==> layers[p].AtRest(old(|layers[p].preAct|))
    {
      ResetLayers();
      trace := trace + [ActivityReset];
      ValidKept();
    }

    method ResetLayers()
      requires Valid()
      modifies Layers()`preLin, Layers()`preAct, Layers()`obsLin, Layers()`obsAct
      ensures Valid()
      ensures forall p :: 0 <= p < |layers| ==> layers[p].AtRest(old(|layers[p].preAct|))
    {
      var i := 0;
      while i < |layers|
        invariant 0 <= i <= |layers| && Valid()
        invariant forall p :: 0 <= p < i ==> layers[p].AtRest(old(|layers[p].preAct|))
        invariant forall p :: i <= p < |layers| ==> |layers[p].preAct| == old(|layers[p].preAct|)
      {
        assert forall p :: 0 <= p < |layers| && p != i ==> layers[p] != layers[i];
        ResetLayer(i);
        i := i + 1;
      }
    }

    method ResetLayer(i: nat)
      requires Valid() && i < |layers|
      modifies {layers[i]}`preLin, {layers[i]}`preAct, {layers[i]}`obsLin, {layers[i]}`obsAct
      ensures Valid()
      ensures layers[i].AtRest(old(|layers[i].preAct|))
    {
      layers[i].ResetActivity();
      ValidKept();
    }

    /** The weights layer `p` learns into: its first mesh after `Update` with the rule's delta. */
    ghost function Learnt(p: nat): Option<seq<seq<real>>>
      requires p < |layers| && |layers[p].meshes| > 0
      requires Rectangular(layers[p].meshes[0].matrix, layers[p].meshes[0].cols)
      reads layers[p], layers[p].meshes[0], layers[p].meshes[0].inLayer
    {
      layers[p].meshes[0].Updated(layers[p].Delta())
    }

    /** What layer `p` would learn does not change while its layer, first mesh and sender are untouched. */
    twostate lemma LearntKept(p: nat)
      requires old(Valid()) && p < |layers| && unchanged(layers[p]) && |layers[p].meshes| > 0
      requires unchanged(old(layers[p].meshes[0]), old(layers[p].meshes[0].inLayer))
      ensures old(Rectangular(layers[p].meshes[0].matrix, layers[p].meshes[0].cols))
      ensures Rectangular(layers[p].meshes[0].matrix, layers[p].meshes[0].cols)
      ensures Learnt(p) == old(Learnt(p))
    {
      assert old(layers[p].meshes[0] in MeshesOf(layers));
    }

    /** Layer `p` does not learn. */
    predicate Idle(p: nat)
      requires p < |layers|
      reads {layers[p]}`freeze
    {
      layers[p].isInput || layers[p].freeze
    }

    /** The first meshes of the layers that learn: the only weights `Learn` may move. */
    ghost function LearningMeshes(): set<Mesh>
      reads Layers()`meshes, Layers()`freeze
    {
      set p | 0 <= p < |layers| && !Idle(p) && |layers[p].meshes| > 0 :: layers[p].meshes[0]
    }

    /** An input or frozen layer's first mesh is no learning layer's first mesh. */
    lemma IdleNotLearning(p: nat)
      requires Valid() && p < |layers| && Idle(p) && |layers[p].meshes| > 0
      ensures layers[p].meshes[0] !in LearningMeshes()
    {
      if layers[p].meshes[0] in LearningMeshes() {
        var q :| 0 <= q < |layers| && !Idle(q) && |layers[q].meshes| > 0 && layers[q].meshes[0] == layers[p].meshes[0];
        assert false;
      }
    }

    /**
     * `for layer in layers: layer.Learn()`: every learning layer updates
     * its first mesh; input and frozen layers change nothing.
     */
    method LearnStep() returns (r: Outcome<()>)
      requires Valid()
      modifies LearningMeshes()`matrix, this`trace
      ensures Valid()
      ensures r.Raised? ==> trace == old(trace)
      ensures r.Ok? ==> trace == old(trace) + [Learned]
      ensures forall p :: 0 <= p < |layers| && Idle(p) && |layers[p].meshes| > 0 ==>
        layers[p].meshes[0].matrix == old(layers[p].meshes[0].matrix)
      ensures r.Ok? ==> forall p :: 0 <= p < |layers| && !Idle(p) ==>
        |layers[p].meshes| > 0 && old(Learnt(p)).Some? && layers[p].meshes[0].matrix == old(Learnt(p)).value
    {
      forall p | 0 <= p < |layers| && Idle(p) && |layers[p].meshes| > 0
        ensures layers[p].meshes[0] !in LearningMeshes()
      {
        IdleNotLearning(p);
      }
      r := LearnLayers();
      if r.Ok? {
        trace := trace + [Learned];
      }
    }

    method LearnLayers() returns (r: Outcome<()>)
      requires Valid()
      modifies LearningMeshes()`matrix
      ensures Valid()
      ensures r.Ok? ==> forall p :: 0 <= p < |layers| && !Idle(p) ==>
        |layers[p].meshes| > 0 && old(Learnt(p)).Some? && layers[p].meshes[0].matrix == old(Learnt(p)).value
    {
      var i := 0;
      while i < |layers|
        invariant 0 <= i <= |layers|
        invariant Valid()
        invariant forall p :: i <= p < |layers| && |layers[p].meshes| > 0 ==>
          layers[p].meshes[0].matrix == old(layers[p].meshes[0].matrix)
        invariant forall p :: 0 <= p < i && !Idle(p) ==>
          |layers[p].meshes| > 0 && old(Learnt(p)).Some? && layers[p].meshes[0].matrix == old(Learnt(p)).value
      {
        if |layers[i].meshes| > 0 {
          LearntKept(i);
        }
        r := LearnLayer(i);
        if r.Raised? {
          return;
        }
        i := i + 1;
      }
      r := Ok(());
    }

    /** `layers[i].Learn()`, seen from the net. */
    method LearnLayer(i: nat) returns (r: Outcome<()>)
      requires Valid() && i < |layers|
      modifies LearningMeshes()`matrix
      ensures Valid()
      ensures forall p :: 0 <= p < |layers| && p != i && |layers[p].meshes| > 0 ==>
        layers[p].meshes[0].matrix == old(layers[p].meshes[0].matrix)
      ensures r.Ok? && !Idle(i) ==>
        |layers[i].meshes| > 0 && old(Learnt(i)).Some? && layers[i].meshes[0].matrix == old(Learnt(i)).value
    {
      ValidReady(i);
      var l := layers[i];
      ghost var m0: Mesh? := null;
      if |l.meshes| > 0 {
        m0 := l.meshes[0];
        if !Idle(i) {
          assert m0 in LearningMeshes();
        }
      }
      r := l.Learn();
      forall p | 0 <= p < |layers| && p != i && |layers[p].meshes| > 0
        ensures layers[p].meshes[0] != m0
      {
      }
      if m0 == null {
        ValidKept();
      } else {
        ValidAfterUpdate(m0);
      }
    }

    /**
     * `setLearningRule(rule, layerIndex)`: `-1` sets every layer's rule;
     * any other index is a Python list index (negative ones count from the
     * end) and sets that layer's rule, or raises.
     */
    method SetLearningRule(rule: Rule, index: int) returns (r: Outcome<()>)
      requires LayersDistinct()
      modifies Layers()`rule
      ensures index == -1 ==> r == Ok(()) && forall p :: 0 <= p < |layers| ==> layers[p].rule == rule
      ensures index != -1 && -|layers| <= index < |layers| ==>
        r == Ok(()) && forall p :: 0 <= p < |layers| ==>
          layers[p].rule == if p == index % |layers| then rule else old(layers[p].rule)
      ensures index != -1 && !(-|layers| <= index < |layers|) ==>
        r == Raised(IndexOutOfRange) && forall p :: 0 <= p < |layers| ==> layers[p].rule == old(layers[p].rule)
    {
      if index == -1 {
        var i := 0;
        while i < |layers|
          invariant 0 <= i <= |layers|
          invariant forall p :: 0 <= p < i ==> layers[p].rule == rule
        {
          assert forall p :: 0 <= p < |layers| && p != i ==> layers[p] != layers[i];
          layers[i].rule := rule;
          i := i + 1;
        }
        return Ok(());
      }
      if !(-|layers| <= index < |layers|) {
        return Raised(IndexOutOfRange);
      }
      var k := if index < 0 then index + |layers| else index;
      assert k == index % |layers|;
      SetRuleAt(k, rule);
      r := Ok(());
    }

    /** `self.layers[k].rule = rule` for an index already in range. */
    method SetRuleAt(k: nat, rule: Rule)
      requires LayersDistinct() && k < |layers|
      modifies {layers[k]}`rule
      ensures forall p :: 0 <= p < |layers| ==> layers[p].rule == if p == k then rule else old(layers[p].rule)
    {
      forall p | 0 <= p < |layers| && p != k ensures layers[p] != layers[k] { }
      layers[k].rule := rule;
    }

    /**
     * `for time in range(k): result = self.Predict(datum)`, as `Infer` and
     * `Learn` run it: `k` predictions of one datum, the last one kept. With
     * `k == 0` the loop never binds `result`.
     */
    method PredictFor(datum: seq<real>, k: nat) returns (r: Outcome<seq<real>>, ghost run: seq<Event>)
      requires Valid()
      modifies Layers()`preLin, Layers()`preAct, this`trace
      ensures Valid()
      ensures k == 0 ==> r == Raised(UnboundResult) && trace == old(trace)
      ensures k > 0 && |layers| == 0 ==> r == Raised(IndexOutOfRange)
      ensures r.Ok? ==> PredictRun(run, datum, k) && k > 0 && run[k - 1].output == r.value
      ensures r.Ok? ==> trace == old(trace) + run
    {
      r, run := Raised(UnboundResult), [];
      var t := 0;
      while t < k
        invariant 0 <= t <= k && Valid()
        invariant PredictRun(run, datum, t) && trace == old(trace) + run
        invariant t == 0 ==> r == Raised(UnboundResult)
        invariant |layers| == 0 ==> t == 0
        invariant t > 0 ==> r.Ok? && run[t - 1].output == r.value
      {
        r := Predict(datum);
        if r.Raised? {
          return;
        }
        run := run + [Predicted(datum, r.value)];
        t := t + 1;
      }
    }

    /** `for time in range(k): self.Observe(inDatum, outDatum)` */
    method ObserveFor(inDatum: seq<real>, outDatum: seq<real>, k: nat) returns (r: Outcome<()>)
      requires Valid()
      modifies Layers()`obsLin, Layers()`obsAct, this`trace
      ensures Valid()
      ensures k == 0 ==> r.Ok? && trace == old(trace)
      ensures k > 0 && |layers| == 0 ==> r == Raised(IndexOutOfRange)
      ensures r.Ok? ==> trace == old(trace) + Repeat(Observed(inDatum, outDatum), k)
    {
      r := Ok(());
      var t := 0;
      while t < k
        invariant 0 <= t <= k && Valid() && r.Ok?
        invariant |layers| == 0 ==> t == 0
        invariant trace == old(trace) + Repeat(Observed(inDatum, outDatum), t)
      {
        r := Observe(inDatum, outDatum);
        if r.Raised? {
          return;
        }
        assert Repeat(Observed(inDatum, outDatum), t + 1) == Repeat(Observed(inDatum, outDatum), t) + [Observed(inDatum, outDatum)];
        t := t + 1;
      }
    }

    /**
     * `Infer(inData, k)` for `inData` of shape `(|inData|, width)`: for each
     * datum, `k` predictions, the last one kept as that datum's row of a
     * zero matrix of the same shape. Only the predict state and the trace
     * change; no weight moves.
     */
    method Infer(inData: seq<seq<real>>, width: nat, k: nat) returns (r: Outcome<seq<seq<real>>>, ghost runs: seq<seq<Event>>)
      requires Valid() && Rectangular(inData, width)
      modifies Layers()`preLin, Layers()`preAct, this`trace
      ensures Valid()
      ensures |inData| == 0 ==> r == Ok([]) && trace == old(trace)
      ensures |inData| > 0 && k == 0 ==> r == Raised(UnboundResult)
      ensures |inData| > 0 && k > 0 && |layers| == 0 ==> r == Raised(IndexOutOfRange)
      ensures r.Ok? ==> Inferred(r.value, runs, inData, width, k) && Rectangular(r.value, width)
      ensures r.Ok? ==> trace == old(trace) + Concat(runs)
    {
      var rows: seq<seq<real>> := [];
      runs := [];
      var i := 0;
      while i < |inData|
        invariant 0 <= i <= |inData| && Valid()
        invariant |rows| == i && |runs| == i && Rectangular(rows, width)
        invariant k > 0 && |layers| == 0 ==> i == 0
        invariant Inferred(rows, runs, inData[..i], width, k)
        invariant trace == old(trace) + Concat(runs)
      {
        var out, run := PredictFor(inData[i], k);
        if out.Raised? {
          return Raised(out.fault), runs;
        }
        var row := Broadcast(out.value, width);
        if row.None? {
          return Raised(ShapeMismatch), runs;
        }
        ConcatSnoc(runs, run);
        InferredStep(rows, runs, inData, width, k, i, row.value, run);
        rows, runs := rows + [row.value], runs + [run];
        i := i + 1;
      }
      assert inData[..i] == inData;
      r := Ok(rows);
    }

    /** `Evaluate(inData, outData, k)`: the metric of what `Infer` returns against `outData`. */
    method Evaluate(inData: seq<seq<real>>, width: nat, outData: seq<seq<real>>, k: nat)
      returns (r: Outcome<real>, ghost rows: seq<seq<real>>, ghost runs: seq<seq<Event>>)
      requires Valid() && Rectangular(inData, width)
      modifies Layers()`preLin, Layers()`preAct, this`trace
      ensures Valid()
      ensures |inData| == 0 ==> r == Ok(metric([], outData)) && trace == old(trace)
      ensures |inData| > 0 && k == 0 ==> r == Raised(UnboundResult)
      ensures |inData| > 0 && k > 0 && |layers| == 0 ==> r == Raised(IndexOutOfRange)
      ensures r.Ok? ==> Inferred(rows, runs, inData, width, k) && r.value == metric(rows, outData)
      ensures r.Ok? ==> trace == old(trace) + Concat(runs)
    {
      var inferred;
      inferred, runs := Infer(inData, width, k);
      if inferred.Raised? {
        return Raised(inferred.fault), [], runs;
      }
      r := Ok(metric(inferred.value, outData));
      rows := inferred.value;
    }

    /**
     * One sample of `Learn`: reset if asked, `k` predictions of `inDatum`
     * (the last one, broadcast to `width`, is the sample's row of
     * `epochResults`), the hand-off, `k` observations of the pair, every
     * layer's `Learn`, the carry-over. Input and frozen layers keep their
     * weights.
     */
    method LearnSample(inDatum: seq<real>, outDatum: seq<real>, width: nat, k: nat, reset: bool)
      returns (r: Outcome<seq<real>>, ghost run: seq<Event>)
      requires Valid()
      modifies Layers()`preLin, Layers()`preAct, Layers()`obsLin, Layers()`obsAct
      modifies LearningMeshes()`matrix, this`trace
      ensures Valid()
      ensures k == 0 ==> r == Raised(UnboundResult)
      ensures r.Ok? ==> PredictRun(run, inDatum, k) && KeptRow(run, r.value, width)
      ensures r.Ok? ==> trace == old(trace) + SamplePhases(reset, run, inDatum, outDatum, k)
    {
      var row;
      row, run := SamplePredict(inDatum, width, k, reset);
      if row.Raised? {
        return row, run;
      }
      var s := SampleTrain(inDatum, outDatum, k);
      if s.Raised? {
        return Raised(s.fault), run;
      }
      r := row;
    }

    /** The first half of a sample: the optional reset and `k` predictions, the last one kept as a row. */
    method SamplePredict(inDatum: seq<real>, width: nat, k: nat, reset: bool)
      returns (r: Outcome<seq<real>>, ghost run: seq<Event>)
      requires Valid()
      modifies Layers()`preLin, Layers()`preAct, Layers()`obsLin, Layers()`obsAct, this`trace
      ensures Valid()
      ensures k == 0 ==> r == Raised(UnboundResult)
      ensures r.Ok? ==> PredictRun(run, inDatum, k) && KeptRow(run, r.value, width)
      ensures r.Ok? ==> trace == old(trace) + (if reset then [ActivityReset] else []) + run
    {
      if reset {
        ResetActivity();
      }
      var last;
      last, run := PredictFor(inDatum, k);
      if last.Raised? {
        return Raised(last.fault), run;
      }
      var row := Broadcast(last.value, width);
      if row.None? {
        return Raised(ShapeMismatch), run;
      }
      r := Ok(row.value);
    }

    /** The second half of a sample: hand-off, `k` observations, learning, carry-over. */
    method SampleTrain(inDatum: seq<real>, outDatum: seq<real>, k: nat) returns (r: Outcome<()>)
      requires Valid()
      modifies Layers()`preLin, Layers()`preAct, Layers()`obsLin, Layers()`obsAct
      modifies LearningMeshes()`matrix, this`trace
      ensures Valid()
      ensures r.Ok? ==> trace == old(trace) + TrainPhases(inDatum, outDatum, k)
    {
      r := HandOff();
      if r.Raised? {
        return;
      }
      r := ObserveFor(inDatum, outDatum, k);
      if r.Raised? {
        return;
      }
      r := LearnStep();
      if r.Raised? {
        return;
      }
      r := CarryOver();
    }

    /**
     * One epoch of `Learn`: every sample of `zip(inData, outData)` in
     * order, each writing its row of `rows` (`epochResults`); the rows
     * past the samples keep their values.
     */
    method LearnEpoch(inData: seq<seq<real>>, outData: seq<seq<real>>, rows: seq<seq<real>>, width: nat, k: nat, reset: bool)
      returns (r: Outcome<seq<seq<real>>>, ghost runs: seq<seq<Event>>)
      requires Valid() && |rows| == |outData|
      modifies Layers()`preLin, Layers()`preAct, Layers()`obsLin, Layers()`obsAct
      modifies LearningMeshes()`matrix, this`trace
      ensures Valid()
      ensures Min(|inData|, |outData|) > 0 && k == 0 ==> r == Raised(UnboundResult)
      ensures r.Ok? ==> RowsSoFar(r.value, runs, rows, inData, width, k, Min(|inData|, |outData|))
      ensures r.Ok? ==> trace == old(trace) + EpochPhases(reset, runs, inData, outData, k)
    {
      var m := Min(|inData|, |outData|);
      var current := rows;
      runs := [];
      ghost var start, phases: seq<Event> := trace, [];
      var s := 0;
      while s < m
        invariant 0 <= s <= m && Valid()
        invariant RowsSoFar(current, runs, rows, inData, width, k, s)
        invariant trace == start + phases && phases == EpochPhases(reset, runs, inData, outData, k)
      {
        var row, run := LearnSample(inData[s], outData[s], width, k, reset);
        if row.Raised? {
          return Raised(row.fault), runs;
        }
        SampleDone(current, runs, rows, inData, outData, width, k, s, reset, row.value, run);
        AppendAssoc(start, phases, SamplePhases(reset, run, inData[s], outData[s], k));
        phases := phases + SamplePhases(reset, run, inData[s], outData[s], k);
        current, runs := current[s := row.value], runs + [run];
        s := s + 1;
      }
      r := Ok(current);
    }

    /**
     * `results` holds, epoch by epoch, the metric of that epoch's
     * `epochResults` against `outData`, each as one epoch of `Learn` leaves it.
     */
    ghost predicate Reported(results: seq<real>, epochRows: seq<seq<seq<real>>>, epochRuns: seq<seq<seq<Event>>>,
                             inData: seq<seq<real>>, outData: seq<seq<real>>, width: nat, k: nat)
    {
      |results| == |epochRows| == |epochRuns| &&
      forall e :: 0 <= e < |results| ==>
        EpochRows(epochRows[e], epochRuns[e], inData, outData, width, k) && results[e] == metric(epochRows[e], outData)
    }

    /** One more epoch, left as `LearnEpoch` leaves it, extends the report by its metric. */
    lemma EpochDone(results: seq<real>, epochRows: seq<seq<seq<real>>>, epochRuns: seq<seq<seq<Event>>>,
                    before: seq<seq<real>>, rows: seq<seq<real>>, runs: seq<seq<Event>>,
                    inData: seq<seq<real>>, outData: seq<seq<real>>, width: nat, k: nat)
      requires Reported(results, epochRows, epochRuns, inData, outData, width, k) && Trained(epochRuns, inData, outData)
      requires |before| == |outData| && forall s :: Min(|inData|, |outData|) <= s < |outData| ==> before[s] == Zeros(width)
      requires RowsSoFar(rows, runs, before, inData, width, k, Min(|inData|, |outData|))
      ensures Reported(results + [metric(rows, outData)], epochRows + [rows], epochRuns + [runs], inData, outData, width, k)
      ensures Trained(epochRuns + [runs], inData, outData)
      ensures |rows| == |outData| && forall s :: Min(|inData|, |outData|) <= s < |outData| ==> rows[s] == Zeros(width)
    {
      assert EpochRows(rows, runs, inData, outData, width, k);
    }

    /** Adding one epoch's runs adds that epoch's phases. */
    lemma TrainingPhasesSnoc(reset: bool, epochs: seq<seq<seq<Event>>>, runs: seq<seq<Event>>,
                             inData: seq<seq<real>>, outData: seq<seq<real>>, k: nat)
      requires Trained(epochs, inData, outData)
      requires |runs| <= |inData| && |runs| <= |outData|
      ensures TrainingPhases(reset, epochs + [runs], inData, outData, k) ==
        TrainingPhases(reset, epochs, inData, outData, k) + EpochPhases(reset, runs, inData, outData, k)
    {
      assert (epochs + [runs])[..|epochs|] == epochs;
    }

    /**
     * `Learn(inData, outData, k, numEpochs, reset)` for `inData` of shape
     * `(|inData|, inWidth)`: `results[0]` is the metric of an `Evaluate`
     * before training; then each epoch trains on every sample of
     * `zip(inData, outData)` and `results[e + 1]` is the metric of that
     * epoch's `epochResults`, a `|outData|`×`width` matrix whose sample rows
     * hold the last prediction of each sample (`width` is the output
     * layer's length after the first evaluation). The trace is the
     * evaluation's predictions followed by the phases of every sample of
     * every epoch. Only the first meshes of learning layers may change
     * (`LearningMeshes`), so input and frozen layers keep their weights.
     */
    method Learn(inData: seq<seq<real>>, inWidth: nat, outData: seq<seq<real>>, k: nat, numEpochs: nat, reset: bool)
      returns (r: Outcome<seq<real>>, ghost initialRows: seq<seq<real>>, ghost initialRuns: seq<seq<Event>>,
               ghost width: nat, ghost epochRows: seq<seq<seq<real>>>, ghost epochRuns: seq<seq<seq<Event>>>)
      requires Valid() && Rectangular(inData, inWidth)
      modifies Layers()`preLin, Layers()`preAct, Layers()`obsLin, Layers()`obsAct
      modifies LearningMeshes()`matrix, this`trace
      ensures Valid()
      ensures |inData| > 0 && k == 0 ==> r == Raised(UnboundResult)
      ensures |layers| == 0 && (|inData| == 0 || k > 0) ==> r == Raised(IndexOutOfRange)
      ensures r.Ok? ==> |r.value| == numEpochs + 1
      ensures r.Ok? ==> Inferred(initialRows, initialRuns, inData, inWidth, k) && r.value[0] == metric(initialRows, outData)
      ensures r.Ok? ==> Reported(r.value[1..], epochRows, epochRuns, inData, outData, width, k)
      ensures r.Ok? ==> Trained(epochRuns, inData, outData)
      ensures r.Ok? ==> trace == old(trace) + Concat(initialRuns) + TrainingPhases(reset, epochRuns, inData, outData, k)
    {
      var first;
      first, initialRows, initialRuns := Evaluate(inData, inWidth, outData, k);
      if first.Raised? {
        return Raised(first.fault), initialRows, initialRuns, 0, [], [];
      }
      if |layers| == 0 {
        return Raised(IndexOutOfRange), initialRows, initialRuns, 0, [], [];
      }
      var w := |layers[|layers| - 1].preAct|;
      width := w;
      var rest;
      rest, epochRows, epochRuns := Epochs(inData, outData, w, k, numEpochs, reset);
      if rest.Raised? {
        return Raised(rest.fault), initialRows, initialRuns, width, epochRows, epochRuns;
      }
      r := Ok([first.value] + rest.value);
      assert r.value[1..] == rest.value;
    }

    /**
     * The epoch loop of `Learn`, from an `epochResults` of zeros: one
     * metric per epoch, of that epoch's rows.
     */
    method Epochs(inData: seq<seq<real>>, outData: seq<seq<real>>, width: nat, k: nat, numEpochs: nat, reset: bool)
      returns (r: Outcome<seq<real>>, ghost epochRows: seq<seq<seq<real>>>, ghost epochRuns: seq<seq<seq<Event>>>)
      requires Valid()
      modifies Layers()`preLin, Layers()`preAct, Layers()`obsLin, Layers()`obsAct
      modifies LearningMeshes()`matrix, this`trace
      ensures Valid()
      ensures r.Ok? ==> |r.value| == numEpochs && Reported(r.value, epochRows, epochRuns, inData, outData, width, k)
      ensures r.Ok? ==> Trained(epochRuns, inData, outData)
      ensures r.Ok? ==> trace == old(trace) + TrainingPhases(reset, epochRuns, inData, outData, k)
    {
      var results := [];
      var rows := Repeat(Zeros(width), |outData|);
      epochRows, epochRuns := [], [];
      ghost var start, phases: seq<Event> := trace, [];
      var e := 0;
      while e < numEpochs
        invariant 0 <= e <= numEpochs && Valid()
        invariant |results| == e && Reported(results, epochRows, epochRuns, inData, outData, width, k)
        invariant Trained(epochRuns, inData, outData)
        invariant |rows| == |outData| && forall s :: Min(|inData|, |outData|) <= s < |outData| ==> rows[s] == Zeros(width)
        invariant trace == start + phases
        invariant phases == TrainingPhases(reset, epochRuns, inData, outData, k)
      {
        var next, runs := LearnEpoch(inData, outData, rows, width, k, reset);
        if next.Raised? {
          return Raised(next.fault), epochRows, epochRuns;
        }
        TrainingPhasesSnoc(reset, epochRuns, runs, inData, outData, k);
        AppendAssoc(start, phases, EpochPhases(reset, runs, inData, outData, k));
        phases := phases + EpochPhases(reset, runs, inData, outData, k);
        EpochDone(results, epochRows, epochRuns, rows, next.value, runs, inData, outData, width, k);
        rows := next.value;
        results := results + [metric(rows, outData)];
        epochRows, epochRuns := epochRows + [rows], epochRuns + [runs];
        e := e + 1;
      }
      r := Ok(results);
    }
  }
}
