/**
 * The entry-wise rules of the bounded-weight mesh (src/vivilux/meshes.py):
 * clipping of the linear weights, the sigmoid that maps a linear weight to
 * an implementable one and its inverse, soft bounding of a weight change,
 * the weight-balance controller, and the delta-sender encoding of one input.
 */
module MeshRules {
  import opened Common

  /**
   * `root` computes the `Gain`-th root of a non-negative number. The
   * source writes it `np.power(x, 1/Gain)`; here it is a parameter that
   * callers supply together with this property.
   */
  ghost predicate IsRoot(root: real -> real, gain: nat)
  {
    forall x :: x >= 0.0 ==> root(x) >= 0.0 && Pow(root(x), gain) == x
  }

  /** `lin[lin < 0] = 0` */
  function FloorAtZero(x: real): real { if x < 0.0 then 0.0 else x }

  /** `lin[lin > 1] = 1` */
  function CapAtOne(x: real): real { if x > 1.0 then 1.0 else x }

  /** The two masked assignments of `ClipLinMatrix`, one after the other. */
  function Clip(x: real): real { CapAtOne(FloorAtZero(x)) }

  /** Clipping lands in [0,1], fixes what is already there, and is idempotent. */
  lemma ClipProperties(x: real)
    ensures 0.0 <= Clip(x) <= 1.0
    ensures 0.0 <= x <= 1.0 ==> Clip(x) == x
    ensures Clip(Clip(x)) == Clip(x)
  {
  }

  /** `1 / (1 + (Off*(1-x)/x) ** Gain)`, applied to linear weights strictly inside (0,1). */
  function Sigmoid(x: real, off: real, gain: nat): (r: real)
    requires 0.0 < x < 1.0 && off > 0.0
    ensures 0.0 < r < 1.0
  {
    var b := off * (1.0 - x) / x;
    MulPositive(off, 1.0 - x);
    QuotientPositive(off * (1.0 - x), x);
    PowPositive(b, gain);
    var p := Pow(b, gain);
    ReciprocalDecreasing(1.0, 1.0 + p);
    1.0 / (1.0 + p)
  }

  /** `1 / (1 + ((1/Off)*(1-w)/w) ** (1/Gain))`, applied to weights strictly inside (0,1). */
  function InvSigmoid(w: real, off: real, gain: nat, root: real -> real): (r: real)
    requires 0.0 < w < 1.0 && off > 0.0 && gain >= 1 && IsRoot(root, gain)
    ensures 0.0 < r < 1.0
  {
    var b := (1.0 / off) * (1.0 - w) / w;
    ReciprocalDecreasing(off, off);
    MulPositive(1.0 / off, 1.0 - w);
    QuotientPositive((1.0 / off) * (1.0 - w), w);
    var c := root(b);
    assert c > 0.0 by {
      if c == 0.0 {
        PowOfZero(gain);
      }
    }
    ReciprocalDecreasing(1.0, 1.0 + c);
    1.0 / (1.0 + c)
  }

  /**
   * The value `SigMatrix` writes for one linear weight: 0 at or below 0,
   * 1 at or above 1, the sigmoid in between.
   */
  function Transfer(lin: real, off: real, gain: nat): real
    requires off > 0.0
  {
    if lin <= 0.0 then 0.0 else if lin >= 1.0 then 1.0 else Sigmoid(lin, off, gain)
  }

  /** Every implementable weight lies in [0,1], strictly inside where the linear one does. */
  lemma TransferBounds(lin: real, off: real, gain: nat)
    requires off > 0.0
    ensures 0.0 <= Transfer(lin, off, gain) <= 1.0
    ensures 0.0 < lin < 1.0 ==> 0.0 < Transfer(lin, off, gain) < 1.0
    ensures lin <= 0.0 ==> Transfer(lin, off, gain) == 0.0
    ensures lin >= 1.0 ==> Transfer(lin, off, gain) == 1.0
  {
  }

  /** The sigmoid is strictly increasing on (0,1) for a positive gain. */
  lemma SigmoidIncreasing(x: real, y: real, off: real, gain: nat)
    requires 0.0 < x < y < 1.0 && off > 0.0 && gain >= 1
    ensures Sigmoid(x, off, gain) < Sigmoid(y, off, gain)
  {
    var bx, bY := off * (1.0 - x) / x, off * (1.0 - y) / y;
    assert bx == off * (1.0 / x - 1.0);
    assert bY == off * (1.0 / y - 1.0);
    ReciprocalDecreasing(x, y);
    ReciprocalDecreasing(y, 1.0);
    assert 0.0 < 1.0 / y - 1.0 < 1.0 / x - 1.0;
    MulPositive(off, 1.0 / y - 1.0);
    MulPositive(off, (1.0 / x - 1.0) - (1.0 / y - 1.0));
    assert 0.0 < bY < bx;
    PowStrictlyIncreasing(bY, bx, gain);
    PowPositive(bY, gain);
    ReciprocalDecreasing(1.0 + Pow(bY, gain), 1.0 + Pow(bx, gain));
  }

  /** With `Off == 1` the sigmoid undoes its inverse on (0,1). */
  lemma SigmoidOfInvSigmoid(w: real, gain: nat, root: real -> real)
    requires 0.0 < w < 1.0 && gain >= 1 && IsRoot(root, gain)
    ensures Sigmoid(InvSigmoid(w, 1.0, gain, root), 1.0, gain) == w
  {
    var b := (1.0 / 1.0) * (1.0 - w) / w;
    var c := root(b);
    assert c > 0.0 by {
      if c == 0.0 {
        PowOfZero(gain);
      }
    }
    var y := InvSigmoid(w, 1.0, gain, root);
    assert y == 1.0 / (1.0 + c);
    assert 1.0 * (1.0 - y) / y == c by {
      assert 1.0 - y == c / (1.0 + c);
    }
    assert Pow(c, gain) == (1.0 - w) / w;
    assert 1.0 / (1.0 + (1.0 - w) / w) == w by {
      assert 1.0 + (1.0 - w) / w == 1.0 / w;
    }
  }

  /** With `Off == 1` the inverse undoes the sigmoid on (0,1). */
  lemma InvSigmoidOfSigmoid(x: real, gain: nat, root: real -> real)
    requires 0.0 < x < 1.0 && gain >= 1 && IsRoot(root, gain)
    ensures InvSigmoid(Sigmoid(x, 1.0, gain), 1.0, gain, root) == x
  {
    var b := 1.0 * (1.0 - x) / x;
    PowPositive(b, gain);
    var p := Pow(b, gain);
    var s := Sigmoid(x, 1.0, gain);
    assert s == 1.0 / (1.0 + p);
    assert (1.0 / 1.0) * (1.0 - s) / s == p by {
      assert 1.0 - s == p / (1.0 + p);
    }
    var c := root(p);
    PowInjective(c, b, gain);
    assert 1.0 / (1.0 + b) == x by {
      assert 1.0 + b == 1.0 / x;
    }
  }

  /**
   * For `Off != 1` the two are not inverses: with `Off == 2` and `Gain == 2`
   * the weight 2/3 comes back as 1/2.
   */
  lemma RoundTripFailsWhenOffIsTwo(root: real -> real)
    requires IsRoot(root, 2)
    ensures Sigmoid(InvSigmoid(2.0 / 3.0, 2.0, 2, root), 2.0, 2) == 0.5
  {
    var w := 2.0 / 3.0;
    var b := (1.0 / 2.0) * (1.0 - w) / w;
    assert b == 0.25;
    var c := root(b);
    assert Pow(0.5, 2) == 0.25;
    PowInjective(c, 0.5, 2);
    var y := InvSigmoid(w, 2.0, 2, root);
    assert y == w;
    assert 2.0 * (1.0 - y) / y == 1.0;
  }

  /** The factor `SoftBound` multiplies one entry of a weight change by. */
  function SoftBoundEntry(d: real, lin: real, inc: real, dec: real, soft: bool): real
  {
    if soft then (if d > 0.0 then d * (inc * (1.0 - lin)) else d * (dec * lin))
    else (if d > 0.0 then d * inc else d * dec)
  }

  /**
   * Soft bounding never flips the sign of a change and keeps a zero change
   * zero, as long as the weight is in [0,1] and the factors are non-negative.
   */
  lemma SoftBoundKeepsSign(d: real, lin: real, inc: real, dec: real, soft: bool)
    requires 0.0 <= lin <= 1.0 && inc >= 0.0 && dec >= 0.0
    ensures d > 0.0 ==> SoftBoundEntry(d, lin, inc, dec, soft) >= 0.0
    ensures d < 0.0 ==> SoftBoundEntry(d, lin, inc, dec, soft) <= 0.0
    ensures d == 0.0 ==> SoftBoundEntry(d, lin, inc, dec, soft) == 0.0
  {
    if d > 0.0 {
      MulNonNegative(inc, 1.0 - lin);
      MulNonNegative(d, inc * (1.0 - lin));
    } else {
      MulNonNegative(dec, lin);
      MulNonNegative(-d, dec * lin);
    }
  }

  /**
   * The point of soft bounding: a change no larger than the reach of the
   * increment and decrement factors moves a weight in [0,1] to a weight in
   * [0,1], because it shrinks as the weight nears the bound it heads for.
   */
  lemma SoftBoundStaysInUnit(d: real, lin: real, inc: real, dec: real)
    requires 0.0 <= lin <= 1.0 && inc >= 0.0 && dec >= 0.0
    requires d * inc <= 1.0 && d * dec >= -1.0
    ensures 0.0 <= lin + SoftBoundEntry(d, lin, inc, dec, true) <= 1.0
  {
    if d > 0.0 {
      RaiseStaysBelowOne(d, lin, inc);
    } else {
      LowerStaysAboveZero(d, lin, dec);
    }
  }

  /** A raise scaled by `inc*(1-lin)` uses at most the room left above `lin`. */
  lemma RaiseStaysBelowOne(d: real, lin: real, inc: real)
    requires 0.0 <= lin <= 1.0 && inc >= 0.0 && d > 0.0 && d * inc <= 1.0
    ensures 0.0 <= d * (inc * (1.0 - lin)) <= 1.0 - lin
  {
    MulAssociates(d, inc, 1.0 - lin);
    MulNonNegative(d, inc);
    FractionOfRoom(d * inc, 1.0 - lin);
  }

  /** A fall scaled by `dec*lin` uses at most the room left below `lin`. */
  lemma LowerStaysAboveZero(d: real, lin: real, dec: real)
    requires 0.0 <= lin <= 1.0 && dec >= 0.0 && d <= 0.0 && d * dec >= -1.0
    ensures -lin <= d * (dec * lin) <= 0.0
  {
    var k := d * dec;
    MulAssociates(d, dec, lin);
    MulMonotone(d, 0.0, dec);
    FractionOfRoom(-k, lin);
    NegateProduct(k, lin);
  }

  /** A fraction in [0,1] of a non-negative room stays within the room. */
  lemma FractionOfRoom(k: real, room: real)
    requires 0.0 <= k <= 1.0 && room >= 0.0
    ensures 0.0 <= k * room <= room
  {
    MulNonNegative(k, room);
    MulMonotone(k, 1.0, room);
  }

  lemma NegateProduct(a: real, b: real)
    ensures (-a) * b == -(a * b)
  {
  }

  /** The thresholds and gains of the weight-balance controller. */
  datatype BalanceParams = BalanceParams(avgThr: real, hiThr: real, hiGain: real, loThr: real, loGain: real)

  /** The controller's state: the last correction and the two factors. */
  datatype Factors = Factors(fact: real, inc: real, dec: real)

  /** Settings under which the controller never divides by zero. */
  predicate SaneBalance(p: BalanceParams)
  {
    p.loGain >= 0.0 && p.hiGain >= 0.0 && p.avgThr <= p.loThr
  }

  /**
   * The factors after a correction `fact >= 0`: the factor on the side the
   * controller favours grows, the other shrinks, and the two always sum to 2.
   */
  function Favour(fact: real, raise: bool): (r: Factors)
    requires fact >= 0.0
    ensures r.fact == fact && r.inc + r.dec == 2.0
    ensures raise ==> r.dec * (1.0 + fact) == 1.0 && 0.0 < r.dec <= 1.0 <= r.inc < 2.0
    ensures !raise ==> r.inc * (1.0 + fact) == 1.0 && 0.0 < r.inc <= 1.0 <= r.dec < 2.0
  {
    var small := 1.0 / (1.0 + fact);
    ReciprocalDecreasing(1.0, 1.0 + fact);
    if raise then Factors(fact, 2.0 - small, small) else Factors(fact, small, 2.0 - small)
  }

  /** A larger correction raises the favoured factor further. */
  lemma FavourMonotone(f1: real, f2: real)
    requires 0.0 <= f1 <= f2
    ensures Favour(f1, true).inc <= Favour(f2, true).inc
    ensures Favour(f1, false).dec <= Favour(f2, false).dec
  {
    ReciprocalDecreasing(1.0 + f1, 1.0 + f2);
  }

  /** `if wbAvg < wbAvgThr: wbAvg = wbAvgThr`: the mean the low correction reads. */
  function FlooredMean(avg: real, p: BalanceParams): (a: real)
    ensures a >= avg && a >= p.avgThr
  {
    if avg < p.avgThr then p.avgThr else avg
  }

  /**
   * The correction when the mean weight is below `loThr`; a mean below
   * `avgThr` counts as `avgThr`.
   */
  function LowCorrection(avg: real, p: BalanceParams): (c: real)
    requires SaneBalance(p) && avg < p.loThr
    ensures c >= 0.0
  {
    var a := FlooredMean(avg, p);
    MulNonNegative(p.loGain, p.loThr - a);
    p.loGain * (p.loThr - a)
  }

  /** The lower the mean, the larger the correction. */
  lemma LowCorrectionAntitone(a1: real, a2: real, p: BalanceParams)
    requires SaneBalance(p) && a1 <= a2 < p.loThr
    ensures LowCorrection(a1, p) >= LowCorrection(a2, p)
  {
    GainOfShortfallAntitone(p.loGain, p.loThr, FlooredMean(a1, p), FlooredMean(a2, p));
  }

  /** A non-negative gain times the shortfall below a threshold shrinks as the value rises. */
  lemma GainOfShortfallAntitone(gain: real, thr: real, m1: real, m2: real)
    requires gain >= 0.0 && m1 <= m2
    ensures gain * (thr - m2) <= gain * (thr - m1)
  {
    ScaleMonotone(gain, thr - m2, thr - m1);
  }

  /** One step of `WtBalance` (its `WtBalFmWt` part), given the mean weight. */
  function Balance(avg: real, p: BalanceParams, f: Factors): (r: Factors)
    requires SaneBalance(p)
    ensures avg < p.loThr ==>
      && r.fact == LowCorrection(avg, p)
      && r.dec * (1.0 + r.fact) == 1.0
      && r.inc + r.dec == 2.0
      && 0.0 < r.dec <= 1.0 <= r.inc < 2.0
    ensures p.loThr <= avg && avg > p.hiThr ==>
      && r.fact == p.hiGain * (avg - p.hiThr)
      && r.inc * (1.0 + r.fact) == 1.0
      && r.inc + r.dec == 2.0
      && 0.0 < r.inc <= 1.0 <= r.dec < 2.0
    ensures p.loThr <= avg <= p.hiThr ==> r == f
  {
    if avg < p.loThr then
      Favour(LowCorrection(avg, p), true)
    else if avg > p.hiThr then
      MulNonNegative(p.hiGain, avg - p.hiThr);
      Favour(p.hiGain * (avg - p.hiThr), false)
    else
      f
  }

  /**
   * `WtBalFmWt` given `np.mean(matrix)`. The mean of an empty matrix is NaN,
   * which fails both threshold tests, so the factors are kept.
   */
  function BalanceStep(avg: Option<real>, p: BalanceParams, f: Factors): (r: Factors)
    requires SaneBalance(p)
    ensures avg.None? ==> r == f
    ensures avg.Some? ==> r == Balance(avg.value, p, f)
  {
    match avg
    case None => f
    case Some(a) => Balance(a, p, f)
  }

  /** The factors stay non-negative, and once the controller has acted they sum to 2. */
  lemma BalanceStepKeepsFactors(avg: Option<real>, p: BalanceParams, f: Factors)
    requires SaneBalance(p) && f.inc >= 0.0 && f.dec >= 0.0
    ensures BalanceStep(avg, p, f).inc >= 0.0 && BalanceStep(avg, p, f).dec >= 0.0
    ensures BalanceStep(avg, p, f) != f ==> BalanceStep(avg, p, f).inc + BalanceStep(avg, p, f).dec == 2.0
  {
  }

  /**
   * Homeostasis: the further the mean weight sits below the low threshold,
   * the larger the increment factor, until the mean reaches `avgThr`, below
   * which the correction no longer grows.
   */
  lemma BalanceLowerMeanRaisesIncrement(a1: real, a2: real, p: BalanceParams, f: Factors)
    requires SaneBalance(p) && a1 <= a2 < p.loThr
    ensures Balance(a1, p, f).inc >= Balance(a2, p, f).inc
  {
    LowCorrectionAntitone(a1, a2, p);
    FavourMonotone(LowCorrection(a2, p), LowCorrection(a1, p));
  }

  /** Below `avgThr` the controller saturates: every such mean gives the same factors. */
  lemma BalanceSaturatesBelowAvgThr(a1: real, a2: real, p: BalanceParams, f: Factors)
    requires SaneBalance(p) && a1 <= p.avgThr && a2 <= p.avgThr && a2 < p.loThr && a1 < p.loThr
    ensures Balance(a1, p, f) == Balance(a2, p, f)
  {
  }

  /** What the delta-sender keeps for one input neuron: its last sent value and the change to add. */
  datatype Sent = Sent(last: real, change: real)

  /**
   * One entry of `apply`'s delta-sender: a value above `send` whose change
   * exceeds `delta` is sent; a neuron that falls to `send` or below after
   * having been sent is withdrawn; anything else is held.
   */
  function SenderStep(x: real, last: real, send: real, delta: real): (r: Sent)
    ensures r.last == last + r.change
    ensures (last == 0.0 || last > send) ==> (r.last == 0.0 || r.last > send)
    ensures x > send && Abs(x - last) > delta ==> r.last == x
    ensures x <= send && last > send ==> r.last == 0.0
    ensures !(x > send && Abs(x - last) > delta) && !(x <= send && last > send) ==> r == Sent(last, 0.0)
  {
    if x > send && Abs(x - last) > delta then Sent(x, x - last)
    else if x <= send && last > send then Sent(0.0, -last)
    else Sent(last, 0.0)
  }
}
