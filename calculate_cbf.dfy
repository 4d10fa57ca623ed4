/** MRICloud single-delay CBF: scales the difference map slice by slice with
    the labeling kinetics of PCASL or PASL, divides by the M0 map (with
    near-zero M0 voxels replaced by the calc-mask mean), applies the
    labeling-efficiency factor alpha, clips to [0, 200] ml/100g/min and
    normalises by the calc-mask mean to give relative CBF. */
module CalculateCbf {
  import opened Common

  const DefaultT1Blood: real := 1650.0
  const DefaultPartCoef: real := 0.9
  const DefaultBgsEff: real := 0.93
  /** |M0| below this counts as zero. */
  const M0Floor: real := 0.000001

  /** The entries of the data description the module reads. A None field is a
      key absent from the dictionary. */
  datatype CbfDescription = CbfDescription(
    aslType: AslType,
    pldList: seq<real>,
    acquisition: Acquisition,
    sliceDuration: Option<real>,
    labelingDuration: Option<real>,
    bolusCutOffDelay: Option<real>,
    backgroundSuppression: bool,
    numberPulses: Option<nat>,
    labelingEfficiency: real)

  datatype CbfMaps = CbfMaps(acbf: seq<real>, rcbf: Option<seq<real>>)

  /** The labeling delay in ms taken from the PLD list: its first non-zero
      entry times 1000; no non-zero entry is indexing an empty list. */
  function PldMs(d: CbfDescription): (r: Result<real>)
    ensures r.Err? <==> NonZero(d.pldList) == []
    ensures r.Err? ==> r.error.IndexError?
    ensures r.Ok? ==> r.value != 0.0 && r.value / 1000.0 in d.pldList
  {
    var p := FirstNonZero(d.pldList);
    if p.None? then Err(IndexError("no non-zero PLD"))
    else
      assert p.value in NonZero(d.pldList);
      assert p.value * 1000.0 / 1000.0 == p.value;
      Ok(p.value * 1000.0)
  }

  /** What the slice loop needs once its checks have passed: the labeling
      delay of the slice with index 1 (ms), the spacing between consecutive
      slices (0 in 3D) and the divisor of the exponential, which is
      (1-exp(-LD*1000/T1))*T1 for PCASL and BCDT*1000 for PASL. */
  datatype Kinetics = NoKinetics | Kinetics(delay: real, step: real, divisor: real)

  /** `SliceDuration*1000` per slice outside 3D, where the key must exist. */
  function SliceStep(d: CbfDescription): (r: Result<real>)
    ensures d.acquisition == ThreeD ==> r == Ok(0.0)
    ensures d.acquisition != ThreeD ==>
      (d.sliceDuration.None? ==> r == Err(KeyError("SliceDuration"))) &&
      (d.sliceDuration.Some? ==> r == Ok(d.sliceDuration.value * 1000.0))
  {
    if d.acquisition == ThreeD then Ok(0.0)
    else if d.sliceDuration.None? then Err(KeyError("SliceDuration"))
    else Ok(d.sliceDuration.value * 1000.0)
  }

  /** The checks of one pass of the slice loop, in the order the Python
      expression evaluates them. They do not involve the slice index, so the
      first pass stops with the same error as any other would. Labeling
      types other than PCASL and PASL (CASL included) leave tmpcbf at zero. */
  function SliceKinetics(d: CbfDescription, t1: real, m: Math): Result<Kinetics> {
    match d.aslType
    case PCASL =>
      var pld :- PldMs(d);
      var step :- SliceStep(d);
      if t1 == 0.0 then Err(ZeroDivisionError("spld / t1_blood"))
      else if d.labelingDuration.None? then Err(KeyError("LabelingDuration"))
      else
        var denom := 1.0 - m.exp(-d.labelingDuration.value * 1000.0 / t1);
        if denom == 0.0 then Err(NotFinite("PCASL saturation term is zero"))
        else Ok(Kinetics(pld, step, denom * t1))
    case PASL =>
      var pld :- PldMs(d);
      if d.bolusCutOffDelay.None? then Err(KeyError("BolusCutOffDelayTime"))
      else
        var step :- SliceStep(d);
        if t1 == 0.0 then Err(ZeroDivisionError("sti / t1_blood"))
        else if d.bolusCutOffDelay.value == 0.0 then Err(NotFinite("PASL bolus duration is zero"))
        else Ok(Kinetics(pld + d.bolusCutOffDelay.value * 1000.0, step, d.bolusCutOffDelay.value * 1000.0))
    case _ => Ok(NoKinetics)
  }

  /** spld (PCASL) or sti (PASL) of slice kk, 0-based as `range(nslice)`
      yields it: delay + step*(kk-1). */
  function SliceDelay(k: Kinetics, kk: nat): real
    requires k.Kinetics?
  {
    k.delay + k.step * (kk as real - 1.0)
  }

  /** The factor tmpcbf[:, :, kk] = diff[:, :, kk] * factor. */
  function SliceFactor(k: Kinetics, t1: real, kk: nat, m: Math): real
    requires k.Kinetics? ==> k.divisor != 0.0 && t1 != 0.0
  {
    if k.NoKinetics? then 0.0 else m.exp(SliceDelay(k, kk) / t1) / k.divisor
  }

  /** PCASL delays: in 3D every slice gets the first non-zero PLD; otherwise
      consecutive slices are SliceDuration*1000 ms apart, the slice with index 1
      gets the PLD and slice 0 one slice duration less. PASL adds BCDT*1000. */
  lemma SliceDelays(d: CbfDescription, t1: real, m: Math, kk: nat)
    requires SliceKinetics(d, t1, m).Ok? && (d.aslType == PCASL || d.aslType == PASL)
    ensures SliceKinetics(d, t1, m).value.Kinetics?
    ensures var k := SliceKinetics(d, t1, m).value;
      var base := PldMs(d).value + (if d.aslType == PASL then d.bolusCutOffDelay.value * 1000.0 else 0.0);
      SliceDelay(k, 1) == base &&
      (d.acquisition == ThreeD ==> SliceDelay(k, kk) == base) &&
      (d.acquisition != ThreeD ==>
        SliceDelay(k, kk + 1) - SliceDelay(k, kk) == d.sliceDuration.value * 1000.0 &&
        SliceDelay(k, 0) == base - d.sliceDuration.value * 1000.0)
  {
  }

  /** Kinetics that passed the checks have a non-zero divisor and T1. */
  lemma KineticsDivisors(d: CbfDescription, t1: real, m: Math)
    requires SliceKinetics(d, t1, m).Ok?
    ensures SliceKinetics(d, t1, m).value.Kinetics? ==> SliceKinetics(d, t1, m).value.divisor != 0.0 && t1 != 0.0
    ensures SliceKinetics(d, t1, m).value.NoKinetics? <==> d.aslType != PCASL && d.aslType != PASL
  {
  }

  /** tmpcbf as the slice loop leaves it: diff times the factor of each
      voxel's slice, or the error of the loop's first pass. */
  function TmpCbf(diff: seq<real>, nz: nat, d: CbfDescription, t1: real, m: Math): (r: Result<seq<real>>)
    requires nz == 0 ==> |diff| == 0
    ensures r.Ok? ==> |r.value| == |diff|
  {
    if nz == 0 then Ok([])
    else
      var k :- SliceKinetics(d, t1, m);
      KineticsDivisors(d, t1, m);
      Ok(seq(|diff|, i requires 0 <= i < |diff| => diff[i] * SliceFactor(k, t1, SliceOf(i, nz), m)))
  }

  /** tmpcbf is zero wherever diff is, and everywhere for labeling types
      other than PCASL and PASL; the checks fail only on a non-empty slice range. */
  lemma TmpCbfZeros(diff: seq<real>, nz: nat, d: CbfDescription, t1: real, m: Math, i: nat)
    requires nz == 0 ==> |diff| == 0
    requires i < |diff| && TmpCbf(diff, nz, d, t1, m).Ok?
    ensures diff[i] == 0.0 || (d.aslType != PCASL && d.aslType != PASL) ==> TmpCbf(diff, nz, d, t1, m).value[i] == 0.0
    ensures TmpCbf(diff, nz, d, t1, m).Err? ==> nz > 0 && SliceKinetics(d, t1, m).Err?
  {
    KineticsDivisors(d, t1, m);
  }

  /** The per-slice loop filling tmpcbf. nz is the number of slices; voxel i
      lies in slice i % nz. The checks run in the first pass, so an empty
      slice range raises nothing. */
  method FillTmpCbf(diff: seq<real>, nz: nat, d: CbfDescription, t1: real, m: Math) returns (r: Result<seq<real>>)
    requires nz == 0 ==> |diff| == 0
    ensures r == TmpCbf(diff, nz, d, t1, m)
  {
    if nz == 0 {
      return Ok([]);
    }
    var k :- SliceKinetics(d, t1, m);
    KineticsDivisors(d, t1, m);
    var tmp := FillSlices(diff, nz, k, t1, m);
    assert SliceKinetics(d, t1, m) == Ok(k);
    var spec := TmpCbf(diff, nz, d, t1, m).value;
    assert forall i :: 0 <= i < |diff| ==> tmp[i] == spec[i];
    assert tmp == spec;
    r := Ok(tmp);
  }

  /** The slice loop itself: slice kk of tmpcbf is diff times the factor of
      slice kk, one slice per pass. */
  method FillSlices(diff: seq<real>, nz: nat, k: Kinetics, t1: real, m: Math) returns (tmp: seq<real>)
    requires nz > 0 && (k.Kinetics? ==> k.divisor != 0.0 && t1 != 0.0)
    ensures |tmp| == |diff|
    ensures forall i :: 0 <= i < |diff| ==> tmp[i] == diff[i] * SliceFactor(k, t1, SliceOf(i, nz), m)
  {
    tmp := Zeros(|diff|);
    var kk := 0;
    while kk < nz
      invariant kk <= nz && |tmp| == |diff|
      invariant forall i :: 0 <= i < |diff| ==>
        tmp[i] == if SliceOf(i, nz) < kk then diff[i] * SliceFactor(k, t1, SliceOf(i, nz), m) else 0.0
    {
      var f := SliceFactor(k, t1, kk, m);
      tmp := seq(|diff|, i requires 0 <= i < |diff| => if SliceOf(i, nz) == kk then diff[i] * f else tmp[i]);
      kk := kk + 1;
    }
  }

  /** alpha: LabelingEfficiency, times bgs_eff^NumberPulses under background suppression. */
  function Alpha(d: CbfDescription, bgsEff: real): (r: Result<real>)
    ensures r.Err? <==> d.backgroundSuppression && d.numberPulses.None?
    ensures !d.backgroundSuppression ==> r == Ok(d.labelingEfficiency)
    ensures r.Ok? && d.backgroundSuppression ==> r.value == Pow(bgsEff, d.numberPulses.value) * d.labelingEfficiency
  {
    if !d.backgroundSuppression then Ok(d.labelingEfficiency)
    else if d.numberPulses.None? then Err(KeyError("BackgroundSuppressionNumberPulses"))
    else Ok(Pow(bgsEff, d.numberPulses.value) * d.labelingEfficiency)
  }

  lemma {:induction false} PowUnitInterval(x: real, n: nat)
    requires 0.0 <= x <= 1.0
    ensures 0.0 <= Pow(x, n) <= 1.0
    ensures Pow(x, n + 1) <= Pow(x, n)
  {
    if n > 0 {
      PowUnitInterval(x, n - 1);
    }
    var p := Pow(x, n);
    assert 0.0 <= p <= 1.0 by {
      if n > 0 {
        var q := Pow(x, n - 1);
        assert p == x * q;
        assert x * q <= 1.0 * q;
      }
    }
    assert Pow(x, n + 1) == x * p;
    assert x * p <= 1.0 * p;
  }

  /** With an efficiency in [0, 1] each background-suppression pulse can only
      lower alpha, which never exceeds the labeling efficiency. */
  lemma AlphaBounds(d: CbfDescription, bgsEff: real)
    requires 0.0 <= bgsEff <= 1.0 && 0.0 <= d.labelingEfficiency
    requires Alpha(d, bgsEff).Ok?
    ensures 0.0 <= Alpha(d, bgsEff).value <= d.labelingEfficiency
    ensures d.backgroundSuppression ==>
      Alpha(d.(numberPulses := Some(d.numberPulses.value + 1)), bgsEff).value <= Alpha(d, bgsEff).value
  {
    if d.backgroundSuppression {
      PowUnitInterval(bgsEff, d.numberPulses.value);
      var p := Pow(bgsEff, d.numberPulses.value);
      var q := Pow(bgsEff, d.numberPulses.value + 1);
      var le := d.labelingEfficiency;
      assert q * le <= p * le;
      assert 0.0 <= p * le by {
        assert 0.0 <= p && 0.0 <= le;
      }
      assert p * le <= 1.0 * le;
      assert Alpha(d, bgsEff).value == p * le;
      assert Alpha(d.(numberPulses := Some(d.numberPulses.value + 1)), bgsEff).value == q * le;
    }
  }

  predicate NearZero(x: real) {
    Abs(x) < M0Floor
  }

  predicate AnyNearZero(m0: seq<real>) {
    exists i :: 0 <= i < |m0| && NearZero(m0[i])
  }

  /** `m0map[abs(m0map) < 1e-6] = mean(m0map[clcu])`: the replacement value is
      the calc-mask mean of the map before any voxel is replaced. With an
      empty calc mask that mean is NaN, which reaches the maps. */
  function FixM0(m0: seq<real>, clcu: seq<bool>): (r: Result<seq<real>>)
    requires |m0| == |clcu|
    ensures r.Err? <==> AnyNearZero(m0) && CountTrue(clcu) == 0
    ensures r.Ok? ==> (|r.value| == |m0| &&
      forall i :: 0 <= i < |m0| ==>
        (!NearZero(m0[i]) ==> r.value[i] == m0[i]) &&
        (NearZero(m0[i]) ==> Some(r.value[i]) == MaskedMean(m0, clcu)))
  {
    if !AnyNearZero(m0) then Ok(m0)
    else if CountTrue(clcu) == 0 then Err(NotFinite("mean of an empty calc mask"))
    else
      var mean := MaskedMean(m0, clcu).value;
      Ok(seq(|m0|, i requires 0 <= i < |m0| => if NearZero(m0[i]) then mean else m0[i]))
  }

  /** After the fix no voxel is near zero, unless the calc-mask mean itself is. */
  lemma FixM0ClearsNearZero(m0: seq<real>, clcu: seq<bool>)
    requires |m0| == |clcu| && FixM0(m0, clcu).Ok?
    requires MaskedMean(m0, clcu).Some? ==> !NearZero(MaskedMean(m0, clcu).value)
    ensures forall i :: 0 <= i < |m0| ==> !NearZero(FixM0(m0, clcu).value[i])
  {
  }

  /** One voxel of `clip(tmpcbf / m0vol * brvol * part_coef / 2 / alpha * 6e6, 0, 200)`. */
  function AcbfVoxel(tmp: real, m0: real, inDisplay: bool, partCoef: real, alpha: real): (c: real)
    requires m0 != 0.0 && alpha != 0.0
    ensures 0.0 <= c <= 200.0
    ensures !inDisplay || tmp == 0.0 ==> c == 0.0
  {
    Clip(tmp / m0 * (if inDisplay then 1.0 else 0.0) * partCoef / 2.0 / alpha * 60.0 * 100.0 * 1000.0, 0.0, 200.0)
  }

  lemma {:induction false} MaskedSumScale(v: seq<real>, w: seq<real>, mask: seq<bool>, g: real)
    requires |v| == |w| == |mask| && g != 0.0
    requires forall i :: 0 <= i < |v| ==> w[i] == v[i] / g
    ensures MaskedSum(w, mask) == MaskedSum(v, mask) / g
  {
    if |v| > 0 {
      var k := |v| - 1;
      MaskedSumScale(v[..k], w[..k], mask[..k], g);
    }
  }

  /** rCBF: aCBF divided by its calc-mask mean; None where that mean is NaN
      (empty mask) or zero (so the quotient is NaN or inf). */
  function Relative(acbf: seq<real>, clcu: seq<bool>): (r: Option<seq<real>>)
    requires |acbf| == |clcu|
    ensures r.Some? <==> MaskedMean(acbf, clcu).Some? && MaskedMean(acbf, clcu).value != 0.0
    ensures r.Some? ==> (|r.value| == |acbf| &&
      forall i :: 0 <= i < |acbf| ==> r.value[i] * MaskedMean(acbf, clcu).value == acbf[i])
  {
    var g := MaskedMean(acbf, clcu);
    if g.None? || g.value == 0.0 then None
    else Some(seq(|acbf|, i requires 0 <= i < |acbf| => acbf[i] / g.value))
  }

  /** The calc-mask mean of the relative map is 1. */
  lemma RelativeMeanIsOne(acbf: seq<real>, clcu: seq<bool>)
    requires |acbf| == |clcu| && Relative(acbf, clcu).Some?
    ensures MaskedMean(Relative(acbf, clcu).value, clcu) == Some(1.0)
  {
    var g := MaskedMean(acbf, clcu).value;
    var w := Relative(acbf, clcu).value;
    MaskedSumScale(acbf, w, clcu, g);
    var c := CountTrue(clcu) as real;
    var s := MaskedSum(acbf, clcu);
    assert g == s / c && c > 0.0;
    assert s == g * c;
    assert MaskedSum(w, clcu) == s / g == c;
    assert MaskedSum(w, clcu) / c == 1.0;
  }

  predicate HasZero(s: seq<real>) {
    exists i :: 0 <= i < |s| && s[i] == 0.0
  }

  /** The array expressions after the slice loop: M0 fix, division by M0 and
      alpha, clipping, and normalisation. A zero M0 voxel (left when the
      calc-mask mean is itself zero) or a zero alpha is numpy's inf/NaN. */
  function Quantify(tmp: seq<real>, m0: seq<real>, dspl: seq<bool>, clcu: seq<bool>, partCoef: real, alpha: real)
    : (r: Result<CbfMaps>)
    requires |m0| == |tmp| && |dspl| == |tmp| && |clcu| == |tmp|
    ensures r.Ok? <==> FixM0(m0, clcu).Ok? && alpha != 0.0 && !HasZero(FixM0(m0, clcu).value)
    ensures r.Ok? ==> (|r.value.acbf| == |tmp| && r.value.rcbf == Relative(r.value.acbf, clcu) &&
      forall i :: 0 <= i < |tmp| ==>
        r.value.acbf[i] == AcbfVoxel(tmp[i], FixM0(m0, clcu).value[i], dspl[i], partCoef, alpha) &&
        0.0 <= r.value.acbf[i] <= 200.0 &&
        (!dspl[i] || tmp[i] == 0.0 ==> r.value.acbf[i] == 0.0))
  {
    var m0f :- FixM0(m0, clcu);
    if alpha == 0.0 || HasZero(m0f) then Err(NotFinite("division by a zero M0 voxel or a zero alpha"))
    else
      var acbf := seq(|tmp|, i requires 0 <= i < |tmp| => AcbfVoxel(tmp[i], m0f[i], dspl[i], partCoef, alpha));
      Ok(CbfMaps(acbf, Relative(acbf, clcu)))
  }

  /** What the run computes for one series: diff, M0 map, display and calc
      masks are flat volumes of the same size with nz slices. */
  function Cbf(diff: seq<real>, m0: seq<real>, dspl: seq<bool>, clcu: seq<bool>, nz: nat,
               d: CbfDescription, t1Given: Option<real>, pcGiven: Option<real>, bgsGiven: Option<real>, m: Math)
    : (r: Result<CbfMaps>)
    requires |m0| == |diff| && |dspl| == |diff| && |clcu| == |diff|
    requires nz == 0 ==> |diff| == 0
  {
    var tmp :- TmpCbf(diff, nz, d, Setting(t1Given, DefaultT1Blood), m);
    var alpha :- Alpha(d, Setting(bgsGiven, DefaultBgsEff));
    Quantify(tmp, m0, dspl, clcu, Setting(pcGiven, DefaultPartCoef), alpha)
  }

  /** Every aCBF value lies in [0, 200]; it is 0 outside the display mask,
      where diff is 0, and everywhere for labeling types other than PCASL and
      PASL; rCBF is aCBF over its calc-mask mean, whose own mean is 1. */
  lemma CbfProperties(diff: seq<real>, m0: seq<real>, dspl: seq<bool>, clcu: seq<bool>, nz: nat,
                      d: CbfDescription, t1Given: Option<real>, pcGiven: Option<real>, bgsGiven: Option<real>, m: Math)
    requires |m0| == |diff| && |dspl| == |diff| && |clcu| == |diff|
    requires nz == 0 ==> |diff| == 0
    requires Cbf(diff, m0, dspl, clcu, nz, d, t1Given, pcGiven, bgsGiven, m).Ok?
    ensures var c := Cbf(diff, m0, dspl, clcu, nz, d, t1Given, pcGiven, bgsGiven, m).value;
      |c.acbf| == |diff| &&
      (forall i :: 0 <= i < |diff| ==>
        0.0 <= c.acbf[i] <= 200.0 &&
        (!dspl[i] || diff[i] == 0.0 || (d.aslType != PCASL && d.aslType != PASL) ==> c.acbf[i] == 0.0)) &&
      c.rcbf == Relative(c.acbf, clcu) &&
      (c.rcbf.Some? ==> MaskedMean(c.rcbf.value, clcu) == Some(1.0))
  {
    var t1 := Setting(t1Given, DefaultT1Blood);
    var c := Cbf(diff, m0, dspl, clcu, nz, d, t1Given, pcGiven, bgsGiven, m).value;
    forall i | 0 <= i < |diff|
      ensures diff[i] == 0.0 || (d.aslType != PCASL && d.aslType != PASL) ==> TmpCbf(diff, nz, d, t1, m).value[i] == 0.0
    {
      TmpCbfZeros(diff, nz, d, t1, m, i);
    }
    if c.rcbf.Some? {
      RelativeMeanIsOne(c.acbf, clcu);
    }
  }

  /** The errors of the run, in the order Python meets them: the slice
      loop's checks (only when there is a slice), then a missing pulse count. */
  lemma CbfErrors(diff: seq<real>, m0: seq<real>, dspl: seq<bool>, clcu: seq<bool>, nz: nat,
                  d: CbfDescription, t1Given: Option<real>, pcGiven: Option<real>, bgsGiven: Option<real>, m: Math)
    requires |m0| == |diff| && |dspl| == |diff| && |clcu| == |diff|
    requires nz == 0 ==> |diff| == 0
    ensures var kin := SliceKinetics(d, Setting(t1Given, DefaultT1Blood), m);
      var r := Cbf(diff, m0, dspl, clcu, nz, d, t1Given, pcGiven, bgsGiven, m);
      (nz > 0 && kin.Err? ==> r == kin.PropagateFailure()) &&
      ((nz == 0 || kin.Ok?) && d.backgroundSuppression && d.numberPulses.None? ==>
        r == Err(KeyError("BackgroundSuppressionNumberPulses")))
  {
  }

  /** The module's run for one series. */
  method CalculateCbf(diff: seq<real>, m0: seq<real>, dspl: seq<bool>, clcu: seq<bool>, nz: nat,
                      d: CbfDescription, t1Given: Option<real>, pcGiven: Option<real>, bgsGiven: Option<real>, m: Math)
    returns (r: Result<CbfMaps>)
    requires |m0| == |diff| && |dspl| == |diff| && |clcu| == |diff|
    requires nz == 0 ==> |diff| == 0
    ensures r == Cbf(diff, m0, dspl, clcu, nz, d, t1Given, pcGiven, bgsGiven, m)
  {
    var t1 := Setting(t1Given, DefaultT1Blood);
    var tmp :- FillTmpCbf(diff, nz, d, t1, m);
    var alpha :- Alpha(d, Setting(bgsGiven, DefaultBgsEff));
    r := Quantify(tmp, m0, dspl, clcu, Setting(pcGiven, DefaultPartCoef), alpha);
  }
}
