/** MRICloud M0: either the M0 images the data set carries (a separate M0
    series, or the m0scan frames of the ASL series), or, with M0Type
    "Estimate", a global M0 estimated from the control image by undoing the
    saturation and background suppression each slice has undergone. */
module CalculateM0 {
  import opened Common
  import opened MricloudHelpers

  const DefaultT1Tissue: real := 1165.0
  const DefaultBgsEff: real := 0.93

  /** The entries of the data description the module reads; None is an
      absent key. */
  datatype M0Description = M0Description(
    m0Type: string,
    aslType: AslType,
    pldList: seq<real>,
    labelingDuration: Option<real>,
    bolusCutOffDelay: Option<real>,
    backgroundSuppression: bool,
    acquisition: Acquisition,
    sliceDuration: Option<real>,
    bgsPulseTimes: Option<seq<real>>)

  /** Where the M0 map comes from: any M0Type but "Estimate" uses the M0
      images, a named M0 series if the entry has one, else the m0scan frames. */
  datatype M0Source = SeparateSeries | AslContextFrames | EstimateFromControl

  function M0SourceOf(d: M0Description, m0Name: string): (r: M0Source)
    ensures r == EstimateFromControl <==> d.m0Type == "Estimate"
    ensures r == SeparateSeries <==> d.m0Type != "Estimate" && m0Name != ""
  {
    if d.m0Type != "Estimate" then (if m0Name != "" then SeparateSeries else AslContextFrames)
    else EstimateFromControl
  }

  /* ---------- M0 provided by the data set ---------- */

  /** The M0 series named in the data description, 3D or 4D. */
  datatype M0Images = Volume(voxels: seq<real>) | Series(frames: seq<seq<real>>)

  /** A 4D M0 series is averaged over its frames; a 3D one is used as is. */
  function SeparateM0(m0: M0Images, n: nat): (r: Result<seq<real>>)
    requires m0.Volume? ==> |m0.voxels| == n
    requires m0.Series? ==> Rect(m0.frames, n)
    ensures m0.Volume? ==> r == Ok(m0.voxels)
    ensures m0.Series? ==> (r.Ok? <==> m0.frames != [])
    ensures r.Ok? && m0.Series? ==> (|r.value| == n &&
      forall v :: 0 <= v < n ==> r.value[v] == FrameSum(m0.frames, v, |m0.frames|) / |m0.frames| as real)
  {
    match m0
    case Volume(voxels) => Ok(voxels)
    case Series(frames) =>
      if frames == [] then Err(NotFinite("mean over no frames"))
      else Ok(seq(n, v requires 0 <= v < n => FrameSum(frames, v, |frames|) / |frames| as real))
  }

  function FrameSum(frames: seq<seq<real>>, v: nat, k: nat): real
    requires k <= |frames| && forall i :: 0 <= i < k ==> v < |frames[i]|
  {
    if k == 0 then 0.0 else FrameSum(frames, v, k - 1) + frames[k - 1][v]
  }

  /** A series whose frames are all the same volume averages to that volume. */
  lemma {:induction false} MeanOfEqualFrames(frames: seq<seq<real>>, vol: seq<real>, v: nat, k: nat)
    requires k <= |frames| && v < |vol| && forall i :: 0 <= i < |frames| ==> frames[i] == vol
    ensures FrameSum(frames, v, k) == k as real * vol[v]
  {
    if k > 0 {
      MeanOfEqualFrames(frames, vol, v, k - 1);
    }
  }

  /** Voxel v of the included M0: the mean of the m0scan frames. */
  function IncludedM0At(frames: seq<seq<real>>, roles: seq<Role>, n: nat, v: nat): real
    requires !RolePastEnd(roles, M0Scan, |frames|) && Rect(frames, n) && v < n
    requires RoleCount(roles, M0Scan) > 0
  {
    RoleSumAt(frames, roles, M0Scan, v, |roles|) / RoleCount(roles, M0Scan) as real
  }

  lemma {:induction false} RoleCountStep(roles: seq<Role>, role: Role, i: nat)
    requires i < |roles|
    ensures RoleCount(roles[..i + 1], role) == RoleCount(roles[..i], role) + (if roles[i] == role then 1 else 0)
  {
    assert roles[..i + 1][..i] == roles[..i];
  }

  /** The included M0 as a value: an m0scan position past the last frame
      raises, no m0scan frame at all divides by zero. */
  function IncludedM0Of(frames: seq<seq<real>>, roles: seq<Role>, n: nat): Result<seq<real>>
    requires Rect(frames, n)
  {
    if RolePastEnd(roles, M0Scan, |frames|) then Err(IndexError("data[:, :, :, i]"))
    else if RoleCount(roles, M0Scan) == 0 then Err(NotFinite("no m0scan frame: m0map divided by zero"))
    else Ok(seq(n, v requires 0 <= v < n => IncludedM0At(frames, roles, n, v)))
  }

  /** The loop over the ASLContext list that averages the m0scan frames. */
  method IncludedM0(frames: seq<seq<real>>, roles: seq<Role>, n: nat) returns (r: Result<seq<real>>)
    requires Rect(frames, n)
    ensures RolePastEnd(roles, M0Scan, |frames|) <==> r.Err? && r.error.IndexError?
    ensures r.Ok? <==> !RolePastEnd(roles, M0Scan, |frames|) && RoleCount(roles, M0Scan) > 0
    ensures r.Ok? ==> |r.value| == n && forall v :: 0 <= v < n ==> r.value[v] == IncludedM0At(frames, roles, n, v)
    ensures r == IncludedM0Of(frames, roles, n)
  {
    var m0map := Zeros(n);
    var numM0 := 0;
    var i := 0;
    while i < |roles|
      invariant i <= |roles| && |m0map| == n
      invariant forall j :: 0 <= j < i && roles[j] == M0Scan ==> j < |frames|
      invariant numM0 == RoleCount(roles[..i], M0Scan)
      invariant forall v :: 0 <= v < n ==> m0map[v] == RoleSumAt(frames, roles, M0Scan, v, i)
    {
      RoleCountStep(roles, M0Scan, i);
      if roles[i] == M0Scan {
        if i >= |frames| {
          assert RolePastEnd(roles, M0Scan, |frames|);
          return Err(IndexError("data[:, :, :, i]"));
        }
        m0map := Add(m0map, frames[i]);
        numM0 := numM0 + 1;
      }
      i := i + 1;
    }
    assert roles[..i] == roles;
    if numM0 == 0 {
      return Err(NotFinite("no m0scan frame: m0map divided by zero"));
    }
    var m0 := seq(n, v requires 0 <= v < n => m0map[v] / numM0 as real);
    assert m0 == seq(n, v requires 0 <= v < n => IncludedM0At(frames, roles, n, v));
    r := Ok(m0);
  }

  /** The final map from a provided M0. When the M0 grid matches the control
      grid the coregistered M0 `rm0` is kept inside the display mask;
      otherwise the map is the M0 mean over its own calculation mask `clcu1`,
      spread over the display mask. */
  function ProvidedM0Map(sameShape: bool, m0map: seq<real>, rm0: seq<real>, clcu1: seq<bool>, dspl: seq<bool>): (r: Result<seq<real>>)
    requires |rm0| == |dspl| && |m0map| == |clcu1|
    ensures sameShape ==> (r.Ok? && |r.value| == |dspl| &&
      forall v :: 0 <= v < |dspl| ==> r.value[v] == (if dspl[v] then rm0[v] else 0.0))
    ensures !sameShape ==> (r.Ok? <==> CountTrue(clcu1) > 0)
    ensures !sameShape && r.Ok? ==> r.value == Spread(dspl, MaskedMean(m0map, clcu1).value)
  {
    if sameShape then Ok(seq(|dspl|, v requires 0 <= v < |dspl| => if dspl[v] then rm0[v] else 0.0))
    else
      var g := MaskedMean(m0map, clcu1);
      if g.None? then Err(NotFinite("mean over an empty mask")) else Ok(Spread(dspl, g.value))
  }

  /** `dspl.astype(float) * g`. */
  function Spread(dspl: seq<bool>, g: real): (r: seq<real>)
    ensures |r| == |dspl| && forall v :: 0 <= v < |dspl| ==> r[v] == (if dspl[v] then g else 0.0)
  {
    seq(|dspl|, v requires 0 <= v < |dspl| => if dspl[v] then g else 0.0)
  }

  /* ---------- M0 estimated from the control image ---------- */

  /** The total labeling time before readout: LabelingDuration (PCASL) or
      BolusCutOffDelayTime (PASL), plus the first non-zero PLD, in ms. For
      any other labeling type the variable is never bound, which is Some
      only once it is used. */
  function TotalDuration(d: M0Description): (r: Result<Option<real>>)
    ensures d.aslType == PCASL && d.labelingDuration.Some? && FirstNonZero(d.pldList).Some? ==>
      r == Ok(Some(d.labelingDuration.value * 1000.0 + FirstNonZero(d.pldList).value * 1000.0))
    ensures d.aslType == PASL && d.bolusCutOffDelay.Some? && FirstNonZero(d.pldList).Some? ==>
      r == Ok(Some(d.bolusCutOffDelay.value * 1000.0 + FirstNonZero(d.pldList).value * 1000.0))
    ensures (d.aslType == PCASL && d.labelingDuration.None?) || (d.aslType == PASL && d.bolusCutOffDelay.None?) ==>
      r.Err? && r.error.KeyError?
    ensures (((d.aslType == PCASL && d.labelingDuration.Some?) || (d.aslType == PASL && d.bolusCutOffDelay.Some?))
      && FirstNonZero(d.pldList).None?) ==> r.Err? && r.error.IndexError?
    ensures d.aslType != PCASL && d.aslType != PASL ==> r == Ok(None)
  {
    if d.aslType == PCASL || d.aslType == PASL then
      var base := if d.aslType == PCASL then d.labelingDuration else d.bolusCutOffDelay;
      if base.None? then Err(KeyError(if d.aslType == PCASL then "LabelingDuration" else "BolusCutOffDelayTime"))
      else
        var p := FirstNonZero(d.pldList);
        if p.None? then Err(IndexError("list(set(...))[0]"))
        else Ok(Some(base.value * 1000.0 + p.value * 1000.0))
    else Ok(None)
  }

  /** The input of mricloud_bgs_factor for one slice. */
  datatype Train = Train(timing: seq<real>, flip: seq<real>, invEff: real)

  /** Offset of slice kk (numbered from 0) in a 2D acquisition: the slice
      duration times kk - 1, as the code writes it. */
  function SliceShift(sd: real, kk: nat): real {
    sd * 1000.0 * (kk as real - 1.0)
  }

  /** The pulse train of slice kk. The timing expression is evaluated left
      to right, so without background suppression an unbound `totdur` is
      reported before a missing SliceDuration; with it, the pulse times are
      read (and their last one indexed) before SliceDuration. */
  function SliceTrain(d: M0Description, totdur: Option<real>, bgsEff: real, kk: nat): (r: Result<Train>)
    ensures !d.backgroundSuppression && totdur.None? ==> r == Err(NameError("totdur"))
    ensures !d.backgroundSuppression && totdur.Some? && d.acquisition == TwoD && d.sliceDuration.None? ==>
      r == Err(KeyError("SliceDuration"))
    ensures d.backgroundSuppression && d.bgsPulseTimes.None? ==> r == Err(KeyError("BackgroundSuppressionPulseTime"))
    ensures d.backgroundSuppression && d.bgsPulseTimes == Some([]) ==> r.Err? && r.error.IndexError?
    ensures (d.backgroundSuppression && d.bgsPulseTimes.Some? && d.bgsPulseTimes.value != [] &&
             d.acquisition == TwoD && d.sliceDuration.None?) ==> r == Err(KeyError("SliceDuration"))
    ensures r.Ok? <==>
      (if d.backgroundSuppression then d.bgsPulseTimes.Some? && d.bgsPulseTimes.value != [] else totdur.Some?) &&
      (d.acquisition == TwoD ==> d.sliceDuration.Some?)
    ensures r.Ok? ==> |r.value.timing| == |r.value.flip| >= 2 && r.value.timing[0] == 0.0 && r.value.flip[0] == 0.0
  {
    if !d.backgroundSuppression then
      if d.acquisition == TwoD then
        if totdur.None? then Err(NameError("totdur"))
        else if d.sliceDuration.None? then Err(KeyError("SliceDuration"))
        else Ok(Train([0.0, totdur.value + SliceShift(d.sliceDuration.value, kk)], [0.0, 0.0], 1.0))
      else if totdur.None? then Err(NameError("totdur"))
      else Ok(Train([0.0, totdur.value], [0.0, 0.0], 1.0))
    else if d.bgsPulseTimes.None? then Err(KeyError("BackgroundSuppressionPulseTime"))
    else
      var p := d.bgsPulseTimes.value;
      if p == [] then Err(IndexError("BackgroundSuppressionPulseTime[-1]"))
      else
        var last := p[|p| - 1] * 1000.0;
        var flip := [0.0] + seq(|p| - 1, _ => Pi) + [0.0];
        var early := seq(|p| - 1, i requires 0 <= i < |p| - 1 => p[i] * 1000.0);
        if d.acquisition == TwoD then
          if d.sliceDuration.None? then Err(KeyError("SliceDuration"))
          else Ok(Train([0.0] + early + [last + SliceShift(d.sliceDuration.value, kk)], flip, bgsEff))
        else Ok(Train([0.0] + early + [last], flip, bgsEff))
  }

  /** Without background suppression the train is a single interval from 0
      to the readout of the slice, with no pulse, at full efficiency. */
  lemma TrainWithoutBgs(d: M0Description, totdur: real, bgsEff: real, kk: nat)
    requires !d.backgroundSuppression
    requires d.acquisition == TwoD ==> d.sliceDuration.Some?
    ensures SliceTrain(d, Some(totdur), bgsEff, kk) == Ok(Train(
      [0.0, if d.acquisition == TwoD then totdur + SliceShift(d.sliceDuration.value, kk) else totdur],
      [0.0, 0.0], 1.0))
  {
  }

  /** With background suppression and n pulse times, timing and flip both
      have n + 1 entries: flip is 0, then pi for each of the n - 1 pulses,
      then 0; timing starts at 0 and lists the pulse times in ms, the last
      one moved by the slice offset in 2D. */
  lemma TrainWithBgs(d: M0Description, totdur: Option<real>, bgsEff: real, kk: nat)
    requires d.backgroundSuppression && d.bgsPulseTimes.Some? && d.bgsPulseTimes.value != []
    requires d.acquisition == TwoD ==> d.sliceDuration.Some?
    ensures var n := |d.bgsPulseTimes.value|;
      var r := SliceTrain(d, totdur, bgsEff, kk);
      r.Ok? && |r.value.timing| == n + 1 && |r.value.flip| == n + 1 && r.value.invEff == bgsEff &&
      r.value.flip[0] == 0.0 && r.value.flip[n] == 0.0 && (forall i :: 0 < i < n ==> r.value.flip[i] == Pi) &&
      r.value.timing[0] == 0.0 && (forall i :: 0 < i < n ==> r.value.timing[i] == d.bgsPulseTimes.value[i - 1] * 1000.0) &&
      r.value.timing[n] == d.bgsPulseTimes.value[n - 1] * 1000.0 +
        (if d.acquisition == TwoD then SliceShift(d.sliceDuration.value, kk) else 0.0)
  {
    var p := d.bgsPulseTimes.value;
    var n := |p|;
    var r := SliceTrain(d, totdur, bgsEff, kk);
    assert r.Ok?;
    forall i | 0 < i < n
      ensures r.value.flip[i] == Pi && r.value.timing[i] == p[i - 1] * 1000.0
    {
    }
  }

  /** The background-suppression factor of slice kk. */
  function SliceFactor(d: M0Description, t1: real, bgsEff: real, totdur: Option<real>, kk: nat, m: Math): Result<real> {
    var train :- SliceTrain(d, totdur, bgsEff, kk);
    BgsFactor(0.0, t1, train.flip, train.timing, train.invEff, m)
  }

  /** Without background suppression the factor is the saturation recovery
      1 - exp(-ceil(T)/T1) at the slice's readout time T. */
  lemma SaturationRecoveryWithoutBgs(d: M0Description, t1: real, bgsEff: real, totdur: real, kk: nat, m: Math)
    requires CosLaws(m) && !d.backgroundSuppression
    requires d.acquisition == TwoD ==> d.sliceDuration.Some?
    requires var t := if d.acquisition == TwoD then totdur + SliceShift(d.sliceDuration.value, kk) else totdur; t > 0.0
    ensures var t := if d.acquisition == TwoD then totdur + SliceShift(d.sliceDuration.value, kk) else totdur;
      SliceFactor(d, t1, bgsEff, Some(totdur), kk, m) == Ok(1.0 - Decay(Ceil(t) as real, t1, m))
  {
    var t := if d.acquisition == TwoD then totdur + SliceShift(d.sliceDuration.value, kk) else totdur;
    TrainWithoutBgs(d, totdur, bgsEff, kk);
    BgsWithoutPulses(0.0, t1, t, 1.0, m);
    assert 1.0 - (1.0 - 0.0) * Decay(Ceil(t) as real, t1, m) == 1.0 - Decay(Ceil(t) as real, t1, m);
  }

  /** The factors of slices 0..k-1, stopping at the first slice that fails. */
  function SliceFactors(d: M0Description, t1: real, bgsEff: real, totdur: Option<real>, k: nat, m: Math): (r: Result<seq<real>>)
    ensures r.Ok? ==> |r.value| == k
    ensures r.Ok? ==> forall kk :: 0 <= kk < k ==> SliceFactor(d, t1, bgsEff, totdur, kk, m) == Ok(r.value[kk])
  {
    if k == 0 then Ok([])
    else
      var before :- SliceFactors(d, t1, bgsEff, totdur, k - 1, m);
      var f :- SliceFactor(d, t1, bgsEff, totdur, k - 1, m);
      Ok(before + [f])
  }

  /** The first failing slice decides the error of the whole loop. */
  lemma {:induction false} SliceFactorsStop(d: M0Description, t1: real, bgsEff: real, totdur: Option<real>, kk: nat, k: nat, m: Math)
    requires kk < k && SliceFactors(d, t1, bgsEff, totdur, kk, m).Ok?
    requires SliceFactor(d, t1, bgsEff, totdur, kk, m).Err?
    ensures SliceFactors(d, t1, bgsEff, totdur, k, m) == Err(SliceFactor(d, t1, bgsEff, totdur, kk, m).error)
    decreases k - kk
  {
    if k - 1 > kk {
      SliceFactorsStop(d, t1, bgsEff, totdur, kk, k - 1, m);
    }
  }

  /** m0tmp: each control voxel divided by its slice's factor; None where
      the factor is zero and numpy leaves inf or NaN. */
  function M0Tmp(ctrl: seq<real>, nz: nat, factors: seq<real>): (r: seq<Option<real>>)
    requires |factors| == nz && (nz == 0 ==> ctrl == [])
    ensures |r| == |ctrl|
    ensures forall v :: 0 <= v < |ctrl| ==>
      (r[v].None? <==> factors[SliceOf(v, nz)] == 0.0) &&
      (r[v].Some? ==> r[v].value == ctrl[v] / factors[SliceOf(v, nz)])
  {
    seq(|ctrl|, v requires 0 <= v < |ctrl| =>
      var f := factors[SliceOf(v, nz)];
      if f == 0.0 then None else Some(ctrl[v] / f))
  }

  /** `np.mean(m0tmp[clcu])`, which is finite only when the mask selects
      voxels and none of them is inf or NaN. */
  function GlobalM0(tmp: seq<Option<real>>, clcu: seq<bool>): (r: Result<real>)
    requires |tmp| == |clcu|
    ensures r.Ok? <==> CountTrue(clcu) > 0 && forall v :: 0 <= v < |tmp| && clcu[v] ==> tmp[v].Some?
    ensures r.Ok? ==> r.value == MaskedSum(Values(tmp), clcu) / CountTrue(clcu) as real
  {
    if CountTrue(clcu) == 0 then Err(NotFinite("mean over an empty mask"))
    else if exists v :: 0 <= v < |tmp| && clcu[v] && tmp[v].None? then Err(NotFinite("inf in the calculation mask"))
    else Ok(MaskedSum(Values(tmp), clcu) / CountTrue(clcu) as real)
  }

  function Values(tmp: seq<Option<real>>): (r: seq<real>)
    ensures |r| == |tmp| && forall v :: 0 <= v < |tmp| && tmp[v].Some? ==> r[v] == tmp[v].value
  {
    seq(|tmp|, v requires 0 <= v < |tmp| => if tmp[v].Some? then tmp[v].value else 0.0)
  }

  /** The Estimate branch as a value. */
  function EstimatedM0(ctrl: seq<real>, nz: nat, d: M0Description, t1Given: Option<real>, bgsGiven: Option<real>,
                       dspl: seq<bool>, clcu: seq<bool>, m: Math): Result<seq<real>>
    requires (nz == 0 ==> ctrl == []) && |dspl| == |ctrl| && |clcu| == |ctrl|
  {
    var totdur :- TotalDuration(d);
    var factors :- SliceFactors(d, Setting(t1Given, DefaultT1Tissue), Setting(bgsGiven, DefaultBgsEff), totdur, nz, m);
    var g :- GlobalM0(M0Tmp(ctrl, nz, factors), clcu);
    Ok(Spread(dspl, g))
  }

  /** The estimated map is one global value inside the display mask and 0
      outside; that value is the calculation-mask mean of the control image
      divided slice by slice by the background-suppression factor. */
  lemma EstimatedM0IsGlobal(ctrl: seq<real>, nz: nat, d: M0Description, t1Given: Option<real>, bgsGiven: Option<real>,
                            dspl: seq<bool>, clcu: seq<bool>, m: Math)
    requires (nz == 0 ==> ctrl == []) && |dspl| == |ctrl| && |clcu| == |ctrl|
    requires EstimatedM0(ctrl, nz, d, t1Given, bgsGiven, dspl, clcu, m).Ok?
    ensures var r := EstimatedM0(ctrl, nz, d, t1Given, bgsGiven, dspl, clcu, m).value;
      var t1, eff := Setting(t1Given, DefaultT1Tissue), Setting(bgsGiven, DefaultBgsEff);
      var totdur := TotalDuration(d).value;
      var factors := SliceFactors(d, t1, eff, totdur, nz, m).value;
      var g := MaskedSum(Values(M0Tmp(ctrl, nz, factors)), clcu) / CountTrue(clcu) as real;
      CountTrue(clcu) > 0 && |r| == |ctrl| &&
      (forall v :: 0 <= v < |ctrl| ==> r[v] == (if dspl[v] then g else 0.0)) &&
      (forall v :: 0 <= v < |ctrl| && clcu[v] ==>
        SliceFactor(d, t1, eff, totdur, SliceOf(v, nz), m) == Ok(factors[SliceOf(v, nz)]) &&
        factors[SliceOf(v, nz)] != 0.0 && Values(M0Tmp(ctrl, nz, factors))[v] == ctrl[v] / factors[SliceOf(v, nz)])
  {
    var t1, eff := Setting(t1Given, DefaultT1Tissue), Setting(bgsGiven, DefaultBgsEff);
    var totdur := TotalDuration(d).value;
    var factors := SliceFactors(d, t1, eff, totdur, nz, m).value;
    var tmp := M0Tmp(ctrl, nz, factors);
    forall v | 0 <= v < |ctrl| && clcu[v]
      ensures factors[SliceOf(v, nz)] != 0.0 && Values(tmp)[v] == ctrl[v] / factors[SliceOf(v, nz)]
    {
      assert tmp[v].Some?;
    }
  }

  /** A CASL (or other non-PCASL, non-PASL) 2D data set without background
      suppression never binds `totdur`, so the first slice raises the
      NameError for it even when SliceDuration is missing too. */
  lemma UnboundTotdurFirst(ctrl: seq<real>, nz: nat, d: M0Description, t1Given: Option<real>, bgsGiven: Option<real>,
                           dspl: seq<bool>, clcu: seq<bool>, m: Math)
    requires (nz == 0 ==> ctrl == []) && |dspl| == |ctrl| && |clcu| == |ctrl|
    requires nz > 0 && d.aslType != PCASL && d.aslType != PASL && !d.backgroundSuppression
    ensures EstimatedM0(ctrl, nz, d, t1Given, bgsGiven, dspl, clcu, m) == Err(NameError("totdur"))
  {
    var t1, eff := Setting(t1Given, DefaultT1Tissue), Setting(bgsGiven, DefaultBgsEff);
    assert TotalDuration(d) == Ok(None);
    assert SliceFactors(d, t1, eff, None, 0, m) == Ok([]);
    SliceFactorsStop(d, t1, eff, None, 0, nz, m);
  }

  /** The Estimate branch as the module writes it: the slice loop over the
      pulse trains, then the division of each slice of the control image. */
  method EstimateM0(ctrl: seq<real>, nz: nat, d: M0Description, t1Given: Option<real>, bgsGiven: Option<real>,
                    dspl: seq<bool>, clcu: seq<bool>, m: Math) returns (r: Result<seq<real>>)
    requires (nz == 0 ==> ctrl == []) && |dspl| == |ctrl| && |clcu| == |ctrl|
    ensures r == EstimatedM0(ctrl, nz, d, t1Given, bgsGiven, dspl, clcu, m)
  {
    var t1 := Setting(t1Given, DefaultT1Tissue);
    var eff := Setting(bgsGiven, DefaultBgsEff);
    var totdur :- TotalDuration(d);
    var factors := [];
    var kk := 0;
    while kk < nz
      invariant kk <= nz && SliceFactors(d, t1, eff, totdur, kk, m) == Ok(factors)
    {
      var train := SliceTrain(d, totdur, eff, kk);
      if train.Err? {
        SliceFactorsStop(d, t1, eff, totdur, kk, nz, m);
        return Err(train.error);
      }
      var f := MricloudBgsFactor(0.0, t1, train.value.flip, train.value.timing, train.value.invEff, m);
      if f.Err? {
        SliceFactorsStop(d, t1, eff, totdur, kk, nz, m);
        return Err(f.error);
      }
      factors := factors + [f.value];
      kk := kk + 1;
    }
    var tmp := M0Tmp(ctrl, nz, factors);
    var g :- GlobalM0(tmp, clcu);
    r := Ok(Spread(dspl, g));
  }
}
