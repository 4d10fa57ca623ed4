/** ASLtbx pairwise subtraction and quantification (`asltbx_perf_subtract`)
    for one ASL series: each label frame is paired with a control image (the
    matching control frame, the mean with a neighbouring control, or a sinc
    interpolation over a clamped window of six controls), the difference is
    quantified with the PASL or (P)CASL single-compartment formula, and four
    global means are recorded per pair.

    The CBF values are stored into an integer array, so every quantified
    voxel is truncated toward zero. */
module AsltbxQuantify {
  import opened Common
  import CalculateM0

  const QTi: real := 0.85
  const Rwm: real := 1.19
  const Rcsf: real := 0.87
  const Lambda: real := 0.9
  /** Voxels whose signal is at most this fraction of the mean signal are not quantified. */
  const EffectiveFraction: real := 0.001
  const OutlierLow: real := -40.0
  const OutlierHigh: real := 150.0

  /** The T2 and blood T1 constants chosen by MagneticFieldStrength; T2csf is
      only assigned at 3T. */
  datatype FieldConstants = FieldConstants(t2wm: real, t2b: real, t2csf: Option<real>, bloodT1: real)

  function FieldConstantsOf(fieldStrength: real): (c: FieldConstants)
    ensures fieldStrength == 1.5 ==> c.bloodT1 == 1200.0 && c.t2csf.None?
    ensures fieldStrength == 3.0 ==> c.bloodT1 == 1664.0 && c.t2csf == Some(74.9)
    ensures fieldStrength != 1.5 && fieldStrength != 3.0 ==> c.bloodT1 == 1810.0 && c.t2csf.None?
    ensures c.t2wm > 0.0 && c.t2b > 0.0 && c.bloodT1 > 0.0 && (c.t2csf.Some? ==> c.t2csf.value > 0.0)
  {
    if fieldStrength == 1.5 then FieldConstants(55.0, 100.0, None, 1200.0)
    else if fieldStrength == 3.0 then FieldConstants(44.7, 43.6, Some(74.9), 1664.0)
    else FieldConstants(30.0, 60.0, None, 1810.0)
  }

  /** The options `run` reads from the configuration; None is a missing key.
      MeanFlag, BOLDFlag and PerfFlag only choose which files are written. */
  datatype AsltbxConfig = AsltbxConfig(
    quantFlag: Option<int>,
    m0wmcsf: Option<real>,
    maskFlag: Option<bool>,
    subtractionType: Option<int>,
    subtractionOrder: Option<int>,
    timeshift: Option<real>)

  /** The options with `config.get` defaults applied. */
  datatype Settings = Settings(
    quantFlag: int,
    m0wmcsf: Option<real>,
    maskFlag: bool,
    subtractionType: int,
    subtractionOrder: int,
    timeshift: real)

  function Get<T>(given: Option<T>, default: T): T {
    if given.Some? then given.value else default
  }

  function Resolve(c: AsltbxConfig): (s: Settings)
    ensures c.quantFlag.None? ==> s.quantFlag == 1
    ensures c.maskFlag.None? ==> s.maskFlag
    ensures c.subtractionType.None? ==> s.subtractionType == 0
    ensures c.subtractionOrder.None? ==> s.subtractionOrder == 1
    ensures c.timeshift.None? ==> s.timeshift == 0.5
  {
    Settings(Get(c.quantFlag, 1), c.m0wmcsf, Get(c.maskFlag, true), Get(c.subtractionType, 0),
             Get(c.subtractionOrder, 1), Get(c.timeshift, 0.5))
  }

  /** The entries of data_descrip this module reads; None is a missing key. */
  datatype AsltbxDescription = AsltbxDescription(
    pldList: seq<real>,
    fieldStrength: real,
    labelingEfficiency: Option<real>,
    m0EchoTime: Option<real>,
    m0Type: string,
    aslContext: seq<Role>,
    labelControl: bool,
    sliceDuration: Option<real>,
    aslType: AslType,
    bolusCutOffDelay: Option<real>,
    labelingDuration: Option<real>)

  // ---------------------------------------------------------------------------
  // M0

  /** The blood M0 of unique-M0 quantification (QuantFlag != 0), from the WM
      or CSF reference value; None for QuantFlag 0. */
  function BloodM0(quantFlag: int, m0wmcsf: Option<real>, c: FieldConstants, echoTime: Option<real>, m: Math)
    : (r: Result<Option<real>>)
    requires c.t2wm != 0.0 && c.t2b != 0.0 && (c.t2csf.Some? ==> c.t2csf.value != 0.0)
    ensures quantFlag == 0 <==> r == Ok(None)
    ensures quantFlag != 0 && (m0wmcsf.None? || m0wmcsf.value == 0.0) ==>
      r == Err(ValueError("Missing M0 value of WM or CSF for unique M0 based quantification"))
    ensures quantFlag == 1 && m0wmcsf.Some? && m0wmcsf.value != 0.0 && c.t2csf.None? ==>
      r == Err(NameError("T2csf"))
    ensures quantFlag != 0 && m0wmcsf.Some? && m0wmcsf.value != 0.0 && echoTime.None? ==> r.Err?
    ensures r.Ok? && r.value.Some? && quantFlag == 1 ==>
      r.value.value == m0wmcsf.value * Rcsf * m.exp((1.0 / c.t2csf.value - 1.0 / c.t2b) * echoTime.value * 1000.0)
    ensures r.Ok? && r.value.Some? && quantFlag != 1 ==>
      r.value.value == m0wmcsf.value * Rwm * m.exp((1.0 / c.t2wm - 1.0 / c.t2b) * echoTime.value * 1000.0)
  {
    if quantFlag == 0 then Ok(None)
    else if m0wmcsf.None? || m0wmcsf.value == 0.0 then
      Err(ValueError("Missing M0 value of WM or CSF for unique M0 based quantification"))
    else if quantFlag == 1 then
      if c.t2csf.None? then Err(NameError("T2csf"))
      else if echoTime.None? then Err(KeyError("EchoTime"))
      else Ok(Some(m0wmcsf.value * Rcsf * m.exp((1.0 / c.t2csf.value - 1.0 / c.t2b) * echoTime.value * 1000.0)))
    else if echoTime.None? then Err(KeyError("EchoTime"))
    else Ok(Some(m0wmcsf.value * Rwm * m.exp((1.0 / c.t2wm - 1.0 / c.t2b) * echoTime.value * 1000.0)))
  }

  lemma PositiveProduct(a: real, b: real)
    requires a > 0.0 && b > 0.0
    ensures a * b > 0.0
  {
  }

  /** A positive reference M0 gives a positive blood M0. */
  lemma BloodM0Positive(quantFlag: int, m0wmcsf: Option<real>, c: FieldConstants, echoTime: Option<real>, m: Math)
    requires c.t2wm != 0.0 && c.t2b != 0.0 && (c.t2csf.Some? ==> c.t2csf.value != 0.0) && ExpPositive(m)
    requires m0wmcsf.Some? && m0wmcsf.value > 0.0
    requires BloodM0(quantFlag, m0wmcsf, c, echoTime, m).Ok? && quantFlag != 0
    ensures BloodM0(quantFlag, m0wmcsf, c, echoTime, m).value.Some?
    ensures BloodM0(quantFlag, m0wmcsf, c, echoTime, m).value.value > 0.0
  {
    var r := BloodM0(quantFlag, m0wmcsf, c, echoTime, m).value.value;
    if quantFlag == 1 {
      var x := m.exp((1.0 / c.t2csf.value - 1.0 / c.t2b) * echoTime.value * 1000.0);
      assert x > 0.0;
      PositiveProduct(m0wmcsf.value * Rcsf, x);
    } else {
      var x := m.exp((1.0 / c.t2wm - 1.0 / c.t2b) * echoTime.value * 1000.0);
      assert x > 0.0;
      PositiveProduct(m0wmcsf.value * Rwm, x);
    }
  }

  /** The M0 file named by the data set: for "Separate" the M0 series, for
      "Included" the first ASL series. */
  datatype M0Input = M0Input(shape: Shape, images: CalculateM0.M0Images)

  ghost predicate M0InputWellFormed(m0: M0Input) {
    (m0.images.Volume? ==> |m0.images.voxels| == m0.shape.Voxels()) &&
    (m0.images.Series? ==> Rect(m0.images.frames, m0.shape.Voxels()))
  }

  /** The voxelwise M0 of QuantFlag 0: "Separate" averages the M0 series,
      "Included" the m0scan frames (a 3D file has no frame axis to index);
      "Estimate" uses the control image instead (None). Any other M0Type
      leaves M0 unassigned, and an M0 whose shape differs from the series is
      refused. */
  function QuantM0(s: Settings, d: AsltbxDescription, m0: M0Input, shape: Shape): (r: Result<Option<seq<real>>>)
    requires M0InputWellFormed(m0)
    ensures s.quantFlag != 0 || d.m0Type == "Estimate" ==> r == Ok(None)
    ensures s.quantFlag == 0 && d.m0Type != "Estimate" && d.m0Type != "Separate" && d.m0Type != "Included" ==>
      r == Err(NameError("M0"))
    ensures r.Ok? && r.value.Some? ==> m0.shape == shape && |r.value.value| == shape.Voxels()
  {
    if s.quantFlag != 0 || d.m0Type == "Estimate" then Ok(None)
    else if d.m0Type == "Separate" then
      var v :- CalculateM0.SeparateM0(m0.images, m0.shape.Voxels());
      if m0.shape != shape then Err(ValueError("M0 image size is different from the perfusion images"))
      else Ok(Some(v))
    else if d.m0Type == "Included" then
      if m0.images.Volume? then Err(IndexError("data[:, :, :, i]"))
      else
        var v :- CalculateM0.IncludedM0Of(m0.images.frames, d.aslContext, m0.shape.Voxels());
        if m0.shape != shape then Err(ValueError("M0 image size is different from the perfusion images"))
        else Ok(Some(v))
    else Err(NameError("M0"))
  }

  // ---------------------------------------------------------------------------
  // Control image of pair p

  /** One entry of the window after `idx[idx < 0] = 0; idx[idx > hi] = hi`. */
  function ClampIndex(x: int, hi: int): int {
    var y := if x < 0 then 0 else x;
    if y > hi then hi else y
  }

  function WindowOffsets(labelControl: bool): seq<int> {
    if labelControl then [-4, -3, -2, -1, 0, 1] else [-3, -2, -1, 0, 1, 2]
  }

  /** The six control positions of SubtractionType 2, clamped into the pair range. */
  function Window(p: nat, labelControl: bool, perfno: nat): (w: seq<int>)
    ensures |w| == 6
    ensures perfno > 0 ==> forall k :: 0 <= k < 6 ==> 0 <= w[k] < perfno
    ensures forall k :: 0 <= k < 6 && 0 <= p + WindowOffsets(labelControl)[k] < perfno ==>
      w[k] == p + WindowOffsets(labelControl)[k]
  {
    var offs := WindowOffsets(labelControl);
    seq(6, k requires 0 <= k < 6 => ClampIndex(p + offs[k], perfno - 1))
  }

  /** `normloc`: where the interpolation is centred in the window. */
  function NormLoc(labelControl: bool, timeshift: real): real {
    if labelControl then 3.0 - timeshift else 2.0 + timeshift
  }

  /** The in-place clamping of the window. */
  method ClampWindow(idx: array<int>, hi: int)
    modifies idx
    ensures forall k :: 0 <= k < idx.Length ==> idx[k] == ClampIndex(old(idx[k]), hi)
  {
    var k := 0;
    while k < idx.Length
      invariant 0 <= k <= idx.Length
      invariant forall j :: 0 <= j < k ==> idx[j] == (if old(idx[j]) < 0 then 0 else old(idx[j]))
      invariant forall j :: k <= j < idx.Length ==> idx[j] == old(idx[j])
    {
      if idx[k] < 0 {
        idx[k] := 0;
      }
      k := k + 1;
    }
    k := 0;
    while k < idx.Length
      invariant 0 <= k <= idx.Length
      invariant forall j :: 0 <= j < k ==> idx[j] == ClampIndex(old(idx[j]), hi)
      invariant forall j :: k <= j < idx.Length ==> idx[j] == (if old(idx[j]) < 0 then 0 else old(idx[j]))
    {
      if idx[k] > hi {
        idx[k] := hi;
      }
      k := k + 1;
    }
  }

  /** `idx = p + offsets`, clamped in place. */
  method WindowIndices(p: nat, labelControl: bool, perfno: nat) returns (w: seq<int>)
    ensures w == Window(p, labelControl, perfno)
  {
    var offs := WindowOffsets(labelControl);
    var idx := new int[6](k requires 0 <= k < 6 => p + offs[k]);
    ClampWindow(idx, perfno - 1);
    w := idx[..];
  }

  /** The positions in the control list that pair p reads. */
  function ControlPositions(s: Settings, labelControl: bool, p: nat, perfno: nat): (pos: seq<int>)
    ensures s.subtractionType == 0 ==> pos == [p]
    ensures s.subtractionType == 1 && labelControl ==> pos == (if p > 0 then [p, p - 1] else [p])
    ensures s.subtractionType == 1 && !labelControl ==> pos == (if p < perfno - 1 then [p, p + 1] else [p])
    ensures s.subtractionType != 0 && s.subtractionType != 1 ==> pos == Window(p, labelControl, perfno)
  {
    if s.subtractionType == 0 then [p]
    else if s.subtractionType == 1 then
      if labelControl then (if p > 0 then [p, p - 1] else [p])
      else if p < perfno - 1 then [p, p + 1] else [p]
    else Window(p, labelControl, perfno)
  }

  /** The control frames at those positions; a position past the control list
      or a control position past the last frame raises. */
  function ControlFrames(frames: seq<seq<real>>, conidx: seq<nat>, pos: seq<int>): (r: Result<seq<seq<real>>>)
    requires forall k :: 0 <= k < |pos| ==> pos[k] >= 0
    ensures r.Ok? ==> (|r.value| == |pos| &&
      forall k :: 0 <= k < |pos| ==> pos[k] < |conidx| && conidx[pos[k]] < |frames| && r.value[k] == frames[conidx[pos[k]]])
    ensures r.Err? <==> exists k :: 0 <= k < |pos| && (pos[k] >= |conidx| || conidx[pos[k]] >= |frames|)
  {
    if exists k :: 0 <= k < |pos| && (pos[k] >= |conidx| || conidx[pos[k]] >= |frames|) then
      Err(IndexError("control frame"))
    else Ok(seq(|pos|, k requires 0 <= k < |pos| => frames[conidx[pos[k]]]))
  }

  /** The interpolation weights `sinc(m - u)` over a window of six, divided by
      their sum when that sum is more than 0.1 away from 1. */
  function SincWeights(u: real, sinc: real -> real): (r: Result<seq<real>>)
    ensures r.Ok? ==> |r.value| == 6
  {
    var w := seq(6, k => sinc(k as real - u));
    var total := Sum(w);
    if Abs(total - 1.0) > 0.1 then
      if total == 0.0 then Err(NotFinite("weight / 0"))
      else Ok(seq(6, k requires 0 <= k < 6 => w[k] / total))
    else Ok(w)
  }

  lemma {:induction false} SumScale(w: seq<real>, v: seq<real>, g: real)
    requires |w| == |v| && g != 0.0
    requires forall k :: 0 <= k < |w| ==> v[k] == w[k] / g
    ensures Sum(v) == Sum(w) / g
  {
    if w != [] {
      var n := |w| - 1;
      SumScale(w[..n], v[..n], g);
    }
  }

  lemma DivSelf(x: real)
    requires x != 0.0
    ensures x / x == 1.0
  {
  }

  /** The weights that are used always sum to within 0.1 of 1. */
  lemma SincWeightsNearOne(u: real, sinc: real -> real)
    requires SincWeights(u, sinc).Ok?
    ensures Abs(Sum(SincWeights(u, sinc).value) - 1.0) <= 0.1
  {
    var w := seq(6, k => sinc(k as real - u));
    var total := Sum(w);
    if Abs(total - 1.0) > 0.1 {
      var v := seq(6, k requires 0 <= k < 6 => w[k] / total);
      assert SincWeights(u, sinc).value == v;
      SumScale(w, v, total);
      DivSelf(total);
    }
  }

  function Dot(x: seq<real>, w: seq<real>): real
    requires |x| == |w|
  {
    if x == [] then 0.0 else Dot(x[..|x| - 1], w[..|w| - 1]) + x[|x| - 1] * w[|w| - 1]
  }

  function Half(a: seq<real>): (h: seq<real>)
    ensures |h| == |a| && forall i :: 0 <= i < |a| ==> h[i] == a[i] / 2.0
  {
    seq(|a|, i requires 0 <= i < |a| => a[i] / 2.0)
  }

  /** `np.flatnonzero(maskdat)`, as a mask. */
  function Brain(mask: seq<real>): (b: seq<bool>)
    ensures |b| == |mask| && forall v :: 0 <= v < |mask| ==> (b[v] <==> mask[v] != 0.0)
  {
    seq(|mask|, v requires 0 <= v < |mask| => mask[v] != 0.0)
  }

  /** The voxels quantified (`vxidx`): the brain with MaskFlag, else every
      voxel whose mask value exceeds -1. */
  function Selected(mask: seq<real>, maskFlag: bool): (sel: seq<bool>)
    ensures |sel| == |mask|
    ensures maskFlag ==> sel == Brain(mask)
    ensures !maskFlag ==> forall v :: 0 <= v < |mask| ==> (sel[v] <==> mask[v] > -1.0)
  {
    if maskFlag then Brain(mask) else seq(|mask|, v requires 0 <= v < |mask| => mask[v] > -1.0)
  }

  /** The data of one run after the scalar set-up, shared by all pairs. */
  datatype Run = Run(
    s: Settings,
    d: AsltbxDescription,
    frames: seq<seq<real>>,
    nz: nat,
    mask: seq<real>,
    m0: Option<seq<real>>,
    m0b: Option<real>,
    delay: real,
    bloodT1: real,
    labeff: real,
    conidx: seq<nat>,
    labidx: seq<nat>,
    sinc: real -> real,
    m: Math)
  {
    predicate Valid() {
      Rect(frames, |mask|) && (m0.Some? ==> |m0.value| == |mask|) && bloodT1 != 0.0
    }
  }

  /** The control image of a pair, read through `pos`. */
  function ControlImage(run: Run, pos: seq<int>): (r: Result<seq<real>>)
    requires run.Valid()
    requires forall k :: 0 <= k < |pos| ==> pos[k] >= 0
    requires run.s.subtractionType == 0 ==> |pos| == 1
    requires run.s.subtractionType == 1 ==> 1 <= |pos| <= 2
    requires run.s.subtractionType != 0 && run.s.subtractionType != 1 ==> |pos| == 6
    ensures r.Ok? ==> |r.value| == |run.mask|
  {
    var fs :- ControlFrames(run.frames, run.conidx, pos);
    if run.s.subtractionType == 0 then Ok(fs[0])
    else if run.s.subtractionType == 1 then
      if |fs| == 2 then Ok(Half(Add(fs[0], fs[1]))) else Ok(fs[0])
    else
      var brain := Brain(run.mask);
      if CountTrue(brain) == 0 then Err(IndexError("swei[0]"))
      else
        var w :- SincWeights(NormLoc(run.d.labelControl, run.s.timeshift), run.sinc);
        var n := |run.mask|;
        Ok(seq(n, v requires 0 <= v < n =>
          if brain[v] then Dot(seq(6, k requires 0 <= k < 6 => fs[k][v]), w) else 0.0))
  }

  // ---------------------------------------------------------------------------
  // Perfusion image, CBF and the global signals of pair p

  /** `maskdat` during pair p: the first pair sees the mask values, later
      pairs the mask after `maskdat.astype(bool)`. */
  function MaskValues(mask: seq<real>, p: nat): (mk: seq<real>)
    ensures |mk| == |mask|
  {
    if p == 0 then mask else seq(|mask|, v requires 0 <= v < |mask| => if mask[v] != 0.0 then 1.0 else 0.0)
  }

  /** A 0/1 mask is the same for every pair. */
  lemma BinaryMaskKept(mask: seq<real>, p: nat)
    requires forall v :: 0 <= v < |mask| ==> mask[v] == 0.0 || mask[v] == 1.0
    ensures MaskValues(mask, p) == mask
  {
  }

  /** control - label, negated for SubtrationOrder 0, times the mask with MaskFlag. */
  function PerfImage(con: seq<real>, lab: seq<real>, order: int, maskFlag: bool, mk: seq<real>): (perf: seq<real>)
    requires |con| == |lab| == |mk|
    ensures |perf| == |con|
  {
    seq(|con|, v requires 0 <= v < |con| =>
      var diff := if order == 0 then -1.0 * (con[v] - lab[v]) else con[v] - lab[v];
      if maskFlag then diff * mk[v] else diff)
  }

  /** SubtrationOrder 0 is label - control; MaskFlag zeroes the voxels outside
      the mask and scales the others by the mask value. */
  lemma PerfImageProperties(con: seq<real>, lab: seq<real>, order: int, maskFlag: bool, mk: seq<real>)
    requires |con| == |lab| == |mk|
    ensures var perf := PerfImage(con, lab, order, maskFlag, mk);
      forall v :: 0 <= v < |con| ==>
        perf[v] == (if order == 0 then lab[v] - con[v] else con[v] - lab[v]) * (if maskFlag then mk[v] else 1.0)
    ensures forall v :: 0 <= v < |con| ==>
      PerfImage(con, lab, 0, maskFlag, mk)[v] == -PerfImage(con, lab, 1, maskFlag, mk)[v]
  {
  }

  /** The slice acquisition delay of voxel v: slice index × SliceDuration·1000,
      or 0 without the key. */
  function SliceTime(d: AsltbxDescription, nz: nat, v: nat): real {
    SliceOf(v, nz) as real * (if d.sliceDuration.Some? then d.sliceDuration.value * 1000.0 else 0.0)
  }

  /** Whether voxel v is quantified (`effidx`): selected, and its signal above
      0.001 of the mean signal over the selection; an empty selection has a
      NaN mean, which no voxel exceeds. */
  function Effective(sig: seq<real>, sel: seq<bool>, v: nat): bool
    requires |sig| == |sel| && v < |sig|
  {
    var mu := MaskedMean(sig, sel);
    sel[v] && mu.Some? && Abs(sig[v]) > EffectiveFraction * mu.value
  }

  /** The M0 each voxel is divided by under QuantFlag 0: the M0 image, or the
      control image itself when M0 is estimated. */
  function EffM0(run: Run, con: seq<real>, v: nat): real
    requires run.Valid() && |con| == |run.mask| && v < |con|
  {
    if run.m0.Some? then run.m0.value[v] else con[v]
  }

  /** The CBF formula at one voxel, before truncation. `duration` is
      BolusCutOffDelayTime for PASL, LabelingDuration for (P)CASL; None where
      a zero divisor makes numpy's value inf or NaN. */
  function CbfAt(run: Run, con: seq<real>, perf: seq<real>, duration: real, v: nat): (r: Option<real>)
    requires run.Valid() && |con| == |run.mask| && |perf| == |run.mask| && v < |con|
  {
    var e := run.m.exp;
    if run.d.aslType == PASL then
      var ti := run.delay + SliceTime(run.d, run.nz, v);
      var scale := e(-ti / run.bloodT1) * duration * 1000.0 * run.labeff * QTi;
      var m0 := if run.m0b.Some? then run.m0b.value else EffM0(run, con, v);
      var num := if run.m0b.Some? then perf[v] * 6000.0 * 1000.0 else Lambda * perf[v] * 6000.0 * 1000.0;
      if 2.0 * m0 * scale == 0.0 then None else Some(num / (2.0 * m0 * scale))
    else
      var omega := run.delay + SliceTime(run.d, run.nz, v);
      var r1a := 1.0 / run.bloodT1;
      var m0 := if run.m0b.Some? then run.m0b.value else EffM0(run, con, v);
      var den := 2.0 * run.labeff * (e(-omega * r1a) - e(-1.0 * (duration * 1000.0 + omega) * r1a));
      if m0 == 0.0 || den == 0.0 then None
      else Some(6000.0 * 1000.0 * Lambda * (perf[v] / m0) * r1a / den)
  }

  /** The CBF map of one pair: the truncated formula at the effective
      voxels, 0 elsewhere. An inf or NaN at an effective voxel is reported. */
  function CbfMap(run: Run, sig: seq<real>, con: seq<real>, perf: seq<real>, duration: real): (r: Result<seq<real>>)
    requires run.Valid() && |sig| == |run.mask| && |con| == |run.mask| && |perf| == |run.mask|
    ensures r.Ok? ==> |r.value| == |run.mask|
  {
    var n := |run.mask|;
    var sel := Selected(run.mask, run.s.maskFlag);
    if exists v :: 0 <= v < n && Effective(sig, sel, v) && CbfAt(run, con, perf, duration, v).None? then
      Err(NotFinite("tcbf"))
    else
      Ok(seq(n, v requires 0 <= v < n =>
        if Effective(sig, sel, v) then Trunc(CbfAt(run, con, perf, duration, v).value) as real else 0.0))
  }

  /** The CBF image of one pair by labelling type: PASL measures the signal on
      the mean of control and label, (P)CASL on the control image; other
      types leave the image zero. */
  function CbfImage(run: Run, con: seq<real>, bold: seq<real>, perf: seq<real>): (r: Result<seq<real>>)
    requires run.Valid() && |bold| == |run.mask| && |con| == |run.mask| && |perf| == |run.mask|
    ensures r.Ok? ==> |r.value| == |run.mask|
  {
    if run.d.aslType == PASL then
      if run.d.bolusCutOffDelay.None? then Err(KeyError("BolusCutOffDelayTime"))
      else CbfMap(run, bold, con, perf, run.d.bolusCutOffDelay.value)
    else if run.d.aslType == CASL || run.d.aslType == PCASL then
      if run.d.labelingDuration.None? then Err(KeyError("LabelingDuration"))
      else CbfMap(run, con, con, perf, run.d.labelingDuration.value)
    else Ok(Zeros(|run.mask|))
  }

  /** Truncation: every CBF value is a whole number no larger in magnitude
      than the formula's value, and voxels that are not effective are 0. */
  lemma CbfMapTruncates(run: Run, sig: seq<real>, con: seq<real>, perf: seq<real>, duration: real)
    requires run.Valid() && |sig| == |run.mask| && |con| == |run.mask| && |perf| == |run.mask|
    requires CbfMap(run, sig, con, perf, duration).Ok?
    ensures var cbf := CbfMap(run, sig, con, perf, duration).value;
      var sel := Selected(run.mask, run.s.maskFlag);
      forall v :: 0 <= v < |cbf| ==>
        cbf[v] == cbf[v].Floor as real &&
        (!Effective(sig, sel, v) ==> cbf[v] == 0.0) &&
        (Effective(sig, sel, v) ==> (CbfAt(run, con, perf, duration, v).Some? &&
          Abs(cbf[v]) <= Abs(CbfAt(run, con, perf, duration, v).value) &&
          Abs(CbfAt(run, con, perf, duration, v).value) < Abs(cbf[v]) + 1.0))
  {
  }

  /** The four global means of a pair: perfusion and CBF over the mask with
      outliers (CBF < -40 or > 150) removed, and over the whole mask; None is
      the NaN of an empty selection. The CBF map holds whole numbers, so it
      has no NaN to exclude. */
  datatype GlobalSignals = GlobalSignals(
    perfCleaned: Option<real>,
    cbfCleaned: Option<real>,
    perfWhole: Option<real>,
    cbfWhole: Option<real>)

  function CleanedMask(cbf: seq<real>, mask: seq<real>): (m: seq<bool>)
    requires |cbf| == |mask|
    ensures |m| == |cbf| && forall v :: 0 <= v < |cbf| ==>
      (m[v] <==> mask[v] != 0.0 && OutlierLow <= cbf[v] <= OutlierHigh)
  {
    seq(|cbf|, v requires 0 <= v < |cbf| => mask[v] != 0.0 && !(cbf[v] < OutlierLow || cbf[v] > OutlierHigh))
  }

  function Globals(cbf: seq<real>, perf: seq<real>, mask: seq<real>): GlobalSignals
    requires |cbf| == |mask| && |perf| == |mask|
  {
    var clean := CleanedMask(cbf, mask);
    var whole := Brain(mask);
    GlobalSignals(MaskedMean(perf, clean), MaskedMean(cbf, clean), MaskedMean(perf, whole), MaskedMean(cbf, whole))
  }

  /** `a` added to itself n times. */
  function Times(a: real, n: nat): real {
    if n == 0 then 0.0 else Times(a, n - 1) + a
  }

  lemma {:induction false} TimesIsProduct(a: real, n: nat)
    ensures Times(a, n) == a * n as real
  {
    if n > 0 {
      TimesIsProduct(a, n - 1);
      assert a * n as real == a * (n - 1) as real + a;
    }
  }

  /** A masked sum of values in [lo, hi] lies between lo and hi times the count. */
  lemma {:induction false} MaskedSumBounds(x: seq<real>, m: seq<bool>, lo: real, hi: real)
    requires |x| == |m|
    requires forall v :: 0 <= v < |x| && m[v] ==> lo <= x[v] <= hi
    ensures Times(lo, CountTrue(m)) <= MaskedSum(x, m) <= Times(hi, CountTrue(m))
  {
    if x != [] {
      var n := |x| - 1;
      assert forall v :: 0 <= v < n && m[..n][v] ==> lo <= x[..n][v] <= hi;
      MaskedSumBounds(x[..n], m[..n], lo, hi);
    }
  }

  /** The outlier-cleaned CBF mean lies in [-40, 150]; the whole-mask means
      exist exactly when the mask is not empty. */
  lemma GlobalsProperties(cbf: seq<real>, perf: seq<real>, mask: seq<real>)
    requires |cbf| == |mask| && |perf| == |mask|
    ensures var g := Globals(cbf, perf, mask);
      g.cbfCleaned.Some? ==> OutlierLow <= g.cbfCleaned.value <= OutlierHigh
    ensures var g := Globals(cbf, perf, mask);
      (g.cbfWhole.Some? <==> exists v :: 0 <= v < |mask| && mask[v] != 0.0) &&
      (g.perfWhole.Some? <==> g.cbfWhole.Some?) && (g.perfCleaned.Some? <==> g.cbfCleaned.Some?)
  {
    var clean := CleanedMask(cbf, mask);
    MaskedSumBounds(cbf, clean, OutlierLow, OutlierHigh);
    TimesIsProduct(OutlierLow, CountTrue(clean));
    TimesIsProduct(OutlierHigh, CountTrue(clean));
    var c := CountTrue(clean) as real;
    if c > 0.0 {
      var s := MaskedSum(cbf, clean);
      assert OutlierLow * c <= s <= OutlierHigh * c;
      assert OutlierLow <= s / c <= OutlierHigh;
    }
    CountTrueZero(Brain(mask));
  }

  lemma {:induction false} CountTrueZero(m: seq<bool>)
    ensures CountTrue(m) == 0 <==> forall v :: 0 <= v < |m| ==> !m[v]
  {
    if m != [] {
      CountTrueZero(m[..|m| - 1]);
    }
  }

  /** What pair p produces. */
  datatype PairMaps = PairMaps(bold: seq<real>, perf: seq<real>, cbf: seq<real>, gs: GlobalSignals)

  /** Pair p, reading its control image through `pos`: label image, control
      image, perfusion, mean (BOLD) image, CBF, global signals. */
  function PairFrom(run: Run, p: nat, pos: seq<int>): (r: Result<PairMaps>)
    requires run.Valid() && p < |run.labidx|
    requires pos == ControlPositions(run.s, run.d.labelControl, p, |run.labidx|)
    ensures r.Ok? ==> (|r.value.cbf| == |run.mask| && |r.value.perf| == |run.mask| &&
      r.value.gs == Globals(r.value.cbf, r.value.perf, run.mask))
  {
    if run.labidx[p] >= |run.frames| then Err(IndexError("label frame"))
    else
      var lab := run.frames[run.labidx[p]];
      var con :- ControlImage(run, pos);
      var perf := PerfImage(con, lab, run.s.subtractionOrder, run.s.maskFlag, MaskValues(run.mask, p));
      var bold := Half(Add(con, lab));
      var cbf :- CbfImage(run, con, bold, perf);
      Ok(PairMaps(bold, perf, cbf, Globals(cbf, perf, run.mask)))
  }

  /** Pair p; a p past the label list is an IndexError on `labidx[p]`. */
  function PairAt(run: Run, p: nat): Result<PairMaps> {
    if run.Valid() && p < |run.labidx| then PairFrom(run, p, ControlPositions(run.s, run.d.labelControl, p, |run.labidx|))
    else Err(IndexError("labidx[p]"))
  }

  /** The loop over the pairs: the first k results, or the first pair's error. */
  function Pairs(run: Run, k: nat): Result<seq<PairMaps>> {
    Collect(PairFn(run), k)
  }

  function PairFn(run: Run): nat -> Result<PairMaps> {
    (p: nat) => PairAt(run, p)
  }

  // ---------------------------------------------------------------------------
  // The run

  /** `asltbx_perf_subtract` for one ASL series: the labeling delay (the first
      non-zero PLD in ms), the field constants, the labeling efficiency, the
      blood M0 or voxelwise M0, the control and label positions, and every
      pair. */
  function PerfSubtract(cfg: AsltbxConfig, d: AsltbxDescription, frames: seq<seq<real>>, shape: Shape,
                        mask: seq<real>, m0In: M0Input, sinc: real -> real, m: Math)
    : (r: Result<seq<PairMaps>>)
    requires |mask| == shape.Voxels() && Rect(frames, |mask|) && M0InputWellFormed(m0In)
  {
    var s := Resolve(cfg);
    var pld := FirstNonZero(d.pldList);
    if pld.None? then Err(IndexError("list index out of range"))
    else
      var c := FieldConstantsOf(d.fieldStrength);
      if d.labelingEfficiency.None? then Err(KeyError("LabelingEfficiency"))
      else
        var m0b :- BloodM0(s.quantFlag, s.m0wmcsf, c, d.m0EchoTime, m);
        var m0 :- QuantM0(s, d, m0In, shape);
        var roles := d.aslContext;
        var run := Run(s, d, frames, shape.nz, mask, m0, m0b, pld.value * 1000.0, c.bloodT1,
                       d.labelingEfficiency.value, Positions(roles, Control, |roles|),
                       Positions(roles, Label, |roles|), sinc, m);
        Pairs(run, |run.labidx|)
  }

  /** The set-up errors: no non-zero PLD, no LabelingEfficiency, and unique-M0
      quantification without a reference M0. */
  lemma PerfSubtractSetupErrors(cfg: AsltbxConfig, d: AsltbxDescription, frames: seq<seq<real>>, shape: Shape,
                                mask: seq<real>, m0In: M0Input, sinc: real -> real, m: Math)
    requires |mask| == shape.Voxels() && Rect(frames, |mask|) && M0InputWellFormed(m0In)
    ensures var r := PerfSubtract(cfg, d, frames, shape, mask, m0In, sinc, m);
      (NonZero(d.pldList) == [] ==> r == Err(IndexError("list index out of range"))) &&
      (NonZero(d.pldList) != [] && d.labelingEfficiency.None? ==> r == Err(KeyError("LabelingEfficiency"))) &&
      (NonZero(d.pldList) != [] && d.labelingEfficiency.Some? && Resolve(cfg).quantFlag != 0 &&
        (cfg.m0wmcsf.None? || cfg.m0wmcsf.value == 0.0) ==>
        r == Err(ValueError("Missing M0 value of WM or CSF for unique M0 based quantification")))
  {
  }

  /** The run of a data set that gets past the set-up. */
  function RunOf(cfg: AsltbxConfig, d: AsltbxDescription, frames: seq<seq<real>>, shape: Shape,
                 mask: seq<real>, m0In: M0Input, sinc: real -> real, m: Math): (run: Run)
    requires FirstNonZero(d.pldList).Some? && d.labelingEfficiency.Some?
    requires BloodM0(Resolve(cfg).quantFlag, Resolve(cfg).m0wmcsf, FieldConstantsOf(d.fieldStrength), d.m0EchoTime, m).Ok?
    requires M0InputWellFormed(m0In) && QuantM0(Resolve(cfg), d, m0In, shape).Ok?
    ensures run.labidx == Positions(d.aslContext, Label, |d.aslContext|)
  {
    var s := Resolve(cfg);
    var c := FieldConstantsOf(d.fieldStrength);
    var roles := d.aslContext;
    Run(s, d, frames, shape.nz, mask, QuantM0(s, d, m0In, shape).value,
        BloodM0(s.quantFlag, s.m0wmcsf, c, d.m0EchoTime, m).value,
        FirstNonZero(d.pldList).value * 1000.0, c.bloodT1, d.labelingEfficiency.value,
        Positions(roles, Control, |roles|), Positions(roles, Label, |roles|), sinc, m)
  }

  /** Past the set-up, the run is its pairs. */
  lemma PerfSubtractIsPairs(cfg: AsltbxConfig, d: AsltbxDescription, frames: seq<seq<real>>, shape: Shape,
                            mask: seq<real>, m0In: M0Input, sinc: real -> real, m: Math)
    requires |mask| == shape.Voxels() && Rect(frames, |mask|) && M0InputWellFormed(m0In)
    requires FirstNonZero(d.pldList).Some? && d.labelingEfficiency.Some?
    requires BloodM0(Resolve(cfg).quantFlag, Resolve(cfg).m0wmcsf, FieldConstantsOf(d.fieldStrength), d.m0EchoTime, m).Ok?
    requires QuantM0(Resolve(cfg), d, m0In, shape).Ok?
    ensures var run := RunOf(cfg, d, frames, shape, mask, m0In, sinc, m);
      PerfSubtract(cfg, d, frames, shape, mask, m0In, sinc, m) == Pairs(run, |run.labidx|)
  {
  }

  /** One result per label frame when the run succeeds (Common.CollectInOrder). */
  lemma PerfSubtractOnePerLabel(cfg: AsltbxConfig, d: AsltbxDescription, frames: seq<seq<real>>, shape: Shape,
                                mask: seq<real>, m0In: M0Input, sinc: real -> real, m: Math)
    requires |mask| == shape.Voxels() && Rect(frames, |mask|) && M0InputWellFormed(m0In)
    ensures var r := PerfSubtract(cfg, d, frames, shape, mask, m0In, sinc, m);
      r.Ok? ==> |r.value| == RoleCount(d.aslContext, Label)
  {
    var r := PerfSubtract(cfg, d, frames, shape, mask, m0In, sinc, m);
    var roles := d.aslContext;
    PositionsExact(roles, Label, |roles|);
    assert roles[..|roles|] == roles;
    if r.Ok? {
      PerfSubtractIsPairs(cfg, d, frames, shape, mask, m0In, sinc, m);
      var run := RunOf(cfg, d, frames, shape, mask, m0In, sinc, m);
      CollectInOrder(PairFn(run), |run.labidx|);
    }
  }

  /** The loop over the pairs, filling one result per label frame. */
  method PerfSubtractPairs(run: Run) returns (r: Result<seq<PairMaps>>)
    ensures r == Pairs(run, |run.labidx|)
  {
    r := CollectLoop(PairFn(run), |run.labidx|);
  }

  /** `asltbx_perf_subtract`: the set-up steps in order, then the pair loop. */
  method AsltbxPerfSubtract(cfg: AsltbxConfig, d: AsltbxDescription, frames: seq<seq<real>>, shape: Shape,
                            mask: seq<real>, m0In: M0Input, sinc: real -> real, m: Math)
    returns (r: Result<seq<PairMaps>>)
    requires |mask| == shape.Voxels() && Rect(frames, |mask|) && M0InputWellFormed(m0In)
    ensures r == PerfSubtract(cfg, d, frames, shape, mask, m0In, sinc, m)
  {
    var s := Resolve(cfg);
    var pld := FirstNonZero(d.pldList);
    if pld.None? {
      return Err(IndexError("list index out of range"));
    }
    var c := FieldConstantsOf(d.fieldStrength);
    if d.labelingEfficiency.None? {
      return Err(KeyError("LabelingEfficiency"));
    }
    var m0b := BloodM0(s.quantFlag, s.m0wmcsf, c, d.m0EchoTime, m);
    if m0b.Err? {
      return Err(m0b.error);
    }
    var m0 := QuantM0(s, d, m0In, shape);
    if m0.Err? {
      return Err(m0.error);
    }
    var run := RunOf(cfg, d, frames, shape, mask, m0In, sinc, m);
    PerfSubtractIsPairs(cfg, d, frames, shape, mask, m0In, sinc, m);
    r := PerfSubtractPairs(run);
  }
}
