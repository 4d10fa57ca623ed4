/** The MRICloud multi-delay quantification: the control and label frames are
    stacked in ASLContext order, their difference is normalised by M0 inside
    the display mask, the PLDs of the label frames become the sampling times,
    and a kinetic model is fitted voxel by voxel for CBF and ATT.

    The least-squares fit is not computed: it is a `Fitter`, a function from
    the fitting problem to the fitted (CBF, ATT) pair, or None when the
    optimiser gives up. `FitterKeepsBounds` states the one property of it that
    the contracts rely on. */
module MultidelayCbfAtt {
  import opened Common
  import opened MricloudHelpers
  import CalculateCbf

  const DefaultT1Blood: real := 1650.0
  const DefaultPartCoef: real := 0.9

  /** The entries of data_descrip this module reads; None is a missing key. */
  datatype MultidelayDescription = MultidelayDescription(
    aslContext: seq<Role>,
    pldList: seq<real>,
    labelingEfficiency: Option<real>,
    aslType: AslType,
    acquisition: Acquisition,
    labelingDuration: Option<real>,
    bolusCutOffDelay: Option<real>,
    sliceDuration: Option<real>,
    lookLocker: Option<real>)

  /** The three maps written: aCBF, ATT in ms, and rCBF (None where numpy
      divides by a NaN or zero global mean). */
  datatype CbfAttMaps = CbfAttMaps(cbf: seq<real>, att: seq<real>, rcbf: Option<seq<real>>)

  // ---------------------------------------------------------------------------
  // Stacking by role (Picked, Positions: Common)

  /** `ctrl - labl` on the two (X, Y, Z, count) stacks, with numpy's
      broadcasting: equal counts pair the frames, a count of 1 is repeated,
      any other mismatch raises. */
  function Diff(ctrl: seq<seq<real>>, labl: seq<seq<real>>, n: nat): (r: Result<seq<seq<real>>>)
    requires |ctrl| > 0 && |labl| > 0
    requires Rect(ctrl, n) && Rect(labl, n)
    ensures r.Err? <==> |ctrl| != |labl| && |ctrl| != 1 && |labl| != 1
    ensures r.Ok? ==> (Rect(r.value, n) &&
      |r.value| == (if |ctrl| >= |labl| then |ctrl| else |labl|))
  {
    var a := |ctrl|;
    var b := |labl|;
    if a != b && a != 1 && b != 1 then Err(ValueError("operands could not be broadcast together"))
    else
      var nd := if a >= b then a else b;
      Ok(seq(nd, j requires 0 <= j < nd => DiffFrame(ctrl, labl, j, n)))
  }

  /** Frame j of the broadcast difference. */
  function DiffFrame(ctrl: seq<seq<real>>, labl: seq<seq<real>>, j: nat, n: nat): (f: seq<real>)
    requires Rect(ctrl, n) && Rect(labl, n)
    requires (|ctrl| == 1 || j < |ctrl|) && (|labl| == 1 || j < |labl|)
    ensures |f| == n
  {
    var c := ctrl[if |ctrl| == 1 then 0 else j];
    var l := labl[if |labl| == 1 then 0 else j];
    Sub(c, l)
  }

  /** With as many control as label frames, difference frame j is control
      frame j minus label frame j. */
  lemma DiffPairsFrames(ctrl: seq<seq<real>>, labl: seq<seq<real>>, n: nat)
    requires |ctrl| > 0 && |ctrl| == |labl|
    requires Rect(ctrl, n) && Rect(labl, n)
    ensures Diff(ctrl, labl, n).Ok?
    ensures var d := Diff(ctrl, labl, n).value;
      |d| == |ctrl| && forall j, v :: 0 <= j < |d| && 0 <= v < n ==> d[j][v] == ctrl[j][v] - labl[j][v]
  {
    var d := Diff(ctrl, labl, n).value;
    forall j, v | 0 <= j < |d| && 0 <= v < n
      ensures d[j][v] == ctrl[j][v] - labl[j][v]
    {
      assert |ctrl| == 1 ==> j == 0;
      assert d[j] == DiffFrame(ctrl, labl, j, n) == Sub(ctrl[j], labl[j]);
    }
  }

  // ---------------------------------------------------------------------------
  // Normalised difference and sampling times

  /** Row v of `ndiff.reshape(-1, nd)`: zeros outside the display mask,
      diff/M0 inside it; None where that quotient is inf or NaN (M0 = 0). */
  function NDiffRow(diff: seq<seq<real>>, m0: seq<real>, dspl: seq<bool>, v: nat): (row: Option<seq<real>>)
    requires v < |m0| == |dspl|
    requires forall j :: 0 <= j < |diff| ==> v < |diff[j]|
    ensures !dspl[v] ==> row == Some(Zeros(|diff|))
    ensures dspl[v] && m0[v] == 0.0 && |diff| > 0 ==> row.None?
    ensures dspl[v] && m0[v] != 0.0 ==> (row.Some? && |row.value| == |diff| &&
      forall j :: 0 <= j < |diff| ==> row.value[j] * m0[v] == diff[j][v])
  {
    if !dspl[v] then Some(Zeros(|diff|))
    else if m0[v] == 0.0 && |diff| > 0 then None
    else Some(seq(|diff|, j requires 0 <= j < |diff| => diff[j][v] / m0[v]))
  }

  /** The PLD of every label frame, in seconds; a label position past the end
      of PLDList raises. The list holds `PLDList[i] * 1000`, then the array is
      divided by 1000. */
  function Plds(roles: seq<Role>, pldList: seq<real>): (r: Result<seq<real>>)
    ensures r.Err? <==> RolePastEnd(roles, Label, |pldList|)
    ensures r.Ok? ==> |r.value| == RoleCount(roles, Label)
  {
    if RolePastEnd(roles, Label, |pldList|) then Err(IndexError("PLDList[i]"))
    else
      PositionsExact(roles, Label, |roles|);
      PickedInOrder(pldList, roles, Label, |roles|);
      assert roles[..|roles|] == roles;
      Ok(Map(x => x * 1000.0 / 1000.0, Picked(pldList, roles, Label, |roles|)))
  }

  /** PLDs come from the label frames only, in frame order. */
  lemma PldsOfLabels(roles: seq<Role>, pldList: seq<real>)
    requires Plds(roles, pldList).Ok?
    ensures var p := Positions(roles, Label, |roles|);
      var plds := Plds(roles, pldList).value;
      |plds| == |p| && forall j :: 0 <= j < |p| ==> (p[j] < |roles| && p[j] < |pldList| &&
        roles[p[j]] == Label && plds[j] == pldList[p[j]])
  {
    PositionsExact(roles, Label, |roles|);
    PickedInOrder(pldList, roles, Label, |roles|);
  }

  /** The slice-timing offset `(islc - 1) * SliceDuration` outside 3D, where
      the key must exist. */
  function SliceOffset(d: MultidelayDescription, slice: nat): (r: Result<real>)
    ensures r.Err? <==> d.acquisition != ThreeD && d.sliceDuration.None?
  {
    if d.acquisition == ThreeD then Ok(0.0)
    else if d.sliceDuration.None? then Err(KeyError("SliceDuration"))
    else Ok((slice as real - 1.0) * d.sliceDuration.value)
  }

  /** xdata of one voxel: the PLDs, plus BolusCutOffDelayTime for PASL, plus
      the slice offset outside 3D. */
  function XData(d: MultidelayDescription, plds: seq<real>, slice: nat): (r: Result<seq<real>>)
    requires d.aslType == PCASL || d.aslType == PASL
    ensures r.Err? <==> ((d.aslType == PASL && d.bolusCutOffDelay.None?) ||
      (d.acquisition != ThreeD && d.sliceDuration.None?))
    ensures r.Ok? ==> |r.value| == |plds|
  {
    if d.aslType == PCASL then
      if d.acquisition == ThreeD then Ok(plds)
      else var o :- SliceOffset(d, slice); Ok(Map(x => x + o, plds))
    else if d.bolusCutOffDelay.None? then Err(KeyError("BolusCutOffDelayTime"))
    else
      var bcdt := d.bolusCutOffDelay.value;
      if d.acquisition == ThreeD then Ok(Map(x => x + bcdt, plds))
      else var o :- SliceOffset(d, slice); Ok(Map(x => x + bcdt + o, plds))
  }

  /** PCASL samples at PLD + (slice - 1)·SliceDuration outside 3D and at the
      PLD in 3D; PASL adds BolusCutOffDelayTime to both. */
  lemma XDataTimes(d: MultidelayDescription, plds: seq<real>, slice: nat)
    requires d.aslType == PCASL || d.aslType == PASL
    requires XData(d, plds, slice).Ok?
    ensures var x := XData(d, plds, slice).value;
      var bolus := if d.aslType == PASL then d.bolusCutOffDelay.value else 0.0;
      var offset := if d.acquisition == ThreeD then 0.0 else (slice as real - 1.0) * d.sliceDuration.value;
      forall j :: 0 <= j < |plds| ==> x[j] == plds[j] + bolus + offset
  {
  }

  // ---------------------------------------------------------------------------
  // The fit

  /** The kinetic model the fit evaluates: the PCASL general kinetic model
      (GkmPcasl) with the labeling duration, or the Look-Locker PASL model
      (GkmPasl) with the bolus cut-off delay and the flip angle. The fitter
      itself is a parameter, so the curves are not evaluated here. */
  datatype KineticModel =
    | PcaslKinetics(labelingDuration: real, paras: GkmParas)
    | PaslKinetics(bolusCutOff: real, flipAngle: real, paras: GkmParas)

  /** One call of curve_fit: model, samples, start point and box bounds, each
      as a (CBF, ATT) pair. */
  datatype FitProblem = FitProblem(
    model: KineticModel,
    xdata: seq<real>,
    ydata: seq<real>,
    init: (real, real),
    lower: (real, real),
    upper: (real, real))

  type Fitter = FitProblem -> Option<(real, real)>

  const BetaInit: (real, real) := (60.0, 0.5)
  const LowerBounds: (real, real) := (0.0, 0.1)
  const UpperBounds: (real, real) := (200.0, 3.0)

  /** A bounded least-squares fit returns a point inside its bounds. */
  ghost predicate FitterKeepsBounds(fit: Fitter) {
    forall p: FitProblem :: fit(p).Some? ==>
      p.lower.0 <= fit(p).value.0 <= p.upper.0 && p.lower.1 <= fit(p).value.1 <= p.upper.1
  }

  /** The lambda handed to curve_fit reads LabelingDuration (PCASL), or
      BolusCutOffDelayTime and Looklocker (PASL), only when it is called. */
  function Kinetics(d: MultidelayDescription, paras: GkmParas): (r: Result<KineticModel>)
    requires d.aslType == PCASL || d.aslType == PASL
    ensures r.Err? <==> ((d.aslType == PCASL && d.labelingDuration.None?) ||
      (d.aslType == PASL && (d.bolusCutOffDelay.None? || d.lookLocker.None?)))
    ensures r.Ok? && d.aslType == PCASL ==> r.value == PcaslKinetics(d.labelingDuration.value, paras)
    ensures r.Ok? && d.aslType == PASL ==>
      r.value == PaslKinetics(d.bolusCutOffDelay.value, d.lookLocker.value, paras)
  {
    if d.aslType == PCASL then
      if d.labelingDuration.None? then Err(KeyError("LabelingDuration"))
      else Ok(PcaslKinetics(d.labelingDuration.value, paras))
    else if d.bolusCutOffDelay.None? then Err(KeyError("BolusCutOffDelayTime"))
    else if d.lookLocker.None? then Err(KeyError("Looklocker"))
    else Ok(PaslKinetics(d.bolusCutOffDelay.value, d.lookLocker.value, paras))
  }

  /** Everything the voxel loop reads. */
  datatype FitInputs = FitInputs(
    d: MultidelayDescription,
    paras: GkmParas,
    plds: seq<real>,
    diff: seq<seq<real>>,
    m0: seq<real>,
    dspl: seq<bool>,
    nz: nat,
    fit: Fitter)
  {
    ghost predicate Valid() {
      (d.aslType == PCASL || d.aslType == PASL) && |dspl| == |m0| && Rect(diff, |m0|)
    }
  }

  /** The fit at one display-mask voxel: its xdata, its ndiff row (curve_fit
      refuses inf and NaN before calling the model), the model, the optimiser. */
  function VoxelFit(inp: FitInputs, v: nat): (r: Result<(real, real)>)
    requires inp.Valid() && v < |inp.m0|
    ensures FitterKeepsBounds(inp.fit) && r.Ok? ==>
      LowerBounds.0 <= r.value.0 <= UpperBounds.0 && LowerBounds.1 <= r.value.1 <= UpperBounds.1
  {
    var x :- XData(inp.d, inp.plds, SliceOf(v, inp.nz));
    var row := NDiffRow(inp.diff, inp.m0, inp.dspl, v);
    if row.None? then Err(ValueError("array must not contain infs or NaNs"))
    else
      var model :- Kinetics(inp.d, inp.paras);
      var beta := inp.fit(FitProblem(model, x, row.value, BetaInit, LowerBounds, UpperBounds));
      if beta.None? then Err(FitFailure) else Ok(beta.value)
  }

  /** The CBF and ATT maps over the first k voxels: the fit where the display
      mask holds (ATT converted to ms), zero elsewhere; the first failing fit
      ends the run. */
  function FitMaps(inp: FitInputs, k: nat): (r: Result<(seq<real>, seq<real>)>)
    requires inp.Valid() && k <= |inp.m0|
    ensures r.Ok? ==> |r.value.0| == k && |r.value.1| == k
  {
    if k == 0 then Ok(([], []))
    else
      var maps :- FitMaps(inp, k - 1);
      if !inp.dspl[k - 1] then Ok((maps.0 + [0.0], maps.1 + [0.0]))
      else
        var beta :- VoxelFit(inp, k - 1);
        Ok((maps.0 + [beta.0], maps.1 + [beta.1 * 1000.0]))
  }

  /** Voxel by voxel: aCBF is the fitted CBF and ATT 1000 times the fitted ATT
      inside the display mask, both 0 outside; a failure is the error of the
      first display-mask voxel, in voxel order, whose fit fails. */
  lemma {:induction false} FitMapsVoxels(inp: FitInputs, k: nat)
    requires inp.Valid() && k <= |inp.m0|
    ensures var r := FitMaps(inp, k);
      r.Ok? ==> forall v :: 0 <= v < k ==>
        (!inp.dspl[v] ==> r.value.0[v] == 0.0 && r.value.1[v] == 0.0) &&
        (inp.dspl[v] ==> (VoxelFit(inp, v).Ok? &&
          r.value.0[v] == VoxelFit(inp, v).value.0 && r.value.1[v] == VoxelFit(inp, v).value.1 * 1000.0))
    ensures var r := FitMaps(inp, k);
      r.Err? ==> exists v :: (0 <= v < k && inp.dspl[v] && VoxelFit(inp, v) == Err(r.error) &&
        forall w :: 0 <= w < v && inp.dspl[w] ==> VoxelFit(inp, w).Ok?)
    ensures (forall v :: 0 <= v < k && inp.dspl[v] ==> VoxelFit(inp, v).Ok?) ==> FitMaps(inp, k).Ok?
  {
    if k > 0 {
      FitMapsVoxels(inp, k - 1);
    }
  }

  /** Once a voxel's fit fails the maps are never produced. */
  lemma {:induction false} FitMapsErrStays(inp: FitInputs, k: nat, n: nat)
    requires inp.Valid() && k <= n <= |inp.m0|
    requires FitMaps(inp, k).Err?
    ensures FitMaps(inp, n) == FitMaps(inp, k)
    decreases n - k
  {
    if k < n {
      assert FitMaps(inp, k + 1) == FitMaps(inp, k);
      FitMapsErrStays(inp, k + 1, n);
    }
  }

  // ---------------------------------------------------------------------------
  // The whole run for one ASL series

  /** `run` for one series: stacking (a label or control position past the
      last frame raises, an empty stack cannot be stacked), the broadcast
      difference, the label PLDs, the parameters, the voxel fits for PCASL
      and PASL (any other type leaves both maps zero), and rCBF. */
  function CbfAtt(d: MultidelayDescription, t1Given: Option<real>, pcGiven: Option<real>,
                  frames: seq<seq<real>>, m0: seq<real>, dspl: seq<bool>, clcu: seq<bool>, nz: nat, fit: Fitter)
    : (r: Result<CbfAttMaps>)
    requires |dspl| == |m0| && |clcu| == |m0| && Rect(frames, |m0|)
    ensures r.Ok? ==> (|r.value.cbf| == |m0| && |r.value.att| == |m0| &&
      r.value.rcbf == CalculateCbf.Relative(r.value.cbf, clcu))
  {
    var roles := d.aslContext;
    if RolePastEnd(roles, Label, |frames|) || RolePastEnd(roles, Control, |frames|) then
      Err(IndexError("img_all[:, :, :, i]"))
    else
      var ctrl := Picked(frames, roles, Control, |roles|);
      var labl := Picked(frames, roles, Label, |roles|);
      if ctrl == [] || labl == [] then Err(ValueError("need at least one array to stack"))
      else
        PickedRect(frames, roles, Control, |m0|);
        PickedRect(frames, roles, Label, |m0|);
        var diff :- Diff(ctrl, labl, |m0|);
        var plds :- Plds(roles, d.pldList);
        if d.labelingEfficiency.None? then Err(KeyError("LabelingEfficiency"))
        else
          var paras := GkmParas(Setting(t1Given, DefaultT1Blood) / 1000.0, Setting(pcGiven, DefaultPartCoef),
                                d.labelingEfficiency.value);
          if d.aslType != PCASL && d.aslType != PASL then
            Ok(CbfAttMaps(Zeros(|m0|), Zeros(|m0|), CalculateCbf.Relative(Zeros(|m0|), clcu)))
          else
            var maps :- FitMaps(FitInputs(d, paras, plds, diff, m0, dspl, nz, fit), |m0|);
            Ok(CbfAttMaps(maps.0, maps.1, CalculateCbf.Relative(maps.0, clcu)))
  }

  /** The stacking step's errors: IndexError when a label or control position
      has no frame, otherwise ValueError when a role has no frames. */
  lemma CbfAttStackErrors(d: MultidelayDescription, t1Given: Option<real>, pcGiven: Option<real>,
                          frames: seq<seq<real>>, m0: seq<real>, dspl: seq<bool>, clcu: seq<bool>, nz: nat, fit: Fitter)
    requires |dspl| == |m0| && |clcu| == |m0| && Rect(frames, |m0|)
    ensures var r := CbfAtt(d, t1Given, pcGiven, frames, m0, dspl, clcu, nz, fit);
      var past := RolePastEnd(d.aslContext, Label, |frames|) || RolePastEnd(d.aslContext, Control, |frames|);
      (past ==> r == Err(IndexError("img_all[:, :, :, i]"))) &&
      (!past && (RoleCount(d.aslContext, Label) == 0 || RoleCount(d.aslContext, Control) == 0) ==>
        r == Err(ValueError("need at least one array to stack")))
  {
    var roles := d.aslContext;
    if !(RolePastEnd(roles, Label, |frames|) || RolePastEnd(roles, Control, |frames|)) {
      PickedInOrder(frames, roles, Control, |roles|);
      PickedInOrder(frames, roles, Label, |roles|);
      PositionsExact(roles, Control, |roles|);
      PositionsExact(roles, Label, |roles|);
      assert roles[..|roles|] == roles;
    }
  }

  /** The map properties: both maps are 0 outside the display mask; when the
      fitter keeps to its bounds, aCBF lies in [0, 200] and ATT in
      [100, 3000] ms inside it; ASL types other than PCASL and PASL give zero
      maps. */
  lemma CbfAttMapProperties(d: MultidelayDescription, t1Given: Option<real>, pcGiven: Option<real>,
                   frames: seq<seq<real>>, m0: seq<real>, dspl: seq<bool>, clcu: seq<bool>, nz: nat, fit: Fitter)
    requires |dspl| == |m0| && |clcu| == |m0| && Rect(frames, |m0|)
    requires CbfAtt(d, t1Given, pcGiven, frames, m0, dspl, clcu, nz, fit).Ok?
    ensures var maps := CbfAtt(d, t1Given, pcGiven, frames, m0, dspl, clcu, nz, fit).value;
      forall v :: 0 <= v < |m0| && !dspl[v] ==> maps.cbf[v] == 0.0 && maps.att[v] == 0.0
    ensures var maps := CbfAtt(d, t1Given, pcGiven, frames, m0, dspl, clcu, nz, fit).value;
      FitterKeepsBounds(fit) ==> forall v :: 0 <= v < |m0| && dspl[v] ==>
        0.0 <= maps.cbf[v] <= 200.0 && (maps.att[v] == 0.0 || 100.0 <= maps.att[v] <= 3000.0)
    ensures var maps := CbfAtt(d, t1Given, pcGiven, frames, m0, dspl, clcu, nz, fit).value;
      d.aslType != PCASL && d.aslType != PASL ==> maps.cbf == Zeros(|m0|) && maps.att == Zeros(|m0|)
  {
    var roles := d.aslContext;
    var ctrl := Picked(frames, roles, Control, |roles|);
    var labl := Picked(frames, roles, Label, |roles|);
    PickedRect(frames, roles, Control, |m0|);
    PickedRect(frames, roles, Label, |m0|);
    if d.aslType == PCASL || d.aslType == PASL {
      var diff := Diff(ctrl, labl, |m0|).value;
      var plds := Plds(roles, d.pldList).value;
      var paras := GkmParas(Setting(t1Given, DefaultT1Blood) / 1000.0, Setting(pcGiven, DefaultPartCoef),
                            d.labelingEfficiency.value);
      var inp := FitInputs(d, paras, plds, diff, m0, dspl, nz, fit);
      FitMapsVoxels(inp, |m0|);
      if FitterKeepsBounds(fit) {
        forall v | 0 <= v < |m0| && dspl[v]
          ensures VoxelFit(inp, v).Ok? && 0.1 <= VoxelFit(inp, v).value.1 <= 3.0
        {
        }
      }
    }
  }

  /** The loop over ASLContext appending label and control frames. */
  method StackByRole(frames: seq<seq<real>>, roles: seq<Role>) returns (r: Result<(seq<seq<real>>, seq<seq<real>>)>)
    ensures r.Err? <==> RolePastEnd(roles, Label, |frames|) || RolePastEnd(roles, Control, |frames|)
    ensures r.Err? ==> r.error == IndexError("img_all[:, :, :, i]")
    ensures r.Ok? ==>
      r.value == (Picked(frames, roles, Control, |roles|), Picked(frames, roles, Label, |roles|))
  {
    var ctrl: seq<seq<real>> := [];
    var labl: seq<seq<real>> := [];
    var i := 0;
    while i < |roles|
      invariant i <= |roles|
      invariant forall j :: 0 <= j < i && (roles[j] == Label || roles[j] == Control) ==> j < |frames|
      invariant labl == Picked(frames, roles, Label, i)
      invariant ctrl == Picked(frames, roles, Control, i)
    {
      if roles[i] == Label || roles[i] == Control {
        if i >= |frames| {
          assert roles[i] == Label ==> RolePastEnd(roles, Label, |frames|);
          assert roles[i] == Control ==> RolePastEnd(roles, Control, |frames|);
          return Err(IndexError("img_all[:, :, :, i]"));
        }
        if roles[i] == Label {
          labl := labl + [frames[i]];
        } else {
          ctrl := ctrl + [frames[i]];
        }
      }
      i := i + 1;
    }
    r := Ok((ctrl, labl));
  }

  /** The loop over ASLContext collecting the label PLDs in ms, then the
      conversion to seconds. */
  method LabelPlds(roles: seq<Role>, pldList: seq<real>) returns (r: Result<seq<real>>)
    ensures r == Plds(roles, pldList)
  {
    var pldsMs: seq<real> := [];
    var i := 0;
    while i < |roles|
      invariant i <= |roles|
      invariant forall j :: 0 <= j < i && roles[j] == Label ==> j < |pldList|
      invariant |pldsMs| == |Picked(pldList, roles, Label, i)|
      invariant forall j :: 0 <= j < |pldsMs| ==> pldsMs[j] == Picked(pldList, roles, Label, i)[j] * 1000.0
    {
      if roles[i] == Label {
        if i >= |pldList| {
          assert RolePastEnd(roles, Label, |pldList|);
          return Err(IndexError("PLDList[i]"));
        }
        pldsMs := pldsMs + [pldList[i] * 1000.0];
      }
      i := i + 1;
    }
    var picked := Picked(pldList, roles, Label, |roles|);
    var plds := Map(x => x / 1000.0, pldsMs);
    assert forall j :: 0 <= j < |plds| ==> plds[j] == picked[j] * 1000.0 / 1000.0;
    assert plds == Map(x => x * 1000.0 / 1000.0, picked);
    r := Ok(plds);
  }

  /** The voxel loop over `np.where(brnmsk_dspl)`, writing into the zero maps. */
  method FitVoxels(inp: FitInputs) returns (r: Result<(seq<real>, seq<real>)>)
    requires inp.Valid()
    ensures r == FitMaps(inp, |inp.m0|)
  {
    var cbf: seq<real> := [];
    var att: seq<real> := [];
    var v := 0;
    while v < |inp.m0|
      invariant v <= |inp.m0|
      invariant FitMaps(inp, v) == Ok((cbf, att))
    {
      if inp.dspl[v] {
        var beta := VoxelFit(inp, v);
        if beta.Err? {
          FitMapsErrStays(inp, v + 1, |inp.m0|);
          return Err(beta.error);
        }
        cbf := cbf + [beta.value.0];
        att := att + [beta.value.1 * 1000.0];
      } else {
        cbf := cbf + [0.0];
        att := att + [0.0];
      }
      v := v + 1;
    }
    r := Ok((cbf, att));
  }

  /** mricloud_multidelay_calculate_CBFATT `run` for one ASL series. */
  method MultidelayCalculateCbfAtt(d: MultidelayDescription, t1Given: Option<real>, pcGiven: Option<real>,
                                   frames: seq<seq<real>>, m0: seq<real>, dspl: seq<bool>, clcu: seq<bool>,
                                   nz: nat, fit: Fitter)
    returns (r: Result<CbfAttMaps>)
    requires |dspl| == |m0| && |clcu| == |m0| && Rect(frames, |m0|)
    ensures r == CbfAtt(d, t1Given, pcGiven, frames, m0, dspl, clcu, nz, fit)
  {
    var roles := d.aslContext;
    var stacks :- StackByRole(frames, roles);
    var (ctrl, labl) := stacks;
    if ctrl == [] || labl == [] {
      return Err(ValueError("need at least one array to stack"));
    }
    PickedRect(frames, roles, Control, |m0|);
    PickedRect(frames, roles, Label, |m0|);
    var diff :- Diff(ctrl, labl, |m0|);
    var plds :- LabelPlds(roles, d.pldList);
    if d.labelingEfficiency.None? {
      return Err(KeyError("LabelingEfficiency"));
    }
    var paras := GkmParas(Setting(t1Given, DefaultT1Blood) / 1000.0, Setting(pcGiven, DefaultPartCoef),
                          d.labelingEfficiency.value);
    if d.aslType != PCASL && d.aslType != PASL {
      return Ok(CbfAttMaps(Zeros(|m0|), Zeros(|m0|), CalculateCbf.Relative(Zeros(|m0|), clcu)));
    }
    var maps :- FitVoxels(FitInputs(d, paras, plds, diff, m0, dspl, nz, fit));
    r := Ok(CbfAttMaps(maps.0, maps.1, CalculateCbf.Relative(maps.0, clcu)));
  }
}
