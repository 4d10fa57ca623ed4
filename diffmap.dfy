/** MRICloud difference map: averages the control and label frames of a 4D ASL
    series, as listed by ASLContext, into 3D control, label and difference
    volumes. */
module Diffmap {
  import opened Common

  datatype DiffMaps = DiffMaps(ctrl: seq<real>, labl: seq<real>, diff: seq<real>)

  /** Name of the series the multi-delay branch reads: the raw file. */
  function RawFile(aslFile: string): string {
    aslFile + ".nii"
  }

  /** Name of the series the module reads: single-delay data uses the copy the
      realignment step wrote, whose name is the raw name prefixed with "r". */
  function InputFile(aslFile: string, singleDelay: bool): (p: string)
    ensures singleDelay ==> p == "r" + RawFile(aslFile)
    ensures !singleDelay ==> p == RawFile(aslFile)
  {
    (if singleDelay then "r" else "") + aslFile + ".nii"
  }

  /** Output names: always the realigned stem, whatever file was read. The
      three maps go to three different files, none of which is the series
      read in either branch, so writing them never overwrites the input. */
  function OutputFiles(aslFile: string): (names: (string, string, string))
    ensures var outs := [names.0, names.1, names.2];
      (forall i :: 0 <= i < 3 ==> |outs[i]| > |aslFile| && outs[i][..|aslFile| + 1] == "r" + aslFile) &&
      (forall i :: 0 <= i < 3 ==> outs[i] != InputFile(aslFile, true) && outs[i] != InputFile(aslFile, false)) &&
      (forall i, j :: 0 <= i < j < 3 ==> outs[i] != outs[j])
  {
    var stem := "r" + aslFile;
    var outs := [stem + "_ctrl.nii", stem + "_labl.nii", stem + "_diff.nii"];
    assert forall i :: 0 <= i < 3 ==> outs[i][..|stem|] == stem && |outs[i]| == |stem| + 9;
    assert outs[0][|stem| + 1] == 'c' && outs[1][|stem| + 1] == 'l' && outs[2][|stem| + 1] == 'd';
    (outs[0], outs[1], outs[2])
  }

  /** Voxel v of ctrl (or labl): the sum of the control (or label) frames
      divided by the number of LABEL frames. */
  function RoleAverage(frames: seq<seq<real>>, roles: seq<Role>, role: Role, n: nat, v: nat): real
    requires !RolePastEnd(roles, role, |frames|) && Rect(frames, n) && v < n
    requires RoleCount(roles, Label) > 0
  {
    RoleSumAt(frames, roles, role, v, |roles|) / RoleCount(roles, Label) as real
  }

  lemma {:induction false} RoleCountPrefix(roles: seq<Role>, role: Role, i: nat)
    requires i < |roles|
    ensures RoleCount(roles[..i + 1], role) == RoleCount(roles[..i], role) + (if roles[i] == role then 1 else 0)
  {
    assert roles[..i + 1][..i] == roles[..i];
  }

  /** A control or label entry of the ASLContext list has no frame. */
  predicate MissingFrame(roles: seq<Role>, numFrames: nat) {
    RolePastEnd(roles, Label, numFrames) || RolePastEnd(roles, Control, numFrames)
  }

  /** The run loop for one series. `frames` is the 4D data (one flat volume of
      n voxels per frame) and `roles` the ASLContext list. Reading a control
      or label frame past the end of the data is Python's IndexError;
      dividing by a zero label count is numpy's NaN/inf. */
  method CalculateDiffmap(frames: seq<seq<real>>, roles: seq<Role>, n: nat) returns (r: Result<DiffMaps>)
    requires Rect(frames, n)
    ensures MissingFrame(roles, |frames|) <==> r.Err? && r.error.IndexError?
    ensures !MissingFrame(roles, |frames|) && RoleCount(roles, Label) == 0 ==> r.Err? && r.error.NotFinite?
    ensures r.Ok? <==> !MissingFrame(roles, |frames|) && RoleCount(roles, Label) > 0
    ensures r.Ok? ==>
      |r.value.ctrl| == n && |r.value.labl| == n && |r.value.diff| == n &&
      forall v :: 0 <= v < n ==>
        r.value.ctrl[v] == RoleAverage(frames, roles, Control, n, v) &&
        r.value.labl[v] == RoleAverage(frames, roles, Label, n, v) &&
        r.value.diff[v] == r.value.ctrl[v] - r.value.labl[v]
  {
    var ctrl := Zeros(n);
    var labl := Zeros(n);
    var numPairs := 0;
    var i := 0;
    while i < |roles|
      invariant i <= |roles|
      invariant forall j :: 0 <= j < i && (roles[j] == Label || roles[j] == Control) ==> j < |frames|
      invariant |ctrl| == n && |labl| == n
      invariant numPairs == RoleCount(roles[..i], Label)
      invariant forall v :: 0 <= v < n ==>
        ctrl[v] == RoleSumAt(frames, roles, Control, v, i) && labl[v] == RoleSumAt(frames, roles, Label, v, i)
    {
      if (roles[i] == Label || roles[i] == Control) && i >= |frames| {
        assert RolePastEnd(roles, roles[i], |frames|);
        return Err(IndexError("data[:, :, :, i]"));
      }
      RoleCountPrefix(roles, Label, i);
      if roles[i] == Label {
        labl := Add(labl, frames[i]);
        numPairs := numPairs + 1;
      } else if roles[i] == Control {
        ctrl := Add(ctrl, frames[i]);
      }
      i := i + 1;
    }
    assert roles[..i] == roles;
    assert !MissingFrame(roles, |frames|);
    if numPairs == 0 {
      return Err(NotFinite("no label frame: ctrl and labl divided by zero"));
    }
    var c := seq(n, v requires 0 <= v < n => ctrl[v] / numPairs as real);
    var l := seq(n, v requires 0 <= v < n => labl[v] / numPairs as real);
    var d := seq(n, v requires 0 <= v < n => c[v] - l[v]);
    r := Ok(DiffMaps(c, l, d));
  }

  /** Frames whose role differs from `role` do not enter its sum: in
      particular m0scan frames contribute to neither ctrl nor labl. */
  lemma {:induction false} OtherRolesIgnored(frames: seq<seq<real>>, other: seq<seq<real>>, roles: seq<Role>, role: Role, v: nat, k: nat)
    requires k <= |roles|
    requires forall i :: 0 <= i < k && roles[i] == role ==>
      i < |frames| && i < |other| && v < |frames[i]| && v < |other[i]| && frames[i][v] == other[i][v]
    ensures RoleSumAt(frames, roles, role, v, k) == RoleSumAt(other, roles, role, v, k)
  {
    if k > 0 {
      OtherRolesIgnored(frames, other, roles, role, v, k - 1);
    }
  }

  /** Replacing the m0scan frames of a series leaves all three maps unchanged. */
  lemma M0FramesIgnored(frames: seq<seq<real>>, other: seq<seq<real>>, roles: seq<Role>, n: nat, v: nat)
    requires !MissingFrame(roles, |frames|) && |frames| == |other| && Rect(frames, n) && Rect(other, n) && v < n
    requires RoleCount(roles, Label) > 0
    requires forall i :: 0 <= i < |roles| && i < |frames| && roles[i] != M0Scan ==> frames[i] == other[i]
    ensures RoleAverage(frames, roles, Control, n, v) == RoleAverage(other, roles, Control, n, v)
    ensures RoleAverage(frames, roles, Label, n, v) == RoleAverage(other, roles, Label, n, v)
  {
    OtherRolesIgnored(frames, other, roles, Control, v, |roles|);
    OtherRolesIgnored(frames, other, roles, Label, v, |roles|);
  }

  /** A concrete series with two control frames and one label frame: ctrl is
      the control SUM divided by one, not the control mean. */
  lemma CtrlDividesByLabelCount()
    ensures RoleAverage([[1.0], [1.0], [0.0]], [Control, Control, Label], Control, 1, 0) == 2.0
  {
    var frames := [[1.0], [1.0], [0.0]];
    var roles := [Control, Control, Label];
    assert roles[..2] == [Control, Control] && roles[..2][..1] == [Control] && [Control][..0] == [];
    assert RoleCount([Control], Label) == 0;
    assert RoleCount(roles, Label) == 1;
    assert RoleSumAt(frames, roles, Control, 0, 2) == 2.0;
    assert RoleSumAt(frames, roles, Control, 0, 3) == 2.0;
  }
}
