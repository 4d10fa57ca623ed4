/** PyASL's ControlLabelSplit step (pyasl/modules/preclinical_control_label_split.py):
    the interleaved repetitions of the (X, Y, Z, repetitions, 1) series are
    split into the control and label series, and their frame-wise
    difference is averaged into the difference image. */
module ControlLabelSplit {
  import opened Common
  import opened PipelineContext

  /** `frames[0::2]`. */
  function Evens(frames: seq<seq<real>>): (r: seq<seq<real>>)
    ensures |r| == (|frames| + 1) / 2
    ensures forall j :: 0 <= j < |r| ==> r[j] == frames[2 * j]
  {
    seq((|frames| + 1) / 2, j requires 0 <= j < (|frames| + 1) / 2 => frames[2 * j])
  }

  /** `frames[1::2]`. */
  function Odds(frames: seq<seq<real>>): (r: seq<seq<real>>)
    ensures |r| == |frames| / 2
    ensures forall j :: 0 <= j < |r| ==> r[j] == frames[2 * j + 1]
  {
    seq(|frames| / 2, j requires 0 <= j < |frames| / 2 => frames[2 * j + 1])
  }

  /** Every repetition lands in exactly one of the two series: the even ones
      in `Evens`, the odd ones in `Odds`, at half their index. */
  lemma EvensOddsPartition(frames: seq<seq<real>>, i: nat)
    requires i < |frames|
    ensures i % 2 == 0 ==> i / 2 < |Evens(frames)| && Evens(frames)[i / 2] == frames[i]
    ensures i % 2 == 1 ==> i / 2 < |Odds(frames)| && Odds(frames)[i / 2] == frames[i]
    ensures |Evens(frames)| + |Odds(frames)| == |frames|
  {
  }

  /** Voxel v of a frame, 0 past its end (the model's arrays are flat
      sequences; a well-formed frame has every voxel). */
  function At(frame: seq<real>, v: nat): real {
    if v < |frame| then frame[v] else 0.0
  }

  /** numpy broadcasting of the repetition axis: equal lengths pair up, a
      length of one is repeated; anything else is a ValueError. */
  function Broadcast(a: nat, b: nat): (r: Option<nat>)
    ensures r.Some? <==> a == b || a == 1 || b == 1
    ensures r.Some? && a == b ==> r.value == a
  {
    if a == b then Some(a) else if a == 1 then Some(b) else if b == 1 then Some(a) else None
  }

  /** Frame j of a series under broadcasting. */
  function FrameOf(frames: seq<seq<real>>, j: nat): seq<real>
    requires j < |frames| || |frames| == 1
  {
    if |frames| == 1 then frames[0] else frames[j]
  }

  /** Voxel v of the sum over the first k frames of `ctr - lab`. */
  function DiffSum(ctr: seq<seq<real>>, lab: seq<seq<real>>, v: nat, k: nat): real
    requires k <= |ctr| || |ctr| == 1
    requires k <= |lab| || |lab| == 1
  {
    if k == 0 then 0.0
    else DiffSum(ctr, lab, v, k - 1) + (At(FrameOf(ctr, k - 1), v) - At(FrameOf(lab, k - 1), v))
  }

  /** Exchanging the roles of the two series negates the difference sum. */
  lemma {:induction false} DiffSumAntisymmetric(ctr: seq<seq<real>>, lab: seq<seq<real>>, v: nat, k: nat)
    requires k <= |ctr| || |ctr| == 1
    requires k <= |lab| || |lab| == 1
    ensures DiffSum(lab, ctr, v, k) == -DiffSum(ctr, lab, v, k)
  {
    if k > 0 {
      DiffSumAntisymmetric(ctr, lab, v, k - 1);
    }
  }

  /** `np.mean(ctr - lab, axis=3)` over n voxels. The mean of no frames is
      numpy's NaN. */
  function MeanDiff(ctr: seq<seq<real>>, lab: seq<seq<real>>, n: nat): (r: Result<seq<real>>)
    ensures Broadcast(|ctr|, |lab|).None? ==> r.Err? && r.error.ValueError?
    ensures r.Ok? ==> Broadcast(|ctr|, |lab|).Some? && Broadcast(|ctr|, |lab|).value > 0 && |r.value| == n
  {
    match Broadcast(|ctr|, |lab|)
    case None => Err(ValueError("operands could not be broadcast together"))
    case Some(k) =>
      if k == 0 then Err(NotFinite("mean of an empty repetition axis"))
      else Ok(seq(n, v requires 0 <= v => DiffSum(ctr, lab, v, k) / k as real))
  }

  /** The split: (control series, label series). */
  function Split(frames: seq<seq<real>>, controlFirst: bool): (r: (seq<seq<real>>, seq<seq<real>>))
    ensures controlFirst ==> r == (Evens(frames), Odds(frames))
    ensures !controlFirst ==> r == (Odds(frames), Evens(frames))
  {
    if controlFirst then (Evens(frames), Odds(frames)) else (Odds(frames), Evens(frames))
  }

  /** The three entries the step writes. */
  predicate Written(key: string) {
    key == "ImageCtr" || key == "ImageLab" || key == "ImageDif"
  }

  /** The whole step on the context entries. The control and label series
      are stored before the mean is taken, so they stay written when the
      mean fails. */
  function SplitStep(entries: map<string, Value>, p: map<string, Value>): (o: Outcome)
    ensures forall key :: key in entries && !Written(key) ==> key in o.entries && o.entries[key] == entries[key]
    ensures forall key :: key in o.entries ==> key in entries || Written(key)
    ensures o.error.None? ==> "ImageDif" in o.entries && o.entries["ImageDif"].Array3?
  {
    var controlFirst := Truth(Param(p, "control_first", Bool(true)));
    if controlFirst.Err? then Outcome(entries, Some(controlFirst.error))
    else if "Image" !in entries then Outcome(entries, Some(MissingKey("Image")))
    else
      match entries["Image"]
      case Array5(shape, frames) =>
        var (ctr, lab) := Split(frames, controlFirst.value);
        var stored := entries["ImageCtr" := Array4(shape, ctr)]["ImageLab" := Array4(shape, lab)];
        var dif := MeanDiff(ctr, lab, shape.Voxels());
        if dif.Err? then Outcome(stored, Some(dif.error))
        else Outcome(stored["ImageDif" := Array3(shape, dif.value)], None)
      case Array4(_, _) => Outcome(entries, Some(IndexError("too many indices for array")))
      case Array3(_, _) => Outcome(entries, Some(IndexError("too many indices for array")))
      case _ => Outcome(entries, Some(TypeError("object is not subscriptable")))
  }

  /** On a 5D image, for any number of repetitions, the step stores the
      control and label series of the configured order, and stores the
      difference exactly when their mean difference exists (otherwise its
      error is the step's). */
  lemma SplitStepStores(entries: map<string, Value>, p: map<string, Value>)
    requires "Image" in entries && entries["Image"].Array5?
    requires Truth(Param(p, "control_first", Bool(true))).Ok?
    ensures var img := entries["Image"];
      var cl := Split(img.frames, Truth(Param(p, "control_first", Bool(true))).value);
      var dif := MeanDiff(cl.0, cl.1, img.shape.Voxels());
      var o := SplitStep(entries, p);
      "ImageCtr" in o.entries && o.entries["ImageCtr"] == Array4(img.shape, cl.0) &&
      "ImageLab" in o.entries && o.entries["ImageLab"] == Array4(img.shape, cl.1) &&
      (o.error.None? <==> dif.Ok?) &&
      (dif.Ok? ==> "ImageDif" in o.entries && o.entries["ImageDif"] == Array3(img.shape, dif.value)) &&
      (dif.Err? ==> o.error == Some(dif.error))
  {
  }

  /** By default (and with control_first true) the controls are the even
      repetitions and the labels the odd ones; with an even number of
      repetitions the difference image is, voxel by voxel, the mean of
      control minus label over the pairs. */
  lemma ControlFirstDefault(entries: map<string, Value>, shape: Shape, frames: seq<seq<real>>, v: nat)
    requires "Image" in entries && entries["Image"] == Array5(shape, frames)
    requires |frames| > 0 && |frames| % 2 == 0 && v < shape.Voxels()
    ensures var o := SplitStep(entries, map[]);
      o.error.None? &&
      o.entries["ImageCtr"] == Array4(shape, Evens(frames)) &&
      o.entries["ImageLab"] == Array4(shape, Odds(frames)) &&
      o.entries["ImageDif"].vox[v] == DiffSum(Evens(frames), Odds(frames), v, |frames| / 2) / (|frames| / 2) as real
  {
    var o := SplitStep(entries, map[]);
    assert |Evens(frames)| == |Odds(frames)| == |frames| / 2;
  }

  /** The step with an explicit control_first on an even, non-empty series. */
  lemma EvenSplit(entries: map<string, Value>, shape: Shape, frames: seq<seq<real>>, controlFirst: bool, v: nat)
    requires "Image" in entries && entries["Image"] == Array5(shape, frames)
    requires |frames| > 0 && |frames| % 2 == 0 && v < shape.Voxels()
    ensures var o := SplitStep(entries, map["control_first" := Bool(controlFirst)]);
      var (ctr, lab) := Split(frames, controlFirst);
      o.error.None? &&
      o.entries["ImageCtr"] == Array4(shape, ctr) && o.entries["ImageLab"] == Array4(shape, lab) &&
      o.entries["ImageDif"].vox[v] == DiffSum(ctr, lab, v, |frames| / 2) / (|frames| / 2) as real
  {
    assert |Evens(frames)| == |Odds(frames)| == |frames| / 2;
  }

  /** control_first false exchanges the two series, so the difference image
      changes sign. */
  lemma ControlLastNegates(entries: map<string, Value>, shape: Shape, frames: seq<seq<real>>, v: nat)
    requires "Image" in entries && entries["Image"] == Array5(shape, frames)
    requires |frames| > 0 && |frames| % 2 == 0 && v < shape.Voxels()
    ensures var first := SplitStep(entries, map["control_first" := Bool(true)]);
      var last := SplitStep(entries, map["control_first" := Bool(false)]);
      first.error.None? && last.error.None? &&
      last.entries["ImageCtr"] == Array4(shape, Odds(frames)) &&
      last.entries["ImageLab"] == Array4(shape, Evens(frames)) &&
      last.entries["ImageDif"].vox[v] == -first.entries["ImageDif"].vox[v]
  {
    var k := |frames| / 2;
    assert |Evens(frames)| == |Odds(frames)| == k;
    var d := DiffSum(Evens(frames), Odds(frames), v, k);
    DiffSumAntisymmetric(Evens(frames), Odds(frames), v, k);
    NegDiv(d, k as real);
    EvenSplit(entries, shape, frames, true, v);
    EvenSplit(entries, shape, frames, false, v);
  }

  lemma NegDiv(d: real, k: real)
    requires k > 0.0
    ensures -d / k == -(d / k)
  {
  }

  /** Three repetitions: the single label is broadcast against both
      controls instead of raising. */
  lemma OddCountBroadcasts(entries: map<string, Value>, shape: Shape, frames: seq<seq<real>>)
    requires "Image" in entries && entries["Image"] == Array5(shape, frames) && |frames| == 3
    ensures SplitStep(entries, map[]).error.None?
    ensures |Odds(frames)| == 1 && |Evens(frames)| == 2
  {
  }

  /** Five repetitions cannot be broadcast: a ValueError, with the control
      and label series already stored. */
  lemma FiveRepetitionsRaise(entries: map<string, Value>, shape: Shape, frames: seq<seq<real>>)
    requires "Image" in entries && entries["Image"] == Array5(shape, frames) && |frames| == 5
    ensures var o := SplitStep(entries, map[]);
      o.error.Some? && o.error.value.ValueError? && "ImageCtr" in o.entries && "ImageLab" in o.entries
  {
  }

  /** ControlLabelSplit.run. */
  method Run(ctx: Context, p: map<string, Value>) returns (error: Option<Error>)
    modifies ctx
    ensures (ctx.entries, error) == (SplitStep(old(ctx.entries), p).entries, SplitStep(old(ctx.entries), p).error)
  {
    var controlFirst := Truth(Param(p, "control_first", Bool(true)));
    if controlFirst.Err? {
      return Some(controlFirst.error);
    }
    var img := ctx.GetRequired("Image");
    if img.Err? {
      return Some(img.error);
    }
    if !img.value.Array5? {
      return SplitStep(ctx.entries, p).error;
    }
    var shape, frames := img.value.shape, img.value.frames;
    var ctr, lab := Split(frames, controlFirst.value).0, Split(frames, controlFirst.value).1;
    ctx.Set("ImageCtr", Array4(shape, ctr));
    ctx.Set("ImageLab", Array4(shape, lab));
    var dif := MeanDiff(ctr, lab, shape.Voxels());
    if dif.Err? {
      return Some(dif.error);
    }
    ctx.Set("ImageDif", Array3(shape, dif.value));
    error := None;
  }
}
