/** PyASL's SlicePLDAdjust step (pyasl/modules/preclinical_slice_pld_adjust.py):
    in an interleaved multi-slice acquisition slice z is read
    `SGap * AdjList[z]` ms after the first one, so its signal has decayed by
    that much more; the step multiplies it back by `exp(SGap * AdjList[z] /
    T1blood)`. */
module SlicePldAdjust {
  import opened Common
  import opened PipelineContext

  const DefaultSGap: real := 31.0
  const DefaultT1Blood: real := 2800.0

  /** `np.arange(2 * m).reshape(2, -1).T.ravel()`: 0, m, 1, m + 1, ... */
  function Interleaved(m: nat): (r: seq<nat>)
    ensures |r| == 2 * m
    ensures forall j :: 0 <= j < 2 * m ==> r[j] == if j % 2 == 0 then j / 2 else m + j / 2
  {
    seq(2 * m, j requires 0 <= j => if j % 2 == 0 then j / 2 else m + j / 2)
  }

  /** The acquisition rank of each slice: the interleaved arange, with its
      last entry dropped when the slice count is odd. */
  function AdjList(z: nat): (r: seq<nat>)
    ensures |r| == z
  {
    if z % 2 == 1 then Interleaved((z + 1) / 2)[..z] else Interleaved(z / 2)
  }

  /** Slice j is acquired at rank j / 2 when j is even and ceil(z / 2) + j / 2
      when j is odd: the order [0, ceil(z/2), 1, ceil(z/2) + 1, ...]. */
  lemma AdjListAt(z: nat, j: nat)
    requires j < z
    ensures AdjList(z)[j] == if j % 2 == 0 then j / 2 else (z + 1) / 2 + j / 2
  {
  }

  /** The slice acquired at rank k: the inverse of AdjList. */
  function SliceAtRank(z: nat, k: nat): nat {
    if k < (z + 1) / 2 then 2 * k else 2 * (k - (z + 1) / 2) + 1
  }

  /** AdjList is a permutation of 0 .. z - 1: every entry is a rank below z,
      no two slices share a rank, and every rank belongs to some slice. */
  lemma AdjListPermutation(z: nat)
    ensures forall j :: 0 <= j < z ==> AdjList(z)[j] < z
    ensures forall j, j' :: 0 <= j < j' < z ==> AdjList(z)[j] != AdjList(z)[j']
    ensures forall k :: 0 <= k < z ==> SliceAtRank(z, k) < z && AdjList(z)[SliceAtRank(z, k)] == k
  {
    forall j | 0 <= j < z
      ensures AdjList(z)[j] < z
    {
      AdjListAt(z, j);
    }
    forall j, j' | 0 <= j < j' < z
      ensures AdjList(z)[j] != AdjList(z)[j']
    {
      AdjListAt(z, j);
      AdjListAt(z, j');
    }
    forall k | 0 <= k < z
      ensures SliceAtRank(z, k) < z && AdjList(z)[SliceAtRank(z, k)] == k
    {
      var j := SliceAtRank(z, k);
      AdjListAt(z, j);
    }
  }

  /** The correction factor of each slice, `np.exp(SGap * AdjList / T1blood)`. */
  function Factors(z: nat, sGap: real, t1Blood: real, m: Math): (f: seq<real>)
    requires t1Blood != 0.0
    ensures |f| == z
    ensures forall j :: 0 <= j < z ==> f[j] == m.exp(Delay(z, j, sGap) / t1Blood)
  {
    seq(z, j requires 0 <= j < z => m.exp(Delay(z, j, sGap) / t1Blood))
  }

  /** How much later than the first slice slice j is read: `SGap * AdjList[j]`. */
  function Delay(z: nat, j: nat, sGap: real): real
    requires j < z
  {
    sGap * AdjList(z)[j] as real
  }

  /** The first slice is acquired first and keeps its values. */
  lemma FirstSliceUnscaled(z: nat, sGap: real, t1Blood: real, m: Math)
    requires z > 0 && t1Blood != 0.0 && m.exp(0.0) == 1.0
    ensures Factors(z, sGap, t1Blood, m)[0] == 1.0
  {
    AdjListAt(z, 0);
  }

  /** A later rank gets a larger correction when exp increases and the gap is
      positive. */
  lemma LaterSlicesScaledMore(z: nat, sGap: real, t1Blood: real, m: Math, j: nat, j': nat)
    requires j < z && j' < z && AdjList(z)[j] < AdjList(z)[j']
    requires sGap > 0.0 && t1Blood > 0.0
    requires forall x, y :: x < y ==> m.exp(x) < m.exp(y)
    ensures Factors(z, sGap, t1Blood, m)[j] < Factors(z, sGap, t1Blood, m)[j']
  {
    var a, b := AdjList(z)[j] as real, AdjList(z)[j'] as real;
    ScaleMonotone(sGap, t1Blood, a, b);
    var x, y := Delay(z, j, sGap) / t1Blood, Delay(z, j', sGap) / t1Blood;
    assert x < y;
    assert m.exp(x) < m.exp(y);
    var f := Factors(z, sGap, t1Blood, m);
    assert f[j] == m.exp(x) && f[j'] == m.exp(y);
  }

  lemma ScaleMonotone(c: real, d: real, a: real, b: real)
    requires c > 0.0 && d > 0.0 && a < b
    ensures c * a / d < c * b / d
  {
    assert c * a < c * b by {
      assert c * (b - a) > 0.0;
    }
  }

  /** A flat volume with its slices z < upto multiplied by their factor. */
  function ScaledVolume(vox: seq<real>, nz: nat, f: seq<real>, upto: nat): (r: seq<real>)
    requires upto <= |f|
    ensures |r| == |vox|
  {
    seq(|vox|, i requires 0 <= i < |vox| =>
      if nz > 0 && SliceOf(i, nz) < upto then f[SliceOf(i, nz)] * vox[i] else vox[i])
  }

  /** An image with its first `upto` slices scaled, every repetition alike;
      None for what `arr[:, :, z]` cannot index. */
  function Scaled(arr: Value, f: seq<real>, upto: nat): (r: Option<Value>)
    requires upto <= |f|
    ensures r.Some? <==> arr.IsArray()
    ensures r.Some? ==> r.value.IsArray() && r.value.shape == arr.shape
  {
    match arr
    case Array3(shape, vox) => Some(Array3(shape, ScaledVolume(vox, shape.nz, f, upto)))
    case Array4(shape, frames) =>
      Some(Array4(shape, seq(|frames|, j requires 0 <= j < |frames| => ScaledVolume(frames[j], shape.nz, f, upto))))
    case Array5(shape, frames) =>
      Some(Array5(shape, seq(|frames|, j requires 0 <= j < |frames| => ScaledVolume(frames[j], shape.nz, f, upto))))
    case _ => None
  }

  /** `ctx.get("ImageDif").shape[2]`, the slice count used when Para has no
      `slicenum`. Python evaluates it even when Para has one. */
  function DefaultSlices(entries: map<string, Value>): (r: Result<nat>)
    ensures r.Ok? <==> "ImageDif" in entries && entries["ImageDif"].IsArray()
  {
    if "ImageDif" !in entries then Err(AttributeError("'NoneType' object has no attribute 'shape'"))
    else if entries["ImageDif"].IsArray() then Ok(entries["ImageDif"].shape.nz)
    else Err(AttributeError("shape"))
  }

  /** The entry the step rescales: relCBF when the context has one. */
  function TargetKey(entries: map<string, Value>): string {
    if "relCBF" in entries then "relCBF" else "ImageDif"
  }

  /** The slice count, the factors and the target, or the exception raised
      before any slice is touched. */
  datatype Plan = Skip | Plan(z: nat, f: seq<real>, key: string)

  function Prepare(entries: map<string, Value>, p: map<string, Value>, m: Math): (r: Result<Plan>)
    ensures r.Ok? && r.value.Plan? ==> (r.value.z > 1 && |r.value.f| == r.value.z &&
      r.value.key == TargetKey(entries) && r.value.key in entries)
  {
    if "Para" !in entries then Err(MissingKey("Para"))
    else if !entries["Para"].Dict? then Err(AttributeError("get"))
    else
      var nz :- DefaultSlices(entries);
      var z :- ToInt(Param(entries["Para"].fields, "slicenum", Num(nz as real)));
      if z <= 1 then Ok(Skip)
      else
        var sGap :- ToFloat(Param(p, "SGap", Num(DefaultSGap)));
        var t1Blood :- ToFloat(Param(p, "T1blood", Num(DefaultT1Blood)));
        if t1Blood == 0.0 then Err(NotFinite("AdjList / T1blood"))
        else Ok(Plan(z, Factors(z, sGap, t1Blood, m), TargetKey(entries)))
  }

  /** The whole step on the context entries. When `slicenum` exceeds the
      target's slice count, the slices that exist have already been scaled
      in place when the IndexError is raised. */
  function SliceStep(entries: map<string, Value>, p: map<string, Value>, m: Math): (o: Outcome)
    ensures forall key :: key in entries && key != TargetKey(entries) ==> key in o.entries && o.entries[key] == entries[key]
    ensures o.entries.Keys == entries.Keys
  {
    match Prepare(entries, p, m)
    case Err(e) => Outcome(entries, Some(e))
    case Ok(Skip) => Outcome(entries, None)
    case Ok(Plan(z, f, key)) =>
      var arr := entries[key];
      if !arr.IsArray() then Outcome(entries, Some(TypeError("object is not subscriptable")))
      else if z <= arr.shape.nz then Outcome(entries[key := Scaled(arr, f, z).value], None)
      else Outcome(entries[key := Scaled(arr, f, arr.shape.nz).value], Some(IndexError("index out of bounds")))
  }

  /** A slice count of at most one (from Para or from ImageDif) leaves the
      context as it was. */
  lemma SingleSliceUntouched(entries: map<string, Value>, p: map<string, Value>, m: Math)
    requires Prepare(entries, p, m) == Ok(Skip)
    ensures SliceStep(entries, p, m) == Outcome(entries, None)
  {
  }

  /** With the defaults, voxel i of the target (relCBF if present, else
      ImageDif) is multiplied by exp(31 * AdjList[slice] / 2800). */
  lemma DefaultScaling(entries: map<string, Value>, m: Math, shape: Shape, vox: seq<real>, i: nat)
    requires "Para" in entries && entries["Para"] == Dict(map[])
    requires "ImageDif" in entries && entries["ImageDif"].IsArray() && entries["ImageDif"].shape.nz > 1
    requires TargetKey(entries) in entries && entries[TargetKey(entries)] == Array3(shape, vox)
    requires shape.nz == entries["ImageDif"].shape.nz && i < |vox|
    ensures var o := SliceStep(entries, map[], m);
      o.error.None? && o.entries[TargetKey(entries)].Array3? &&
      o.entries[TargetKey(entries)].vox[i] ==
        m.exp(Delay(shape.nz, SliceOf(i, shape.nz), DefaultSGap) / DefaultT1Blood) * vox[i]
  {
    var z := shape.nz;
    var f := Factors(z, DefaultSGap, DefaultT1Blood, m);
    DefaultPlan(entries, m);
    PlanScalesAll(entries, map[], m, z, f, shape, vox);
    assert ScaledVolume(vox, z, f, z)[i] == f[SliceOf(i, z)] * vox[i];
  }

  /** With no settings, the plan covers every slice of ImageDif with the
      default factors. */
  lemma DefaultPlan(entries: map<string, Value>, m: Math)
    requires "Para" in entries && entries["Para"] == Dict(map[])
    requires "ImageDif" in entries && entries["ImageDif"].IsArray() && entries["ImageDif"].shape.nz > 1
    ensures var z := entries["ImageDif"].shape.nz;
      Prepare(entries, map[], m) == Ok(Plan(z, Factors(z, DefaultSGap, DefaultT1Blood, m), TargetKey(entries)))
  {
    var z := entries["ImageDif"].shape.nz;
    assert Trunc(z as real) == z;
  }

  /** A plan for every slice of a volume scales each of its voxels. */
  lemma PlanScalesAll(entries: map<string, Value>, p: map<string, Value>, m: Math, z: nat, f: seq<real>,
                      shape: Shape, vox: seq<real>)
    requires Prepare(entries, p, m) == Ok(Plan(z, f, TargetKey(entries)))
    requires TargetKey(entries) in entries && entries[TargetKey(entries)] == Array3(shape, vox) && z == shape.nz
    ensures var o := SliceStep(entries, p, m);
      o.error.None? && o.entries[TargetKey(entries)] == Array3(shape, ScaledVolume(vox, z, f, z))
  {
  }

  /** The loop over slices: `arr[:, :, z] = AdjF[z] * arr[:, :, z]` for z
      below `upto`. */
  method ScaleSlices(arr: Value, f: seq<real>, upto: nat) returns (out: Value)
    requires arr.IsArray() && upto <= |f| && upto <= arr.shape.nz
    ensures Some(out) == Scaled(arr, f, upto)
  {
    out := arr;
    var z := 0;
    ScaledNothing(arr, f);
    while z < upto
      invariant z <= upto
      invariant Some(out) == Scaled(arr, f, z)
    {
      out := match out
        case Array3(shape, vox) => Array3(shape, ScaleOne(vox, shape.nz, f[z], z))
        case Array4(shape, frames) =>
          Array4(shape, seq(|frames|, j requires 0 <= j < |frames| => ScaleOne(frames[j], shape.nz, f[z], z)))
        case Array5(shape, frames) =>
          Array5(shape, seq(|frames|, j requires 0 <= j < |frames| => ScaleOne(frames[j], shape.nz, f[z], z)))
        case _ => out;
      ScaledStep(arr, f, z);
      z := z + 1;
    }
  }

  /** One slice of a flat volume multiplied by a factor. */
  function ScaleOne(vox: seq<real>, nz: nat, factor: real, z: nat): (r: seq<real>)
    ensures |r| == |vox|
    ensures forall i :: 0 <= i < |vox| ==> r[i] == if nz > 0 && SliceOf(i, nz) == z then factor * vox[i] else vox[i]
  {
    seq(|vox|, i requires 0 <= i < |vox| => if nz > 0 && SliceOf(i, nz) == z then factor * vox[i] else vox[i])
  }

  lemma ScaledVolumeStep(vox: seq<real>, nz: nat, f: seq<real>, z: nat)
    requires z < |f|
    ensures ScaledVolume(vox, nz, f, z + 1) == ScaleOne(ScaledVolume(vox, nz, f, z), nz, f[z], z)
  {
    var a, b := ScaledVolume(vox, nz, f, z + 1), ScaleOne(ScaledVolume(vox, nz, f, z), nz, f[z], z);
    forall i | 0 <= i < |vox|
      ensures a[i] == b[i]
    {
    }
  }

  /** Scaling no slice changes nothing. */
  lemma ScaledNothing(arr: Value, f: seq<real>)
    requires arr.IsArray()
    ensures Scaled(arr, f, 0) == Some(arr)
  {
    match arr
    case Array3(shape, vox) =>
      assert ScaledVolume(vox, shape.nz, f, 0) == vox;
    case Array4(shape, frames) =>
      forall j | 0 <= j < |frames|
        ensures ScaledVolume(frames[j], shape.nz, f, 0) == frames[j]
      {
      }
      assert seq(|frames|, j requires 0 <= j < |frames| => ScaledVolume(frames[j], shape.nz, f, 0)) == frames;
    case Array5(shape, frames) =>
      forall j | 0 <= j < |frames|
        ensures ScaledVolume(frames[j], shape.nz, f, 0) == frames[j]
      {
      }
      assert seq(|frames|, j requires 0 <= j < |frames| => ScaledVolume(frames[j], shape.nz, f, 0)) == frames;
  }

  /** Scaling slice z of the image scaled below z scales it below z + 1. */
  lemma ScaledStep(arr: Value, f: seq<real>, z: nat)
    requires arr.IsArray() && z < |f|
    ensures match Scaled(arr, f, z).value
      case Array3(shape, vox) => Scaled(arr, f, z + 1) == Some(Array3(shape, ScaleOne(vox, shape.nz, f[z], z)))
      case Array4(shape, frames) => Scaled(arr, f, z + 1) ==
        Some(Array4(shape, seq(|frames|, j requires 0 <= j < |frames| => ScaleOne(frames[j], shape.nz, f[z], z))))
      case Array5(shape, frames) => Scaled(arr, f, z + 1) ==
        Some(Array5(shape, seq(|frames|, j requires 0 <= j < |frames| => ScaleOne(frames[j], shape.nz, f[z], z))))
      case _ => true
  {
    match arr
    case Array3(shape, vox) =>
      ScaledVolumeStep(vox, shape.nz, f, z);
    case Array4(shape, frames) =>
      forall j | 0 <= j < |frames| {
        ScaledVolumeStep(frames[j], shape.nz, f, z);
      }
      var cur := seq(|frames|, j requires 0 <= j < |frames| => ScaledVolume(frames[j], shape.nz, f, z));
      assert seq(|frames|, j requires 0 <= j < |frames| => ScaledVolume(frames[j], shape.nz, f, z + 1)) ==
        seq(|cur|, j requires 0 <= j < |cur| => ScaleOne(cur[j], shape.nz, f[z], z));
    case Array5(shape, frames) =>
      forall j | 0 <= j < |frames| {
        ScaledVolumeStep(frames[j], shape.nz, f, z);
      }
      var cur := seq(|frames|, j requires 0 <= j < |frames| => ScaledVolume(frames[j], shape.nz, f, z));
      assert seq(|frames|, j requires 0 <= j < |frames| => ScaledVolume(frames[j], shape.nz, f, z + 1)) ==
        seq(|cur|, j requires 0 <= j < |cur| => ScaleOne(cur[j], shape.nz, f[z], z));
  }

  /** SlicePLDAdjust.run. */
  method Run(ctx: Context, p: map<string, Value>, m: Math) returns (error: Option<Error>)
    modifies ctx
    ensures (ctx.entries, error) == (SliceStep(old(ctx.entries), p, m).entries, SliceStep(old(ctx.entries), p, m).error)
  {
    var plan := Prepare(ctx.entries, p, m);
    if plan.Err? {
      return Some(plan.error);
    }
    if plan.value.Skip? {
      return None;
    }
    var z, f, key := plan.value.z, plan.value.f, plan.value.key;
    var arr := ctx.entries[key];
    if !arr.IsArray() {
      return Some(TypeError("object is not subscriptable"));
    }
    var upto := if z <= arr.shape.nz then z else arr.shape.nz;
    var scaled := ScaleSlices(arr, f, upto);
    ctx.Set(key, scaled);
    error := if z <= arr.shape.nz then None else Some(IndexError("index out of bounds"));
  }
}
