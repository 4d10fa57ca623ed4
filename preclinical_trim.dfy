/** PyASL's SteadyStateTrim step (pyasl/modules/preclinical_steady_state_trim.py):
    the first repetitions of the (X, Y, Z, repetitions, 1) series are
    dropped so that the remaining ones are in magnetisation steady state. */
module SteadyStateTrim {
  import opened Common
  import opened PipelineContext

  /** The number of repetitions dropped when the step gets no `trim`. */
  const DefaultTrim: int := 2

  const TooFewError: Error := ValueError("Not enough repetitions to trim")

  /** First index numpy's slice `n:` keeps of a length-nr axis: a negative n
      counts from the end. */
  function SliceStart(n: int, nr: nat): (s: nat)
    ensures s <= nr
    ensures 0 <= n <= nr ==> s == n
  {
    if n >= 0 then (if n <= nr then n else nr)
    else if nr + n >= 0 then nr + n else 0
  }

  /** `img[:, :, :, n:, :]` after the guard on `img.shape[3]`. */
  function Trim(img: Value, n: int): (r: Result<Value>)
    ensures img.Array5? && |img.frames| <= n ==> r == Err(TooFewError)
    ensures img.Array5? && |img.frames| > n ==> r.Ok? && r.value.Array5? && r.value.shape == img.shape
    ensures img.Array5? && 0 <= n < |img.frames| ==> (r.Ok? &&
      |r.value.frames| == |img.frames| - n &&
      forall i :: 0 <= i < |r.value.frames| ==> r.value.frames[i] == img.frames[i + n])
    ensures !img.IsArray() ==> r.Err? && r.error.AttributeError?
  {
    match img
    case Array5(shape, frames) =>
      if |frames| <= n then Err(TooFewError)
      else Ok(Array5(shape, frames[SliceStart(n, |frames|)..]))
    case Array4(shape, frames) =>
      if |frames| <= n then Err(TooFewError) else Err(IndexError("too many indices for array"))
    case Array3(_, _) => Err(IndexError("tuple index out of range"))
    case _ => Err(AttributeError("shape"))
  }

  /** A negative trim keeps only the last repetitions (numpy slicing); it
      never raises. */
  lemma NegativeTrimKeepsTail(shape: Shape, frames: seq<seq<real>>, n: int)
    requires n < 0 && -n <= |frames|
    ensures Trim(Array5(shape, frames), n) == Ok(Array5(shape, frames[|frames| + n..]))
  {
  }

  /** The whole step on the context entries: the new entries and the
      exception raised. Only "Image" can change. */
  function TrimStep(entries: map<string, Value>, p: map<string, Value>): (o: Outcome)
    ensures o.entries == entries || ("Image" in entries && "Image" in o.entries && o.entries == entries["Image" := o.entries["Image"]])
    ensures o.error.None? <==> (ToInt(Param(p, "trim", Num(DefaultTrim as real))).Ok? && "Image" in entries &&
      Trim(entries["Image"], ToInt(Param(p, "trim", Num(DefaultTrim as real))).value).Ok?)
    ensures o.error.Some? ==> o.entries == entries
  {
    var n := ToInt(Param(p, "trim", Num(DefaultTrim as real)));
    if n.Err? then Outcome(entries, Some(n.error))
    else if "Image" !in entries then Outcome(entries, Some(MissingKey("Image")))
    else
      var r := Trim(entries["Image"], n.value);
      if r.Err? then Outcome(entries, Some(r.error)) else Outcome(entries["Image" := r.value], None)
  }

  /** With no parameters two repetitions go: frame i of the new series is
      old frame i + 2, and nothing but "Image" changes. */
  lemma DefaultDropsTwo(entries: map<string, Value>, shape: Shape, frames: seq<seq<real>>)
    requires "Image" in entries && entries["Image"] == Array5(shape, frames) && |frames| > 2
    ensures TrimStep(entries, map[]) == Outcome(entries["Image" := Array5(shape, frames[2..])], None)
  {
  }

  /** SteadyStateTrim.run. */
  method Run(ctx: Context, p: map<string, Value>) returns (error: Option<Error>)
    modifies ctx
    ensures (ctx.entries, error) == (TrimStep(old(ctx.entries), p).entries, TrimStep(old(ctx.entries), p).error)
  {
    var n := ToInt(Param(p, "trim", Num(DefaultTrim as real)));
    if n.Err? {
      return Some(n.error);
    }
    var img := ctx.GetRequired("Image");
    if img.Err? {
      return Some(img.error);
    }
    var trimmed := Trim(img.value, n.value);
    if trimmed.Err? {
      return Some(trimmed.error);
    }
    ctx.Set("Image", trimmed.value);
    error := None;
  }
}
