/** The state the preclinical and custom pipelines pass from step to step
    (pyasl/pipelines/custom_pipeline.py, class Context): a dictionary from
    names to values, where a value is what YAML or a step can put there, a
    scalar, a list, a dictionary or a numpy image. Steps update it in
    place, so it is a class whose one field the steps reassign. */
module PipelineContext {
  import opened Common

  /** A value in the context or in a step's parameters. Images keep numpy's
      C order: voxel i of a frame lies in slice i % nz. `Array5` is the
      (X, Y, Z, repetitions, 1) series the preclinical loaders produce. */
  datatype Value =
    | Null
    | Bool(b: bool)
    | Num(x: real)
    | Str(s: string)
    | List(items: seq<Value>)
    | Dict(fields: map<string, Value>)
    | Array3(shape: Shape, vox: seq<real>)
    | Array4(shape: Shape, frames: seq<seq<real>>)
    | Array5(shape: Shape, frames: seq<seq<real>>)
  {
    predicate IsArray() {
      Array3? || Array4? || Array5?
    }
  }

  /** Python's truth value; numpy refuses to give one for an array. */
  function Truth(v: Value): (r: Result<bool>)
    ensures r.Err? <==> v.IsArray()
    ensures v.Bool? ==> r == Ok(v.b)
    ensures v.Str? ==> r == Ok(v.s != "")
    ensures v.Null? ==> r == Ok(false)
  {
    match v
    case Null => Ok(false)
    case Bool(b) => Ok(b)
    case Num(x) => Ok(x != 0.0)
    case Str(s) => Ok(s != "")
    case List(items) => Ok(items != [])
    case Dict(fields) => Ok(fields != map[])
    case _ => Err(ValueError("The truth value of an array is ambiguous"))
  }

  /** Python's int() of a parameter value. */
  function ToInt(v: Value): (r: Result<int>)
    ensures v.Num? ==> r == Ok(Trunc(v.x))
    ensures v.Str? ==> (r.Ok? <==> ParseInt(v.s).Some?)
    ensures v.Null? || v.List? || v.Dict? ==> r.Err? && r.error.TypeError?
  {
    match v
    case Bool(b) => Ok(if b then 1 else 0)
    case Num(x) => Ok(Trunc(x))
    case Str(s) =>
      if ParseInt(s).Some? then Ok(ParseInt(s).value) else Err(ValueError("invalid literal for int()"))
    case _ => Err(TypeError("int() argument"))
  }

  /** Python's float() of a parameter value. */
  function ToFloat(v: Value): (r: Result<real>)
    ensures v.Num? ==> r == Ok(v.x)
    ensures v.Str? ==> (r.Ok? <==> IsDecimal(v.s))
    ensures v.Null? || v.List? || v.Dict? ==> r.Err? && r.error.TypeError?
  {
    match v
    case Bool(b) => Ok(if b then 1.0 else 0.0)
    case Num(x) => Ok(x)
    case Str(s) =>
      if ParseDecimal(s).Some? then Ok(ParseDecimal(s).value) else Err(ValueError("could not convert string to float"))
    case _ => Err(TypeError("float() argument"))
  }

  /** `p.get(key, default)` on keyword arguments. */
  function Param(p: map<string, Value>, key: string, default: Value): (r: Value)
    ensures key in p ==> r == p[key]
    ensures key !in p ==> r == default
  {
    if key in p then p[key] else default
  }

  /** The KeyError of `get_required` for an absent key. */
  function MissingKey(key: string): Error {
    KeyError("Context missing required key: " + key)
  }

  /** What a step leaves behind: the context entries, and the exception it
      raised, if any. A step that raises may already have changed entries. */
  datatype Outcome = Outcome(entries: map<string, Value>, error: Option<Error>)

  class Context {
    var entries: map<string, Value>

    constructor (init: map<string, Value>)
      ensures entries == init
    {
      entries := init;
    }

    /** `ctx.get(key)`: None (Python's None) when the key is absent. */
    function Get(key: string): (r: Option<Value>)
      reads this
      ensures r.Some? <==> key in entries
      ensures r.Some? ==> r.value == entries[key]
    {
      if key in entries then Some(entries[key]) else None
    }

    /** `get_required`: the value under the key, or the KeyError naming it. */
    method GetRequired(key: string) returns (r: Result<Value>)
      ensures key in entries ==> r == Ok(entries[key])
      ensures key !in entries ==> r == Err(MissingKey(key))
    {
      if key !in entries {
        return Err(MissingKey(key));
      }
      r := Ok(entries[key]);
    }

    /** `ctx[key] = v`. */
    method Set(key: string, v: Value)
      modifies this
      ensures entries == old(entries)[key := v]
    {
      entries := entries[key := v];
    }

    /** `ctx.setdefault(key, v)`: only an absent key is written. */
    method SetDefault(key: string, v: Value)
      modifies this
      ensures key in old(entries) ==> entries == old(entries)
      ensures key !in old(entries) ==> entries == old(entries)[key := v]
    {
      if key !in entries {
        entries := entries[key := v];
      }
    }
  }
}
