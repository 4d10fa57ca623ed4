/** PyASL's OxfordASLSplitM0 module (pyasl/modules/oxford_asl_split_m0.py):
    the ASL series is split into its ASL frames and its M0 frames by the
    m0scan tags of the ASL context, or passed through with a separate M0
    image when the context has none. Image files are read and written
    through parameters; the file system is an `exists_` oracle, a JSON
    reader and an image loader. */
module OxfordAslSplit {
  import opened Common
  import opened DataImport
  import opened OxfordAslRun

  /** A volume series as nibabel holds it: four-dimensional with one
      volume per frame, or three-dimensional once a single frame is squeezed. */
  datatype Image = Series(frames: seq<seq<real>>) | Volume(vol: seq<real>)

  const M0Tag: Json := JStr("m0scan")

  const NoM0Error: Error :=
    ValueError("ASLContext has no 'm0scan' and no separate M0 found in data_descrip['Images'][base]['M0'].")

  // ---------------------------------------------------------------------------
  // Where the ASL context comes from

  /** `params.get(key, default)`. */
  function GetOr(params: map<string, Json>, key: string, default: Json): Json {
    if key in params then params[key] else default
  }

  /** `a or b`: a when it is truthy, else b. */
  function Or(a: Json, b: Json): (r: Json)
    ensures Truthy(a) ==> r == a
    ensures !Truthy(a) ==> r == b
  {
    if Truthy(a) then a else b
  }

  /** The ASL context: the description's ASLContext when present and
      non-empty, else params' asl_context, else the ASLContext (or, failing
      that, AslContext) of a JSON file, by default perf/aslcontext.json
      under the session. `load` stands for opening and decoding the file. */
  function AslContextOf(dd: map<string, Json>, params: map<string, Json>, baseDir: string,
                        load: Json -> Loaded): (r: Result<Json>)
  {
    if "ASLContext" in dd && Truthy(dd["ASLContext"]) then Ok(dd["ASLContext"])
    else if "asl_context" in params then Ok(params["asl_context"])
    else
      var path := GetOr(params, "asl_context_json", JStr(PathJoin(PathJoin(baseDir, "perf"), "aslcontext.json")));
      FileContext(load(path))
  }

  /** `meta.get("ASLContext") or meta.get("AslContext")` of the file read. */
  function FileContext(loaded: Loaded): (r: Result<Json>)
    ensures loaded.Loaded? && loaded.doc.JObj? ==>
      r == Ok(if "ASLContext" in loaded.doc.fields && Truthy(loaded.doc.fields["ASLContext"])
              then loaded.doc.fields["ASLContext"] else Lookup(loaded.doc.fields, "AslContext"))
    ensures !(loaded.Loaded? && loaded.doc.JObj?) ==> r.Err?
  {
    match loaded
    case Loaded(meta) =>
      if meta.JObj? then Ok(Or(Lookup(meta.fields, "ASLContext"), Lookup(meta.fields, "AslContext")))
      else Err(AttributeError("get"))
    case NotFound => Err(OsError("No such file or directory"))
    case Unreadable => Err(OsError("cannot read"))
    case Undecodable => Err(ValueError("Expecting value"))
  }

  /** The description wins over params, params over the file; the file is
      read only when neither has a context. */
  lemma ContextPriority(dd: map<string, Json>, params: map<string, Json>, baseDir: string,
                        load: Json -> Loaded, load2: Json -> Loaded)
    ensures "ASLContext" in dd && Truthy(dd["ASLContext"]) ==>
      AslContextOf(dd, params, baseDir, load) == Ok(dd["ASLContext"])
    ensures !("ASLContext" in dd && Truthy(dd["ASLContext"])) && "asl_context" in params ==>
      AslContextOf(dd, params, baseDir, load) == Ok(params["asl_context"])
    ensures ("ASLContext" in dd && Truthy(dd["ASLContext"])) || "asl_context" in params ==>
      AslContextOf(dd, params, baseDir, load) == AslContextOf(dd, params, baseDir, load2)
    ensures !("ASLContext" in dd && Truthy(dd["ASLContext"])) && "asl_context" !in params ==>
      AslContextOf(dd, params, baseDir, load) ==
      FileContext(load(GetOr(params, "asl_context_json", JStr(PathJoin(PathJoin(baseDir, "perf"), "aslcontext.json")))))
  {
  }

  // ---------------------------------------------------------------------------
  // The m0scan test and the partition of the frames

  /** `any(x == "m0scan" for x in asl_context)`: a list is searched, a string
      iterates over characters (none of which is "m0scan"), a dictionary over
      its keys; anything else cannot be iterated. */
  function HasM0Scan(ctx: Json): (r: Result<bool>)
    ensures ctx.JArr? ==> r == Ok(M0Tag in ctx.items)
    ensures ctx.JStr? ==> r == Ok(false)
    ensures ctx.JNull? || ctx.JNum? || ctx.JBool? ==> r.Err?
  {
    match ctx
    case JArr(items) => Ok(M0Tag in items)
    case JStr(_) => Ok(false)
    case JObj(fs) => Ok("m0scan" in fs)
    case _ => Err(TypeError("object is not iterable"))
  }

  /** The frame indices whose tag is m0scan (m0 true) or is not (m0 false), in order. */
  function Tagged(ctx: seq<Json>, m0: bool): (idx: seq<nat>)
    ensures |idx| <= |ctx|
    ensures forall j :: 0 <= j < |idx| ==> idx[j] < |ctx|
  {
    if ctx == [] then []
    else
      var n := |ctx| - 1;
      Tagged(ctx[..n], m0) + (if (ctx[n] == M0Tag) == m0 then [n] else [])
  }

  /** `asl_idx` holds exactly the frames not tagged m0scan and `m0_idx`
      exactly those tagged m0scan. */
  lemma {:induction false} TaggedMembers(ctx: seq<Json>, m0: bool)
    ensures forall i: nat :: i in Tagged(ctx, m0) <==> i < |ctx| && (ctx[i] == M0Tag) == m0
  {
    if ctx != [] {
      var n := |ctx| - 1;
      TaggedMembers(ctx[..n], m0);
      forall i: nat ensures i in Tagged(ctx, m0) <==> i < |ctx| && (ctx[i] == M0Tag) == m0 {
        if i < n {
          assert ctx[..n][i] == ctx[i];
        }
      }
    }
  }

  /** Both lists are in increasing order. */
  lemma {:induction false} TaggedIncreasing(ctx: seq<Json>, m0: bool)
    ensures forall j, j' :: 0 <= j < j' < |Tagged(ctx, m0)| ==> Tagged(ctx, m0)[j] < Tagged(ctx, m0)[j']
  {
    if ctx != [] {
      TaggedIncreasing(ctx[..|ctx| - 1], m0);
    }
  }

  /** Together they cover every frame once. */
  lemma {:induction false} TaggedCount(ctx: seq<Json>)
    ensures |Tagged(ctx, true)| + |Tagged(ctx, false)| == |ctx|
  {
    if ctx != [] {
      TaggedCount(ctx[..|ctx| - 1]);
    }
  }

  lemma TaggedPartition(ctx: seq<Json>)
    ensures forall i: nat :: i in Tagged(ctx, false) <==> i < |ctx| && ctx[i] != M0Tag
    ensures forall i: nat :: i in Tagged(ctx, true) <==> i < |ctx| && ctx[i] == M0Tag
    ensures forall j, j' :: 0 <= j < j' < |Tagged(ctx, false)| ==> Tagged(ctx, false)[j] < Tagged(ctx, false)[j']
    ensures forall j, j' :: 0 <= j < j' < |Tagged(ctx, true)| ==> Tagged(ctx, true)[j] < Tagged(ctx, true)[j']
    ensures |Tagged(ctx, true)| + |Tagged(ctx, false)| == |ctx|
  {
    TaggedMembers(ctx, false);
    TaggedMembers(ctx, true);
    TaggedIncreasing(ctx, false);
    TaggedIncreasing(ctx, true);
    TaggedCount(ctx);
  }

  /** What `enumerate(asl_context)` walks: a list's items, a string's
      characters, or an object's keys in insertion order, which a map does
      not keep and `ctxOrder` supplies. */
  function ContextTags(ctx: Json, ctxOrder: seq<string>): (tags: seq<Json>)
    ensures ctx.JArr? ==> tags == ctx.items
    ensures ctx.JStr? ==> |tags| == |ctx.s| && forall i :: 0 <= i < |tags| ==> tags[i] == JStr([ctx.s[i]])
    ensures ctx.JObj? ==> |tags| == |ctxOrder| && forall i :: 0 <= i < |tags| ==> tags[i] == JStr(ctxOrder[i])
  {
    match ctx
    case JArr(items) => items
    case JStr(s) => seq(|s|, i requires 0 <= i < |s| => JStr([s[i]]))
    case JObj(_) => seq(|ctxOrder|, i requires 0 <= i < |ctxOrder| => JStr(ctxOrder[i]))
    case _ => []
  }

  /** `ctxOrder` lists the keys of an object context, each once. */
  predicate KeyOrder(fs: map<string, Json>, ctxOrder: seq<string>) {
    (forall k :: k in ctxOrder ==> k in fs) && (forall k :: k in fs ==> k in ctxOrder) &&
    (forall i, j :: 0 <= i < j < |ctxOrder| ==> ctxOrder[i] != ctxOrder[j])
  }

  /** For an object context listed by its key order, the m0scan test agrees
      with the enumerated tags, and the tags are m0scan exactly at the
      position of the "m0scan" key. */
  lemma ObjectContextTags(fs: map<string, Json>, ctxOrder: seq<string>)
    requires KeyOrder(fs, ctxOrder)
    ensures HasM0Scan(JObj(fs)) == Ok(M0Tag in ContextTags(JObj(fs), ctxOrder))
    ensures forall i :: 0 <= i < |ctxOrder| ==> (ContextTags(JObj(fs), ctxOrder)[i] == M0Tag <==> ctxOrder[i] == "m0scan")
  {
    var tags := ContextTags(JObj(fs), ctxOrder);
    if "m0scan" in fs {
      var i :| 0 <= i < |ctxOrder| && ctxOrder[i] == "m0scan";
      assert tags[i] == M0Tag;
    }
  }

  /** The object context {"control": …, "m0scan": …}, listed in that order,
      splits into ASL frame 0 and the M0 volume frame 1. */
  lemma ObjectContextSplit(f0: seq<real>, f1: seq<real>, fs: map<string, Json>)
    requires fs.Keys == {"control", "m0scan"}
    ensures KeyOrder(fs, ["control", "m0scan"])
    ensures SplitSeries([f0, f1], ContextTags(JObj(fs), ["control", "m0scan"])) == Ok(([f0], Volume(f1)))
  {
    var tags := ContextTags(JObj(fs), ["control", "m0scan"]);
    assert tags == [JStr("control"), M0Tag];
    assert tags[..1] == [JStr("control")] && tags[..1][..0] == [];
    assert Tagged(tags, false) == [0];
    assert Tagged(tags, true) == [1];
    var a, m := TakeFrames([f0, f1], [0]), TakeFrames([f0, f1], [1]);
    assert a.Ok? && m.Ok?;
    assert a.value == [f0] && m.value == [f1];
  }

  /** `data[..., idx]`: the frames at idx, in that order; an index past the
      last frame is numpy's IndexError. */
  function TakeFrames(frames: seq<seq<real>>, idx: seq<nat>): (r: Result<seq<seq<real>>>)
    ensures r.Ok? <==> forall j :: 0 <= j < |idx| ==> idx[j] < |frames|
    ensures r.Ok? ==> |r.value| == |idx| && forall j :: 0 <= j < |idx| ==> r.value[j] == frames[idx[j]]
  {
    if idx == [] then Ok([])
    else
      var n := |idx| - 1;
      var before :- TakeFrames(frames, idx[..n]);
      if idx[n] < |frames| then Ok(before + [frames[idx[n]]])
      else Err(IndexError("index " + "is out of bounds for axis 3"))
  }

  /** `np.squeeze(m0_data, axis=-1)` when a single M0 frame was taken. */
  function Squeezed(frames: seq<seq<real>>): (img: Image)
    ensures |frames| == 1 <==> img.Volume?
    ensures img.Volume? ==> img.vol == frames[0]
    ensures img.Series? ==> img.frames == frames
  {
    if |frames| == 1 then Volume(frames[0]) else Series(frames)
  }

  // ---------------------------------------------------------------------------
  // run

  /** What `run` returns, and the images it writes with their paths. */
  datatype SplitResult = SplitResult(aslPath: Json, m0Path: Json, written: seq<(Json, Image)>)

  /** The input series: params' in_asl when truthy, else the session's first ASL image. */
  function InputAsl(params: map<string, Json>, base: string, entry: Json, exists_: string -> bool): Result<Json> {
    if Flag(params, "in_asl") then Ok(params["in_asl"])
    else
      var aslName :- FirstAslName(entry);
      var name :- NameOf(aslName);
      Ok(JStr(GuessPath(base, "perf", name, exists_)))
  }

  /** The pass-through: the separate M0 image named by the session, which must exist. */
  function SeparateM0(base: string, entry: Json, exists_: string -> bool): (r: Result<string>)
    ensures r.Ok? ==> exists_(r.value)
  {
    var m0Name :- Get(entry, "M0");
    if !Truthy(m0Name) then Err(NoM0Error)
    else
      var name :- NameOf(m0Name);
      var p := GuessPath(base, "perf", name, exists_);
      if p == "" || !exists_(p) then Err(NoM0Error) else Ok(p)
  }

  /** `OxfordASLSplitM0.run`: with an m0scan in the context, the ASL frames
      and the M0 frames (squeezed when there is one) are written to
      derivatives/perf/asl_only.nii.gz and m0.nii.gz (or params' out_asl and
      out_m0); otherwise the input and the separate M0 are passed through. */
  function Run(dd: map<string, Json>, params: map<string, Json>, order: seq<string>, ctxOrder: seq<string>,
               exists_: string -> bool, load: Json -> Loaded,
               loadImg: Json -> Result<seq<seq<real>>>): (r: Result<SplitResult>)
    requires ImagesOrder(dd, order)
    ensures FirstImagesEntry(dd, order).Err? ==> r == Err(ImagesError)
  {
    var first :- FirstImagesEntry(dd, order);
    var inAsl :- InputAsl(params, first.0, first.1, exists_);
    var ctx :- AslContextOf(dd, params, first.0, load);
    var hasM0 :- HasM0Scan(ctx);
    if !hasM0 then
      var m0 :- SeparateM0(first.0, first.1, exists_);
      Ok(SplitResult(inAsl, JStr(m0), []))
    else
      var der := Replace(first.0, "rawdata", "derivatives");
      var outAsl := GetOr(params, "out_asl", JStr(PathJoin(PathJoin(der, "perf"), "asl_only.nii.gz")));
      var outM0 := GetOr(params, "out_m0", JStr(PathJoin(PathJoin(der, "perf"), "m0.nii.gz")));
      var frames :- loadImg(inAsl);
      var split :- SplitSeries(frames, ContextTags(ctx, ctxOrder));
      Ok(SplitResult(outAsl, outM0, [(outAsl, Series(split.0)), (outM0, split.1)]))
  }

  /** The ASL frames and the M0 image of a series, by the tags of its frames. */
  function SplitSeries(frames: seq<seq<real>>, tags: seq<Json>): Result<(seq<seq<real>>, Image)> {
    var aslData :- TakeFrames(frames, Tagged(tags, false));
    var m0Data :- TakeFrames(frames, Tagged(tags, true));
    Ok((aslData, Squeezed(m0Data)))
  }

  /** The ASL part holds the frames not tagged m0scan and the M0 part those
      tagged m0scan, each in order and together every tagged frame once; the
      M0 part is one volume exactly when one frame is tagged m0scan. A tag
      list longer than the series is an IndexError. */
  lemma SplitSeriesPartition(frames: seq<seq<real>>, tags: seq<Json>)
    ensures SplitSeries(frames, tags).Ok? <==> |tags| <= |frames|
    ensures var r := SplitSeries(frames, tags);
      r.Ok? ==> (var asl := Tagged(tags, false); var m0 := Tagged(tags, true);
        |r.value.0| + (if r.value.1.Volume? then 1 else |r.value.1.frames|) == |tags| &&
        (forall j :: 0 <= j < |asl| ==> r.value.0[j] == frames[asl[j]] && tags[asl[j]] != M0Tag) &&
        (r.value.1.Volume? <==> |m0| == 1) &&
        (r.value.1.Volume? ==> r.value.1.vol == frames[m0[0]] && tags[m0[0]] == M0Tag) &&
        (r.value.1.Series? ==> forall j :: 0 <= j < |m0| ==> r.value.1.frames[j] == frames[m0[j]] && tags[m0[j]] == M0Tag))
  {
    TaggedPartition(tags);
    var asl := Tagged(tags, false);
    var m0 := Tagged(tags, true);
    if |tags| > |frames| {
      var last := |tags| - 1;
      if tags[last] == M0Tag {
        assert last in m0;
      } else {
        assert last in asl;
      }
    }
  }

  /** Without an m0scan tag nothing is written: the input series and the
      existing separate M0 are returned, and a missing or absent M0 is the
      ValueError. */
  lemma PassThrough(dd: map<string, Json>, params: map<string, Json>, order: seq<string>, ctxOrder: seq<string>,
                    exists_: string -> bool, load: Json -> Loaded, loadImg: Json -> Result<seq<seq<real>>>)
    requires ImagesOrder(dd, order)
    requires FirstImagesEntry(dd, order).Ok?
    requires InputAsl(params, FirstImagesEntry(dd, order).value.0, FirstImagesEntry(dd, order).value.1, exists_).Ok?
    requires AslContextOf(dd, params, FirstImagesEntry(dd, order).value.0, load).Ok?
    requires HasM0Scan(AslContextOf(dd, params, FirstImagesEntry(dd, order).value.0, load).value) == Ok(false)
    ensures var first := FirstImagesEntry(dd, order).value;
      var m0 := SeparateM0(first.0, first.1, exists_);
      (m0.Ok? ==> (Run(dd, params, order, ctxOrder, exists_, load, loadImg) ==
        Ok(SplitResult(InputAsl(params, first.0, first.1, exists_).value, JStr(m0.value), [])))) &&
      (first.1.JObj? && !Flag(first.1.fields, "M0") ==> Run(dd, params, order, ctxOrder, exists_, load, loadImg) == Err(NoM0Error))
  {
  }

  /** With an m0scan tag, the two images written are the split of the input
      series by the tags the context enumerates. */
  lemma SplitWrites(dd: map<string, Json>, params: map<string, Json>, order: seq<string>, ctxOrder: seq<string>,
                    exists_: string -> bool, load: Json -> Loaded, loadImg: Json -> Result<seq<seq<real>>>)
    requires ImagesOrder(dd, order)
    requires Run(dd, params, order, ctxOrder, exists_, load, loadImg).Ok?
    requires Run(dd, params, order, ctxOrder, exists_, load, loadImg).value.written != []
    ensures var first := FirstImagesEntry(dd, order).value;
      var ctx := AslContextOf(dd, params, first.0, load).value;
      var frames := loadImg(InputAsl(params, first.0, first.1, exists_).value).value;
      var r := Run(dd, params, order, ctxOrder, exists_, load, loadImg).value;
      var split := SplitSeries(frames, ContextTags(ctx, ctxOrder)).value;
      HasM0Scan(ctx) == Ok(true) &&
      r.written == [(r.aslPath, Series(split.0)), (r.m0Path, split.1)]
  {
    var first := FirstImagesEntry(dd, order).value;
    assert InputAsl(params, first.0, first.1, exists_).Ok?;
    var ctx := AslContextOf(dd, params, first.0, load).value;
    assert HasM0Scan(ctx) == Ok(true);
  }
}
