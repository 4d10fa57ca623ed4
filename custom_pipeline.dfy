/** PyASL's custom pipeline runner (pyasl/pipelines/custom_pipeline.py): a
    YAML configuration lists steps, each naming a processing module by a
    short alias or by its fully qualified class, and the runner calls them
    in order on one shared Context. Before a step runs, its parameters have
    their paths resolved and their "from_meta" tokens replaced by context
    values. */
module CustomPipeline {
  import opened Common
  import opened PipelineContext
  import SteadyStateTrim
  import ControlLabelSplit
  import SlicePldAdjust

  // ------------------------------------------------------------ step names

  /** `ch.lower()` on ASCII. */
  function Lower(c: char): char {
    if 'A' <= c <= 'Z' then (c as int + 32) as char else c
  }

  /** `ch.isalnum()` on ASCII. */
  predicate IsAlnum(c: char) {
    'a' <= c <= 'z' || 'A' <= c <= 'Z' || '0' <= c <= '9'
  }

  /** A character a normalised key is made of. */
  predicate IsKeyChar(c: char) {
    'a' <= c <= 'z' || '0' <= c <= '9'
  }

  predicate IsKey(s: string) {
    forall i :: 0 <= i < |s| ==> IsKeyChar(s[i])
  }

  /** `_normkey`: the name lower-cased with everything but letters and
      digits dropped. */
  function NormKey(s: string): (r: string)
    ensures |r| <= |s|
    ensures IsKey(r)
  {
    if s == [] then []
    else
      var c := Lower(s[0]);
      (if IsAlnum(c) then [c] else []) + NormKey(s[1..])
  }

  /** A name that is already a key is its own normal form. */
  lemma {:induction false} NormKeyOfKey(s: string)
    requires IsKey(s)
    ensures NormKey(s) == s
  {
    if s != [] {
      assert IsKey(s[1..]) by {
        forall i | 0 <= i < |s[1..]| ensures IsKeyChar(s[1..][i]) {
          assert s[1..][i] == s[i + 1];
        }
      }
      NormKeyOfKey(s[1..]);
    }
  }

  /** Normalising twice is normalising once. */
  lemma NormKeyIdempotent(s: string)
    ensures NormKey(NormKey(s)) == NormKey(s)
  {
    NormKeyOfKey(NormKey(s));
  }

  /** The key of a concatenation is the concatenation of the keys. */
  lemma {:induction false} NormKeyAppend(s: string, t: string)
    ensures NormKey(s + t) == NormKey(s) + NormKey(t)
  {
    if s == [] {
      assert s + t == t;
    } else {
      assert (s + t)[1..] == s[1..] + t;
      NormKeyAppend(s[1..], t);
    }
  }

  /** A separator (anything but a letter or a digit) anywhere in a name
      does not change its key. */
  lemma NormKeyDropsSeparator(s: string, c: char, t: string)
    requires !IsAlnum(c)
    ensures NormKey(s + [c] + t) == NormKey(s + t)
  {
    NormKeyAppend(s + [c], t);
    NormKeyAppend(s, [c]);
    NormKeyAppend(s, t);
    assert [c][1..] == [];
  }

  /** Names that agree up to letter case have the same key. */
  lemma {:induction false} NormKeyIgnoresCase(s: string, t: string)
    requires |s| == |t|
    requires forall i :: 0 <= i < |s| ==> Lower(s[i]) == Lower(t[i])
    ensures NormKey(s) == NormKey(t)
  {
    if s != [] {
      forall i | 0 <= i < |s[1..]| ensures Lower(s[1..][i]) == Lower(t[1..][i]) {
        assert s[1..][i] == s[i + 1] && t[1..][i] == t[i + 1];
      }
      NormKeyIgnoresCase(s[1..], t[1..]);
    }
  }

  // ----------------------------------------------------------------- paths

  /** `t in s` on strings. */
  predicate Contains(s: string, t: string) {
    exists i :: 0 <= i <= |s| && OccursAt(s, t, i)
  }

  predicate OccursAt(s: string, t: string, i: nat) {
    i + |t| <= |s| && s[i..i + |t|] == t
  }

  /** `_looks_like_path`: a separator or an image extension occurs. */
  predicate LooksLikePath(s: string) {
    Contains(s, "/") || Contains(s, "\\") || Contains(s, ".nii") || Contains(s, ".nii.gz") ||
    Contains(s, ".img") || Contains(s, ".hdr")
  }

  /** Every token begins with '/', '\\' or '.', so a string without those
      characters never looks like a path. */
  lemma PlainWordNotPath(s: string)
    requires forall i :: 0 <= i < |s| ==> s[i] != '/' && s[i] != '\\' && s[i] != '.'
    ensures !LooksLikePath(s)
  {
    forall t, i | t in ["/", "\\", ".nii", ".nii.gz", ".img", ".hdr"] && 0 <= i <= |s|
      ensures !OccursAt(s, t, i)
    {
      if i + |t| <= |s| {
        assert s[i..i + |t|][0] == s[i];
      }
    }
  }

  /** Any name ending in ".nii.gz" or ".nii" looks like a path; the
      ".nii.gz" token adds nothing to ".nii". */
  lemma NiftiNameIsPath(stem: string, ext: string)
    requires ext == ".nii" || ext == ".nii.gz"
    ensures LooksLikePath(stem + ext)
  {
    var s := stem + ext;
    assert s[|stem|..|stem| + 4] == ".nii";
    assert OccursAt(s, ".nii", |stem|);
  }

  /** `_PATHY_KEYS`: keys whose string values are always resolved. */
  const PathyKeys: set<string> := {
    "path", "paths", "in", "infile", "infiles", "outfile", "out", "dir",
    "savedir", "basedir", "root", "mask", "anat", "asl", "m0", "log", "logdir"
  }

  /** Whether `_resolve_paths` resolves the string s found under parent. */
  predicate Resolvable(s: string, parent: Option<string>) {
    (parent.Some? && parent.value in PathyKeys) || LooksLikePath(s)
  }

  /** `_resolve_paths`. `resolveOne` is `_resolve_one` against the data
      root, None where it raises; the exception is swallowed and the string
      kept. Lists pass their parent key on to their items. */
  function ResolvePaths(obj: Value, resolveOne: string -> Option<string>, parent: Option<string>): (r: Value)
    ensures obj.Dict? ==> r.Dict? && r.fields.Keys == obj.fields.Keys
    ensures obj.List? ==> r.List? && |r.items| == |obj.items|
    ensures obj.Str? ==> r.Str?
    ensures !obj.Dict? && !obj.List? && !obj.Str? ==> r == obj
  {
    match obj
    case Dict(fields) => Dict(map k | k in fields :: ResolvePaths(fields[k], resolveOne, Some(k)))
    case List(items) => List(seq(|items|, i requires 0 <= i < |items| => ResolvePaths(items[i], resolveOne, parent)))
    case Str(s) =>
      if Resolvable(s, parent) && resolveOne(s).Some? then Str(resolveOne(s).value) else obj
    case _ => obj
  }

  /** A string is replaced exactly when it is under a path key or looks
      like a path, and resolving it succeeds. */
  lemma ResolvedString(s: string, resolveOne: string -> Option<string>, parent: Option<string>)
    ensures ResolvePaths(Str(s), resolveOne, parent) != Str(s) ==> Resolvable(s, parent)
    ensures Resolvable(s, parent) && resolveOne(s).Some? ==> ResolvePaths(Str(s), resolveOne, parent) == Str(resolveOne(s).value)
    ensures !Resolvable(s, parent) ==> ResolvePaths(Str(s), resolveOne, parent) == Str(s)
  {
  }

  /** When resolving always raises, nothing changes anywhere in the
      parameters. */
  lemma {:induction false} ResolveFailuresKeep(obj: Value, resolveOne: string -> Option<string>, parent: Option<string>)
    requires forall s :: resolveOne(s).None?
    ensures ResolvePaths(obj, resolveOne, parent) == obj
    decreases obj
  {
    match obj
    case Dict(fields) =>
      forall k | k in fields ensures ResolvePaths(fields[k], resolveOne, Some(k)) == fields[k] {
        ResolveFailuresKeep(fields[k], resolveOne, Some(k));
      }
      assert ResolvePaths(obj, resolveOne, parent).fields == fields;
    case List(items) =>
      forall i | 0 <= i < |items| ensures ResolvePaths(items[i], resolveOne, parent) == items[i] {
        ResolveFailuresKeep(items[i], resolveOne, parent);
      }
      assert ResolvePaths(obj, resolveOne, parent).items == items;
    case _ =>
  }

  /** When resolving a resolved path gives it back, resolving the
      parameters twice is resolving them once. */
  lemma {:induction false} ResolvePathsIdempotent(obj: Value, resolveOne: string -> Option<string>, parent: Option<string>)
    requires forall s :: resolveOne(s).Some? ==> resolveOne(resolveOne(s).value) == resolveOne(s)
    ensures ResolvePaths(ResolvePaths(obj, resolveOne, parent), resolveOne, parent) == ResolvePaths(obj, resolveOne, parent)
    decreases obj
  {
    var once := ResolvePaths(obj, resolveOne, parent);
    match obj
    case Dict(fields) =>
      forall k | k in fields ensures ResolvePaths(once.fields[k], resolveOne, Some(k)) == once.fields[k] {
        ResolvePathsIdempotent(fields[k], resolveOne, Some(k));
      }
      assert ResolvePaths(once, resolveOne, parent).fields == once.fields;
    case List(items) =>
      forall i | 0 <= i < |items| ensures ResolvePaths(once.items[i], resolveOne, parent) == once.items[i] {
        ResolvePathsIdempotent(items[i], resolveOne, parent);
      }
      assert ResolvePaths(once, resolveOne, parent).items == once.items;
    case Str(s) =>
    case _ =>
  }

  // ------------------------------------------------------- from_meta tokens

  const Token: string := "from_meta"

  /** `_inject_from_meta`: the string "from_meta" under a non-empty key k
      becomes the context's value for k, when there is one; lists pass
      their parent key on to their items. */
  function InjectFromMeta(obj: Value, ctx: map<string, Value>, parent: Option<string>): (r: Value)
    ensures obj.Dict? ==> r.Dict? && r.fields.Keys == obj.fields.Keys
    ensures obj.List? ==> r.List? && |r.items| == |obj.items|
    ensures !obj.Dict? && !obj.List? && obj != Str(Token) ==> r == obj
  {
    match obj
    case Dict(fields) => Dict(map k | k in fields :: InjectFromMeta(fields[k], ctx, Some(k)))
    case List(items) => List(seq(|items|, i requires 0 <= i < |items| => InjectFromMeta(items[i], ctx, parent)))
    case Str(s) =>
      if s == Token && parent.Some? && parent.value != "" && parent.value in ctx then ctx[parent.value] else obj
    case _ => obj
  }

  /** Whether a "from_meta" string occurs anywhere in a value. */
  predicate HasToken(v: Value) {
    match v
    case Dict(fields) => exists k :: k in fields && HasToken(fields[k])
    case List(items) => exists i :: 0 <= i < |items| && HasToken(items[i])
    case Str(s) => s == Token
    case _ => false
  }

  /** A token directly under key k takes the context's value for k; with no
      such value, or under the empty key, it stays. */
  lemma InjectUnderKey(fields: map<string, Value>, ctx: map<string, Value>, parent: Option<string>, k: string)
    requires k in fields && fields[k] == Str(Token)
    ensures var r := InjectFromMeta(Dict(fields), ctx, parent);
      k in r.fields &&
      (k != "" && k in ctx ==> r.fields[k] == ctx[k]) &&
      (k == "" || k !in ctx ==> r.fields[k] == Str(Token))
  {
  }

  /** Tokens in a list under key k all take the context's value for k. */
  lemma InjectListUnderKey(fields: map<string, Value>, ctx: map<string, Value>, k: string, i: nat)
    requires k in fields && fields[k].List? && i < |fields[k].items| && fields[k].items[i] == Str(Token)
    requires k != "" && k in ctx
    ensures var r := InjectFromMeta(Dict(fields), ctx, None);
      k in r.fields && r.fields[k].List? && i < |r.fields[k].items| && r.fields[k].items[i] == ctx[k]
  {
    var inner := InjectFromMeta(fields[k], ctx, Some(k));
    assert inner.items[i] == InjectFromMeta(fields[k].items[i], ctx, Some(k));
  }

  /** The runner calls the injection without a parent key, so a parameter
      block that is itself the string "from_meta" is left as it is. */
  lemma InjectTopLevelToken(ctx: map<string, Value>)
    ensures InjectFromMeta(Str(Token), ctx, None) == Str(Token)
  {
  }

  /** Values without a token come through unchanged: the structure is kept
      and only tokens are replaced. */
  lemma {:induction false} InjectWithoutToken(obj: Value, ctx: map<string, Value>, parent: Option<string>)
    requires !HasToken(obj)
    ensures InjectFromMeta(obj, ctx, parent) == obj
    decreases obj
  {
    match obj
    case Dict(fields) =>
      forall k | k in fields ensures InjectFromMeta(fields[k], ctx, Some(k)) == fields[k] {
        InjectWithoutToken(fields[k], ctx, Some(k));
      }
      assert InjectFromMeta(obj, ctx, parent).fields == fields;
    case List(items) =>
      forall i | 0 <= i < |items| ensures InjectFromMeta(items[i], ctx, parent) == items[i] {
        InjectWithoutToken(items[i], ctx, parent);
      }
      assert InjectFromMeta(obj, ctx, parent).items == items;
    case _ =>
  }

  /** With an empty context every token stays. */
  lemma {:induction false} InjectEmptyContext(obj: Value, parent: Option<string>)
    ensures InjectFromMeta(obj, map[], parent) == obj
    decreases obj
  {
    match obj
    case Dict(fields) =>
      forall k | k in fields ensures InjectFromMeta(fields[k], map[], Some(k)) == fields[k] {
        InjectEmptyContext(fields[k], Some(k));
      }
      assert InjectFromMeta(obj, map[], parent).fields == fields;
    case List(items) =>
      forall i | 0 <= i < |items| ensures InjectFromMeta(items[i], map[], parent) == items[i] {
        InjectEmptyContext(items[i], parent);
      }
      assert InjectFromMeta(obj, map[], parent).items == items;
    case _ =>
  }

  // ------------------------------------------------------------- the aliases

  /** How a step's `run` is called: `run(ctx, **params)` or
      `run(data_desc, params)`. */
  datatype Style = Kwargs | DictCall

  /** An `_ALIAS` entry: module path, class name, call style, and whether
      the data root is added to the parameters. */
  datatype Impl = Impl(modPath: string, clsName: string, style: Style, needRoot: bool)

  /** The classes the package pyasl.modules defines, one per module file. */
  const PackageClasses: set<(string, string)> := {
    ("pyasl.modules.asltbx_coregister", "Coregister"),
    ("pyasl.modules.asltbx_create_mask", "CreateMask"),
    ("pyasl.modules.asltbx_perfusion_quantify", "PerfusionQuantify"),
    ("pyasl.modules.asltbx_realign", "Realign"),
    ("pyasl.modules.asltbx_reset_orientation", "ResetOrientation"),
    ("pyasl.modules.asltbx_smooth", "Smooth"),
    ("pyasl.modules.dlasl_build_mask", "DLASLBuildMask"),
    ("pyasl.modules.dlasl_denoise_cbf", "DLASLDenoiseCBF"),
    ("pyasl.modules.mricloud_calculate_CBF", "MRICloudCalculateCBF"),
    ("pyasl.modules.mricloud_calculate_M0", "MRICloudCalculateM0"),
    ("pyasl.modules.mricloud_calculate_diffmap", "MRICloudCalculateDiffmap"),
    ("pyasl.modules.mricloud_coreg_mpr", "MRICloudCoregMPR"),
    ("pyasl.modules.mricloud_multidelay_calculate_CBFATT", "MRICloudMultidelayCalculateCBFATT"),
    ("pyasl.modules.mricloud_multidelay_calculate_M0", "MRICloudMultidelayCalculateM0"),
    ("pyasl.modules.mricloud_read_mpr", "MRICloudReadMPR"),
    ("pyasl.modules.mricloud_rescale", "MRICloudRescale"),
    ("pyasl.modules.mricloud_t1roi_CBFaverage", "MRICloudT1ROICBFAverage"),
    ("pyasl.modules.oxford_asl_run", "OxfordASLRun"),
    ("pyasl.modules.oxford_asl_split_m0", "OxfordASLSplitM0"),
    ("pyasl.modules.preclinical_abs_t1fit", "AbsCBF_T1Fit"),
    ("pyasl.modules.preclinical_brain_mask", "BrainMask"),
    ("pyasl.modules.preclinical_cbf_relative", "CBFRelative"),
    ("pyasl.modules.preclinical_compute_m0", "ComputeM0"),
    ("pyasl.modules.preclinical_control_label_split", "ControlLabelSplit"),
    ("pyasl.modules.preclinical_diff_image", "DiffImage"),
    ("pyasl.modules.preclinical_loader_bruker", "BrukerLoader"),
    ("pyasl.modules.preclinical_loader_nifti", "NIfTILoader"),
    ("pyasl.modules.preclinical_motion_check", "MotionCheck"),
    ("pyasl.modules.preclinical_slice_pld_adjust", "SlicePLDAdjust"),
    ("pyasl.modules.preclinical_steady_state_trim", "SteadyStateTrim"),
    ("pyasl.modules.save_outputs", "SaveOutputs")
  }

  /** The modules of the package pyasl.modules. */
  const PackageModules: set<string> := {
    "pyasl.modules.asltbx_coregister",
    "pyasl.modules.asltbx_create_mask",
    "pyasl.modules.asltbx_perfusion_quantify",
    "pyasl.modules.asltbx_realign",
    "pyasl.modules.asltbx_reset_orientation",
    "pyasl.modules.asltbx_smooth",
    "pyasl.modules.dlasl_build_mask",
    "pyasl.modules.dlasl_denoise_cbf",
    "pyasl.modules.mricloud_calculate_CBF",
    "pyasl.modules.mricloud_calculate_M0",
    "pyasl.modules.mricloud_calculate_diffmap",
    "pyasl.modules.mricloud_coreg_mpr",
    "pyasl.modules.mricloud_multidelay_calculate_CBFATT",
    "pyasl.modules.mricloud_multidelay_calculate_M0",
    "pyasl.modules.mricloud_read_mpr",
    "pyasl.modules.mricloud_rescale",
    "pyasl.modules.mricloud_t1roi_CBFaverage",
    "pyasl.modules.oxford_asl_run",
    "pyasl.modules.oxford_asl_split_m0",
    "pyasl.modules.preclinical_abs_t1fit",
    "pyasl.modules.preclinical_brain_mask",
    "pyasl.modules.preclinical_cbf_relative",
    "pyasl.modules.preclinical_compute_m0",
    "pyasl.modules.preclinical_control_label_split",
    "pyasl.modules.preclinical_diff_image",
    "pyasl.modules.preclinical_loader_bruker",
    "pyasl.modules.preclinical_loader_nifti",
    "pyasl.modules.preclinical_motion_check",
    "pyasl.modules.preclinical_slice_pld_adjust",
    "pyasl.modules.preclinical_steady_state_trim",
    "pyasl.modules.save_outputs"
  }

  /** Every class the package defines lives in one of its modules. */
  lemma ClassesInModules()
    ensures forall mc :: mc in PackageClasses ==> mc.0 in PackageModules
  {
  }

  // `_ALIAS`, group by group as its display lists them. The keys are the
  // aliases in normal form; the display repeats no key across groups.

  /** The preclinical entries: each names a class the package defines,
      under a key in normal form. */
  function PreclinicalAlias(key: string): (r: Option<Impl>)
    ensures r.Some? ==> Defined(r.value)
  {
    match key
    case "brukerloader" => Some(Impl("pyasl.modules.preclinical_loader_bruker", "BrukerLoader", Kwargs, true))
    case "niftiloader" => Some(Impl("pyasl.modules.preclinical_loader_nifti", "NIfTILoader", Kwargs, true))
    case "steadystatetrim" => Some(Impl("pyasl.modules.preclinical_steady_state_trim", "SteadyStateTrim", Kwargs, false))
    case "controllabelsplit" => Some(Impl("pyasl.modules.preclinical_control_label_split", "ControlLabelSplit", Kwargs, false))
    case "motioncheck" => Some(Impl("pyasl.modules.preclinical_motion_check", "MotionCheck", Kwargs, false))
    case "diffimage" => Some(Impl("pyasl.modules.preclinical_diff_image", "DiffImage", Kwargs, false))
    case "computem0" => Some(Impl("pyasl.modules.preclinical_compute_m0", "ComputeM0", Kwargs, false))
    case "slicepldadjust" => Some(Impl("pyasl.modules.preclinical_slice_pld_adjust", "SlicePLDAdjust", Kwargs, false))
    case "cbfrelative" => Some(Impl("pyasl.modules.preclinical_cbf_relative", "CBFRelative", Kwargs, false))
    case "brainmask" => Some(Impl("pyasl.modules.preclinical_brain_mask", "BrainMask", Kwargs, false))
    case "abscbft1fit" => Some(Impl("pyasl.modules.preclinical_abs_t1fit", "AbsCBF_T1Fit", Kwargs, false))
    case "saveoutputs" => Some(Impl("pyasl.modules.save_outputs", "SaveOutputs", Kwargs, false))
    case _ => None
  }

  const CbfKey: string := "mricloudcalculatecbf"
  const DiffmapKey: string := "mricloudcalculatediffmap"

  /** The MRICloud entries as written. */
  function MriCloudAliasAsWritten(key: string): (r: Option<Impl>)
    ensures key == CbfKey || key == DiffmapKey ==> r.Some?
  {
    match key
    case "mricloudcalculatecbf" => Some(Impl("pyasl.modules.mricloud_calculate_cbf", "MRICloudCalculateCBF", DictCall, false))
    case "mricloudcalculatediffmap" => Some(Impl("pyasl.modules.mricloud_calculate_diff_map", "MRICloudCalculateDiffMap", DictCall, false))
    case "mricloudcalculatem0" => Some(Impl("pyasl.modules.mricloud_calculate_M0", "MRICloudCalculateM0", DictCall, false))
    case "mricloudcoregmpr" => Some(Impl("pyasl.modules.mricloud_coreg_mpr", "MRICloudCoregMPR", DictCall, false))
    case "mricloudmultidelaycalculatecbfatt" => Some(Impl("pyasl.modules.mricloud_multidelay_calculate_CBFATT", "MRICloudMultidelayCalculateCBFATT", DictCall, false))
    case "mricloudmultidelaycalculatem0" => Some(Impl("pyasl.modules.mricloud_multidelay_calculate_M0", "MRICloudMultidelayCalculateM0", DictCall, false))
    case "mricloudreadmpr" => Some(Impl("pyasl.modules.mricloud_read_mpr", "MRICloudReadMPR", DictCall, false))
    case "mricloudrescale" => Some(Impl("pyasl.modules.mricloud_rescale", "MRICloudRescale", DictCall, false))
    case "mricloudt1roicbfaverage" => Some(Impl("pyasl.modules.mricloud_t1roi_CBFaverage", "MRICloudT1ROICBFAverage", DictCall, false))
    case _ => None
  }

  /** The MRICloud entries with the first two naming the module and class
      the package does define; every entry then names a defined class. */
  function MriCloudAlias(key: string): (r: Option<Impl>)
    ensures r.Some? ==> Defined(r.value)
    ensures key != CbfKey && key != DiffmapKey ==> r == MriCloudAliasAsWritten(key)
  {
    if key == CbfKey then Some(Impl("pyasl.modules.mricloud_calculate_CBF", "MRICloudCalculateCBF", DictCall, false))
    else if key == DiffmapKey then Some(Impl("pyasl.modules.mricloud_calculate_diffmap", "MRICloudCalculateDiffmap", DictCall, false))
    else MriCloudAliasAsWritten(key)
  }

  /** The DL-ASL, ASLtbx and Oxford entries. */
  function OtherAlias(key: string): (r: Option<Impl>)
    ensures r.Some? ==> Defined(r.value)
  {
    match key
    case "dlaslbuildmask" => Some(Impl("pyasl.modules.dlasl_build_mask", "DLASLBuildMask", DictCall, false))
    case "dlasldenoisecbf" => Some(Impl("pyasl.modules.dlasl_denoise_cbf", "DLASLDenoiseCBF", DictCall, false))
    case "resetorientation" => Some(Impl("pyasl.modules.asltbx_reset_orientation", "ResetOrientation", DictCall, false))
    case "realign" => Some(Impl("pyasl.modules.asltbx_realign", "Realign", DictCall, false))
    case "coregister" => Some(Impl("pyasl.modules.asltbx_coregister", "Coregister", DictCall, false))
    case "smooth" => Some(Impl("pyasl.modules.asltbx_smooth", "Smooth", DictCall, false))
    case "createmask" => Some(Impl("pyasl.modules.asltbx_create_mask", "CreateMask", DictCall, false))
    case "perfusionquantify" => Some(Impl("pyasl.modules.asltbx_perfusion_quantify", "PerfusionQuantify", DictCall, false))
    case "oxfordaslsplitm0" => Some(Impl("pyasl.modules.oxford_asl_split_m0", "OxfordASLSplitM0", DictCall, false))
    case "oxfordaslrun" => Some(Impl("pyasl.modules.oxford_asl_run", "OxfordASLRun", DictCall, false))
    case _ => None
  }

  /** A dictionary display keeps, for a repeated key, the later entry. */
  function Later(later: Option<Impl>, earlier: Option<Impl>): Option<Impl> {
    if later.Some? then later else earlier
  }

  /** `_ALIAS` as written. */
  function AliasAsWritten(key: string): Option<Impl> {
    Later(OtherAlias(key), Later(MriCloudAliasAsWritten(key), PreclinicalAlias(key)))
  }

  /** `_ALIAS` with the two MRICloud entries corrected; the runner uses it.
      It differs from the table as written only at those two keys. */
  function Alias(key: string): (r: Option<Impl>)
    ensures r.Some? ==> Defined(r.value)
    ensures key != CbfKey && key != DiffmapKey ==> r == AliasAsWritten(key)
  {
    Later(OtherAlias(key), Later(MriCloudAlias(key), PreclinicalAlias(key)))
  }

  /** What the runner reaches beyond this file: the resolved data root and
      configuration directory, `_resolve_one`, the modules and classes
      Python can import, and the steps whose code is not part of this
      model (the kwargs steps other than the three modelled here, and the
      dict-style steps, which see the data description read at start). */
  datatype Env = Env(
    root: string,
    configDir: string,
    resolveOne: string -> Option<string>,
    modules: set<string>,
    classes: set<(string, string)>,
    math: Math,
    kwargsStep: (Impl, map<string, Value>, map<string, Value>) -> Outcome,
    dictStep: (Impl, Value) -> Option<Error>)

  predicate InPackage(mod: string) {
    |mod| >= 14 && mod[..14] == "pyasl.modules."
  }

  /** Python can import every class the package defines, and no module of
      pyasl.modules the package does not have. */
  ghost predicate PackageInstalled(env: Env) {
    (forall mc :: mc in PackageClasses ==> mc.0 in env.modules && mc in env.classes) &&
    (forall m :: InPackage(m) && m !in PackageModules ==> m !in env.modules)
  }

  /** `getattr(importlib.import_module(mod), cls)`: None when it succeeds. */
  function Import(mod: string, cls: string, env: Env): (r: Option<Error>)
    ensures r.None? <==> mod != "" && mod in env.modules && (mod, cls) in env.classes
  {
    if mod == "" then Some(ValueError("Empty module name"))
    else if mod !in env.modules then Some(ImportError(mod))
    else if (mod, cls) !in env.classes then Some(AttributeError(cls))
    else None
  }

  /** The class an entry names is one the package defines. */
  predicate Defined(impl: Impl) {
    (impl.modPath, impl.clsName) in PackageClasses
  }

  /** The module an entry names is one pyasl.modules does not have. */
  predicate MissingModule(impl: Impl) {
    InPackage(impl.modPath) && impl.modPath !in PackageModules
  }

  /** As written, the first two MRICloud entries name modules the package
      does not have. */
  lemma MriCloudAsWrittenMissing()
    ensures AliasAsWritten(CbfKey) == Some(Impl("pyasl.modules.mricloud_calculate_cbf", "MRICloudCalculateCBF", DictCall, false))
    ensures AliasAsWritten(DiffmapKey) == Some(Impl("pyasl.modules.mricloud_calculate_diff_map", "MRICloudCalculateDiffMap", DictCall, false))
    ensures MissingModule(AliasAsWritten(CbfKey).value) && MissingModule(AliasAsWritten(DiffmapKey).value)
  {
  }

  /** A defined class imports; a missing module raises ImportError. */
  lemma ImportOf(impl: Impl, env: Env)
    requires PackageInstalled(env)
    ensures Defined(impl) ==> Import(impl.modPath, impl.clsName, env).None?
    ensures MissingModule(impl) ==> Import(impl.modPath, impl.clsName, env) == Some(ImportError(impl.modPath))
  {
    ImportFrom(impl, env, PackageClasses, PackageModules);
  }

  lemma ImportFrom(impl: Impl, env: Env, classes: set<(string, string)>, modules: set<string>)
    requires forall mc :: mc in classes ==> mc.0 != "" && mc.0 in env.modules && mc in env.classes
    requires forall m :: InPackage(m) && m !in modules ==> m !in env.modules
    ensures (impl.modPath, impl.clsName) in classes ==> Import(impl.modPath, impl.clsName, env).None?
    ensures InPackage(impl.modPath) && impl.modPath !in modules ==>
      Import(impl.modPath, impl.clsName, env) == Some(ImportError(impl.modPath))
  {
    if (impl.modPath, impl.clsName) in classes {
      assert impl.modPath != "";
    }
  }

  /** Every module and class the corrected table names can be imported. */
  lemma AliasImports(env: Env)
    requires PackageInstalled(env)
    ensures forall k :: Alias(k).Some? ==> Import(Alias(k).value.modPath, Alias(k).value.clsName, env).None?
  {
    forall k | Alias(k).Some? ensures Import(Alias(k).value.modPath, Alias(k).value.clsName, env).None? {
      ImportOf(Alias(k).value, env);
    }
  }

  /** As written, every alias but the two MRICloud ones imports. */
  lemma AsWrittenOthersImport(env: Env)
    requires PackageInstalled(env)
    ensures forall k :: AliasAsWritten(k).Some? && k != CbfKey && k != DiffmapKey ==>
      Import(AliasAsWritten(k).value.modPath, AliasAsWritten(k).value.clsName, env).None?
  {
    forall k | AliasAsWritten(k).Some? && k != CbfKey && k != DiffmapKey
      ensures Import(AliasAsWritten(k).value.modPath, AliasAsWritten(k).value.clsName, env).None?
    {
      assert Alias(k) == AliasAsWritten(k);
      ImportOf(Alias(k).value, env);
    }
  }

  /** Index of the last '.' of s. */
  function LastDot(s: string): (i: nat)
    requires '.' in s
    ensures i < |s| && s[i] == '.' && '.' !in s[i + 1..]
  {
    if s[|s| - 1] == '.' then |s| - 1
    else
      var i := LastDot(s[..|s| - 1]);
      assert s[i + 1..] == s[..|s| - 1][i + 1..] + [s[|s| - 1]];
      i
  }

  /** `_resolve_impl` against an alias table. A name with a dot is a fully
      qualified class (split at its last dot, called kwargs style without
      the root); any other name is looked up by its key. */
  function ResolveImpl(name: string, table: string -> Option<Impl>, env: Env): (r: Result<Impl>)
    ensures '.' !in name && table(NormKey(name)).None? ==> r.Err? && r.error.ValueError?
    ensures r.Ok? && '.' in name ==>
      r.value.style == Kwargs && !r.value.needRoot &&
      r.value.modPath + "." + r.value.clsName == name && '.' !in r.value.clsName
    ensures r.Ok? && '.' !in name ==> table(NormKey(name)) == Some(r.value)
    ensures r.Ok? ==> (r.value.modPath, r.value.clsName) in env.classes
  {
    if '.' in name then
      var i := LastDot(name);
      assert name[..i] + "." + name[i + 1..] == name;
      var impl := Impl(name[..i], name[i + 1..], Kwargs, false);
      var e := Import(impl.modPath, impl.clsName, env);
      if e.Some? then Err(e.value) else Ok(impl)
    else
      match table(NormKey(name))
      case None => Err(ValueError("Unknown custom module '" + name + "'"))
      case Some(impl) =>
        var e := Import(impl.modPath, impl.clsName, env);
        if e.Some? then Err(e.value) else Ok(impl)
  }

  /** Two spellings with the same key resolve alike. */
  lemma ResolveSpellings(a: string, b: string, table: string -> Option<Impl>, env: Env)
    requires '.' !in a && '.' !in b && NormKey(a) == NormKey(b)
    ensures ResolveImpl(a, table, env).Ok? <==> ResolveImpl(b, table, env).Ok?
    ensures ResolveImpl(a, table, env).Ok? ==> ResolveImpl(a, table, env) == ResolveImpl(b, table, env)
  {
  }

  /** With the corrected table every alias resolves to its entry. */
  lemma AliasResolves(name: string, env: Env)
    requires PackageInstalled(env) && '.' !in name && Alias(NormKey(name)).Some?
    ensures ResolveImpl(name, Alias, env) == Ok(Alias(NormKey(name)).value)
  {
    AliasImports(env);
  }

  /** With the table as written, naming MRICloudCalculateCBF or
      MRICloudCalculateDiffMap (in any spelling) raises ImportError for
      the module the entry names. */
  lemma MriCloudAsWrittenRaises(name: string, env: Env)
    requires PackageInstalled(env) && '.' !in name
    requires NormKey(name) == CbfKey || NormKey(name) == DiffmapKey
    ensures NormKey(name) == CbfKey ==>
      ResolveImpl(name, AliasAsWritten, env) == Err(ImportError("pyasl.modules.mricloud_calculate_cbf"))
    ensures NormKey(name) == DiffmapKey ==>
      ResolveImpl(name, AliasAsWritten, env) == Err(ImportError("pyasl.modules.mricloud_calculate_diff_map"))
  {
    MriCloudAsWrittenMissing();
    ImportOf(AliasAsWritten(NormKey(name)).value, env);
  }

  /** The corrected table's entries for the two MRICloud aliases resolve. */
  lemma MriCloudCorrected(name: string, env: Env)
    requires PackageInstalled(env) && '.' !in name
    requires NormKey(name) == CbfKey || NormKey(name) == DiffmapKey
    ensures NormKey(name) == CbfKey ==>
      ResolveImpl(name, Alias, env) == Ok(Impl("pyasl.modules.mricloud_calculate_CBF", "MRICloudCalculateCBF", DictCall, false))
    ensures NormKey(name) == DiffmapKey ==>
      ResolveImpl(name, Alias, env) == Ok(Impl("pyasl.modules.mricloud_calculate_diffmap", "MRICloudCalculateDiffmap", DictCall, false))
  {
    assert Alias(NormKey(name)).Some?;
    AliasResolves(name, env);
  }

  // ------------------------------------------------------------- one step

  /** `str(i)` for the step number in messages. */
  function Decimal(n: nat): string {
    if n < 10 then [('0' as int + n) as char] else Decimal(n / 10) + [('0' as int + n % 10) as char]
  }

  /** `step.get(key)`. */
  function Field(fields: map<string, Value>, key: string): Value {
    if key in fields then fields[key] else Null
  }

  /** Python's `a or b`. */
  function OrElse(a: Value, b: Value): Result<Value> {
    var t :- Truth(a);
    if t then Ok(a) else Ok(b)
  }

  /** No truthy value under "module", "name" or "class". */
  predicate Nameless(fields: map<string, Value>) {
    Truth(Field(fields, "module")) == Ok(false) && Truth(Field(fields, "name")) == Ok(false) &&
    Truth(Field(fields, "class")) == Ok(false)
  }

  function MissingName(i: nat): Error {
    ValueError("Step #" + Decimal(i) + " missing 'module'/'name'/'class'")
  }

  /** The name of step number i: the first truthy of "module", "name" and
      "class". A step that is not a mapping has no `get`; a name that is
      not a string fails inside `_resolve_impl`. */
  function StepName(step: Value, i: nat): (r: Result<string>)
    ensures !step.Dict? ==> r.Err? && r.error.AttributeError?
    ensures step.Dict? && Nameless(step.fields) ==> r == Err(MissingName(i))
    ensures r.Ok? ==> step.Dict? && !Nameless(step.fields) && r.value != ""
    ensures step.Dict? && "module" in step.fields && step.fields["module"].Str? && step.fields["module"].s != "" ==>
      r == Ok(step.fields["module"].s)
  {
    if !step.Dict? then Err(AttributeError("get"))
    else
      var mn :- OrElse(Field(step.fields, "module"), Field(step.fields, "name"));
      var name :- OrElse(mn, Field(step.fields, "class"));
      var named :- Truth(name);
      if !named then Err(MissingName(i))
      else
        match name
        case Str(s) => Ok(s)
        case List(_) => Err(AttributeError("lower"))
        case Dict(_) => Err(AttributeError("lower"))
        case _ => Err(TypeError("argument of type is not iterable"))
  }

  /** `step.get("params", {}) or {}`. */
  function RawParams(fields: map<string, Value>): (r: Result<Value>)
    ensures "params" !in fields ==> r == Ok(Dict(map[]))
    ensures "params" in fields && Truth(fields["params"]) == Ok(false) ==> r == Ok(Dict(map[]))
    ensures "params" in fields && Truth(fields["params"]) == Ok(true) ==> r == Ok(fields["params"])
  {
    if "params" !in fields then Ok(Dict(map[]))
    else
      var t :- Truth(fields["params"]);
      if t then Ok(fields["params"]) else Ok(Dict(map[]))
  }

  /** What the step's `run` receives. Kwargs style needs a mapping (`**`
      raises TypeError otherwise) and gets the data root added when
      the module needs it and the step does not give one; dict style has
      "root" removed. */
  function CallParams(impl: Impl, params: Value, root: string): (r: Result<Value>)
    ensures impl.style == Kwargs ==> (r.Ok? <==> params.Dict?)
    ensures impl.style == Kwargs && r.Ok? ==>
      r.value.Dict? &&
      (forall k :: k in params.fields ==> k in r.value.fields && r.value.fields[k] == params.fields[k]) &&
      r.value.fields.Keys <= params.fields.Keys + {"root"} &&
      (impl.needRoot ==> "root" in r.value.fields) &&
      (impl.needRoot && "root" !in params.fields ==> r.value.fields["root"] == Str(root)) &&
      (!impl.needRoot ==> r.value == params)
    ensures impl.style == DictCall ==> r.Ok?
    ensures impl.style == DictCall && r.Ok? && params.Dict? ==>
      r.value.Dict? && "root" !in r.value.fields &&
      forall k :: k in params.fields && k != "root" ==> k in r.value.fields && r.value.fields[k] == params.fields[k]
    ensures impl.style == DictCall && r.Ok? && !params.Dict? ==> r.value == params
  {
    match impl.style
    case Kwargs =>
      if !params.Dict? then Err(TypeError("argument after ** must be a mapping"))
      else if impl.needRoot && "root" !in params.fields then Ok(Dict(params.fields["root" := Str(root)]))
      else Ok(params)
    case DictCall =>
      if params.Dict? && "root" in params.fields then Ok(Dict(params.fields - {"root"})) else Ok(params)
  }

  const TrimClass: (string, string) := ("pyasl.modules.preclinical_steady_state_trim", "SteadyStateTrim")
  const SplitClass: (string, string) := ("pyasl.modules.preclinical_control_label_split", "ControlLabelSplit")
  const SliceClass: (string, string) := ("pyasl.modules.preclinical_slice_pld_adjust", "SlicePLDAdjust")

  /** `inst.run(C, **params)`: the three steps modelled here run their own
      model, every other kwargs step is the environment's. */
  function KwargsOutcome(impl: Impl, entries: map<string, Value>, p: map<string, Value>, env: Env): Outcome {
    var cls := (impl.modPath, impl.clsName);
    if cls == TrimClass then SteadyStateTrim.TrimStep(entries, p)
    else if cls == SplitClass then ControlLabelSplit.SplitStep(entries, p)
    else if cls == SliceClass then SlicePldAdjust.SliceStep(entries, p, env.math)
    else env.kwargsStep(impl, entries, p)
  }

  /** Parameters after path resolution and token injection. */
  function PreparedParams(raw: Value, entries: map<string, Value>, env: Env): Value {
    InjectFromMeta(ResolvePaths(raw, env.resolveOne, None), entries, None)
  }

  /** One pass of the step loop, for step number i on the context entries:
      the new entries and the exception, if any. */
  function StepOutcome(table: string -> Option<Impl>, entries: map<string, Value>, step: Value, i: nat, env: Env): (o: Outcome)
    ensures StepName(step, i).Err? ==> o == Outcome(entries, Some(StepName(step, i).error))
    ensures StepName(step, i).Ok? && RawParams(step.fields).Ok? && ResolveImpl(StepName(step, i).value, table, env).Err? ==>
      o == Outcome(entries, Some(ResolveImpl(StepName(step, i).value, table, env).error))
    ensures (StepName(step, i).Ok? && ResolveImpl(StepName(step, i).value, table, env).Ok? &&
             ResolveImpl(StepName(step, i).value, table, env).value.style == DictCall) ==> o.entries == entries
  {
    var name := StepName(step, i);
    if name.Err? then Outcome(entries, Some(name.error))
    else
      var raw := RawParams(step.fields);
      if raw.Err? then Outcome(entries, Some(raw.error))
      else
        var params := PreparedParams(raw.value, entries, env);
        var impl := ResolveImpl(name.value, table, env);
        if impl.Err? then Outcome(entries, Some(impl.error))
        else
          var call := CallParams(impl.value, params, env.root);
          if call.Err? then Outcome(entries, Some(call.error))
          else
            match impl.value.style
            case Kwargs => KwargsOutcome(impl.value, entries, call.value.fields, env)
            case DictCall => Outcome(entries, env.dictStep(impl.value, call.value))
  }

  /** A step with no name raises the ValueError naming its number, before
      anything else happens. */
  lemma NamelessStepRaises(table: string -> Option<Impl>, entries: map<string, Value>, fields: map<string, Value>, i: nat, env: Env)
    requires Nameless(fields)
    ensures StepOutcome(table, entries, Dict(fields), i, env) == Outcome(entries, Some(MissingName(i)))
  {
  }

  /** A name with no dot whose key is not an alias raises ValueError and
      leaves the context alone. */
  lemma UnknownStepRaises(table: string -> Option<Impl>, entries: map<string, Value>, fields: map<string, Value>, name: string, i: nat, env: Env)
    requires "module" in fields && fields["module"] == Str(name) && name != ""
    requires "params" !in fields
    requires '.' !in name && table(NormKey(name)).None?
    ensures var o := StepOutcome(table, entries, Dict(fields), i, env);
      o.entries == entries && o.error.Some? && o.error.value.ValueError?
  {
  }

  /** Empty parameters stay empty through resolution and injection. */
  lemma InjectEmptyContextDict(entries: map<string, Value>, env: Env)
    ensures PreparedParams(Dict(map[]), entries, env) == Dict(map[])
  {
  }

  /** A step that only names an importable alias runs the aliased class
      with no parameters, except the data root for a module that needs
      it. */
  lemma BareStepRuns(table: string -> Option<Impl>, entries: map<string, Value>, name: string, i: nat, env: Env)
    requires '.' !in name && name != "" && table(NormKey(name)).Some?
    requires Import(table(NormKey(name)).value.modPath, table(NormKey(name)).value.clsName, env).None?
    ensures var impl := table(NormKey(name)).value;
      StepOutcome(table, entries, Dict(map["module" := Str(name)]), i, env) ==
      match impl.style
      case Kwargs => KwargsOutcome(impl, entries, if impl.needRoot then map["root" := Str(env.root)] else map[], env)
      case DictCall => Outcome(entries, env.dictStep(impl, Dict(map[])))
  {
    InjectEmptyContextDict(entries, env);
  }

  /** The preclinical entries the two lemmas below use. */
  lemma PreclinicalLookup()
    ensures Alias("steadystatetrim") == Some(Impl(TrimClass.0, TrimClass.1, Kwargs, false))
    ensures Alias("brukerloader") == Some(Impl("pyasl.modules.preclinical_loader_bruker", "BrukerLoader", Kwargs, true))
  {
  }

  /** A parameterless SteadyStateTrim step, however its alias is spelled,
      is the trim step with no parameters. */
  lemma TrimStepRuns(entries: map<string, Value>, name: string, i: nat, env: Env)
    requires PackageInstalled(env) && '.' !in name && NormKey(name) == "steadystatetrim" && name != ""
    ensures StepOutcome(Alias, entries, Dict(map["module" := Str(name)]), i, env) == SteadyStateTrim.TrimStep(entries, map[])
  {
    PreclinicalLookup();
    var impl := Impl(TrimClass.0, TrimClass.1, Kwargs, false);
    ImportOf(impl, env);
    BareStepRuns(Alias, entries, name, i, env);
  }

  /** A parameterless BrukerLoader step gets the data root as its only
      parameter. */
  lemma LoaderGetsRoot(entries: map<string, Value>, name: string, i: nat, env: Env)
    requires PackageInstalled(env) && '.' !in name && NormKey(name) == "brukerloader" && name != ""
    ensures StepOutcome(Alias, entries, Dict(map["module" := Str(name)]), i, env) ==
      env.kwargsStep(Impl("pyasl.modules.preclinical_loader_bruker", "BrukerLoader", Kwargs, true), entries, map["root" := Str(env.root)])
  {
    PreclinicalLookup();
    var impl := Impl("pyasl.modules.preclinical_loader_bruker", "BrukerLoader", Kwargs, true);
    ImportOf(impl, env);
    BareStepRuns(Alias, entries, name, i, env);
  }

  /** `C[k] = v` for each modelled kwargs step; the steps the model does not
      contain set the entries the environment gives. */
  method ExecuteStep(table: string -> Option<Impl>, c: Context, step: Value, i: nat, env: Env) returns (error: Option<Error>)
    modifies c
    ensures (c.entries, error) == (StepOutcome(table, old(c.entries), step, i, env).entries, StepOutcome(table, old(c.entries), step, i, env).error)
  {
    var name := StepName(step, i);
    if name.Err? {
      return Some(name.error);
    }
    var raw := RawParams(step.fields);
    if raw.Err? {
      return Some(raw.error);
    }
    var params := PreparedParams(raw.value, c.entries, env);
    var impl := ResolveImpl(name.value, table, env);
    if impl.Err? {
      return Some(impl.error);
    }
    var call := CallParams(impl.value, params, env.root);
    if call.Err? {
      return Some(call.error);
    }
    if impl.value.style == DictCall {
      return env.dictStep(impl.value, call.value);
    }
    var cls := (impl.value.modPath, impl.value.clsName);
    if cls == TrimClass {
      error := SteadyStateTrim.Run(c, call.value.fields);
    } else if cls == SplitClass {
      error := ControlLabelSplit.Run(c, call.value.fields);
    } else if cls == SliceClass {
      error := SlicePldAdjust.Run(c, call.value.fields, env.math);
    } else {
      var o := env.kwargsStep(impl.value, c.entries, call.value.fields);
      c.entries := o.entries;
      error := o.error;
    }
  }

  // --------------------------------------------------------- the whole run

  const NoSteps: Error := ValueError("Custom pipeline requires a non-empty 'steps' list.")

  /** `conf.get("steps") or []` from `yaml.safe_load(f) or {}`, checked to
      be a non-empty list. */
  function LoadSteps(conf: Value): (r: Result<seq<Value>>)
    ensures r.Ok? ==> |r.value| > 0
    ensures conf.Dict? && "steps" in conf.fields && conf.fields["steps"].List? && conf.fields["steps"].items != [] ==>
      r == Ok(conf.fields["steps"].items)
    ensures conf.Dict? && "steps" in conf.fields && !conf.fields["steps"].List? && !conf.fields["steps"].IsArray() ==>
      r == Err(NoSteps)
    ensures conf.Dict? && ("steps" !in conf.fields || conf.fields["steps"] == List([])) ==> r == Err(NoSteps)
    ensures Truth(conf) == Ok(false) ==> r == Err(NoSteps)
  {
    var t :- Truth(conf);
    var c := if t then conf else Dict(map[]);
    if !c.Dict? then Err(AttributeError("get"))
    else
      var s := Field(c.fields, "steps");
      var listed :- Truth(s);
      if listed && s.List? then Ok(s.items) else Err(NoSteps)
  }

  /** `C = Context(ctx or {})` with "root" and "config_dir" defaulted. */
  function InitialEntries(ctx: map<string, Value>, env: Env): (e: map<string, Value>)
    ensures e.Keys == ctx.Keys + {"root", "config_dir"}
    ensures forall k :: k in ctx ==> e[k] == ctx[k]
    ensures "root" !in ctx ==> e["root"] == Str(env.root)
    ensures "config_dir" !in ctx ==> e["config_dir"] == Str(env.configDir)
  {
    var withRoot := if "root" in ctx then ctx else ctx["root" := Str(env.root)];
    if "config_dir" in withRoot then withRoot else withRoot["config_dir" := Str(env.configDir)]
  }

  /** A run of the step loop with `step` as one pass: the steps run in
      order from number `first`, and the first exception ends the run. */
  function RunLoop(step: (map<string, Value>, Value, nat) -> Outcome, entries: map<string, Value>, steps: seq<Value>, first: nat): Outcome
    decreases |steps|
  {
    if steps == [] then Outcome(entries, None)
    else
      var o := step(entries, steps[0], first);
      if o.error.Some? then o else RunLoop(step, o.entries, steps[1..], first + 1)
  }

  /** Running a + b is running a, then b on what a left, unless a raised. */
  lemma {:induction false} RunLoopAppend(step: (map<string, Value>, Value, nat) -> Outcome, entries: map<string, Value>, a: seq<Value>, b: seq<Value>, first: nat)
    ensures RunLoop(step, entries, a + b, first) ==
      var o := RunLoop(step, entries, a, first);
      if o.error.Some? then o else RunLoop(step, o.entries, b, first + |a|)
    decreases |a|
  {
    if a == [] {
      assert a + b == b;
    } else {
      assert (a + b)[0] == a[0];
      assert (a + b)[1..] == a[1..] + b;
      var o := step(entries, a[0], first);
      if o.error.None? {
        RunLoopAppend(step, o.entries, a[1..], b, first + 1);
      }
    }
  }

  /** The loop from step k on is that step, then the loop from step k + 1
      unless the step raised. */
  lemma RunLoopHead(step: (map<string, Value>, Value, nat) -> Outcome, entries: map<string, Value>, steps: seq<Value>, k: nat)
    requires k < |steps|
    ensures RunLoop(step, entries, steps[k..], k + 1) ==
      var o := step(entries, steps[k], k + 1);
      if o.error.Some? then o else RunLoop(step, o.entries, steps[k + 1..], k + 2)
  {
    assert steps[k..][1..] == steps[k + 1..];
  }

  /** When the steps before step j + 1 succeed and that step raises, the
      run raises the same exception. */
  lemma RunLoopRaises(step: (map<string, Value>, Value, nat) -> Outcome, entries: map<string, Value>, steps: seq<Value>, j: nat)
    requires j < |steps|
    requires RunLoop(step, entries, steps[..j], 1).error.None?
    requires step(RunLoop(step, entries, steps[..j], 1).entries, steps[j], j + 1).error.Some?
    ensures RunLoop(step, entries, steps, 1).error == step(RunLoop(step, entries, steps[..j], 1).entries, steps[j], j + 1).error
  {
    assert steps == steps[..j] + steps[j..];
    RunLoopAppend(step, entries, steps[..j], steps[j..], 1);
    RunLoopHead(step, RunLoop(step, entries, steps[..j], 1).entries, steps, j);
  }

  /** One pass of the loop over an alias table. */
  function StepOf(table: string -> Option<Impl>, env: Env): (map<string, Value>, Value, nat) -> Outcome {
    (e: map<string, Value>, s: Value, i: nat) => StepOutcome(table, e, s, i, env)
  }

  /** The loop of `run_custom_pipeline` over an alias table. */
  function RunSteps(table: string -> Option<Impl>, entries: map<string, Value>, steps: seq<Value>, first: nat, env: Env): Outcome {
    RunLoop(StepOf(table, env), entries, steps, first)
  }

  /** `run_custom_pipeline` with alias table `table` (`AliasAsWritten` is
      the module's own table, `Alias` the corrected one): the final context
      entries, or the exception. */
  function Pipeline(table: string -> Option<Impl>, conf: Value, ctx: map<string, Value>, env: Env): Result<map<string, Value>> {
    var steps :- LoadSteps(conf);
    var o := RunSteps(table, InitialEntries(ctx, env), steps, 1, env);
    if o.error.Some? then Err(o.error.value) else Ok(o.entries)
  }

  /** A configuration without steps, or with an empty list, raises
      ValueError before any context is made. */
  lemma PipelineNeedsSteps(table: string -> Option<Impl>, conf: Value, ctx: map<string, Value>, env: Env)
    requires conf.Dict? && ("steps" !in conf.fields || conf.fields["steps"] == List([]))
    ensures Pipeline(table, conf, ctx, env) == Err(NoSteps)
  {
  }

  /** When the steps before number j + 1 all succeed and that step has no
      name, the run raises the ValueError naming step j + 1. */
  lemma NamelessStepAborts(table: string -> Option<Impl>, entries: map<string, Value>, steps: seq<Value>, env: Env, j: nat)
    requires j < |steps|
    requires RunSteps(table, entries, steps[..j], 1, env).error.None?
    requires steps[j].Dict? && Nameless(steps[j].fields)
    ensures RunSteps(table, entries, steps, 1, env).error == Some(MissingName(j + 1))
  {
    var o := RunSteps(table, entries, steps[..j], 1, env);
    NamelessStepRaises(table, o.entries, steps[j].fields, j + 1, env);
    RunLoopRaises(StepOf(table, env), entries, steps, j);
  }

  /** The step loop on a context: each step in turn, stopping at the
      first exception. */
  method ExecuteSteps(table: string -> Option<Impl>, c: Context, steps: seq<Value>, env: Env) returns (error: Option<Error>)
    modifies c
    ensures (c.entries, error) == (RunSteps(table, old(c.entries), steps, 1, env).entries, RunSteps(table, old(c.entries), steps, 1, env).error)
  {
    var k := 0;
    assert steps[k..] == steps;
    while k < |steps|
      invariant 0 <= k <= |steps|
      invariant RunSteps(table, c.entries, steps[k..], k + 1, env) == RunSteps(table, old(c.entries), steps, 1, env)
    {
      RunLoopHead(StepOf(table, env), c.entries, steps, k);
      error := ExecuteStep(table, c, steps[k], k + 1, env);
      if error.Some? {
        return;
      }
      k := k + 1;
    }
    error := None;
  }

  /** `run_custom_pipeline` on a parsed configuration: the context it
      returns, or the exception it raises. A fresh Context holds the
      caller's entries; `ctx` is a map value here, so the model cannot show
      that in Python the copy is shallow and shares the arrays it holds. */
  method RunCustomPipeline(table: string -> Option<Impl>, conf: Value, ctx: map<string, Value>, env: Env) returns (r: Result<Context>)
    ensures Pipeline(table, conf, ctx, env).Err? ==> r.Err? && r.error == Pipeline(table, conf, ctx, env).error
    ensures Pipeline(table, conf, ctx, env).Ok? ==> r.Ok? && fresh(r.value) && r.value.entries == Pipeline(table, conf, ctx, env).value
  {
    var steps := LoadSteps(conf);
    if steps.Err? {
      return Err(steps.error);
    }
    var c := new Context(ctx);
    c.SetDefault("root", Str(env.root));
    c.SetDefault("config_dir", Str(env.configDir));
    var e := ExecuteSteps(table, c, steps.value, env);
    if e.Some? {
      return Err(e.value);
    }
    return Ok(c);
  }
}
