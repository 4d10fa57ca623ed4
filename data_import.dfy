/** The parameter checking and BIDS conversion of PyASL's data import
    (pyasl/data_import.py): `read_params` validates the user's parameter file,
    `make_sidecar` turns it into the ASL sidecar and the aslcontext volume
    types, `convert2bids` checks the volume count and writes the PLD list of
    data_description.json, and `read_asl_bids` rebuilds LabelControl,
    SingleDelay and the PLD list from an existing BIDS data set. Files are
    not read or written: their parsed contents are parameters. */
module DataImport {
  import opened Common

  /** A JSON value as `json.load` returns it. */
  datatype Json =
    | JNull
    | JBool(b: bool)
    | JNum(n: real)
    | JStr(s: string)
    | JArr(items: seq<Json>)
    | JObj(fields: map<string, Json>)

  /** Python's `x == 0` on a JSON value: a zero number, or False. */
  predicate IsZero(x: Json) {
    x == JNum(0.0) || x == JBool(false)
  }

  /** Python's truth value of a JSON value. */
  predicate Truthy(x: Json) {
    match x
    case JNull => false
    case JBool(b) => b
    case JNum(n) => n != 0.0
    case JStr(s) => s != ""
    case JArr(a) => a != []
    case JObj(o) => o != map[]
  }

  /** `0 in xs`. */
  predicate HasZero(xs: seq<Json>) {
    exists k :: 0 <= k < |xs| && IsZero(xs[k])
  }

  /** `xs.count(0)`. */
  function ZeroCount(xs: seq<Json>): (c: nat)
    ensures c <= |xs|
  {
    if xs == [] then 0 else ZeroCount(xs[..|xs| - 1]) + (if IsZero(xs[|xs| - 1]) then 1 else 0)
  }

  /** `[x for x in xs if x != 0]`: the non-zero entries, in order. */
  function NonZeroItems(xs: seq<Json>): (r: seq<Json>)
    ensures |r| == |xs| - ZeroCount(xs)
    ensures forall x :: x in r ==> x in xs && !IsZero(x)
  {
    if xs == [] then []
    else NonZeroItems(xs[..|xs| - 1]) + (if IsZero(xs[|xs| - 1]) then [] else [xs[|xs| - 1]])
  }

  // ---------------------------------------------------------------------------
  // read_params

  /** The ASL keys every parameter file must have. */
  const AslKeys: seq<string> := ["Manufacturer", "ManufacturersModelName", "MagneticFieldStrength",
    "RepetitionTime", "EchoTime", "FlipAngle", "ArterialSpinLabelingType", "M0Type",
    "MRAcquisitionType", "BackgroundSuppression", "LabelingEfficiency", "PostLabelingDelay"]

  /** The scanner keys of the anat and M0 sections. */
  const ScannerKeys: seq<string> := ["Manufacturer", "ManufacturersModelName", "MagneticFieldStrength",
    "RepetitionTime", "EchoTime", "FlipAngle"]

  const BgsKeys: seq<string> := ["BackgroundSuppressionNumberPulses", "BackgroundSuppressionPulseTime"]

  /** What opening and decoding the parameter file gave. */
  datatype Loaded = Loaded(doc: Json) | NotFound | Unreadable | Undecodable

  /** The `(valid, error, params)` triple `read_params` returns. */
  datatype Checked = Checked(valid: bool, msg: string, params: map<string, Json>)

  function Invalid(msg: string): Checked {
    Checked(false, msg, map[])
  }

  function MissingMsg(key: string): string {
    "Missing parameter: " + key
  }

  /** The position of the first of `keys` that obj lacks; |keys| when it has them all. */
  function MissingAt(keys: seq<string>, obj: map<string, Json>): (i: nat)
    ensures i <= |keys|
    ensures forall j :: 0 <= j < i ==> keys[j] in obj
    ensures i < |keys| ==> keys[i] !in obj
  {
    if keys == [] then 0 else if keys[0] !in obj then 0 else 1 + MissingAt(keys[1..], obj)
  }

  /** The loop `for key in keys: if key not in obj: return (False, ...)`. */
  function Missing(keys: seq<string>, obj: map<string, Json>): Option<string> {
    var i := MissingAt(keys, obj);
    if i < |keys| then Some(MissingMsg(keys[i])) else None
  }

  /** `sub` occurs in s, as Python's `sub in s` on strings. */
  predicate IsSubstring(sub: string, s: string) {
    |sub| <= |s| && (s[..|sub|] == sub || IsSubstring(sub, s[1..]))
  }

  /** Python's `key in x`: a key of an object, an item of a list, a
      substring of a string; a number, a bool or null raises TypeError. */
  function In(key: string, x: Json): (r: Result<bool>)
    ensures x.JObj? ==> r == Ok(key in x.fields)
    ensures x.JArr? ==> r == Ok(JStr(key) in x.items)
    ensures x.JStr? ==> r == Ok(IsSubstring(key, x.s))
    ensures (x.JNull? || x.JBool? || x.JNum?) <==> r.Err?
  {
    match x
    case JObj(fs) => Ok(key in fs)
    case JArr(items) => Ok(JStr(key) in items)
    case JStr(s) => Ok(IsSubstring(key, s))
    case _ => Err(TypeError("argument is not iterable"))
  }

  /** The loop `for key in keys: if key not in x: return (False, ...)` on any
      JSON value: on an object it is Missing, on a list or a string it
      reports the first key `in` does not find. */
  function MissingIn(keys: seq<string>, x: Json): (r: Result<Option<string>>)
    ensures x.JObj? ==> r == Ok(Missing(keys, x.fields))
    ensures keys != [] && (x.JNull? || x.JBool? || x.JNum?) ==> r.Err? && r.error.TypeError?
    ensures r.Ok? && r.value.Some? ==> exists i :: 0 <= i < |keys| && In(keys[i], x) == Ok(false) && r.value.value == MissingMsg(keys[i])
    ensures r.Ok? && r.value.None? <==> forall i :: 0 <= i < |keys| ==> In(keys[i], x) == Ok(true)
  {
    if keys == [] then Ok(None)
    else
      var found :- In(keys[0], x);
      if !found then Ok(Some(MissingMsg(keys[0])))
      else
        var rest := MissingIn(keys[1..], x);
        assert rest.Ok? && rest.value.Some? ==> exists i :: 0 <= i < |keys| && In(keys[i], x) == Ok(false) && rest.value.value == MissingMsg(keys[i]) by {
          if rest.Ok? && rest.value.Some? {
            var i :| 0 <= i < |keys[1..]| && In(keys[1..][i], x) == Ok(false) && rest.value.value == MissingMsg(keys[1..][i]);
            assert keys[i + 1] == keys[1..][i];
          }
        }
        assert rest.Ok? && rest.value.None? ==> forall i :: 0 <= i < |keys| ==> In(keys[i], x) == Ok(true) by {
          if rest.Ok? && rest.value.None? {
            forall i | 0 <= i < |keys| ensures In(keys[i], x) == Ok(true) {
              if i > 0 { assert keys[i] == keys[1..][i - 1]; }
            }
          }
        }
        rest
  }

  predicate HasAll(keys: seq<string>, obj: map<string, Json>) {
    forall j :: 0 <= j < |keys| ==> keys[j] in obj
  }

  /** The twelve required ASL keys, one by one. */
  predicate HasAslKeys(asl: map<string, Json>) {
    "Manufacturer" in asl && "ManufacturersModelName" in asl && "MagneticFieldStrength" in asl &&
    "RepetitionTime" in asl && "EchoTime" in asl && "FlipAngle" in asl && "ArterialSpinLabelingType" in asl &&
    "M0Type" in asl && "MRAcquisitionType" in asl && "BackgroundSuppression" in asl &&
    "LabelingEfficiency" in asl && "PostLabelingDelay" in asl
  }

  lemma MissingNoneIff(keys: seq<string>, obj: map<string, Json>)
    ensures Missing(keys, obj).None? <==> HasAll(keys, obj)
  {
  }

  lemma AslKeysOneByOne(asl: map<string, Json>)
    ensures Missing(AslKeys, asl).None? <==> HasAslKeys(asl)
  {
    MissingNoneIff(AslKeys, asl);
    if HasAll(AslKeys, asl) {
      assert AslKeys[0] in asl && AslKeys[1] in asl && AslKeys[2] in asl && AslKeys[3] in asl;
      assert AslKeys[4] in asl && AslKeys[5] in asl && AslKeys[6] in asl && AslKeys[7] in asl;
      assert AslKeys[8] in asl && AslKeys[9] in asl && AslKeys[10] in asl && AslKeys[11] in asl;
    }
  }

  /** The labeling keys the type needs: LabelingDuration for PCASL and CASL,
      BolusCutOffDelayTime (and Looklocker for multi-delay data) for PASL. */
  function TypeKeys(aslType: Json, isSingleDelay: bool): seq<string> {
    if aslType == JStr("PCASL") || aslType == JStr("CASL") then ["LabelingDuration"]
    else if aslType == JStr("PASL") then
      if isSingleDelay then ["BolusCutOffDelayTime"] else ["BolusCutOffDelayTime", "Looklocker"]
    else []
  }

  /** The labeling keys `read_params` checks: the check loop sits in the PASL
      branch only, so PCASL and CASL keys are chosen but never checked. */
  function CheckedTypeKeys(aslType: Json, isSingleDelay: bool): seq<string> {
    if aslType == JStr("PASL") then TypeKeys(aslType, isSingleDelay) else []
  }

  /** The first failing check of the ASL section after its required keys,
      checking `typeKeys` as the labeling keys. */
  function AslProblem(asl: map<string, Json>, isSingleDelay: bool, typeKeys: seq<string>): Option<string>
    requires HasAslKeys(asl)
  {
    AslChecks(Missing(typeKeys, asl), asl["MRAcquisitionType"], "SliceDuration" in asl, asl["M0Type"],
              asl["PostLabelingDelay"], asl["BackgroundSuppression"], Missing(BgsKeys, asl), isSingleDelay)
  }

  /** Those checks in order, on the values they read from the section. */
  function AslChecks(typeMissing: Option<string>, acquisition: Json, hasSliceDuration: bool, m0Type: Json,
                     pld: Json, bgs: Json, bgsMissing: Option<string>, isSingleDelay: bool): Option<string>
  {
    if typeMissing.Some? then typeMissing
    else if acquisition == JStr("2D") && !hasSliceDuration then Some(MissingMsg("SliceDuration"))
    else if !isSingleDelay && !pld.JArr? then
      Some("Invalid PostLabelingDelay: should be an array for multi-delay data")
    else if isSingleDelay && m0Type == JStr("Included") && !pld.JArr? then
      Some("Invalid PostLabelingDelay: should be an array for single-delay data with included M0")
    else if isSingleDelay && m0Type != JStr("Included") && pld.JArr? then
      Some("Invalid PostLabelingDelay: should be a value for single-delay data")
    else if m0Type == JStr("Included") && !HasZero(pld.items) then Some("Invalid PostLabelingDelay: no M0 included")
    else if Truthy(bgs) then bgsMissing
    else None
  }

  /** `read_params`, with `keysOf` choosing the labeling keys that are checked.
      A document that is not an object, or a missing ASL, anat or M0
      section, is an exception rather than a returned error. An ASL section
      that is a list or a string is searched by `in` like an object, and
      raises only once every required key is found and the first one is
      indexed. */
  function ReadParamsUsing(load: Loaded, path: string, hasStructural: bool, isSingleDelay: bool,
                           keysOf: (Json, bool) -> seq<string>): (r: Result<Checked>)
    ensures !load.Loaded? ==> (r.Ok? && !r.value.valid && r.value.params == map[] && r.value.msg != "")
    ensures load.Loaded? && !load.doc.JObj? ==> r.Err? && r.error.TypeError?
    ensures load.Loaded? && load.doc.JObj? && "ASL" !in load.doc.fields ==> r == Err(KeyError("ASL"))
    ensures load.Loaded? && load.doc.JObj? && "ASL" in load.doc.fields ==>
      var asl := load.doc.fields["ASL"];
      (asl.JNull? || asl.JBool? || asl.JNum? ==> r.Err? && r.error.TypeError?) &&
      ((asl.JArr? || asl.JStr?) ==> (r.Err? || (!r.value.valid && r.value.params == map[] && r.value.msg != "")))
  {
    match load
    case NotFound => Ok(Invalid("Cannot read json file: " + path + " not found"))
    case Unreadable => Ok(Invalid("Cannot read json file: Error opening or reading the file " + path))
    case Undecodable => Ok(Invalid("Cannot read json file: Error decoding JSON from the file " + path))
    case Loaded(doc) =>
      if !doc.JObj? then Err(TypeError("params"))
      else
        var params := doc.fields;
        if "ASL" !in params then Err(KeyError("ASL"))
        else
          var missing :- MissingIn(AslKeys, params["ASL"]);
          if missing.Some? then Ok(Invalid(missing.value))
          else if !params["ASL"].JObj? then Err(TypeError("list or string indices must be integers"))
          else
            var asl := params["ASL"].fields;
            AslKeysOneByOne(asl);
            var problem := AslProblem(asl, isSingleDelay, keysOf(asl["ArterialSpinLabelingType"], isSingleDelay));
            if problem.Some? then Ok(Invalid(problem.value))
            else SectionsChecked(params, hasStructural, asl["M0Type"] == JStr("Estimate"))
  }

  /** The anat section (when there is a structural image) and the M0 section
      (unless M0 is estimated) need the scanner keys; a section that is not
      needed is replaced by an empty one. */
  function SectionsChecked(params: map<string, Json>, hasStructural: bool, estimate: bool): Result<Checked> {
    if hasStructural && "anat" !in params then Err(KeyError("anat"))
    else if hasStructural && !params["anat"].JObj? then Err(TypeError("anat_params"))
    else if hasStructural && Missing(ScannerKeys, params["anat"].fields).Some? then
      Ok(Invalid(Missing(ScannerKeys, params["anat"].fields).value))
    else
      var p := if hasStructural then params else params["anat" := JObj(map[])];
      if !estimate && "M0" !in p then Err(KeyError("M0"))
      else if !estimate && !p["M0"].JObj? then Err(TypeError("m0_params"))
      else if !estimate && Missing(ScannerKeys, p["M0"].fields).Some? then Ok(Invalid(Missing(ScannerKeys, p["M0"].fields).value))
      else Ok(Checked(true, "", if estimate then p["M0" := JObj(map[])] else p))
  }

  /** `read_params` as written. */
  function ReadParams(load: Loaded, path: string, hasStructural: bool, isSingleDelay: bool): Result<Checked> {
    ReadParamsUsing(load, path, hasStructural, isSingleDelay, CheckedTypeKeys)
  }

  /** `read_params` with the labeling-key check applied to every labeling type. */
  function ReadParamsCorrected(load: Loaded, path: string, hasStructural: bool, isSingleDelay: bool): Result<Checked> {
    ReadParamsUsing(load, path, hasStructural, isSingleDelay, TypeKeys)
  }

  /** The ASL section passes every check: an order-free statement of them. */
  predicate AslAccepted(asl: map<string, Json>, isSingleDelay: bool, typeKeys: seq<string>) {
    HasAslKeys(asl) && HasAll(typeKeys, asl) &&
    (asl["MRAcquisitionType"] == JStr("2D") ==> "SliceDuration" in asl) &&
    (!isSingleDelay ==> asl["PostLabelingDelay"].JArr?) &&
    (isSingleDelay ==> (asl["PostLabelingDelay"].JArr? <==> asl["M0Type"] == JStr("Included"))) &&
    (asl["M0Type"] == JStr("Included") ==> asl["PostLabelingDelay"].JArr? && HasZero(asl["PostLabelingDelay"].items)) &&
    (Truthy(asl["BackgroundSuppression"]) ==> HasAll(BgsKeys, asl))
  }

  /** A needed section is an object with the scanner keys. */
  predicate SectionAccepted(params: map<string, Json>, key: string) {
    key in params && params[key].JObj? && HasAll(ScannerKeys, params[key].fields)
  }

  /** The ASL checks pass exactly on an accepted ASL section. */
  lemma AslProblemNoneIff(asl: map<string, Json>, isSingleDelay: bool, typeKeys: seq<string>)
    requires HasAslKeys(asl)
    ensures AslProblem(asl, isSingleDelay, typeKeys).None? <==> AslAccepted(asl, isSingleDelay, typeKeys)
  {
    MissingNoneIff(typeKeys, asl);
    MissingNoneIff(BgsKeys, asl);
  }

  /** read_params accepts exactly the parameter files whose ASL section
      passes every check and whose needed sections have the scanner keys, and
      then returns them with the unneeded sections emptied; a rejection
      returns an empty dictionary. */
  lemma {:induction false} ReadParamsAcceptsExactly(load: Loaded, path: string, hasStructural: bool, isSingleDelay: bool,
                                                    keysOf: (Json, bool) -> seq<string>)
    ensures var r := ReadParamsUsing(load, path, hasStructural, isSingleDelay, keysOf);
      (r.Ok? && r.value.valid) <==>
        (load.Loaded? && load.doc.JObj? && "ASL" in load.doc.fields && load.doc.fields["ASL"].JObj? &&
         var params := load.doc.fields;
         var asl := params["ASL"].fields;
         HasAslKeys(asl) &&
         AslAccepted(asl, isSingleDelay, keysOf(asl["ArterialSpinLabelingType"], isSingleDelay)) &&
         (hasStructural ==> SectionAccepted(params, "anat")) &&
         (asl["M0Type"] != JStr("Estimate") ==> SectionAccepted(params, "M0")))
    ensures var r := ReadParamsUsing(load, path, hasStructural, isSingleDelay, keysOf);
      r.Ok? && r.value.valid ==> (
        var params := load.doc.fields;
        var p := if hasStructural then params else params["anat" := JObj(map[])];
        r.value.msg == "" &&
        r.value.params == if params["ASL"].fields["M0Type"] == JStr("Estimate") then p["M0" := JObj(map[])] else p)
    ensures var r := ReadParamsUsing(load, path, hasStructural, isSingleDelay, keysOf);
      r.Ok? && !r.value.valid ==> r.value.params == map[] && r.value.msg != ""
  {
    if load.Loaded? && load.doc.JObj? && "ASL" in load.doc.fields && load.doc.fields["ASL"].JObj? {
      AslObjectAcceptsExactly(load.doc.fields, path, hasStructural, isSingleDelay, keysOf);
    }
  }

  /** ReadParamsAcceptsExactly for a document whose ASL section is an object. */
  lemma AslObjectAcceptsExactly(params: map<string, Json>, path: string, hasStructural: bool, isSingleDelay: bool,
                                keysOf: (Json, bool) -> seq<string>)
    requires "ASL" in params && params["ASL"].JObj?
    ensures var r := ReadParamsUsing(Loaded(JObj(params)), path, hasStructural, isSingleDelay, keysOf);
      var asl := params["ASL"].fields;
      (r.Ok? && r.value.valid) <==>
        (HasAslKeys(asl) &&
         AslAccepted(asl, isSingleDelay, keysOf(asl["ArterialSpinLabelingType"], isSingleDelay)) &&
         (hasStructural ==> SectionAccepted(params, "anat")) &&
         (asl["M0Type"] != JStr("Estimate") ==> SectionAccepted(params, "M0")))
    ensures var r := ReadParamsUsing(Loaded(JObj(params)), path, hasStructural, isSingleDelay, keysOf);
      r.Ok? && r.value.valid ==> (
        var p := if hasStructural then params else params["anat" := JObj(map[])];
        r.value.msg == "" &&
        r.value.params == if params["ASL"].fields["M0Type"] == JStr("Estimate") then p["M0" := JObj(map[])] else p)
    ensures var r := ReadParamsUsing(Loaded(JObj(params)), path, hasStructural, isSingleDelay, keysOf);
      r.Ok? && !r.value.valid ==> r.value.params == map[] && r.value.msg != ""
  {
    var asl := params["ASL"].fields;
    AslKeysOneByOne(asl);
    if HasAslKeys(asl) {
      var keys := keysOf(asl["ArterialSpinLabelingType"], isSingleDelay);
      AslProblemNoneIff(asl, isSingleDelay, keys);
      var problem := AslProblem(asl, isSingleDelay, keys);
      if problem.None? {
        SectionsAcceptExactly(params, hasStructural, asl["M0Type"] == JStr("Estimate"));
      } else {
        AslProblemMessage(asl, isSingleDelay, keys);
      }
    }
  }

  lemma AslProblemMessage(asl: map<string, Json>, isSingleDelay: bool, typeKeys: seq<string>)
    requires HasAslKeys(asl)
    ensures AslProblem(asl, isSingleDelay, typeKeys).Some? ==> AslProblem(asl, isSingleDelay, typeKeys).value != ""
  {
  }

  /** The section checks pass exactly when the needed sections have the
      scanner keys. */
  lemma SectionsAcceptExactly(params: map<string, Json>, hasStructural: bool, estimate: bool)
    ensures var r := SectionsChecked(params, hasStructural, estimate);
      (r.Ok? && r.value.valid) <==>
        ((hasStructural ==> SectionAccepted(params, "anat")) && (!estimate ==> SectionAccepted(params, "M0")))
    ensures var r := SectionsChecked(params, hasStructural, estimate);
      r.Ok? && r.value.valid ==> (
        var p := if hasStructural then params else params["anat" := JObj(map[])];
        r.value.msg == "" && r.value.params == if estimate then p["M0" := JObj(map[])] else p)
    ensures var r := SectionsChecked(params, hasStructural, estimate);
      r.Ok? && !r.value.valid ==> r.value.params == map[] && r.value.msg != ""
  {
    if hasStructural && "anat" in params && params["anat"].JObj? {
      MissingNoneIff(ScannerKeys, params["anat"].fields);
    }
    if "M0" in params && params["M0"].JObj? {
      MissingNoneIff(ScannerKeys, params["M0"].fields);
    }
    var p := if hasStructural then params else params["anat" := JObj(map[])];
    assert "M0" != "anat";
    assert ("M0" in p <==> "M0" in params) && ("M0" in params ==> p["M0"] == params["M0"]);
  }

  /** The first missing required ASL key is the one reported. */
  lemma MissingAslKeyReported(params: map<string, Json>, path: string, hasStructural: bool, isSingleDelay: bool)
    requires "ASL" in params && params["ASL"].JObj?
    requires MissingAt(AslKeys, params["ASL"].fields) < |AslKeys|
    ensures var k := AslKeys[MissingAt(AslKeys, params["ASL"].fields)];
      k !in params["ASL"].fields &&
      ReadParams(Loaded(JObj(params)), path, hasStructural, isSingleDelay) == Ok(Checked(false, "Missing parameter: " + k, map[]))
  {
  }

  /** An ASL section that is a list is searched item by item: ["x"] lacks
      Manufacturer and is rejected for it without an exception, while a list
      holding every required key gets past the loop and raises when its
      first entry is read by name. A number is not searchable at all. */
  lemma AslListSearched(params: map<string, Json>, path: string, hasStructural: bool, isSingleDelay: bool,
                        keysOf: (Json, bool) -> seq<string>)
    requires "ASL" in params
    ensures params["ASL"] == JArr([JStr("x")]) ==>
      ReadParamsUsing(Loaded(JObj(params)), path, hasStructural, isSingleDelay, keysOf)
        == Ok(Checked(false, "Missing parameter: Manufacturer", map[]))
    ensures params["ASL"] == JArr(seq(|AslKeys|, i requires 0 <= i < |AslKeys| => JStr(AslKeys[i]))) ==>
      ReadParamsUsing(Loaded(JObj(params)), path, hasStructural, isSingleDelay, keysOf).Err?
    ensures params["ASL"].JNum? ==>
      ReadParamsUsing(Loaded(JObj(params)), path, hasStructural, isSingleDelay, keysOf).Err?
  {
    var items := seq(|AslKeys|, i requires 0 <= i < |AslKeys| => JStr(AslKeys[i]));
    if params["ASL"] == JArr([JStr("x")]) {
      assert In(AslKeys[0], JArr([JStr("x")])) == Ok(false);
      assert MissingIn(AslKeys, JArr([JStr("x")])) == Ok(Some(MissingMsg(AslKeys[0])));
      assert ReadParamsUsing(Loaded(JObj(params)), path, hasStructural, isSingleDelay, keysOf)
        == Ok(Invalid(MissingMsg(AslKeys[0])));
      assert MissingMsg(AslKeys[0]) == "Missing parameter: Manufacturer";
    }
    if params["ASL"] == JArr(items) {
      forall i | 0 <= i < |AslKeys| ensures In(AslKeys[i], JArr(items)) == Ok(true) {
        assert items[i] == JStr(AslKeys[i]);
      }
    }
  }

  /** As written, read_params never looks at LabelingDuration of a PCASL
      data set: removing it changes neither the verdict nor the message. */
  lemma LabelingDurationIgnored(params: map<string, Json>, path: string, hasStructural: bool, isSingleDelay: bool)
    requires "ASL" in params && params["ASL"].JObj?
    requires "ArterialSpinLabelingType" in params["ASL"].fields
    requires params["ASL"].fields["ArterialSpinLabelingType"] == JStr("PCASL")
    ensures var stripped := params["ASL" := JObj(params["ASL"].fields - {"LabelingDuration"})];
      var r := ReadParams(Loaded(JObj(params)), path, hasStructural, isSingleDelay);
      var r' := ReadParams(Loaded(JObj(stripped)), path, hasStructural, isSingleDelay);
      r.Ok? == r'.Ok? && (r.Ok? ==> r.value.valid == r'.value.valid && r.value.msg == r'.value.msg)
  {
    var asl := params["ASL"].fields;
    var asl' := asl - {"LabelingDuration"};
    var stripped := params["ASL" := JObj(asl')];
    MissingAtIgnores(AslKeys, asl, "LabelingDuration");
    AslKeysOneByOne(asl);
    AslKeysOneByOne(asl');
    if HasAslKeys(asl) {
      AslProblemIgnoresDuration(asl, isSingleDelay);
      SectionsIgnoreAsl(params, stripped, hasStructural, asl["M0Type"] == JStr("Estimate"));
    }
  }

  /** With no labeling keys checked, LabelingDuration plays no part in the
      ASL checks. */
  lemma AslProblemIgnoresDuration(asl: map<string, Json>, isSingleDelay: bool)
    requires HasAslKeys(asl)
    ensures HasAslKeys(asl - {"LabelingDuration"})
    ensures AslProblem(asl, isSingleDelay, []) == AslProblem(asl - {"LabelingDuration"}, isSingleDelay, [])
  {
    AslProblemIgnores(asl, "LabelingDuration", isSingleDelay);
  }

  /** A key the ASL checks never read can be dropped without changing them. */
  lemma AslProblemIgnores(asl: map<string, Json>, key: string, isSingleDelay: bool)
    requires HasAslKeys(asl) && key !in AslKeys && key !in BgsKeys && key != "SliceDuration"
    ensures HasAslKeys(asl - {key})
    ensures AslProblem(asl, isSingleDelay, []) == AslProblem(asl - {key}, isSingleDelay, [])
  {
    MissingAtIgnores(BgsKeys, asl, key);
    var asl' := asl - {key};
    assert key != AslKeys[7] && key != AslKeys[8] && key != AslKeys[9] && key != AslKeys[11];
    assert asl'["M0Type"] == asl["M0Type"] && asl'["PostLabelingDelay"] == asl["PostLabelingDelay"];
    assert asl'["MRAcquisitionType"] == asl["MRAcquisitionType"];
    assert asl'["BackgroundSuppression"] == asl["BackgroundSuppression"];
    assert ("SliceDuration" in asl') == ("SliceDuration" in asl);
    assert Missing([], asl) == Missing([], asl');
    assert Missing(BgsKeys, asl) == Missing(BgsKeys, asl');
  }

  /** Keys outside `keys` do not move the first missing one. */
  lemma {:induction false} MissingAtIgnores(keys: seq<string>, obj: map<string, Json>, key: string)
    requires key !in keys
    ensures MissingAt(keys, obj) == MissingAt(keys, obj - {key})
  {
    if keys != [] {
      MissingAtIgnores(keys[1..], obj, key);
    }
  }

  /** The section checks only read the anat and M0 sections. */
  lemma SectionsIgnoreAsl(params: map<string, Json>, params': map<string, Json>, hasStructural: bool, estimate: bool)
    requires params'.Keys == params.Keys
    requires forall k :: k in params && k != "ASL" ==> params'[k] == params[k]
    ensures var r := SectionsChecked(params, hasStructural, estimate);
      var r' := SectionsChecked(params', hasStructural, estimate);
      r.Ok? == r'.Ok? && (r.Ok? ==> r.value.valid == r'.value.valid && r.value.msg == r'.value.msg)
  {
    assert "anat" != "ASL" && "M0" != "ASL";
  }

  /** With the check applied to every type, a PCASL file that has every
      required key but LabelingDuration is rejected for it. */
  lemma LabelingDurationReported(params: map<string, Json>, path: string, hasStructural: bool, isSingleDelay: bool)
    requires "ASL" in params && params["ASL"].JObj?
    requires HasAslKeys(params["ASL"].fields)
    requires params["ASL"].fields["ArterialSpinLabelingType"] == JStr("PCASL")
    requires "LabelingDuration" !in params["ASL"].fields
    ensures ReadParamsCorrected(Loaded(JObj(params)), path, hasStructural, isSingleDelay)
      == Ok(Checked(false, MissingMsg("LabelingDuration"), map[]))
  {
    var asl := params["ASL"].fields;
    AslKeysOneByOne(asl);
    assert TypeKeys(asl["ArterialSpinLabelingType"], isSingleDelay) == ["LabelingDuration"];
    assert MissingAt(["LabelingDuration"], asl) == 0;
  }

  // ---------------------------------------------------------------------------
  // make_sidecar

  /** What `make_sidecar` reads: the three sections, with M0Type and
      PostLabelingDelay in the ASL one. */
  predicate SidecarReady(params: map<string, Json>) {
    "ASL" in params && params["ASL"].JObj? && "anat" in params && params["anat"].JObj? &&
    "M0" in params && params["M0"].JObj? &&
    "M0Type" in params["ASL"].fields && "PostLabelingDelay" in params["ASL"].fields
  }

  /** Every parameter file read_params accepts is ready for make_sidecar,
      both as written and with the corrected labeling-key check. */
  lemma AcceptedIsSidecarReady(load: Loaded, path: string, hasStructural: bool, isSingleDelay: bool,
                               keysOf: (Json, bool) -> seq<string>)
    requires ReadParamsUsing(load, path, hasStructural, isSingleDelay, keysOf).Ok?
    requires ReadParamsUsing(load, path, hasStructural, isSingleDelay, keysOf).value.valid
    ensures SidecarReady(ReadParamsUsing(load, path, hasStructural, isSingleDelay, keysOf).value.params)
  {
    ReadParamsAcceptsExactly(load, path, hasStructural, isSingleDelay, keysOf);
    var asl := load.doc.fields["ASL"].fields;
    assert AslKeys[7] == "M0Type" && AslKeys[11] == "PostLabelingDelay";
    assert "ASL" != "anat" && "ASL" != "M0" && "anat" != "M0";
  }

  /** One label/control pair in the order LabelControl gives. */
  function Pair(isLabelControl: bool): seq<Role> {
    if isLabelControl then [Label, Control] else [Control, Label]
  }

  /** The volume types of a PLD list: m0scan for a 0, a pair otherwise. */
  function VolumeTypes(plds: seq<Json>, isLabelControl: bool): seq<Role> {
    if plds == [] then []
    else
      var last := if IsZero(plds[|plds| - 1]) then [M0Scan] else Pair(isLabelControl);
      VolumeTypes(plds[..|plds| - 1], isLabelControl) + last
  }

  /** The volume types of a scalar PLD: `n` pairs. */
  function PairTypes(n: nat, isLabelControl: bool): seq<Role> {
    if n == 0 then [] else PairTypes(n - 1, isLabelControl) + Pair(isLabelControl)
  }

  /** A PLD list of n entries, z of them 0, gives 2n - z volumes: z m0scans
      and n - z labels and n - z controls. */
  lemma {:induction false} VolumeTypesCounts(plds: seq<Json>, isLabelControl: bool)
    ensures var vt := VolumeTypes(plds, isLabelControl);
      |vt| == 2 * |plds| - ZeroCount(plds) &&
      RoleCount(vt, M0Scan) == ZeroCount(plds) &&
      RoleCount(vt, Label) == |plds| - ZeroCount(plds) &&
      RoleCount(vt, Control) == |plds| - ZeroCount(plds)
  {
    if plds != [] {
      var n := |plds| - 1;
      VolumeTypesCounts(plds[..n], isLabelControl);
      var tail := if IsZero(plds[n]) then [M0Scan] else Pair(isLabelControl);
      assert VolumeTypes(plds, isLabelControl) == VolumeTypes(plds[..n], isLabelControl) + tail;
      assert ZeroCount(plds) == ZeroCount(plds[..n]) + (if IsZero(plds[n]) then 1 else 0);
      TailCounts(tail, isLabelControl);
      RoleCountAppend(VolumeTypes(plds[..n], isLabelControl), tail, M0Scan);
      RoleCountAppend(VolumeTypes(plds[..n], isLabelControl), tail, Label);
      RoleCountAppend(VolumeTypes(plds[..n], isLabelControl), tail, Control);
    }
  }

  lemma TailCounts(tail: seq<Role>, isLabelControl: bool)
    requires tail == [M0Scan] || tail == Pair(isLabelControl)
    ensures tail == [M0Scan] ==> RoleCount(tail, M0Scan) == 1 && RoleCount(tail, Label) == 0 && RoleCount(tail, Control) == 0
    ensures tail != [M0Scan] ==> RoleCount(tail, M0Scan) == 0 && RoleCount(tail, Label) == 1 && RoleCount(tail, Control) == 1
  {
    if tail != [M0Scan] {
      assert tail[..1] == [tail[0]];
      assert tail[..1][..0] == [];
      assert RoleCount([tail[0]], M0Scan) == 0;
    }
  }

  lemma {:induction false} RoleCountAppend(a: seq<Role>, b: seq<Role>, role: Role)
    ensures RoleCount(a + b, role) == RoleCount(a, role) + RoleCount(b, role)
  {
    if b != [] {
      var n := |b| - 1;
      RoleCountAppend(a, b[..n], role);
      assert (a + b)[..|a + b| - 1] == a + b[..n];
    } else {
      assert a + b == a;
    }
  }

  /** A scalar PLD alternates the two roles, starting with the label when
      LabelControl holds. */
  lemma {:induction false} PairTypesAlternate(n: nat, isLabelControl: bool)
    ensures var vt := PairTypes(n, isLabelControl);
      |vt| == 2 * n &&
      forall k :: 0 <= k < 2 * n ==> vt[k] == (if (k % 2 == 0) == isLabelControl then Label else Control)
  {
    if n > 0 {
      PairTypesAlternate(n - 1, isLabelControl);
    }
  }

  /** The volume_type loops of make_sidecar. */
  method BuildVolumeTypes(pld: Json, numVolumes: nat, isLabelControl: bool) returns (vt: seq<Role>)
    ensures pld.JArr? ==> vt == VolumeTypes(pld.items, isLabelControl)
    ensures !pld.JArr? ==> vt == PairTypes(numVolumes / 2, isLabelControl)
  {
    vt := [];
    if pld.JArr? {
      var plds := pld.items;
      var i := 0;
      while i < |plds|
        invariant 0 <= i <= |plds|
        invariant vt == VolumeTypes(plds[..i], isLabelControl)
      {
        assert plds[..i + 1][..i] == plds[..i];
        if IsZero(plds[i]) {
          vt := vt + [M0Scan];
        } else if isLabelControl {
          vt := vt + [Label];
          vt := vt + [Control];
        } else {
          vt := vt + [Control];
          vt := vt + [Label];
        }
        i := i + 1;
      }
      assert plds[..|plds|] == plds;
    } else {
      var i := 0;
      while i < numVolumes / 2
        invariant 0 <= i <= numVolumes / 2
        invariant vt == PairTypes(i, isLabelControl)
      {
        if isLabelControl {
          vt := vt + [Label];
          vt := vt + [Control];
        } else {
          vt := vt + [Control];
          vt := vt + [Label];
        }
        i := i + 1;
      }
    }
  }

  /** The four outputs of make_sidecar. */
  datatype Sidecar = Sidecar(asl: map<string, Json>, anat: map<string, Json>, m0: map<string, Json>, volumeType: seq<Role>)

  /** `make_sidecar`: the ASL sidecar carries the M0 section for Included M0
      and only the non-zero PLDs (the first of them for single-delay data). */
  function MakeSidecar(params: map<string, Json>, numVolumes: nat, isSingleDelay: bool, isLabelControl: bool)
    : (r: Result<Sidecar>)
    requires SidecarReady(params)
    ensures r.Err? <==> (params["ASL"].fields["PostLabelingDelay"].JArr? && isSingleDelay &&
      NonZeroItems(params["ASL"].fields["PostLabelingDelay"].items) == [])
    ensures r.Ok? ==> r.value.anat == params["anat"].fields && r.value.m0 == params["M0"].fields
    ensures r.Ok? && params["ASL"].fields["M0Type"] == JStr("Included") ==> "M0" in r.value.asl && r.value.asl["M0"] == params["M0"]
    ensures r.Ok? && params["ASL"].fields["PostLabelingDelay"].JArr? ==> (
      var nz := NonZeroItems(params["ASL"].fields["PostLabelingDelay"].items);
      "PostLabelingDelay" in r.value.asl && r.value.asl["PostLabelingDelay"] == (if isSingleDelay then nz[0] else JArr(nz)))
    ensures r.Ok? ==> forall k :: k in r.value.asl && k != "M0" && k != "PostLabelingDelay" ==>
      k in params["ASL"].fields && r.value.asl[k] == params["ASL"].fields[k]
    ensures r.Ok? && params["ASL"].fields["PostLabelingDelay"].JArr? ==>
      r.value.volumeType == VolumeTypes(params["ASL"].fields["PostLabelingDelay"].items, isLabelControl)
    ensures r.Ok? && !params["ASL"].fields["PostLabelingDelay"].JArr? ==>
      r.value.volumeType == PairTypes(numVolumes / 2, isLabelControl)
  {
    var asl := params["ASL"].fields;
    var m0 := params["M0"].fields;
    var withM0 := if asl["M0Type"] == JStr("Included") then asl["M0" := JObj(m0)] else asl;
    var pld := asl["PostLabelingDelay"];
    if pld.JArr? then
      var nz := NonZeroItems(pld.items);
      if isSingleDelay && nz == [] then Err(IndexError("list index out of range"))
      else
        var stored := if isSingleDelay then nz[0] else JArr(nz);
        Ok(Sidecar(withM0["PostLabelingDelay" := stored], params["anat"].fields, m0, VolumeTypes(pld.items, isLabelControl)))
    else Ok(Sidecar(withM0, params["anat"].fields, m0, PairTypes(numVolumes / 2, isLabelControl)))
  }

  // ---------------------------------------------------------------------------
  // convert2bids

  /** The volume count check: a PLD list of n entries, z of them 0, needs
      2n - z volumes; a scalar PLD accepts any count. */
  predicate VolumeCountMatches(pld: Json, numVolumes: nat) {
    !pld.JArr? || numVolumes == 2 * |pld.items| - ZeroCount(pld.items)
  }

  /** For a PLD list the count check accepts exactly the series that have one
      volume per aslcontext entry make_sidecar writes. */
  lemma VolumeCountIsContextLength(plds: seq<Json>, numVolumes: nat, isLabelControl: bool)
    ensures VolumeCountMatches(JArr(plds), numVolumes) <==> numVolumes == |VolumeTypes(plds, isLabelControl)|
  {
    VolumeTypesCounts(plds, isLabelControl);
  }

  /** The PLD list over the volume types: a label frame takes the next of
      `values`, any other frame 0; an IndexError once the label frames
      outnumber the values. */
  function LabelValues(vt: seq<Role>, values: seq<Json>): Result<seq<Json>> {
    if vt == [] then Ok([])
    else
      var n := |vt| - 1;
      var before :- LabelValues(vt[..n], values);
      if vt[n] != Label then Ok(before + [JNum(0.0)])
      else
        var j := RoleCount(vt[..n], Label);
        if j < |values| then Ok(before + [values[j]]) else Err(IndexError("list index out of range"))
  }

  /** The list exists exactly when there are enough values; then it has an
      entry per frame, 0 except at label frames, and the j-th label frame
      holds the j-th value. */
  lemma {:induction false} LabelValuesInOrder(vt: seq<Role>, values: seq<Json>)
    ensures LabelValues(vt, values).Ok? <==> RoleCount(vt, Label) <= |values|
    ensures LabelValues(vt, values).Err? ==> LabelValues(vt, values) == Err(IndexError("list index out of range"))
    ensures LabelValues(vt, values).Ok? ==> (
      var r := LabelValues(vt, values).value;
      |r| == |vt| &&
      forall k :: 0 <= k < |vt| ==>
        if vt[k] == Label then RoleCount(vt[..k], Label) < |values| && r[k] == values[RoleCount(vt[..k], Label)]
        else r[k] == JNum(0.0))
  {
    if vt != [] {
      var n := |vt| - 1;
      LabelValuesInOrder(vt[..n], values);
      assert RoleCount(vt, Label) == RoleCount(vt[..n], Label) + (if vt[n] == Label then 1 else 0);
      if LabelValues(vt, values).Ok? {
        var r := LabelValues(vt, values).value;
        forall k | 0 <= k < n
          ensures vt[..n][k] == vt[k] && vt[..n][..k] == vt[..k]
        {
        }
      }
    }
  }

  /** The PLD list of a scalar PLD: the PLD at every label frame, 0 elsewhere. */
  function ScalarPldList(vt: seq<Role>, pld: Json): (r: seq<Json>)
    ensures |r| == |vt| && forall k :: 0 <= k < |vt| ==> r[k] == if vt[k] == Label then pld else JNum(0.0)
  {
    seq(|vt|, k requires 0 <= k < |vt| => if vt[k] == Label then pld else JNum(0.0))
  }

  /** The PLDList of data_description.json: from the non-zero entries of a PLD
      list (`convert2bids`, dropZeros) or from all of them (`read_asl_bids`),
      or the scalar PLD at every label frame. */
  function PldListOf(vt: seq<Role>, pld: Json, dropZeros: bool): Result<seq<Json>> {
    if pld.JArr? then LabelValues(vt, if dropZeros then NonZeroItems(pld.items) else pld.items)
    else Ok(ScalarPldList(vt, pld))
  }

  lemma {:induction false} RoleCountPrefix(vt: seq<Role>, k: nat, role: Role)
    requires k <= |vt|
    ensures RoleCount(vt[..k], role) <= RoleCount(vt, role)
  {
    RoleCountAppend(vt[..k], vt[k..], role);
    assert vt[..k] + vt[k..] == vt;
  }

  /** The loop that fills the PLD list from a list of values, with `i` the
      number of label frames seen. */
  method FillPldList(vt: seq<Role>, values: seq<Json>) returns (r: Result<seq<Json>>)
    ensures r == LabelValues(vt, values)
  {
    var pl: seq<Json> := [];
    var i := 0;
    var k := 0;
    while k < |vt|
      invariant 0 <= k <= |vt|
      invariant i == RoleCount(vt[..k], Label)
      invariant LabelValues(vt[..k], values) == Ok(pl)
    {
      assert vt[..k + 1][..k] == vt[..k];
      if vt[k] == Label {
        if i >= |values| {
          assert RoleCount(vt[..k + 1], Label) == i + 1;
          RoleCountPrefix(vt, k + 1, Label);
          LabelValuesInOrder(vt, values);
          return Err(IndexError("list index out of range"));
        }
        pl := pl + [values[i]];
        i := i + 1;
      } else {
        pl := pl + [JNum(0.0)];
      }
      k := k + 1;
    }
    assert vt[..|vt|] == vt;
    r := Ok(pl);
  }

  /** The two PLDList loops of the import. */
  method BuildPldList(vt: seq<Role>, pld: Json, dropZeros: bool) returns (r: Result<seq<Json>>)
    ensures r == PldListOf(vt, pld, dropZeros)
  {
    if pld.JArr? {
      var values := if dropZeros then NonZeroItems(pld.items) else pld.items;
      r := FillPldList(vt, values);
    } else {
      var pl: seq<Json> := [];
      var k := 0;
      while k < |vt|
        invariant 0 <= k <= |vt|
        invariant pl == ScalarPldList(vt[..k], pld)
      {
        pl := pl + [if vt[k] == Label then pld else JNum(0.0)];
        k := k + 1;
      }
      assert vt[..|vt|] == vt;
      r := Ok(pl);
    }
  }

  /** The aslcontext volume types written by make_sidecar always fit the
      non-zero PLDs: one per label frame, so the PLD list never raises. */
  lemma SidecarPldListFits(plds: seq<Json>, isLabelControl: bool)
    ensures PldListOf(VolumeTypes(plds, isLabelControl), JArr(plds), true).Ok?
  {
    VolumeTypesCounts(plds, isLabelControl);
    LabelValuesInOrder(VolumeTypes(plds, isLabelControl), NonZeroItems(plds));
  }

  function RoleName(r: Role): Json {
    match r
    case Control => JStr("control")
    case Label => JStr("label")
    case M0Scan => JStr("m0scan")
    case OtherRole(tag) => JStr(tag)
  }

  /** One session of the raw data: its perf directory, whether an M0 image is
      among its perf images, and the volume count of its first ASL image. */
  datatype Session = Session(perfPath: string, hasM0File: bool, numVolumes: nat)

  /** The first session that fails the per-session checks, in order. */
  function SessionProblem(sessions: seq<Session>, asl: map<string, Json>): Option<string>
    requires "M0Type" in asl && "PostLabelingDelay" in asl
  {
    if sessions == [] then None
    else if asl["M0Type"] == JStr("Separate") && !sessions[0].hasM0File then
      Some("No separate M0 file found in " + sessions[0].perfPath)
    else if !VolumeCountMatches(asl["PostLabelingDelay"], sessions[0].numVolumes) then
      Some("Number of volumes in ASL image does not match PostLabelingDelay parameter")
    else SessionProblem(sessions[1..], asl)
  }

  /** `num_volumes` after the session loop: the count of the last session. */
  function LastVolumes(sessions: seq<Session>): nat {
    if sessions == [] then 0 else sessions[|sessions| - 1].numVolumes
  }

  datatype Converted = Rejected(msg: string) | Converted(description: map<string, Json>, sidecar: Sidecar)

  /** `convert2bids` minus the file copying: the session checks, the sidecar,
      and data_description.json (whose Images entry, the file names, is not
      modelled). */
  function Convert2Bids(params: map<string, Json>, sessions: seq<Session>, hasStructural: bool,
                        isSingleDelay: bool, isLabelControl: bool): Result<Converted>
    requires SidecarReady(params)
  {
    var asl := params["ASL"].fields;
    var problem := SessionProblem(sessions, asl);
    if problem.Some? then Ok(Rejected(problem.value))
    else
      var sc :- MakeSidecar(params, LastVolumes(sessions), isSingleDelay, isLabelControl);
      var pldList :- PldListOf(sc.volumeType, asl["PostLabelingDelay"], true);
      var d := if hasStructural then sc.asl["anat" := JObj(sc.anat)] else sc.asl;
      var d' := if asl["M0Type"] != JStr("Estimate") then d["M0" := JObj(sc.m0)] else d;
      Ok(Converted(d'["SingleDelay" := JBool(isSingleDelay)]["LabelControl" := JBool(isLabelControl)]
                     ["ASLContext" := JArr(seq(|sc.volumeType|, k requires 0 <= k < |sc.volumeType| => RoleName(sc.volumeType[k])))]
                     ["PLDList" := JArr(pldList)], sc))
  }

  /** The conversion raises only where make_sidecar does: single-delay data
      whose PLD list holds nothing but zeros. */
  lemma ConvertRaisesOnlyOnAllZeroPlds(params: map<string, Json>, sessions: seq<Session>, hasStructural: bool,
                                       isSingleDelay: bool, isLabelControl: bool)
    requires SidecarReady(params)
    ensures Convert2Bids(params, sessions, hasStructural, isSingleDelay, isLabelControl).Err? <==>
      (SessionProblem(sessions, params["ASL"].fields).None? && isSingleDelay &&
       params["ASL"].fields["PostLabelingDelay"].JArr? && NonZeroItems(params["ASL"].fields["PostLabelingDelay"].items) == [])
  {
    var pld := params["ASL"].fields["PostLabelingDelay"];
    if pld.JArr? {
      SidecarPldListFits(pld.items, isLabelControl);
    }
  }

  /** A conversion that passes the session checks has the volume count of
      every session equal to the aslcontext length. */
  lemma {:induction false} SessionsMatchContext(sessions: seq<Session>, asl: map<string, Json>, isLabelControl: bool)
    requires "M0Type" in asl && "PostLabelingDelay" in asl && asl["PostLabelingDelay"].JArr?
    requires SessionProblem(sessions, asl).None?
    ensures forall i :: 0 <= i < |sessions| ==>
      sessions[i].numVolumes == |VolumeTypes(asl["PostLabelingDelay"].items, isLabelControl)|
  {
    if sessions != [] {
      SessionsMatchContext(sessions[1..], asl, isLabelControl);
      VolumeCountIsContextLength(asl["PostLabelingDelay"].items, sessions[0].numVolumes, isLabelControl);
      forall i | 1 <= i < |sessions|
        ensures sessions[i] == sessions[1..][i - 1]
      {
      }
    }
  }

  // ---------------------------------------------------------------------------
  // read_asl_bids

  /** LabelControl: true when the first label or control volume is a label,
      false when it is a control, unset when there is neither. */
  function LabelControlOf(vt: seq<Role>): Option<bool> {
    if vt == [] then None
    else if vt[0] == Label then Some(true)
    else if vt[0] == Control then Some(false)
    else LabelControlOf(vt[1..])
  }

  lemma {:induction false} LabelControlIsFirst(vt: seq<Role>)
    ensures LabelControlOf(vt).None? <==> forall k :: 0 <= k < |vt| ==> vt[k] != Label && vt[k] != Control
    ensures forall k :: (0 <= k < |vt| && (vt[k] == Label || vt[k] == Control) &&
      (forall j :: 0 <= j < k ==> vt[j] != Label && vt[j] != Control)) ==> LabelControlOf(vt) == Some(vt[k] == Label)
  {
    if vt != [] {
      LabelControlIsFirst(vt[1..]);
      forall k | 1 <= k < |vt|
        ensures vt[k] == vt[1..][k - 1]
      {
      }
    }
  }

  /** SingleDelay: a PLD list holding one distinct value, or a scalar PLD. */
  function SingleDelayOf(pld: Json): bool {
    if pld.JArr? then |set k | 0 <= k < |pld.items| :: pld.items[k]| == 1 else true
  }

  /** A PLD list is single-delay exactly when it is not empty and all its
      entries are equal. */
  lemma SingleDelayIffOneValue(plds: seq<Json>)
    ensures SingleDelayOf(JArr(plds)) <==> plds != [] && forall k :: 0 <= k < |plds| ==> plds[k] == plds[0]
  {
    var vals := set k | 0 <= k < |plds| :: plds[k];
    if plds == [] {
      assert vals == {};
    }
    if plds != [] && forall k :: 0 <= k < |plds| ==> plds[k] == plds[0] {
      assert vals == {plds[0]};
    }
    if |vals| == 1 {
      forall k | 0 <= k < |plds|
        ensures plds[k] == plds[0]
      {
        if plds[k] != plds[0] {
          assert {plds[0], plds[k]} <= vals;
          assert |{plds[0], plds[k]}| == 2;
          SubsetCard({plds[0], plds[k]}, vals);
        }
      }
    }
  }

  lemma {:induction false} SubsetCard<T>(a: set<T>, b: set<T>)
    requires a <= b
    ensures |a| <= |b|
    decreases |a|
  {
    if a != {} {
      var x :| x in a;
      SubsetCard(a - {x}, b - {x});
    }
  }

  /** What read_asl_bids derives from the sidecar and the aslcontext. */
  datatype BidsContext = BidsContext(aslContext: seq<Role>, labelControl: Option<bool>, singleDelay: bool, pldList: seq<Json>)

  /** `read_asl_bids` on the first ASL sidecar and its aslcontext: the j-th
      label frame takes `PostLabelingDelay[j]`. */
  function ReadAslBids(sidecar: map<string, Json>, vt: seq<Role>): Result<BidsContext> {
    if "PostLabelingDelay" !in sidecar then Err(KeyError("PostLabelingDelay"))
    else
      var pld := sidecar["PostLabelingDelay"];
      var pl :- PldListOf(vt, pld, false);
      Ok(BidsContext(vt, LabelControlOf(vt), SingleDelayOf(pld), pl))
  }

  /** The volume types of make_sidecar start with the chosen order whenever
      they hold a pair. */
  lemma {:induction false} SidecarLabelControl(plds: seq<Json>, isLabelControl: bool)
    requires HasPair(plds)
    ensures LabelControlOf(VolumeTypes(plds, isLabelControl)) == Some(isLabelControl)
  {
    var n := |plds| - 1;
    var vt := VolumeTypes(plds, isLabelControl);
    var before := VolumeTypes(plds[..n], isLabelControl);
    if HasPair(plds[..n]) {
      SidecarLabelControl(plds[..n], isLabelControl);
      LabelControlPrefix(before, vt);
    } else {
      OnlyM0Scans(plds[..n], isLabelControl);
      assert !IsZero(plds[n]);
      LabelControlIsFirst(vt);
      assert vt[|before|] == (if isLabelControl then Label else Control);
    }
  }

  /** Some PLD is not 0, so the volume types hold a pair. */
  predicate HasPair(plds: seq<Json>) {
    exists k :: 0 <= k < |plds| && !IsZero(plds[k])
  }

  /** A prefix that settles LabelControl settles it for the whole list. */
  lemma {:induction false} LabelControlPrefix(a: seq<Role>, b: seq<Role>)
    requires |a| <= |b| && b[..|a|] == a && LabelControlOf(a).Some?
    ensures LabelControlOf(b) == LabelControlOf(a)
  {
    if a[0] != Label && a[0] != Control {
      assert b[1..][..|a[1..]|] == a[1..];
      LabelControlPrefix(a[1..], b[1..]);
    }
  }

  /** All-zero PLDs give only m0scans. */
  lemma {:induction false} OnlyM0Scans(plds: seq<Json>, isLabelControl: bool)
    requires forall k :: 0 <= k < |plds| ==> IsZero(plds[k])
    ensures forall k :: 0 <= k < |VolumeTypes(plds, isLabelControl)| ==> VolumeTypes(plds, isLabelControl)[k] == M0Scan
  {
    if plds != [] {
      OnlyM0Scans(plds[..|plds| - 1], isLabelControl);
    }
  }

  /** Reading back a multi-delay conversion: the sidecar's PLD list gives the
      PLD list convert2bids wrote, and LabelControl is the order chosen. */
  lemma MultiDelayRoundTrip(params: map<string, Json>, numVolumes: nat, isLabelControl: bool)
    requires SidecarReady(params) && params["ASL"].fields["PostLabelingDelay"].JArr?
    requires HasPair(params["ASL"].fields["PostLabelingDelay"].items)
    ensures var sc := MakeSidecar(params, numVolumes, false, isLabelControl).value;
      var back := ReadAslBids(sc.asl, sc.volumeType);
      back.Ok? && back.value.labelControl == Some(isLabelControl) &&
      PldListOf(sc.volumeType, params["ASL"].fields["PostLabelingDelay"], true) == Ok(back.value.pldList)
  {
    var plds := params["ASL"].fields["PostLabelingDelay"].items;
    SidecarPldListFits(plds, isLabelControl);
    SidecarLabelControl(plds, isLabelControl);
  }

  /** Values that all agree fill the PLD list as the scalar does. */
  lemma ConstantValues(vt: seq<Role>, values: seq<Json>)
    requires values != [] && forall k :: 0 <= k < |values| ==> values[k] == values[0]
    requires RoleCount(vt, Label) <= |values|
    ensures LabelValues(vt, values) == Ok(ScalarPldList(vt, values[0]))
  {
    LabelValuesInOrder(vt, values);
    var a := LabelValues(vt, values).value;
    var b := ScalarPldList(vt, values[0]);
    assert |a| == |vt| == |b|;
    forall k | 0 <= k < |a|
      ensures a[k] == b[k]
    {
      if vt[k] == Label {
        var j := RoleCount(vt[..k], Label);
        assert j < |values| && a[k] == values[j];
        assert values[j] == values[0];
      } else {
        assert a[k] == JNum(0.0);
      }
    }
    assert a == b;
  }

  /** Reading back a single-delay conversion whose non-zero PLDs agree gives
      the same PLD list, now from the scalar the sidecar stores. */
  lemma SingleDelayRoundTrip(params: map<string, Json>, numVolumes: nat, isLabelControl: bool)
    requires SidecarReady(params) && params["ASL"].fields["PostLabelingDelay"].JArr?
    requires var nz := NonZeroItems(params["ASL"].fields["PostLabelingDelay"].items);
      nz != [] && !nz[0].JArr? && forall k :: 0 <= k < |nz| ==> nz[k] == nz[0]
    ensures var sc := MakeSidecar(params, numVolumes, true, isLabelControl).value;
      var back := ReadAslBids(sc.asl, sc.volumeType);
      back.Ok? && back.value.singleDelay &&
      PldListOf(sc.volumeType, params["ASL"].fields["PostLabelingDelay"], true) == Ok(back.value.pldList)
  {
    var plds := params["ASL"].fields["PostLabelingDelay"].items;
    var nz := NonZeroItems(plds);
    var vt := VolumeTypes(plds, isLabelControl);
    VolumeTypesCounts(plds, isLabelControl);
    ConstantValues(vt, nz);
    var sc := MakeSidecar(params, numVolumes, true, isLabelControl).value;
    assert sc.volumeType == vt;
    assert sc.asl["PostLabelingDelay"] == nz[0];
    assert PldListOf(vt, nz[0], false) == Ok(ScalarPldList(vt, nz[0]));
  }
}
