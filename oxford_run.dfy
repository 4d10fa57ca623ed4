/** The command line that PyASL's OxfordASLRun module builds for FSL's
    oxford_asl (pyasl/modules/oxford_asl_run.py): the inversion times from
    the PLD list, the bolus and labeling flags, and the input and calibration
    files. The command itself is not run. Number formatting (`f"{x:g}"`,
    `str(x)`) and the file system are parameters. */
module OxfordAslRun {
  import opened Common
  import opened DataImport

  /** How numbers pass to and from text: `f"{x:g}"`, `str(x)` and the
      parse of `float(s)` on a string (None when it is not a number). */
  datatype Text = Text(g: real -> string, str: Json -> string, parse: string -> Option<real>)

  /** `sep.join(parts)`. */
  function Join(parts: seq<string>, sep: string): string {
    if parts == [] then ""
    else if |parts| == 1 then parts[0]
    else Join(parts[..|parts| - 1], sep) + sep + parts[|parts| - 1]
  }

  // ---------------------------------------------------------------------------
  // _plds_seq

  /** `_plds_seq`: the non-zero entries of `dd.get("PLDList", [])`. A string
      is iterated character by character (a one-character string is never
      equal to 0); a number, a bool or null cannot be iterated. An object
      would be iterated over its keys in insertion order, which a map does
      not keep: the model reports it as not iterable. */
  function PldsSeq(dd: map<string, Json>): (r: Result<seq<Json>>)
    ensures "PLDList" !in dd ==> r == Ok([])
    ensures "PLDList" in dd && dd["PLDList"].JArr? ==> (r.Ok? &&
      forall x :: x in r.value <==> x in dd["PLDList"].items && !IsZero(x))
    ensures "PLDList" in dd && dd["PLDList"].JStr? ==> (r.Ok? && |r.value| == |dd["PLDList"].s| &&
      forall i :: 0 <= i < |r.value| ==> r.value[i] == JStr([dd["PLDList"].s[i]]))
    ensures "PLDList" in dd && (dd["PLDList"].JNum? || dd["PLDList"].JBool? || dd["PLDList"].JNull?) ==>
      r.Err? && r.error.TypeError?
  {
    if "PLDList" !in dd then Ok([])
    else
      match dd["PLDList"]
      case JArr(items) =>
        NonZeroKeepsAll(items);
        Ok(NonZeroItems(items))
      case JStr(s) => Ok(seq(|s|, i requires 0 <= i < |s| => JStr([s[i]])))
      case _ => Err(TypeError("PLDList is not iterable"))
  }

  /** Every non-zero entry survives the filter. */
  lemma {:induction false} NonZeroKeepsAll(xs: seq<Json>)
    ensures forall x :: x in xs && !IsZero(x) ==> x in NonZeroItems(xs)
  {
    if xs != [] {
      var n := |xs| - 1;
      NonZeroKeepsAll(xs[..n]);
      assert xs == xs[..n] + [xs[n]];
    }
  }

  // ---------------------------------------------------------------------------
  // _collapse_equal

  const DefaultTol: real := 0.000001

  /** The first loop: a value is kept unless it is within tol of the last
      value kept. */
  function DropRuns(vals: seq<real>, tol: real): (out: seq<real>)
    ensures |out| <= |vals|
    ensures vals != [] ==> out != [] && out[0] == vals[0]
    ensures forall x :: x in out ==> x in vals
  {
    if vals == [] then []
    else
      var prev := DropRuns(vals[..|vals| - 1], tol);
      var v := vals[|vals| - 1];
      if prev == [] || Abs(v - prev[|prev| - 1]) > tol then prev + [v] else prev
  }

  /** v is more than tol away from every entry of kept. */
  predicate FarFrom(v: real, kept: seq<real>, tol: real) {
    forall k :: 0 <= k < |kept| ==> Abs(v - kept[k]) > tol
  }

  /** The second loop: a value is kept unless it is within tol of any value
      kept before it. */
  function KeepDistinct(out: seq<real>, tol: real): (uniq: seq<real>)
    ensures |uniq| <= |out|
    ensures out != [] ==> uniq != [] && uniq[0] == out[0]
    ensures forall x :: x in uniq ==> x in out
    ensures forall i, j :: 0 <= i < j < |uniq| ==> Abs(uniq[j] - uniq[i]) > tol
  {
    if out == [] then []
    else
      var prev := KeepDistinct(out[..|out| - 1], tol);
      var v := out[|out| - 1];
      if FarFrom(v, prev, tol) then prev + [v] else prev
  }

  /** `_collapse_equal(vals, tol)`. */
  function Collapse(vals: seq<real>, tol: real): seq<real> {
    KeepDistinct(DropRuns(vals, tol), tol)
  }

  /** The result keeps no two values within tol, starts with the first
      input, and holds only inputs. */
  lemma CollapseSeparated(vals: seq<real>, tol: real)
    ensures var r := Collapse(vals, tol);
      |r| <= |vals| && (vals != [] <==> r != []) && (vals != [] ==> r[0] == vals[0]) &&
      (forall x :: x in r ==> x in vals) &&
      (forall i, j :: 0 <= i < j < |r| ==> Abs(r[j] - r[i]) > tol)
  {
  }

  /** `idx` places a in b, in order: a is a subsequence of b. */
  predicate Embeds(a: seq<real>, b: seq<real>, idx: seq<nat>) {
    |idx| == |a| &&
    (forall j :: 0 <= j < |idx| ==> idx[j] < |b| && a[j] == b[idx[j]]) &&
    (forall j, j' :: 0 <= j < j' < |idx| ==> idx[j] < idx[j'])
  }

  lemma {:induction false} DropRunsEmbeds(vals: seq<real>, tol: real) returns (idx: seq<nat>)
    ensures Embeds(DropRuns(vals, tol), vals, idx)
  {
    if vals == [] {
      idx := [];
    } else {
      var n := |vals| - 1;
      var before := DropRunsEmbeds(vals[..n], tol);
      idx := DropRunsEmbedsStep(vals, tol, before);
    }
  }

  lemma DropRunsEmbedsStep(vals: seq<real>, tol: real, before: seq<nat>) returns (idx: seq<nat>)
    requires vals != [] && Embeds(DropRuns(vals[..|vals| - 1], tol), vals[..|vals| - 1], before)
    ensures Embeds(DropRuns(vals, tol), vals, idx)
  {
    var n := |vals| - 1;
    var prev := DropRuns(vals[..n], tol);
    var keep := prev == [] || Abs(vals[n] - prev[|prev| - 1]) > tol;
    assert DropRuns(vals, tol) == if keep then prev + [vals[n]] else prev;
    idx := EmbedsStep(prev, vals, before, keep, DropRuns(vals, tol));
  }

  /** One step of either loop: the last entry of b is kept or dropped. */
  lemma EmbedsStep(a: seq<real>, b: seq<real>, idx: seq<nat>, keep: bool, a': seq<real>) returns (idx': seq<nat>)
    requires b != [] && Embeds(a, b[..|b| - 1], idx)
    requires a' == if keep then a + [b[|b| - 1]] else a
    ensures Embeds(a', b, idx')
  {
    if keep {
      EmbedsSnoc(a, b, idx);
      idx' := idx + [|b| - 1];
    } else {
      EmbedsExtend(a, b, idx);
      idx' := idx;
    }
  }

  /** An embedding into all but the last entry embeds into the whole. */
  lemma EmbedsExtend(a: seq<real>, b: seq<real>, idx: seq<nat>)
    requires b != [] && Embeds(a, b[..|b| - 1], idx)
    ensures Embeds(a, b, idx)
  {
    forall j | 0 <= j < |idx|
      ensures idx[j] < |b| && a[j] == b[idx[j]]
    {
      assert b[..|b| - 1][idx[j]] == b[idx[j]];
    }
  }

  /** ... and, with the last entry appended to a, places it last. */
  lemma EmbedsSnoc(a: seq<real>, b: seq<real>, idx: seq<nat>)
    requires b != [] && Embeds(a, b[..|b| - 1], idx)
    ensures Embeds(a + [b[|b| - 1]], b, idx + [|b| - 1])
  {
    EmbedsExtend(a, b, idx);
    var a', idx' := a + [b[|b| - 1]], idx + [|b| - 1];
    forall j | 0 <= j < |idx'|
      ensures idx'[j] < |b| && a'[j] == b[idx'[j]]
    {
      if j < |idx| {
        assert idx'[j] == idx[j] && a'[j] == a[j];
      }
    }
  }

  lemma {:induction false} KeepDistinctEmbeds(out: seq<real>, tol: real) returns (idx: seq<nat>)
    ensures Embeds(KeepDistinct(out, tol), out, idx)
  {
    if out == [] {
      idx := [];
    } else {
      var n := |out| - 1;
      var before := KeepDistinctEmbeds(out[..n], tol);
      idx := KeepDistinctEmbedsStep(out, tol, before);
    }
  }

  lemma KeepDistinctEmbedsStep(out: seq<real>, tol: real, before: seq<nat>) returns (idx: seq<nat>)
    requires out != [] && Embeds(KeepDistinct(out[..|out| - 1], tol), out[..|out| - 1], before)
    ensures Embeds(KeepDistinct(out, tol), out, idx)
  {
    var n := |out| - 1;
    var prev := KeepDistinct(out[..n], tol);
    var keep := FarFrom(out[n], prev, tol);
    assert KeepDistinct(out, tol) == if keep then prev + [out[n]] else prev;
    idx := EmbedsStep(prev, out, before, keep, KeepDistinct(out, tol));
  }

  /** The result lists its values in the order they first appear in the input. */
  lemma CollapseKeepsOrder(vals: seq<real>, tol: real) returns (idx: seq<nat>)
    ensures Embeds(Collapse(vals, tol), vals, idx)
  {
    var out := DropRuns(vals, tol);
    var i1 := DropRunsEmbeds(vals, tol);
    var i2 := KeepDistinctEmbeds(out, tol);
    idx := seq(|i2|, j requires 0 <= j < |i2| => i1[i2[j]]);
  }

  /** v is within d of some entry of s. */
  predicate Near(v: real, s: seq<real>, d: real) {
    exists k :: 0 <= k < |s| && Abs(v - s[k]) <= d
  }

  /** Every entry of vals is within d of some entry of s. */
  predicate Covers(s: seq<real>, vals: seq<real>, d: real) {
    forall i :: 0 <= i < |vals| ==> Near(vals[i], s, d)
  }

  lemma NearPrefix(v: real, a: seq<real>, b: seq<real>, d: real)
    requires Near(v, a, d) && a <= b
    ensures Near(v, b, d)
  {
    var k :| 0 <= k < |a| && Abs(v - a[k]) <= d;
    assert b[k] == a[k];
  }

  lemma NearLast(s: seq<real>, d: real)
    requires s != [] && d >= 0.0
    ensures Near(s[|s| - 1], s, d)
  {
    assert Abs(s[|s| - 1] - s[|s| - 1]) <= d;
  }

  /** Every input is within tol of a value the first loop keeps. */
  lemma {:induction false} DropRunsCovers(vals: seq<real>, tol: real)
    requires tol >= 0.0
    ensures Covers(DropRuns(vals, tol), vals, tol)
  {
    if vals != [] {
      var n := |vals| - 1;
      DropRunsCovers(vals[..n], tol);
      var prev := DropRuns(vals[..n], tol);
      var keep := prev == [] || Abs(vals[n] - prev[|prev| - 1]) > tol;
      assert DropRuns(vals, tol) == if keep then prev + [vals[n]] else prev;
      if !keep {
        assert Abs(vals[n] - prev[|prev| - 1]) <= tol;
      }
      CoversStep(prev, vals, tol, keep, DropRuns(vals, tol));
    }
  }

  /** Every value the first loop keeps is within tol of one the second keeps. */
  lemma {:induction false} KeepDistinctCovers(out: seq<real>, tol: real)
    requires tol >= 0.0
    ensures Covers(KeepDistinct(out, tol), out, tol)
  {
    if out != [] {
      var n := |out| - 1;
      KeepDistinctCovers(out[..n], tol);
      var prev := KeepDistinct(out[..n], tol);
      var keep := FarFrom(out[n], prev, tol);
      assert KeepDistinct(out, tol) == if keep then prev + [out[n]] else prev;
      CoversStep(prev, out, tol, keep, KeepDistinct(out, tol));
    }
  }

  /** One step of either loop: a kept last entry covers itself, a dropped one
      is near an earlier kept value. */
  lemma CoversStep(prev: seq<real>, vals: seq<real>, tol: real, keep: bool, next: seq<real>)
    requires tol >= 0.0 && vals != [] && Covers(prev, vals[..|vals| - 1], tol)
    requires !keep ==> Near(vals[|vals| - 1], prev, tol)
    requires next == if keep then prev + [vals[|vals| - 1]] else prev
    ensures Covers(next, vals, tol)
  {
    var n := |vals| - 1;
    assert prev <= next;
    forall i | 0 <= i < |vals|
      ensures Near(vals[i], next, tol)
    {
      if i < n {
        assert vals[i] == vals[..n][i];
        NearPrefix(vals[i], prev, next, tol);
      } else if keep {
        NearLast(next, tol);
      } else {
        NearPrefix(vals[n], prev, next, tol);
      }
    }
  }

  /** Every input lies within 2 tol of a value of the result. */
  lemma CollapseCovers(vals: seq<real>, tol: real)
    requires tol >= 0.0
    ensures Covers(Collapse(vals, tol), vals, 2.0 * tol)
  {
    var out := DropRuns(vals, tol);
    var uniq := Collapse(vals, tol);
    DropRunsCovers(vals, tol);
    KeepDistinctCovers(out, tol);
    forall i | 0 <= i < |vals|
      ensures Near(vals[i], uniq, 2.0 * tol)
    {
      NearThrough(vals[i], out, uniq, tol);
    }
  }

  /** Nearness adds up through an intermediate sequence. */
  lemma NearThrough(v: real, out: seq<real>, uniq: seq<real>, tol: real)
    requires Near(v, out, tol) && Covers(uniq, out, tol)
    ensures Near(v, uniq, 2.0 * tol)
  {
    var m :| 0 <= m < |out| && Abs(v - out[m]) <= tol;
    assert Near(out[m], uniq, tol);
    var k :| 0 <= k < |uniq| && Abs(out[m] - uniq[k]) <= tol;
    assert Abs(v - uniq[k]) <= 2.0 * tol;
  }

  lemma DropRunsExample()
    ensures DropRuns([0.0, 5.0, 0.9, 1.8], 1.0) == [0.0, 5.0, 0.9]
  {
    var vals := [0.0, 5.0, 0.9, 1.8];
    assert vals[..3] == [0.0, 5.0, 0.9];
    assert vals[..3][..2] == [0.0, 5.0];
    assert vals[..3][..2][..1] == [0.0];
    assert vals[..3][..2][..1][..0] == [];
    assert DropRuns([0.0], 1.0) == [0.0];
    assert DropRuns([0.0, 5.0], 1.0) == [0.0, 5.0];
    assert DropRuns([0.0, 5.0, 0.9], 1.0) == [0.0, 5.0, 0.9];
  }

  lemma KeepDistinctExample()
    ensures KeepDistinct([0.0, 5.0, 0.9], 1.0) == [0.0, 5.0]
  {
    var out := [0.0, 5.0, 0.9];
    assert out[..2] == [0.0, 5.0];
    KeepDistinctTwo();
    assert !FarFrom(0.9, [0.0, 5.0], 1.0);
  }

  lemma KeepDistinctTwo()
    ensures KeepDistinct([0.0, 5.0], 1.0) == [0.0, 5.0]
  {
    var out := [0.0, 5.0];
    assert out[..1] == [0.0];
    assert out[..1][..0] == [];
    assert KeepDistinct([0.0], 1.0) == [0.0];
    assert FarFrom(5.0, [0.0], 1.0);
  }

  /** Within tol alone the result need not cover the input: with tol 1,
      [0, 5, 0.9, 1.8] collapses to [0, 5], and 1.8 is 1.8 from 0. */
  lemma CollapseMissesWithinTol()
    ensures Collapse([0.0, 5.0, 0.9, 1.8], 1.0) == [0.0, 5.0]
    ensures !Covers(Collapse([0.0, 5.0, 0.9, 1.8], 1.0), [0.0, 5.0, 0.9, 1.8], 1.0)
  {
    DropRunsExample();
    KeepDistinctExample();
    var vals := [0.0, 5.0, 0.9, 1.8];
    assert Abs(1.8 - [0.0, 5.0][0]) > 1.0 && Abs(1.8 - [0.0, 5.0][1]) > 1.0;
    assert !Near(vals[3], [0.0, 5.0], 1.0);
  }

  /** The first loop of `_collapse_equal`. */
  method DropRunsLoop(vals: seq<real>, tol: real) returns (out: seq<real>)
    ensures out == DropRuns(vals, tol)
  {
    out := [];
    var i := 0;
    while i < |vals|
      invariant 0 <= i <= |vals|
      invariant out == DropRuns(vals[..i], tol)
    {
      assert vals[..i + 1][..i] == vals[..i];
      var v := vals[i];
      if out == [] || Abs(v - out[|out| - 1]) > tol {
        out := out + [v];
      }
      i := i + 1;
    }
    assert vals[..|vals|] == vals;
  }

  /** `all(abs(v - u) > tol for u in uniq)`. */
  method IsFarFrom(v: real, uniq: seq<real>, tol: real) returns (far: bool)
    ensures far <==> FarFrom(v, uniq, tol)
  {
    far := true;
    var k := 0;
    while k < |uniq|
      invariant 0 <= k <= |uniq|
      invariant far <==> forall m :: 0 <= m < k ==> Abs(v - uniq[m]) > tol
    {
      if Abs(v - uniq[k]) <= tol {
        far := false;
      }
      k := k + 1;
    }
  }

  /** The second loop of `_collapse_equal`. */
  method KeepDistinctLoop(out: seq<real>, tol: real) returns (uniq: seq<real>)
    ensures uniq == KeepDistinct(out, tol)
  {
    uniq := [];
    var i := 0;
    while i < |out|
      invariant 0 <= i <= |out|
      invariant uniq == KeepDistinct(out[..i], tol)
    {
      assert out[..i + 1][..i] == out[..i];
      var far := IsFarFrom(out[i], uniq, tol);
      if far {
        uniq := uniq + [out[i]];
      }
      i := i + 1;
    }
    assert out[..|out|] == out;
  }

  /** `_collapse_equal`: the two loops in turn. */
  method CollapseEqual(vals: seq<real>, tol: real) returns (uniq: seq<real>)
    ensures uniq == Collapse(vals, tol)
  {
    var out := DropRunsLoop(vals, tol);
    uniq := KeepDistinctLoop(out, tol);
  }

  // ---------------------------------------------------------------------------
  // _compute_tis_bolus

  /** `float(x)` of a JSON value: numbers and booleans convert, strings are
      parsed, anything else is refused. */
  function FloatOf(x: Json, t: Text): (r: Result<real>)
    ensures x.JNum? ==> r == Ok(x.n)
    ensures x.JNull? || x.JArr? || x.JObj? ==> r.Err?
  {
    match x
    case JNum(n) => Ok(n)
    case JBool(b) => Ok(if b then 1.0 else 0.0)
    case JStr(s) =>
      (match t.parse(s)
       case Some(v) => Ok(v)
       case None => Err(ValueError("could not convert string to float: " + s)))
    case _ => Err(TypeError("float() argument must be a string or a real number"))
  }

  /** `[float(pld) + bolus for pld in plds]`. */
  function ShiftAll(plds: seq<Json>, bolus: real, t: Text): (r: Result<seq<real>>)
    ensures r.Ok? ==> (|r.value| == |plds| &&
      forall k :: 0 <= k < |plds| ==> FloatOf(plds[k], t).Ok? && r.value[k] == FloatOf(plds[k], t).value + bolus)
    ensures r.Err? <==> exists k :: 0 <= k < |plds| && FloatOf(plds[k], t).Err?
  {
    if plds == [] then Ok([])
    else
      var before :- ShiftAll(plds[..|plds| - 1], bolus, t);
      var x :- FloatOf(plds[|plds| - 1], t);
      Ok(before + [x + bolus])
  }

  datatype TisBolus = TisBolus(tis: seq<real>, bolus: real, isCasl: bool)

  /** The key holding the bolus duration for a labeling type. */
  function BolusKey(isCasl: bool): string {
    if isCasl then "LabelingDuration" else "BolusCutOffDelayTime"
  }

  /** `_compute_tis_bolus`: the collapsed inversion times PLD + bolus, the
      bolus (LabelingDuration for CASL and PCASL, BolusCutOffDelayTime for
      PASL), and whether the labeling is continuous. */
  function ComputeTisBolus(dd: map<string, Json>, t: Text): (r: Result<TisBolus>)
    ensures "ArterialSpinLabelingType" !in dd ==> r == Err(KeyError("ArterialSpinLabelingType"))
    ensures "ArterialSpinLabelingType" in dd && dd["ArterialSpinLabelingType"] !in {JStr("CASL"), JStr("PCASL"), JStr("PASL")} ==>
      r.Err? && r.error.ValueError?
    ensures r.Ok? ==> (r.value.isCasl <==> dd["ArterialSpinLabelingType"] in {JStr("CASL"), JStr("PCASL")})
    ensures r.Ok? ==> BolusKey(r.value.isCasl) in dd && FloatOf(dd[BolusKey(r.value.isCasl)], t) == Ok(r.value.bolus)
  {
    if "ArterialSpinLabelingType" !in dd then Err(KeyError("ArterialSpinLabelingType"))
    else
      var typ := dd["ArterialSpinLabelingType"];
      if typ == JStr("CASL") || typ == JStr("PCASL") || typ == JStr("PASL") then
        var isCasl := typ != JStr("PASL");
        if BolusKey(isCasl) !in dd then Err(KeyError(BolusKey(isCasl)))
        else
          var bolus :- FloatOf(dd[BolusKey(isCasl)], t);
          var plds :- PldsSeq(dd);
          var raw :- ShiftAll(plds, bolus, t);
          Ok(TisBolus(if raw != [] then Collapse(raw, DefaultTol) else [], bolus, isCasl))
      else Err(ValueError("Unsupported ASL type: " + (if typ.JStr? then typ.s else t.str(typ))))
  }

  /** The inversion times are the distinct values of PLD + bolus over the
      non-zero PLDs, in order of first appearance: none exactly when every
      PLD is 0, the first one first, no two within the tolerance, and every
      shifted PLD within twice the tolerance of one of them. */
  lemma TisProperties(dd: map<string, Json>, t: Text) returns (idx: seq<nat>)
    requires ComputeTisBolus(dd, t).Ok?
    ensures var tb := ComputeTisBolus(dd, t).value;
      var plds := PldsSeq(dd).value;
      var raw := ShiftAll(plds, tb.bolus, t).value;
      |tb.tis| <= |plds| && (tb.tis == [] <==> plds == []) &&
      (plds != [] ==> tb.tis[0] == FloatOf(plds[0], t).value + tb.bolus) &&
      (forall i, j :: 0 <= i < j < |tb.tis| ==> Abs(tb.tis[j] - tb.tis[i]) > DefaultTol) &&
      Embeds(tb.tis, raw, idx) && Covers(tb.tis, raw, 2.0 * DefaultTol)
  {
    var tb := ComputeTisBolus(dd, t).value;
    var plds := PldsSeq(dd).value;
    var raw := ShiftAll(plds, tb.bolus, t).value;
    TisAreCollapsed(dd, t);
    idx := CollapseProperties(raw, DefaultTol);
  }

  lemma TisAreCollapsed(dd: map<string, Json>, t: Text)
    requires ComputeTisBolus(dd, t).Ok?
    ensures PldsSeq(dd).Ok? && ShiftAll(PldsSeq(dd).value, ComputeTisBolus(dd, t).value.bolus, t).Ok?
    ensures ComputeTisBolus(dd, t).value.tis ==
      Collapse(ShiftAll(PldsSeq(dd).value, ComputeTisBolus(dd, t).value.bolus, t).value, DefaultTol)
  {
    assert Collapse([], DefaultTol) == [];
  }

  /** Everything the collapse keeps, in one place. */
  lemma CollapseProperties(raw: seq<real>, tol: real) returns (idx: seq<nat>)
    requires tol >= 0.0
    ensures var r := Collapse(raw, tol);
      |r| <= |raw| && (r == [] <==> raw == []) && (raw != [] ==> r[0] == raw[0]) &&
      (forall i, j :: 0 <= i < j < |r| ==> Abs(r[j] - r[i]) > tol) &&
      Embeds(r, raw, idx) && Covers(r, raw, 2.0 * tol)
  {
    CollapseSeparated(raw, tol);
    idx := CollapseKeepsOrder(raw, tol);
    CollapseCovers(raw, tol);
  }

  // ---------------------------------------------------------------------------
  // _base_args

  /** `params.get(k)` is truthy. */
  predicate Flag(params: map<string, Json>, k: string) {
    k in params && Truthy(params[k])
  }

  /** The optional numeric settings, in order. */
  const Passthrough: seq<string> := ["bat", "t1", "t1b", "sliceband"]

  /** `--k value` for each of keys that params holds with a value other than None. */
  function OptionArgs(params: map<string, Json>, keys: seq<string>, t: Text): (r: seq<Json>)
    ensures |r| % 2 == 0 && |r| <= 2 * |keys|
    ensures (forall k :: k in keys ==> k !in params || params[k] == JNull) ==> r == []
  {
    if keys == [] then []
    else
      var k := keys[|keys| - 1];
      OptionArgs(params, keys[..|keys| - 1], t) +
        (if k in params && params[k] != JNull then [JStr("--" + k), JStr(t.str(params[k]))] else [])
  }

  /** The flags before the acquisition order: the program, `--wp`, `--mc`. */
  function HeadArgs(params: map<string, Json>): seq<Json> {
    [JStr("oxford_asl")] + (if Flag(params, "wp") then [JStr("--wp")] else []) +
      (if Flag(params, "mc") then [JStr("--mc")] else [])
  }

  /** `--casl`, `--tis` and `--bolus`. */
  function TimingArgs(tb: TisBolus, t: Text): seq<Json> {
    (if tb.isCasl then [JStr("--casl")] else []) +
    (if tb.tis != [] then [JStr("--tis"), JStr(Join(seq(|tb.tis|, k requires 0 <= k < |tb.tis| => t.g(tb.tis[k])), ","))] else []) +
    [JStr("--bolus"), JStr(t.g(tb.bolus))]
  }

  /** `_base_args`: the flags, the acquisition order (`--iaf tc` when the label
      comes first, else `ct`), the block format (`--ibf`, rpt unless given),
      the labeling and timing options, and the optional settings. */
  function BaseArgs(dd: map<string, Json>, params: map<string, Json>, t: Text): (r: Result<seq<Json>>)
    ensures "LabelControl" !in dd ==> r == Err(KeyError("LabelControl"))
    ensures "LabelControl" in dd ==> (r.Ok? <==> ComputeTisBolus(dd, t).Ok?)
  {
    if "LabelControl" !in dd then Err(KeyError("LabelControl"))
    else
      var tb :- ComputeTisBolus(dd, t);
      Ok(HeadArgs(params) + OrderArgs(dd, params) + TimingArgs(tb, t) + TailArgs(dd, params, t))
  }

  /** `--iaf` and `--ibf`. */
  function OrderArgs(dd: map<string, Json>, params: map<string, Json>): seq<Json>
    requires "LabelControl" in dd
  {
    [JStr("--iaf"), JStr(if Truthy(dd["LabelControl"]) then "tc" else "ct"),
     JStr("--ibf"), if Flag(params, "ibf") then params["ibf"] else JStr("rpt")]
  }

  /** `--slicedt`, the optional settings, `--inferart` and `--debug`. */
  function TailArgs(dd: map<string, Json>, params: map<string, Json>, t: Text): seq<Json> {
    (if "SliceDuration" in dd then [JStr("--slicedt"), JStr(t.str(dd["SliceDuration"]))] else []) +
    OptionArgs(params, Passthrough, t) +
    (if Flag(params, "inferart") then [JStr("--inferart")] else []) +
    (if Flag(params, "debug") then [JStr("--debug")] else [])
  }

  /** The command starts with the program and its flags; `--iaf` follows
      LabelControl, `--ibf` is always given and defaults to rpt; then comes
      `--casl` exactly for continuous labeling, `--tis` exactly when there are
      inversion times, and `--bolus`. */
  lemma BaseArgsLayout(dd: map<string, Json>, params: map<string, Json>, t: Text)
    requires BaseArgs(dd, params, t).Ok?
    ensures var r := BaseArgs(dd, params, t).value;
      var n := |HeadArgs(params)|;
      var tb := ComputeTisBolus(dd, t).value;
      var c := if tb.isCasl then 1 else 0;
      var m := n + 4 + c + (if tb.tis != [] then 2 else 0);
      |r| >= m + 2 && r[0] == JStr("oxford_asl") &&
      r[n] == JStr("--iaf") && r[n + 1] == JStr(if Truthy(dd["LabelControl"]) then "tc" else "ct") &&
      r[n + 2] == JStr("--ibf") && r[n + 3] == (if Flag(params, "ibf") then params["ibf"] else JStr("rpt")) &&
      (r[n + 4] == JStr("--casl") <==> tb.isCasl) &&
      (r[n + 4 + c] == JStr("--tis") <==> tb.tis != []) &&
      r[m] == JStr("--bolus") && r[m + 1] == JStr(t.g(tb.bolus))
  {
    BaseArgsOrder(dd, params, t);
    BaseArgsTiming(dd, params, t);
  }

  lemma BaseArgsOrder(dd: map<string, Json>, params: map<string, Json>, t: Text)
    requires BaseArgs(dd, params, t).Ok?
    ensures var r := BaseArgs(dd, params, t).value;
      var n := |HeadArgs(params)|;
      |r| >= n + 4 && r[0] == JStr("oxford_asl") &&
      r[n] == JStr("--iaf") && r[n + 1] == JStr(if Truthy(dd["LabelControl"]) then "tc" else "ct") &&
      r[n + 2] == JStr("--ibf") && r[n + 3] == (if Flag(params, "ibf") then params["ibf"] else JStr("rpt"))
  {
    var tb := ComputeTisBolus(dd, t).value;
    BaseArgsParts(dd, params, t);
    HeadLayout(params);
    TimingLayout(tb, t);
    ArgsAt(HeadArgs(params), OrderArgs(dd, params), TimingArgs(tb, t), TailArgs(dd, params, t));
  }

  lemma BaseArgsTiming(dd: map<string, Json>, params: map<string, Json>, t: Text)
    requires BaseArgs(dd, params, t).Ok?
    ensures var r := BaseArgs(dd, params, t).value;
      var n := |HeadArgs(params)|;
      var tb := ComputeTisBolus(dd, t).value;
      var c := if tb.isCasl then 1 else 0;
      var m := n + 4 + c + (if tb.tis != [] then 2 else 0);
      |r| >= m + 2 &&
      (r[n + 4] == JStr("--casl") <==> tb.isCasl) &&
      (r[n + 4 + c] == JStr("--tis") <==> tb.tis != []) &&
      r[m] == JStr("--bolus") && r[m + 1] == JStr(t.g(tb.bolus))
  {
    var tb := ComputeTisBolus(dd, t).value;
    var pre, timing := HeadArgs(params) + OrderArgs(dd, params), TimingArgs(tb, t);
    BaseArgsParts(dd, params, t);
    TimingLayout(tb, t);
    PartAt(pre, timing, TailArgs(dd, params, t));
  }

  lemma PartAt(pre: seq<Json>, part: seq<Json>, post: seq<Json>)
    ensures forall j :: 0 <= j < |part| ==> (pre + part + post)[|pre| + j] == part[j]
  {
  }

  lemma BaseArgsParts(dd: map<string, Json>, params: map<string, Json>, t: Text)
    requires BaseArgs(dd, params, t).Ok?
    ensures BaseArgs(dd, params, t).value ==
      HeadArgs(params) + OrderArgs(dd, params) + TimingArgs(ComputeTisBolus(dd, t).value, t) + TailArgs(dd, params, t)
  {
  }

  /** Where the parts of the base arguments sit. */
  lemma ArgsAt(head: seq<Json>, order: seq<Json>, timing: seq<Json>, tail: seq<Json>)
    requires |head| >= 1 && |order| == 4 && |timing| >= 2
    ensures var r := head + order + timing + tail; var n := |head|;
      r[0] == head[0] && r[n] == order[0] && r[n + 1] == order[1] && r[n + 2] == order[2] && r[n + 3] == order[3] &&
      forall j :: 0 <= j < |timing| ==> r[n + 4 + j] == timing[j]
  {
  }

  /** The program name, then `--wp` and `--mc` exactly when asked for. */
  lemma HeadLayout(params: map<string, Json>)
    ensures var h := HeadArgs(params);
      1 <= |h| <= 3 && h[0] == JStr("oxford_asl") &&
      (JStr("--wp") in h <==> Flag(params, "wp")) && (JStr("--mc") in h <==> Flag(params, "mc"))
  {
  }

  /** `--casl` first exactly for continuous labeling, then `--tis` exactly
      when there are inversion times, then `--bolus` and its value. */
  lemma TimingLayout(tb: TisBolus, t: Text)
    ensures var r := TimingArgs(tb, t);
      var c := if tb.isCasl then 1 else 0;
      var m := c + (if tb.tis != [] then 2 else 0);
      |r| == m + 2 && (r[0] == JStr("--casl") <==> tb.isCasl) &&
      (r[c] == JStr("--tis") <==> tb.tis != []) &&
      r[m] == JStr("--bolus") && r[m + 1] == JStr(t.g(tb.bolus))
  {
  }

  // ---------------------------------------------------------------------------
  // _first_images_entry, _guess_path, _struct_args, _input_args, _output_args

  /** `order` lists the keys of `dd["Images"]` in insertion order (a dict
      remembers it; the map of the model does not). */
  predicate ImagesOrder(dd: map<string, Json>, order: seq<string>) {
    "Images" in dd && dd["Images"].JObj? ==>
      (forall k :: k in order ==> k in dd["Images"].fields) &&
      (forall k :: k in dd["Images"].fields ==> k in order)
  }

  lemma NonEmptyOrder(dd: map<string, Json>, order: seq<string>)
    requires ImagesOrder(dd, order) && "Images" in dd && dd["Images"].JObj? && dd["Images"].fields != map[]
    ensures order != [] && order[0] in dd["Images"].fields
  {
    var k :| k in dd["Images"].fields;
    assert k in order;
  }

  const ImagesError: Error := ValueError("data_descrip['Images'] is empty or malformed.")

  /** `_first_images_entry`: the first session of Images and its entry; a
      missing, non-dictionary or empty Images is a ValueError. */
  function FirstImagesEntry(dd: map<string, Json>, order: seq<string>): (r: Result<(string, Json)>)
    requires ImagesOrder(dd, order)
    ensures r.Err? <==> "Images" !in dd || !dd["Images"].JObj? || dd["Images"].fields == map[]
    ensures r.Err? ==> r.error == ImagesError
    ensures r.Ok? ==> (r.value.0 == order[0] && r.value.0 in dd["Images"].fields &&
      r.value.1 == dd["Images"].fields[r.value.0])
  {
    if "Images" !in dd || !dd["Images"].JObj? || dd["Images"].fields == map[] then Err(ImagesError)
    else
      NonEmptyOrder(dd, order);
      Ok((order[0], dd["Images"].fields[order[0]]))
  }

  /** `os.path.join(a, b)` on POSIX: an absolute b replaces a, else b is
      appended after a separator unless a is empty or already ends in one. */
  function PathJoin(a: string, b: string): (p: string)
    ensures |b| > 0 && b[0] == '/' ==> p == b
    ensures (|b| == 0 || b[0] != '/') ==> |p| >= |a| + |b| && p[..|a|] == a && p[|p| - |b|..] == b
  {
    if |b| > 0 && b[0] == '/' then b
    else if a == "" || a[|a| - 1] == '/' then a + b
    else a + "/" + b
  }

  /** The extensions `_guess_path` tries, in order. */
  const NiftiExtensions: seq<string> := [".nii.gz", ".nii", ".NII.GZ", ".NII"]

  /** The first of `p + e` for e in exts that exists, if any. */
  function FirstExisting(p: string, exts: seq<string>, exists_: string -> bool): (r: Option<string>)
    ensures r.Some? ==> exists_(r.value) && exists e :: e in exts && r.value == p + e
    ensures r.None? ==> forall e :: e in exts ==> !exists_(p + e)
  {
    if exts == [] then None
    else if exists_(p + exts[0]) then Some(p + exts[0])
    else FirstExisting(p, exts[1..], exists_)
  }

  /** `_guess_path`: the joined path itself when it exists, else the first
      NIfTI variant that does, else the path unchanged. `exists_` stands for
      `os.path.exists`. */
  function GuessPath(baseDir: string, subdir: string, name: string, exists_: string -> bool): (p: string)
    ensures var q := PathJoin(PathJoin(baseDir, subdir), name);
      (exists_(q) ==> p == q) &&
      (!exists_(q) ==> (p == q && forall e :: e in NiftiExtensions ==> !exists_(q + e)) ||
                       (exists_(p) && exists e :: e in NiftiExtensions && p == q + e))
  {
    var q := PathJoin(PathJoin(baseDir, subdir), name);
    if exists_(q) then q
    else match FirstExisting(q, NiftiExtensions, exists_)
      case Some(found) => found
      case None => q
  }

  /** `d.get(key)` on a dictionary: None when the key is absent. */
  function Lookup(d: map<string, Json>, key: string): Json {
    if key in d then d[key] else JNull
  }

  /** `entry.get(key)`; an entry that is not a dictionary has no `get`. */
  function Get(entry: Json, key: string): (r: Result<Json>)
    ensures entry.JObj? <==> r.Ok?
    ensures entry.JObj? ==> r.value == if key in entry.fields then entry.fields[key] else JNull
  {
    if !entry.JObj? then Err(AttributeError("get"))
    else Ok(Lookup(entry.fields, key))
  }

  /** A file name from the description, which `os.path.join` needs as a string. */
  function NameOf(x: Json): Result<string> {
    if x.JStr? then Ok(x.s) else Err(TypeError("join() argument must be str"))
  }

  const NoAnatError: Error := ValueError("useStructural=True but 'anat' missing in data_descrip['Images'][base].")

  /** `_struct_args`: nothing unless useStructural, else `-s` and the
      session's anatomical image under anat/. */
  function StructArgs(dd: map<string, Json>, params: map<string, Json>, order: seq<string>,
                      exists_: string -> bool): (r: Result<seq<Json>>)
    requires ImagesOrder(dd, order)
    ensures !Flag(params, "useStructural") ==> r == Ok([])
    ensures Flag(params, "useStructural") && FirstImagesEntry(dd, order).Err? ==> r == Err(ImagesError)
    ensures (Flag(params, "useStructural") && FirstImagesEntry(dd, order).Ok? &&
      FirstImagesEntry(dd, order).value.1.JObj? &&
      !Flag(FirstImagesEntry(dd, order).value.1.fields, "anat")) ==> r == Err(NoAnatError)
    ensures r.Ok? && r.value != [] ==> (|r.value| == 2 && r.value[0] == JStr("-s"))
  {
    if !Flag(params, "useStructural") then Ok([])
    else
      var first :- FirstImagesEntry(dd, order);
      var anat :- Get(first.1, "anat");
      if !Truthy(anat) then Err(NoAnatError)
      else
        var name :- NameOf(anat);
        Ok([JStr("-s"), JStr(GuessPath(first.0, "anat", name, exists_))])
  }

  /** `entry["asl"][0]`: the first name of a list, or the first character of a string. */
  function FirstAslName(entry: Json): Result<Json> {
    if !entry.JObj? then Err(TypeError("entry is not subscriptable by name"))
    else if "asl" !in entry.fields then Err(KeyError("asl"))
    else match entry.fields["asl"]
      case JArr(items) => if items == [] then Err(IndexError("list index out of range")) else Ok(items[0])
      case JStr(s) => if s == "" then Err(IndexError("string index out of range")) else Ok(JStr(s[..1]))
      case JObj(fs) => Err(KeyError("0"))
      case _ => Err(TypeError("object is not subscriptable"))
  }

  /** `-i` and the first ASL image of the first session, under perf/. */
  function SessionAslArgs(dd: map<string, Json>, order: seq<string>, exists_: string -> bool): (r: Result<seq<Json>>)
    requires ImagesOrder(dd, order)
    ensures FirstImagesEntry(dd, order).Err? ==> r == Err(ImagesError)
    ensures r.Ok? ==> |r.value| == 2 && r.value[0] == JStr("-i")
  {
    var first :- FirstImagesEntry(dd, order);
    var aslName :- FirstAslName(first.1);
    var name :- NameOf(aslName);
    Ok([JStr("-i"), JStr(GuessPath(first.0, "perf", name, exists_))])
  }

  /** `-c m0 --tr RepetitionTime --alpha LabelingEfficiency`. */
  function CalibrationArgs(dd: map<string, Json>, m0Path: Json, t: Text): (r: Result<seq<Json>>)
    ensures r.Ok? <==> "M0" in dd && dd["M0"].JObj? && "RepetitionTime" in dd["M0"].fields && "LabelingEfficiency" in dd
    ensures r.Ok? ==> r.value == [JStr("-c"), m0Path, JStr("--tr"), JStr(t.str(dd["M0"].fields["RepetitionTime"])),
                                  JStr("--alpha"), JStr(t.str(dd["LabelingEfficiency"]))]
  {
    if "M0" !in dd then Err(KeyError("M0"))
    else if !dd["M0"].JObj? then Err(TypeError("M0 is not a dictionary"))
    else if "RepetitionTime" !in dd["M0"].fields then Err(KeyError("RepetitionTime"))
    else if "LabelingEfficiency" !in dd then Err(KeyError("LabelingEfficiency"))
    else Ok([JStr("-c"), m0Path, JStr("--tr"), JStr(t.str(dd["M0"].fields["RepetitionTime"])),
             JStr("--alpha"), JStr(t.str(dd["LabelingEfficiency"]))])
  }

  const NoM0Error: Error := ValueError("useCalibration=True but M0 missing in data_descrip.")

  /** `params.get("override_inputs") or {}`. */
  function Overrides(params: map<string, Json>): Json {
    if Flag(params, "override_inputs") then params["override_inputs"] else JObj(map[])
  }

  /** `_input_args`: `-i` with the override path or the first ASL image of the
      first session, then, when useCalibration holds, the calibration
      arguments from the override M0 path or the session's M0 image. */
  function InputArgs(dd: map<string, Json>, params: map<string, Json>, order: seq<string>,
                     exists_: string -> bool, t: Text): (r: Result<seq<Json>>)
    requires ImagesOrder(dd, order)
    ensures r.Ok? ==> |r.value| >= 2 && r.value[0] == JStr("-i")
    ensures r.Ok? && Get(Overrides(params), "asl_path").Ok? && Truthy(Get(Overrides(params), "asl_path").value) ==>
      r.value[1] == Get(Overrides(params), "asl_path").value
  {
    var ov := Overrides(params);
    if !ov.JObj? then Err(AttributeError("get"))
    else
    var aslOverride := Lookup(ov.fields, "asl_path");
    var input :- (if Truthy(aslOverride) then Ok([JStr("-i"), aslOverride]) else SessionAslArgs(dd, order, exists_));
    if !Flag(params, "useCalibration") then Ok(input)
    else
      var m0Override := Lookup(ov.fields, "m0_path");
      if Truthy(m0Override) then
        var cal :- CalibrationArgs(dd, m0Override, t);
        Ok(input + cal)
      else
        var first :- FirstImagesEntry(dd, order);
        var m0Name :- Get(first.1, "M0");
        if !Truthy(m0Name) then Err(NoM0Error)
        else
          var name :- NameOf(m0Name);
          var cal :- CalibrationArgs(dd, JStr(GuessPath(first.0, "perf", name, exists_)), t);
          Ok(input + cal)
  }

  /** Without overrides: no calibration gives just the session's ASL image;
      calibration with a session lacking an M0 image is the M0 ValueError;
      and an empty or malformed Images is the Images ValueError. */
  lemma InputArgsErrors(dd: map<string, Json>, params: map<string, Json>, order: seq<string>,
                        exists_: string -> bool, t: Text)
    requires ImagesOrder(dd, order)
    requires !Flag(params, "override_inputs")
    ensures FirstImagesEntry(dd, order).Err? ==> InputArgs(dd, params, order, exists_, t) == Err(ImagesError)
    ensures !Flag(params, "useCalibration") ==> InputArgs(dd, params, order, exists_, t) == SessionAslArgs(dd, order, exists_)
    ensures (Flag(params, "useCalibration") && SessionAslArgs(dd, order, exists_).Ok? &&
      FirstImagesEntry(dd, order).value.1.JObj? && !Flag(FirstImagesEntry(dd, order).value.1.fields, "M0")) ==>
      InputArgs(dd, params, order, exists_, t) == Err(NoM0Error)
    ensures (Flag(params, "useCalibration") && InputArgs(dd, params, order, exists_, t).Ok?) ==>
      |InputArgs(dd, params, order, exists_, t).value| == 8 &&
      InputArgs(dd, params, order, exists_, t).value[2] == JStr("-c")
  {
  }

  /** `s.replace(pat, rep)`: every non-overlapping occurrence of pat, from
      the left, replaced by rep. */
  function Replace(s: string, pat: string, rep: string): string
    requires pat != ""
    decreases |s|
  {
    if |s| < |pat| then s
    else if s[..|pat|] == pat then rep + Replace(s[|pat|..], pat, rep)
    else [s[0]] + Replace(s[1..], pat, rep)
  }

  /** pat occurs in s at position i. */
  predicate OccursAt(s: string, pat: string, i: nat) {
    i + |pat| <= |s| && s[i..i + |pat|] == pat
  }

  /** A string without an occurrence is left as it is. */
  lemma {:induction false} ReplaceNothing(s: string, pat: string, rep: string)
    requires pat != ""
    requires forall i: nat :: !OccursAt(s, pat, i)
    ensures Replace(s, pat, rep) == s
    decreases |s|
  {
    if |s| >= |pat| {
      assert !OccursAt(s, pat, 0);
      assert s[0..|pat|] == s[..|pat|];
      forall i: nat ensures !OccursAt(s[1..], pat, i) {
        assert !OccursAt(s, pat, i + 1);
        if i + |pat| <= |s[1..]| {
          assert s[1..][i..i + |pat|] == s[i + 1..i + 1 + |pat|];
        }
      }
      ReplaceNothing(s[1..], pat, rep);
      assert s == [s[0]] + s[1..];
    }
  }

  /** A session under rawdata/ writes its results under derivatives/. */
  lemma ReplaceRawdata(prefix: string, rest: string)
    requires forall i: nat :: !OccursAt(prefix + "rawdata", "rawdata", i) || i == |prefix|
    requires forall i: nat :: !OccursAt(rest, "rawdata", i)
    ensures Replace(prefix + "rawdata" + rest, "rawdata", "derivatives") == prefix + "derivatives" + rest
  {
    ReplaceOnce(prefix, "rawdata", "derivatives", rest);
  }

  /** With a single occurrence of pat, right after prefix, replace changes
      only that occurrence. */
  lemma {:induction false} ReplaceOnce(prefix: string, pat: string, rep: string, rest: string)
    requires pat != ""
    requires forall i: nat :: !OccursAt(prefix + pat, pat, i) || i == |prefix|
    requires forall i: nat :: !OccursAt(rest, pat, i)
    ensures Replace(prefix + pat + rest, pat, rep) == prefix + rep + rest
    decreases |prefix|
  {
    if prefix == [] {
      ReplaceAtStart(pat, rep, rest);
    } else {
      NoOccurrenceShifts(prefix, pat);
      ReplaceOnce(prefix[1..], pat, rep, rest);
      ReplaceOnceStep(prefix, pat, rep, rest);
    }
  }

  /** The step of ReplaceOnce: the first character of prefix is copied. */
  lemma ReplaceOnceStep(prefix: string, pat: string, rep: string, rest: string)
    requires prefix != [] && pat != ""
    requires forall i: nat :: !OccursAt(prefix + pat, pat, i) || i == |prefix|
    requires Replace(prefix[1..] + pat + rest, pat, rep) == prefix[1..] + rep + rest
    ensures Replace(prefix + pat + rest, pat, rep) == prefix + rep + rest
  {
    NoOccurrenceAtStart(prefix, pat, rest);
    ReplaceSkipsFirst(prefix, pat, rep, rest);
    assert [prefix[0]] + (prefix[1..] + rep + rest) == prefix + rep + rest;
  }

  lemma ReplaceAtStart(pat: string, rep: string, rest: string)
    requires pat != ""
    requires forall i: nat :: !OccursAt(rest, pat, i)
    ensures Replace(pat + rest, pat, rep) == rep + rest
  {
    var s := pat + rest;
    assert s[..|pat|] == pat && s[|pat|..] == rest;
    ReplaceNothing(rest, pat, rep);
  }

  lemma NoOccurrenceAtStart(prefix: string, pat: string, rest: string)
    requires prefix != [] && pat != ""
    requires forall i: nat :: !OccursAt(prefix + pat, pat, i) || i == |prefix|
    ensures (prefix + pat + rest)[..|pat|] != pat
  {
    assert !OccursAt(prefix + pat, pat, 0);
    assert (prefix + pat)[0..|pat|] == (prefix + pat + rest)[..|pat|];
  }

  lemma NoOccurrenceShifts(prefix: string, pat: string)
    requires prefix != []
    requires forall i: nat :: !OccursAt(prefix + pat, pat, i) || i == |prefix|
    ensures forall i: nat :: !OccursAt(prefix[1..] + pat, pat, i) || i == |prefix[1..]|
  {
    var t := prefix + pat;
    assert prefix[1..] + pat == t[1..];
    forall i: nat | i != |prefix[1..]| ensures !OccursAt(t[1..], pat, i) {
      assert !OccursAt(t, pat, i + 1);
      if i + |pat| <= |t[1..]| {
        assert t[1..][i..i + |pat|] == t[i + 1..i + 1 + |pat|];
      }
    }
  }

  lemma ReplaceSkipsFirst(prefix: string, pat: string, rep: string, rest: string)
    requires prefix != [] && pat != "" && (prefix + pat + rest)[..|pat|] != pat
    ensures Replace(prefix + pat + rest, pat, rep) == [prefix[0]] + Replace(prefix[1..] + pat + rest, pat, rep)
  {
    var s := prefix + pat + rest;
    assert s[1..] == prefix[1..] + pat + rest;
  }

  /** `_output_args` without creating the directory: `-o` and outdir, which
      is params' outdir or the session directory with rawdata replaced by
      derivatives. */
  function OutputArgs(dd: map<string, Json>, params: map<string, Json>, order: seq<string>): (r: Result<(seq<Json>, Json)>)
    requires ImagesOrder(dd, order)
    ensures r.Ok? <==> FirstImagesEntry(dd, order).Ok?
    ensures r.Ok? ==> r.value.0 == [JStr("-o"), r.value.1]
    ensures r.Ok? && "outdir" in params ==> r.value.1 == params["outdir"]
    ensures r.Ok? && "outdir" !in params ==>
      r.value.1 == JStr(Replace(FirstImagesEntry(dd, order).value.0, "rawdata", "derivatives"))
  {
    var first :- FirstImagesEntry(dd, order);
    var outdir := if "outdir" in params then params["outdir"] else JStr(Replace(first.0, "rawdata", "derivatives"));
    Ok(([JStr("-o"), outdir], outdir))
  }

  /** The command `run` hands to oxford_asl, and the output directory it
      reports: base, structural, input and output arguments, in that order,
      failing with the first part that fails. */
  function Command(dd: map<string, Json>, params: map<string, Json>, order: seq<string>,
                   exists_: string -> bool, t: Text): (r: Result<(seq<Json>, Json)>)
    requires ImagesOrder(dd, order)
    ensures BaseArgs(dd, params, t).Err? ==> r == Err(BaseArgs(dd, params, t).error)
    ensures r.Ok? <==> (BaseArgs(dd, params, t).Ok? && StructArgs(dd, params, order, exists_).Ok? &&
      InputArgs(dd, params, order, exists_, t).Ok? && OutputArgs(dd, params, order).Ok?)
    ensures r.Ok? ==> (r.value.0 == BaseArgs(dd, params, t).value + StructArgs(dd, params, order, exists_).value +
      InputArgs(dd, params, order, exists_, t).value + [JStr("-o"), r.value.1])
  {
    var base :- BaseArgs(dd, params, t);
    var s :- StructArgs(dd, params, order, exists_);
    var i :- InputArgs(dd, params, order, exists_, t);
    var o :- OutputArgs(dd, params, order);
    Ok((base + s + i + o.0, o.1))
  }
}
