/** Signal models shared by the MRICloud modules: the background-suppression
    recursion, the T1 recovery curves and the general kinetic models of PCASL
    and Look-Locker PASL, whose delays are split into three phases (bolus not
    yet arrived, arriving, fully delivered). */
module MricloudHelpers {
  import opened Common

  /* ---------- background suppression ---------- */

  /** |flip - pi| below this counts as an inversion pulse. */
  const PiTolerance: real := 0.000001

  /** ff: an inversion pulse inverts with efficiency inv_eff, any other pulse not at all. */
  function FlipFactor(flipAngle: real, invEff: real): real {
    if Abs(flipAngle - Pi) < PiTolerance then 2.0 * invEff - 1.0 else 1.0
  }

  /** A perfect inversion (inv_eff = 1) gives ff = 1 exactly as a non-inversion
      does; an efficiency in [0, 1] keeps ff in [-1, 1]. */
  lemma FlipFactorBounds(flipAngle: real, invEff: real)
    requires 0.0 <= invEff <= 1.0
    ensures -1.0 <= FlipFactor(flipAngle, invEff) <= 1.0
    ensures invEff == 1.0 ==> FlipFactor(flipAngle, invEff) == 1.0
    ensures Abs(flipAngle - Pi) < PiTolerance ==> FlipFactor(flipAngle, invEff) == 2.0 * invEff - 1.0
    ensures Abs(flipAngle - Pi) >= PiTolerance ==> FlipFactor(flipAngle, invEff) == 1.0
  {
  }

  /** `np.exp(-x / t1)` for an array x; with t1 == 0 numpy gives -inf for
      positive x and exp(-inf) = 0. */
  function Decay(x: real, t1: real, m: Math): real
    requires t1 == 0.0 ==> x > 0.0
  {
    if t1 == 0.0 then 0.0 else m.exp(-x / t1)
  }

  /** One pass of the bgs_factor loop over an interval of length `gap`:
      `np.arange(1, gap + 1)` has ceil(gap) slots, the last of which is
      ceil(gap), and only that slot's recovery is kept; with no slot the
      `[-1]` index fails. */
  function RecoveryStep(mz: real, flipAngle: real, invEff: real, gap: real, t1: real, m: Math): (r: Result<real>)
    ensures r.Err? <==> Ceil(gap) < 1
  {
    var last := Ceil(gap);
    if last < 1 then Err(IndexError("empty recovery slot range"))
    else Ok(1.0 + (mz * m.cos(flipAngle) * FlipFactor(flipAngle, invEff) - 1.0) * Decay(last as real, t1, m))
  }

  /** mz after the first k intervals of the pulse train. */
  function BgsAfter(mz0: real, t1: real, flip: seq<real>, timing: seq<real>, invEff: real, m: Math, k: nat): Result<real>
    requires k < |flip| || k == 0
  {
    if k == 0 then Ok(mz0)
    else
      var prev :- BgsAfter(mz0, t1, flip, timing, invEff, m, k - 1);
      if k >= |timing| then Err(IndexError("timing has fewer entries than flip"))
      else RecoveryStep(prev, flip[k - 1], invEff, timing[k] - timing[k - 1], t1, m)
  }

  function NumIntervals(flip: seq<real>): nat {
    if |flip| <= 1 then 0 else |flip| - 1
  }

  /** mricloud_bgs_factor as a value: mz after all intervals. */
  function BgsFactor(mz0: real, t1: real, flip: seq<real>, timing: seq<real>, invEff: real, m: Math): Result<real> {
    BgsAfter(mz0, t1, flip, timing, invEff, m, NumIntervals(flip))
  }

  /** mricloud_bgs_factor: the loop over the intervals between pulses. */
  method MricloudBgsFactor(mz0: real, t1: real, flip: seq<real>, timing: seq<real>, invEff: real, m: Math)
    returns (r: Result<real>)
    ensures r == BgsFactor(mz0, t1, flip, timing, invEff, m)
    ensures |flip| <= 1 ==> r == Ok(mz0)
  {
    var mz := mz0;
    var ii := 0;
    while ii < NumIntervals(flip)
      invariant ii <= NumIntervals(flip)
      invariant BgsAfter(mz0, t1, flip, timing, invEff, m, ii) == Ok(mz)
    {
      if ii + 1 >= |timing| {
        BgsAfterErrorSticks(mz0, t1, flip, timing, invEff, m, ii + 1, NumIntervals(flip));
        return Err(IndexError("timing has fewer entries than flip"));
      }
      var step := RecoveryStep(mz, flip[ii], invEff, timing[ii + 1] - timing[ii], t1, m);
      if step.Err? {
        BgsAfterErrorSticks(mz0, t1, flip, timing, invEff, m, ii + 1, NumIntervals(flip));
        return step;
      }
      mz := step.value;
      ii := ii + 1;
    }
    r := Ok(mz);
  }

  /** Once an interval fails, every longer prefix fails with the same error. */
  lemma {:induction false} BgsAfterErrorSticks(mz0: real, t1: real, flip: seq<real>, timing: seq<real>, invEff: real, m: Math, j: nat, k: nat)
    requires j <= k && (k < |flip| || k == 0)
    requires BgsAfter(mz0, t1, flip, timing, invEff, m, j).Err?
    ensures BgsAfter(mz0, t1, flip, timing, invEff, m, k) == BgsAfter(mz0, t1, flip, timing, invEff, m, j)
    decreases k
  {
    if j < k {
      BgsAfterErrorSticks(mz0, t1, flip, timing, invEff, m, j, k - 1);
    }
  }

  lemma ProductOfUnits(a: real, b: real)
    requires -1.0 <= a <= 1.0 && -1.0 <= b <= 1.0
    ensures -1.0 <= a * b <= 1.0
  {
    if a >= 0.0 {
      assert a * b <= a * 1.0 && a * b >= a * -1.0;
    } else {
      assert a * b >= a * 1.0 && a * b <= a * -1.0;
    }
  }

  lemma RelaxationBounded(c: real, e: real)
    requires -1.0 <= c <= 1.0 && 0.0 <= e <= 1.0
    ensures -1.0 <= 1.0 + (c - 1.0) * e <= 1.0
  {
    assert (c - 1.0) * e <= 0.0 * e;
    assert (c - 1.0) * e >= -2.0 * e;
  }

  /** One recovery keeps the magnetisation in [-1, 1]: with c = mz*cos*ff in
      [-1, 1] and e = exp(-last/T1) in [0, 1], 1 + (c - 1)*e lies in [1 - 2e, 1]. */
  lemma RecoveryStepBounded(mz: real, flipAngle: real, invEff: real, gap: real, t1: real, m: Math)
    requires CosLaws(m) && ExpPositive(m) && ExpAtMostOneBelowZero(m)
    requires -1.0 <= mz <= 1.0 && 0.0 <= invEff <= 1.0 && t1 >= 0.0
    requires RecoveryStep(mz, flipAngle, invEff, gap, t1, m).Ok?
    ensures -1.0 <= RecoveryStep(mz, flipAngle, invEff, gap, t1, m).value <= 1.0
  {
    var last := Ceil(gap);
    var e := Decay(last as real, t1, m);
    if t1 != 0.0 {
      assert -(last as real) / t1 <= 0.0;
    }
    FlipFactorBounds(flipAngle, invEff);
    ProductOfUnits(mz, m.cos(flipAngle));
    ProductOfUnits(mz * m.cos(flipAngle), FlipFactor(flipAngle, invEff));
    RelaxationBounded(mz * m.cos(flipAngle) * FlipFactor(flipAngle, invEff), e);
  }

  /** Starting from |mz0| <= 1 with T1 >= 0 and an efficiency in [0, 1], the
      background-suppression factor stays in [-1, 1]. */
  lemma {:induction false} BgsAfterBounded(mz0: real, t1: real, flip: seq<real>, timing: seq<real>, invEff: real, m: Math, k: nat)
    requires CosLaws(m) && ExpPositive(m) && ExpAtMostOneBelowZero(m)
    requires -1.0 <= mz0 <= 1.0 && 0.0 <= invEff <= 1.0 && t1 >= 0.0
    requires k < |flip| || k == 0
    requires BgsAfter(mz0, t1, flip, timing, invEff, m, k).Ok?
    ensures -1.0 <= BgsAfter(mz0, t1, flip, timing, invEff, m, k).value <= 1.0
  {
    if k > 0 {
      BgsAfterBounded(mz0, t1, flip, timing, invEff, m, k - 1);
      var prev := BgsAfter(mz0, t1, flip, timing, invEff, m, k - 1).value;
      RecoveryStepBounded(prev, flip[k - 1], invEff, timing[k] - timing[k - 1], t1, m);
    }
  }

  /** Without suppression pulses (flip [0, 0], timing [0, T], T > 0) the
      factor is plain saturation recovery: 1 - (1 - mz0)*exp(-ceil(T)/T1). */
  lemma BgsWithoutPulses(mz0: real, t1: real, total: real, invEff: real, m: Math)
    requires CosLaws(m) && total > 0.0
    ensures BgsFactor(mz0, t1, [0.0, 0.0], [0.0, total], invEff, m)
         == Ok(1.0 - (1.0 - mz0) * Decay(Ceil(total) as real, t1, m))
  {
    var flip, timing := [0.0, 0.0], [0.0, total];
    assert Abs(0.0 - Pi) >= PiTolerance;
    assert FlipFactor(0.0, invEff) == 1.0;
    assert timing[1] - timing[0] == total;
    var last := Ceil(total);
    assert last >= 1;
    var r := RecoveryStep(mz0, 0.0, invEff, total, t1, m);
    assert r.Ok?;
    var dk := Decay(last as real, t1, m);
    assert r.value == 1.0 + (mz0 * m.cos(0.0) * FlipFactor(0.0, invEff) - 1.0) * dk;
    assert r.value == 1.0 - (1.0 - mz0) * dk;
    assert BgsAfter(mz0, t1, flip, timing, invEff, m, 0) == Ok(mz0);
    assert BgsAfter(mz0, t1, flip, timing, invEff, m, 1) == r;
    assert NumIntervals(flip) == 1;
    assert BgsFactor(mz0, t1, flip, timing, invEff, m) == r;
    assert r == Ok(r.value);
    assert dk == Decay(Ceil(total) as real, t1, m);
    assert r.value == 1.0 - (1.0 - mz0) * Decay(Ceil(total) as real, t1, m);
    assert r == Ok(1.0 - (1.0 - mz0) * Decay(Ceil(total) as real, t1, m));
  }

  /* ---------- T1 recovery ---------- */

  predicate Increasing(u: seq<real>) {
    forall i, j :: 0 <= i < j < |u| ==> u[i] < u[j]
  }

  /** x placed into a strictly increasing sequence, dropped if already there. */
  function Insert(x: real, u: seq<real>): (r: seq<real>)
    requires Increasing(u)
    ensures Increasing(r)
    ensures forall y :: y in r <==> y == x || y in u
    ensures |r| > 0 && (r[0] == x || (u != [] && r[0] == u[0]))
  {
    if u == [] then [x]
    else if x < u[0] then [x] + u
    else if x == u[0] then u
    else [u[0]] + Insert(x, u[1..])
  }

  /** `np.unique(s)`: the distinct values of s in increasing order. */
  function Unique(s: seq<real>): (u: seq<real>)
    ensures Increasing(u)
    ensures forall y :: y in u <==> y in s
  {
    if s == [] then [] else Insert(s[|s| - 1], Unique(s[..|s| - 1]))
  }

  function SumGaps(u: seq<real>): real
    requires |u| >= 1
  {
    if |u| == 1 then 0.0 else SumGaps(u[..|u| - 1]) + (u[|u| - 1] - u[|u| - 2])
  }

  lemma {:induction false} SumGapsTelescopes(u: seq<real>)
    requires |u| >= 1
    ensures SumGaps(u) == u[|u| - 1] - u[0]
  {
    if |u| > 1 {
      SumGapsTelescopes(u[..|u| - 1]);
    }
  }

  /** `np.mean(u[1:] - u[:-1])` over `u = np.unique(tp)`: the mean spacing of
      the distinct delays; with fewer than two of them the mean is NaN. */
  function TiInterval(tp: seq<real>): (r: Result<real>)
    ensures r.Err? <==> |Unique(tp)| < 2
    ensures r.Ok? ==> r.value > 0.0
  {
    var u := Unique(tp);
    if |u| < 2 then Err(NotFinite("mean of an empty interval list"))
    else
      MeanGapPositive(u);
      Ok(SumGaps(u) / (|u| - 1) as real)
  }

  /** Two or more increasing delays have a positive mean spacing. */
  lemma MeanGapPositive(u: seq<real>)
    requires Increasing(u) && |u| >= 2
    ensures SumGaps(u) / (|u| - 1) as real > 0.0
  {
    SumGapsTelescopes(u);
    assert u[0] < u[|u| - 1];
    var n := (|u| - 1) as real;
    assert SumGaps(u) > 0.0 && n > 0.0;
  }

  /** The mean spacing is (largest - smallest delay) / (number of distinct delays - 1). */
  lemma TiIntervalIsSpan(tp: seq<real>)
    requires TiInterval(tp).Ok?
    ensures var u := Unique(tp);
      TiInterval(tp).value == (u[|u| - 1] - u[0]) / (|u| - 1) as real &&
      (forall x :: x in tp ==> u[0] <= x <= u[|u| - 1])
  {
    var u := Unique(tp);
    SumGapsTelescopes(u);
    forall x | x in tp
      ensures u[0] <= x <= u[|u| - 1]
    {
      assert x in u;
    }
  }

  /** Multi-delay recovery m0*(1 - exp(-tp/T1)); with T1 == 0 a non-positive
      delay gives NaN or inf. */
  function MultiDelayRecovery(m0: real, t1: real, tp: seq<real>, m: Math): (r: Result<seq<real>>)
    ensures r.Ok? ==> |r.value| == |tp|
  {
    if t1 == 0.0 && exists i :: 0 <= i < |tp| && tp[i] <= 0.0 then Err(NotFinite("-tp / 0"))
    else Ok(seq(|tp|, i requires 0 <= i < |tp| => m0 * (1.0 - Decay(tp[i], t1, m))))
  }

  /** Look-Locker recovery: steady state mss and effective rate r1_eff from the
      mean readout spacing; the flip angle is given in degrees. */
  function LookLockerRecovery(m0: real, t1: real, tp: seq<real>, flipDeg: real, m: Math): (r: Result<seq<real>>)
    ensures r.Ok? ==> |r.value| == |tp|
  {
    var ti :- TiInterval(tp);
    var f := flipDeg / 180.0 * Pi;
    if t1 == 0.0 then Err(ZeroDivisionError("1 / t1"))
    else if m.cos(f) <= 0.0 then Err(NotFinite("log of a non-positive cosine"))
    else
      var r1Eff := 1.0 / t1 - m.log(m.cos(f)) / ti;
      var e := m.exp(-ti / t1);
      var den := 1.0 - e * m.cos(f);
      if den == 0.0 then Err(NotFinite("zero steady-state denominator"))
      else
        var mss := m0 * (1.0 - e) / den;
        Ok(seq(|tp|, i requires 0 <= i < |tp| => mss * (1.0 - m.exp(-tp[i] * r1Eff)) * m.sin(f)))
  }

  /** mricloud_func_recover: Look-Locker when both flip_angle and m_init are
      given (m_init's value is never used), multi-delay when neither is; with
      only one of them `mm` is never bound. */
  function FuncRecover(m0: real, t1: real, tp: seq<real>, flipAngle: Option<real>, mInit: Option<real>, m: Math)
    : (r: Result<seq<real>>)
    ensures flipAngle.Some? != mInit.Some? <==> r == Err(NameError("mm"))
    ensures flipAngle.None? && mInit.None? ==> r == MultiDelayRecovery(m0, t1, tp, m)
    ensures flipAngle.Some? && mInit.Some? ==> r == LookLockerRecovery(m0, t1, tp, flipAngle.value, m)
    ensures r.Ok? ==> |r.value| == |tp|
  {
    if flipAngle.Some? && mInit.Some? then LookLockerRecovery(m0, t1, tp, flipAngle.value, m)
    else if flipAngle.None? && mInit.None? then MultiDelayRecovery(m0, t1, tp, m)
    else Err(NameError("mm"))
  }

  /** The multi-delay curve starts at 0 and stays below m0 for positive T1,
      delays and m0, given exp(0) = 1 and exp > 0. */
  lemma MultiDelayRecoveryShape(m0: real, t1: real, tp: seq<real>, m: Math, i: nat)
    requires ExpLaws(m) && ExpAtMostOneBelowZero(m) && t1 > 0.0 && m0 > 0.0 && i < |tp| && tp[i] >= 0.0
    ensures MultiDelayRecovery(m0, t1, tp, m).Ok?
    ensures tp[i] == 0.0 ==> MultiDelayRecovery(m0, t1, tp, m).value[i] == 0.0
    ensures 0.0 <= MultiDelayRecovery(m0, t1, tp, m).value[i] < m0
  {
    var e := m.exp(-tp[i] / t1);
    assert -tp[i] / t1 <= 0.0;
    assert 0.0 < e <= 1.0;
    assert tp[i] == 0.0 ==> -tp[i] / t1 == 0.0;
    assert m0 * (1.0 - e) < m0 * 1.0;
  }

  /* ---------- three-phase delay split of the kinetic models ---------- */

  /** Delays before c: `s[s < c]`. */
  function Below(s: seq<real>, c: real): seq<real> {
    if s == [] then []
    else Below(s[..|s| - 1], c) + (if s[|s| - 1] < c then [s[|s| - 1]] else [])
  }

  /** Delays in [lo, hi): `s[(s >= lo) & (s < hi)]`. */
  function Between(s: seq<real>, lo: real, hi: real): seq<real> {
    if s == [] then []
    else Between(s[..|s| - 1], lo, hi) + (if lo <= s[|s| - 1] < hi then [s[|s| - 1]] else [])
  }

  /** Delays from c on: `s[s >= c]`. */
  function AtLeast(s: seq<real>, c: real): seq<real> {
    if s == [] then []
    else AtLeast(s[..|s| - 1], c) + (if s[|s| - 1] >= c then [s[|s| - 1]] else [])
  }

  /** Each phase holds only delays that satisfy its bound. */
  lemma {:induction false} PhaseMembers(s: seq<real>, c1: real, c2: real)
    ensures forall i :: 0 <= i < |Below(s, c1)| ==> Below(s, c1)[i] < c1
    ensures forall i :: 0 <= i < |Between(s, c1, c2)| ==> c1 <= Between(s, c1, c2)[i] < c2
    ensures forall i :: 0 <= i < |AtLeast(s, c2)| ==> AtLeast(s, c2)[i] >= c2
  {
    if s != [] {
      PhaseMembers(s[..|s| - 1], c1, c2);
    }
  }

  /** With c1 <= c2 every delay lands in exactly one phase. */
  lemma PhasesPartition(s: seq<real>, c1: real, c2: real)
    requires c1 <= c2
    ensures |Below(s, c1)| + |Between(s, c1, c2)| + |AtLeast(s, c2)| == |s|
    ensures multiset(Below(s, c1) + Between(s, c1, c2) + AtLeast(s, c2)) == multiset(s)
  {
    PhasesMultiset(s, c1, c2);
    assert |multiset(Below(s, c1) + Between(s, c1, c2) + AtLeast(s, c2))| == |multiset(s)|;
  }

  lemma {:induction false} PhasesMultiset(s: seq<real>, c1: real, c2: real)
    requires c1 <= c2
    ensures multiset(Below(s, c1) + Between(s, c1, c2) + AtLeast(s, c2)) == multiset(s)
  {
    if s != [] {
      var s', x := s[..|s| - 1], s[|s| - 1];
      PhasesMultiset(s', c1, c2);
      assert s == s' + [x];
    }
  }

  lemma {:induction false} BelowAll(s: seq<real>, c: real)
    requires forall i :: 0 <= i < |s| ==> s[i] < c
    ensures Below(s, c) == s
  {
    if s != [] {
      BelowAll(s[..|s| - 1], c);
    }
  }

  lemma {:induction false} BetweenNone(s: seq<real>, lo: real, hi: real)
    requires forall i :: 0 <= i < |s| ==> s[i] < lo || s[i] >= hi
    ensures Between(s, lo, hi) == []
  {
    if s != [] {
      BetweenNone(s[..|s| - 1], lo, hi);
    }
  }

  lemma {:induction false} AtLeastNone(s: seq<real>, c: real)
    requires forall i :: 0 <= i < |s| ==> s[i] < c
    ensures AtLeast(s, c) == []
  {
    if s != [] {
      AtLeastNone(s[..|s| - 1], c);
    }
  }

  /** Appending one delay appends it to the phase it belongs to. */
  lemma PhasesSnoc(s: seq<real>, x: real, c1: real, c2: real)
    ensures Below(s + [x], c1) == Below(s, c1) + (if x < c1 then [x] else [])
    ensures Between(s + [x], c1, c2) == Between(s, c1, c2) + (if c1 <= x < c2 then [x] else [])
    ensures AtLeast(s + [x], c2) == AtLeast(s, c2) + (if x >= c2 then [x] else [])
  {
    assert (s + [x])[..|s + [x]| - 1] == s;
  }

  /** With c1 <= c2, sorted delays come out of the split in their own order. */
  lemma {:induction false} PhasesKeepSortedOrder(s: seq<real>, c1: real, c2: real)
    requires c1 <= c2 && Sorted(s)
    ensures Below(s, c1) + Between(s, c1, c2) + AtLeast(s, c2) == s
  {
    if s != [] {
      var s' := s[..|s| - 1];
      var x := s[|s| - 1];
      assert s == s' + [x];
      forall i, j | 0 <= i < j < |s'|
        ensures s'[i] <= s'[j]
      {
        assert s'[i] == s[i] && s'[j] == s[j];
      }
      PhasesKeepSortedOrder(s', c1, c2);
      forall i | 0 <= i < |s'|
        ensures s'[i] <= x
      {
        assert s'[i] == s[i];
      }
      if x >= c2 {
        LastInPhase3(s', x, c1, c2);
      } else if x >= c1 {
        LastInPhase2(s', x, c1, c2);
      } else {
        LastInPhase1(s', x, c1, c2);
      }
    }
  }

  /** A largest delay from c2 on joins the end of phase 3. */
  lemma LastInPhase3(s: seq<real>, x: real, c1: real, c2: real)
    requires c1 <= c2 <= x && Below(s, c1) + Between(s, c1, c2) + AtLeast(s, c2) == s
    ensures Below(s + [x], c1) + Between(s + [x], c1, c2) + AtLeast(s + [x], c2) == s + [x]
  {
    PhasesSnoc(s, x, c1, c2);
    var b, w, a := Below(s, c1), Between(s, c1, c2), AtLeast(s, c2);
    assert b + w + (a + [x]) == (b + w + a) + [x];
  }

  /** A largest delay in [c1, c2) joins the end of phase 2; phase 3 is empty. */
  lemma LastInPhase2(s: seq<real>, x: real, c1: real, c2: real)
    requires c1 <= x < c2 && Below(s, c1) + Between(s, c1, c2) + AtLeast(s, c2) == s
    requires forall i :: 0 <= i < |s| ==> s[i] <= x
    ensures Below(s + [x], c1) + Between(s + [x], c1, c2) + AtLeast(s + [x], c2) == s + [x]
  {
    PhasesSnoc(s, x, c1, c2);
    AtLeastNone(s, c2);
    var b, w := Below(s, c1), Between(s, c1, c2);
    assert b + w + [] == s;
    assert b + (w + [x]) + [] == (b + w) + [x];
  }

  /** A largest delay below c1 joins the end of phase 1; the others are empty. */
  lemma LastInPhase1(s: seq<real>, x: real, c1: real, c2: real)
    requires x < c1 <= c2 && Below(s, c1) + Between(s, c1, c2) + AtLeast(s, c2) == s
    requires forall i :: 0 <= i < |s| ==> s[i] <= x
    ensures Below(s + [x], c1) + Between(s + [x], c1, c2) + AtLeast(s + [x], c2) == s + [x]
  {
    PhasesSnoc(s, x, c1, c2);
    AtLeastNone(s, c2);
    BetweenNone(s, c1, c2);
    var b := Below(s, c1);
    assert b + [] + [] == s;
    assert (b + [x]) + [] + [] == b + [x];
  }

  /** The value curves of the two kinetic models on each phase. */
  datatype PhaseModel =
    | PcaslModel(att: real, dur: real, k: real, t1: real, m: Math)
    | PaslModel(att: real, tTail: real, s: real, deltaR: real, r1b: real, r1AppEff: real, m: Math)

  predicate Defined(md: PhaseModel) {
    md.PcaslModel? ==> md.t1 != 0.0
  }

  /** The value of phase `phase` (1, 2 or 3) at delay x; phase 1 is always 0. */
  function PhaseValue(md: PhaseModel, phase: nat, x: real): real
    requires Defined(md)
  {
    if phase == 1 then 0.0
    else match md
      case PcaslModel(att, dur, k, t1, m) =>
        if phase == 2 then k * (m.exp(0.0) - m.exp((att - dur - x) / t1))
        else k * (m.exp((att - x) / t1) - m.exp((att - dur - x) / t1))
      case PaslModel(att, tTail, s, deltaR, r1b, r1AppEff, m) =>
        if phase == 2 then s * (-(1.0 - m.exp(deltaR * (x - att))) * m.exp(-x * r1b))
        else s * (-(1.0 - m.exp(deltaR * (x - att))) * m.exp(-tTail * r1b) * m.exp(-r1AppEff * (x - tTail)))
  }

  /** `np.concatenate((m1, m2, m3))`: each phase's values, phase after phase. */
  function PhaseValues(s: seq<real>, c1: real, c2: real, md: PhaseModel): seq<real>
    requires Defined(md)
  {
    var b, w, a := Below(s, c1), Between(s, c1, c2), AtLeast(s, c2);
    seq(|b|, i requires 0 <= i < |b| => PhaseValue(md, 1, b[i])) +
    seq(|w|, i requires 0 <= i < |w| => PhaseValue(md, 2, w[i])) +
    seq(|a|, i requires 0 <= i < |a| => PhaseValue(md, 3, a[i]))
  }

  /** The output has one value per delay of each phase, and phase 1 is zeros. */
  lemma PhaseValuesShape(s: seq<real>, c1: real, c2: real, md: PhaseModel)
    requires Defined(md)
    ensures var out := PhaseValues(s, c1, c2, md);
      |out| == |Below(s, c1)| + |Between(s, c1, c2)| + |AtLeast(s, c2)| &&
      forall i :: 0 <= i < |Below(s, c1)| ==> out[i] == 0.0
  {
  }

  /** The phase a single delay belongs to. */
  function PhaseOf(c1: real, c2: real, x: real): nat {
    if x < c1 then 1 else if x < c2 then 2 else 3
  }

  /** For sorted delays and c1 <= c2 the concatenated output is, at every
      index, the model of that delay's own phase. */
  lemma PhaseValuesPointwise(s: seq<real>, c1: real, c2: real, md: PhaseModel)
    requires c1 <= c2 && Sorted(s) && Defined(md)
    ensures |PhaseValues(s, c1, c2, md)| == |s|
    ensures forall i :: 0 <= i < |s| ==> PhaseValues(s, c1, c2, md)[i] == PhaseValue(md, PhaseOf(c1, c2, s[i]), s[i])
  {
    PhasesKeepSortedOrder(s, c1, c2);
    var b, w, a := Below(s, c1), Between(s, c1, c2), AtLeast(s, c2);
    var out := PhaseValues(s, c1, c2, md);
    forall i | 0 <= i < |s|
      ensures out[i] == PhaseValue(md, PhaseOf(c1, c2, s[i]), s[i])
    {
      PhaseMembers(s, c1, c2);
      if i < |b| {
        assert s[i] == b[i];
      } else if i < |b| + |w| {
        assert s[i] == w[i - |b|];
      } else {
        assert s[i] == a[i - |b| - |w|];
      }
    }
  }

  /** The split of unsorted delays does not keep their order. */
  lemma PhasesReorderUnsorted()
    ensures Below([2.0, 0.0], 0.5) + Between([2.0, 0.0], 0.5, 1.0) + AtLeast([2.0, 0.0], 1.0) == [0.0, 2.0]
  {
    assert [2.0, 0.0][..1] == [2.0];
    assert [2.0][..0] == [];
  }

  /** With c1 > c2 (a negative duration) a delay can land in two phases. */
  lemma PhasesOverlapWhenReversed()
    ensures |Below([1.0], 1.5)| + |Between([1.0], 1.5, 1.0)| + |AtLeast([1.0], 1.0)| == 2
  {
    assert [1.0][..0] == [];
  }

  /* ---------- general kinetic models ---------- */

  /** The `paras` dictionary of the kinetic models. */
  datatype GkmParas = GkmParas(t1Blood: real, partCoef: real, lablEff: real)

  /** The PCASL curves: const*exp(-att/T1b) times the bolus terms. */
  function PcaslCurves(cbf: real, att: real, dur: real, p: GkmParas, m: Math): (md: PhaseModel)
    requires p.t1Blood != 0.0
    ensures Defined(md)
  {
    var t1 := p.t1Blood;
    var c := if p.partCoef == 0.0 then 0.0 else 2.0 * p.lablEff * cbf * t1 / p.partCoef / 6000.0;
    PcaslModel(att, dur, c * m.exp(-att / t1), t1, m)
  }

  /** mricloud_func_gkm_pcasl_multidelay. Phase 1 (p + dur < att) is zero,
      phase 2 (p < att <= p + dur) and phase 3 (p >= att) follow the kinetic
      model. Phase bounds are written with the over-the-reals identity
      p + dur < att <==> p < att - dur. `0 / t1_app` is a Python division, so
      T1 = 0 raises; a zero partition coefficient makes the numpy scale
      infinite, which matters only when a delay is in phase 2 or 3. */
  function GkmPcasl(cbf: real, att: real, dur: real, plds: seq<real>, p: GkmParas, m: Math): (r: Result<seq<real>>)
  {
    if p.t1Blood == 0.0 then Err(ZeroDivisionError("0 / t1_app"))
    else if p.partCoef == 0.0 && |Between(plds, att - dur, att)| + |AtLeast(plds, att)| > 0 then
      Err(NotFinite("const with a zero partition coefficient"))
    else Ok(PhaseValues(plds, att - dur, att, PcaslCurves(cbf, att, dur, p, m)))
  }

  /** PCASL output: as long as the input when dur >= 0; its first |w1| values
      are zeros; cbf = 0 makes it all zero. */
  lemma GkmPcaslProperties(cbf: real, att: real, dur: real, plds: seq<real>, p: GkmParas, m: Math)
    requires GkmPcasl(cbf, att, dur, plds, p, m).Ok?
    ensures var out := GkmPcasl(cbf, att, dur, plds, p, m).value;
      (dur >= 0.0 ==> |out| == |plds|) &&
      (forall i :: 0 <= i < |Below(plds, att - dur)| ==> out[i] == 0.0) &&
      (cbf == 0.0 ==> forall i :: 0 <= i < |out| ==> out[i] == 0.0)
  {
    var md := PcaslCurves(cbf, att, dur, p, m);
    assert GkmPcasl(cbf, att, dur, plds, p, m).value == PhaseValues(plds, att - dur, att, md);
    PhaseValuesShape(plds, att - dur, att, md);
    if dur >= 0.0 {
      PhasesPartition(plds, att - dur, att);
    }
    if cbf == 0.0 {
      PcaslZeroScale(cbf, att, dur, p, m);
      PhaseValuesZero(plds, att - dur, att, md);
    }
  }

  lemma PcaslZeroScale(cbf: real, att: real, dur: real, p: GkmParas, m: Math)
    requires p.t1Blood != 0.0 && cbf == 0.0
    ensures PcaslCurves(cbf, att, dur, p, m).k == 0.0
  {
  }

  /** A PCASL model with a zero scale is zero at every delay. */
  lemma PhaseValuesZero(s: seq<real>, c1: real, c2: real, md: PhaseModel)
    requires Defined(md) && md.PcaslModel? && md.k == 0.0
    ensures forall i :: 0 <= i < |PhaseValues(s, c1, c2, md)| ==> PhaseValues(s, c1, c2, md)[i] == 0.0
  {
  }

  /** PCASL for sorted delays and dur >= 0: the value at each delay is its
      own phase's curve, in input order. */
  lemma GkmPcaslSorted(cbf: real, att: real, dur: real, plds: seq<real>, p: GkmParas, m: Math)
    requires GkmPcasl(cbf, att, dur, plds, p, m).Ok? && dur >= 0.0 && Sorted(plds)
    ensures var out := GkmPcasl(cbf, att, dur, plds, p, m).value;
      |out| == |plds| &&
      forall i :: 0 <= i < |plds| ==>
        out[i] == PhaseValue(PcaslCurves(cbf, att, dur, p, m),
                             if plds[i] + dur < att then 1 else if plds[i] < att then 2 else 3, plds[i])
  {
    PhaseValuesPointwise(plds, att - dur, att, PcaslCurves(cbf, att, dur, p, m));
  }

  /** The Look-Locker PASL curves, or None where numpy makes the scale
      const*sin(flip) NaN or inf: fewer than two distinct TIs, a non-positive
      cosine, a zero partition coefficient or a zero delta_r. */
  function PaslCurves(cbf: real, att: real, dur: real, tis: seq<real>, f: real, p: GkmParas, m: Math): Option<PhaseModel>
    requires p.t1Blood != 0.0
  {
    var ti := TiInterval(tis);
    if ti.Err? || m.cos(f) <= 0.0 then None
    else
      var r1b := 1.0 / p.t1Blood;
      var r1AppEff := r1b - m.log(m.cos(f)) / ti.value;
      var deltaR := r1b - r1AppEff;
      if p.partCoef == 0.0 || deltaR == 0.0 then None
      else
        var c := 2.0 * p.lablEff * cbf / p.partCoef / 6000.0 / deltaR;
        Some(PaslModel(att, att + dur, c * m.sin(f), deltaR, r1b, r1AppEff, m))
  }

  /** mricloud_func_gkm_pasl_looklocker. The phases split at att and
      t_tail = att + dur; the flip angle is in degrees. `1 / t1_blood` is a
      Python division, so T1 = 0 raises. */
  function GkmPasl(cbf: real, att: real, dur: real, tis: seq<real>, flipDeg: real, p: GkmParas, m: Math)
    : (r: Result<seq<real>>)
  {
    var f := flipDeg / 180.0 * Pi;
    if p.t1Blood == 0.0 then Err(ZeroDivisionError("1 / t1_blood"))
    else
      var curves := PaslCurves(cbf, att, dur, tis, f, p, m);
      if curves.None? then
        if |Between(tis, att, att + dur)| + |AtLeast(tis, att + dur)| > 0 then Err(NotFinite("Look-Locker scale"))
        else Ok(seq(|Below(tis, att)|, i => 0.0))
      else Ok(PhaseValues(tis, att, att + dur, curves.value))
  }

  /** PASL output: as long as the input when dur >= 0, and its first |w1|
      values (TI < att) are zeros. */
  lemma GkmPaslProperties(cbf: real, att: real, dur: real, tis: seq<real>, flipDeg: real, p: GkmParas, m: Math)
    requires GkmPasl(cbf, att, dur, tis, flipDeg, p, m).Ok?
    ensures var out := GkmPasl(cbf, att, dur, tis, flipDeg, p, m).value;
      (dur >= 0.0 ==> |out| == |tis|) &&
      (forall i :: 0 <= i < |Below(tis, att)| ==> out[i] == 0.0)
  {
    var curves := PaslCurves(cbf, att, dur, tis, flipDeg / 180.0 * Pi, p, m);
    var out := GkmPasl(cbf, att, dur, tis, flipDeg, p, m).value;
    assert PaslOutput(tis, att, att + dur, curves, out);
    PaslOutputShape(tis, att, att + dur, curves, out);
    if dur >= 0.0 {
      PhasesPartition(tis, att, att + dur);
    }
  }

  /** The two ways GkmPasl succeeds: the phase values of the curves, or,
      without curves, zeros for phase 1 when phases 2 and 3 are empty. */
  predicate PaslOutput(tis: seq<real>, c1: real, c2: real, curves: Option<PhaseModel>, out: seq<real>) {
    match curves
    case Some(md) => Defined(md) && out == PhaseValues(tis, c1, c2, md)
    case None => out == seq(|Below(tis, c1)|, i => 0.0) && |Between(tis, c1, c2)| + |AtLeast(tis, c2)| == 0
  }

  lemma PaslOutputShape(tis: seq<real>, c1: real, c2: real, curves: Option<PhaseModel>, out: seq<real>)
    requires PaslOutput(tis, c1, c2, curves, out)
    ensures |out| == |Below(tis, c1)| + |Between(tis, c1, c2)| + |AtLeast(tis, c2)|
    ensures forall i :: 0 <= i < |Below(tis, c1)| ==> out[i] == 0.0
  {
    if curves.Some? {
      PhaseValuesShape(tis, c1, c2, curves.value);
    }
  }

  /** PASL for sorted TIs and dur >= 0: the value at each TI is its own
      phase's curve, in input order. */
  lemma GkmPaslSorted(cbf: real, att: real, dur: real, tis: seq<real>, flipDeg: real, p: GkmParas, m: Math)
    requires GkmPasl(cbf, att, dur, tis, flipDeg, p, m).Ok? && dur >= 0.0 && Sorted(tis)
    requires PaslCurves(cbf, att, dur, tis, flipDeg / 180.0 * Pi, p, m).Some?
    ensures var out := GkmPasl(cbf, att, dur, tis, flipDeg, p, m).value;
      var curves := PaslCurves(cbf, att, dur, tis, flipDeg / 180.0 * Pi, p, m).value;
      Defined(curves) && |out| == |tis| &&
      forall i :: 0 <= i < |tis| ==> out[i] == PhaseValue(curves, PhaseOf(att, att + dur, tis[i]), tis[i])
  {
    PhaseValuesPointwise(tis, att, att + dur, PaslCurves(cbf, att, dur, tis, flipDeg / 180.0 * Pi, p, m).value);
  }
}
