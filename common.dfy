/** Vocabulary shared by every module of the model: the outcomes of the Python
    code (a value or the exception it raises), the per-frame role tags of an
    ASL series, the acquisition enumerations, the transcendental functions
    numpy supplies, and numpy-style reductions over flat volumes.

    A 3D volume of shape (X, Y, Z) is a flat `seq<real>` in numpy's C order, so
    voxel i lies in slice `i % Z`; a 4D series is a sequence of such frames. */
module Common {

  datatype Option<+T> = None | Some(value: T)

  /** What a Python call can end in besides a value. `NotFinite` stands for the
      NaN or inf values numpy produces, without raising, on 0/0, x/0 or the
      mean of an empty selection. */
  datatype Error =
    | KeyError(key: string)
    | IndexError(what: string)
    | ValueError(msg: string)
    | TypeError(what: string)
    | NameError(name: string)
    | AttributeError(what: string)
    | ZeroDivisionError(what: string)
    | OsError(path: string)
    | ImportError(name: string)
    | NotFinite(what: string)
    | FitFailure

  datatype Result<+T> = Ok(value: T) | Err(error: Error) {
    predicate IsFailure() { Err? }
    function PropagateFailure<U>(): Result<U>
      requires Err?
    {
      Err(error)
    }
    function Extract(): T
      requires Ok?
    {
      value
    }
  }

  /** `params.get(key, default)`. */
  function Setting(given: Option<real>, default: real): (r: real)
    ensures given.Some? ==> r == given.value
    ensures given.None? ==> r == default
  {
    if given.Some? then given.value else default
  }

  /** Entries of the ASLContext list (the BIDS aslcontext.tsv volume types). */
  datatype Role = Control | Label | M0Scan | OtherRole(tag: string)

  /** MRAcquisitionType. */
  datatype Acquisition = TwoD | ThreeD | OtherAcquisition(tag: string)

  /** Spatial shape (X, Y, Z) of an image. */
  datatype Shape = Shape(nx: nat, ny: nat, nz: nat) {
    function Voxels(): nat {
      nx * ny * nz
    }
  }

  /** ArterialSpinLabelingType. */
  datatype AslType = PCASL | CASL | PASL | OtherAslType(tag: string)

  /** numpy's elementary functions, which the model does not compute: every
      member that needs one takes this record, and states as a precondition
      whichever of their laws its contract relies on. */
  datatype Math = Math(exp: real -> real, log: real -> real, cos: real -> real, sin: real -> real)

  ghost predicate ExpPositive(m: Math) {
    forall x :: m.exp(x) > 0.0
  }

  ghost predicate ExpLaws(m: Math) {
    m.exp(0.0) == 1.0 && ExpPositive(m)
  }

  /** exp of a non-positive argument is at most 1 (exp is increasing). */
  ghost predicate ExpAtMostOneBelowZero(m: Math) {
    forall x :: x <= 0.0 ==> m.exp(x) <= 1.0
  }

  ghost predicate CosLaws(m: Math) {
    m.cos(0.0) == 1.0 && forall x :: -1.0 <= m.cos(x) <= 1.0
  }

  /** np.pi as a decimal. */
  const Pi: real := 3.141592653589793

  function Abs(x: real): real {
    if x < 0.0 then -x else x
  }

  /** np.clip for one value. */
  function Clip(x: real, lo: real, hi: real): (r: real)
    requires lo <= hi
    ensures lo <= r <= hi
    ensures lo <= x <= hi ==> r == x
  {
    if x < lo then lo else if x > hi then hi else x
  }

  /** Python's int() of a float and numpy's float-to-integer cast: truncation toward zero. */
  function Trunc(x: real): (r: int)
    ensures Abs(r as real) <= Abs(x) && Abs(x) < Abs(r as real) + 1.0
    ensures (r > 0 ==> x > 0.0) && (r < 0 ==> x < 0.0)
  {
    if x >= 0.0 then x.Floor else -((-x).Floor)
  }

  /** Smallest integer not below x. */
  function Ceil(x: real): (r: int)
    ensures x <= r as real < x + 1.0
  {
    -((-x).Floor)
  }

  // ---------------------------------------------------------------------------
  // Decimal strings, as Python's float() and int() read them

  predicate IsDigit(c: char) {
    '0' <= c <= '9'
  }

  predicate AllDigits(s: string) {
    forall i :: 0 <= i < |s| ==> IsDigit(s[i])
  }

  /** The value of a string of decimal digits. */
  function DigitsValue(s: string): nat
    requires AllDigits(s)
  {
    if s == [] then 0 else 10 * DigitsValue(s[..|s| - 1]) + (s[|s| - 1] as int - '0' as int)
  }

  function Pow10(n: nat): (p: nat)
    ensures p >= 1
  {
    if n == 0 then 1 else 10 * Pow10(n - 1)
  }

  /** s without one leading minus sign, and whether there was one. */
  function Unsigned(s: string): (string, bool) {
    if |s| > 0 && s[0] == '-' then (s[1..], true) else (s, false)
  }

  /** Position of the first '.' of s, or |s| when there is none. */
  function DotAt(s: string): (p: nat)
    ensures p <= |s|
    ensures forall i :: 0 <= i < p ==> s[i] != '.'
    ensures p < |s| ==> s[p] == '.'
  {
    if s == [] then 0 else if s[0] == '.' then 0 else 1 + DotAt(s[1..])
  }

  /** Strings matching the pattern `-?\d+(\.\d+)?`: an optional minus sign,
      digits, and optionally a point followed by digits. */
  predicate IsDecimal(s: string) {
    var u := Unsigned(s).0;
    var p := DotAt(u);
    0 < p && AllDigits(u[..p]) && (p == |u| || (p + 1 < |u| && AllDigits(u[p + 1..])))
  }

  /** The number a decimal string denotes. */
  function DecimalValue(s: string): real
    requires IsDecimal(s)
  {
    var (u, neg) := Unsigned(s);
    var p := DotAt(u);
    var magnitude := DigitsValue(u[..p]) as real +
      (if p == |u| then 0.0 else DigitsValue(u[p + 1..]) as real / Pow10(|u| - p - 1) as real);
    if neg then -magnitude else magnitude
  }

  /** float(s) on the decimal strings; None stands for the ValueError of any
      other string. */
  function ParseDecimal(s: string): (r: Option<real>)
    ensures r.Some? <==> IsDecimal(s)
  {
    if IsDecimal(s) then Some(DecimalValue(s)) else None
  }

  /** int(s) on an optional minus sign followed by digits; None for the
      ValueError of any other string. */
  function ParseInt(s: string): (r: Option<int>)
    ensures r.Some? <==> |Unsigned(s).0| > 0 && AllDigits(Unsigned(s).0)
  {
    var (u, neg) := Unsigned(s);
    if |u| > 0 && AllDigits(u) then Some(if neg then -(DigitsValue(u) as int) else DigitsValue(u) as int) else None
  }

  function Pow(x: real, n: nat): real {
    if n == 0 then 1.0 else x * Pow(x, n - 1)
  }

  function Sum(s: seq<real>): real {
    if s == [] then 0.0 else Sum(s[..|s| - 1]) + s[|s| - 1]
  }

  function CountTrue(m: seq<bool>): nat {
    if m == [] then 0 else CountTrue(m[..|m| - 1]) + (if m[|m| - 1] then 1 else 0)
  }

  /** Sum of v[i] over the voxels where the mask holds: `np.sum(v[m])`. */
  function MaskedSum(v: seq<real>, m: seq<bool>): real
    requires |v| == |m|
  {
    if v == [] then 0.0
    else MaskedSum(v[..|v| - 1], m[..|m| - 1]) + (if m[|m| - 1] then v[|v| - 1] else 0.0)
  }

  /** `np.mean(v[m])`; None where numpy returns NaN (an empty selection). */
  function MaskedMean(v: seq<real>, m: seq<bool>): (r: Option<real>)
    requires |v| == |m|
    ensures r.None? <==> CountTrue(m) == 0
  {
    if CountTrue(m) == 0 then None else Some(MaskedSum(v, m) / CountTrue(m) as real)
  }

  function Zeros(n: nat): (z: seq<real>)
    ensures |z| == n && forall i :: 0 <= i < n ==> z[i] == 0.0
  {
    seq(n, i => 0.0)
  }

  function Add(a: seq<real>, b: seq<real>): (c: seq<real>)
    requires |a| == |b|
    ensures |c| == |a| && forall i :: 0 <= i < |a| ==> c[i] == a[i] + b[i]
  {
    seq(|a|, i requires 0 <= i < |a| => a[i] + b[i])
  }

  function Sub(a: seq<real>, b: seq<real>): (c: seq<real>)
    requires |a| == |b|
    ensures |c| == |a| && forall i :: 0 <= i < |a| ==> c[i] == a[i] - b[i]
  {
    seq(|a|, i requires 0 <= i < |a| => a[i] - b[i])
  }

  /** Slice index of flat voxel i in a volume with nz slices (numpy C order). */
  function SliceOf(i: nat, nz: nat): (z: nat)
    ensures nz > 0 ==> z < nz
  {
    if nz == 0 then 0 else i % nz
  }

  /** All frames of a 4D series have the same number of voxels. */
  predicate Rect(frames: seq<seq<real>>, n: nat) {
    forall i :: 0 <= i < |frames| ==> |frames[i]| == n
  }

  /** Number of entries of `roles` equal to `role`. */
  function RoleCount(roles: seq<Role>, role: Role): nat {
    if roles == [] then 0
    else RoleCount(roles[..|roles| - 1], role) + (if roles[|roles| - 1] == role then 1 else 0)
  }

  /** Some entry of `roles` with this role has no frame: indexing the series
      there is Python's IndexError. */
  predicate RolePastEnd(roles: seq<Role>, role: Role, numFrames: nat) {
    exists i :: numFrames <= i < |roles| && roles[i] == role
  }

  /** Voxel v of the sum of those of the first k frames whose role is `role`;
      frames of other roles are never read. */
  function RoleSumAt(frames: seq<seq<real>>, roles: seq<Role>, role: Role, v: nat, k: nat): real
    requires k <= |roles|
    requires forall i :: 0 <= i < k && roles[i] == role ==> i < |frames| && v < |frames[i]|
  {
    if k == 0 then 0.0
    else RoleSumAt(frames, roles, role, v, k - 1) + (if roles[k - 1] == role then frames[k - 1][v] else 0.0)
  }

  /** The entries of xs at the positions of `roles[..k]` holding `role`, in
      order: the lists built by the loops over ASLContext. */
  function Picked<T>(xs: seq<T>, roles: seq<Role>, role: Role, k: nat): (r: seq<T>)
    requires k <= |roles|
    requires forall i :: 0 <= i < k && roles[i] == role ==> i < |xs|
    ensures forall y :: y in r ==> y in xs
  {
    if k == 0 then []
    else Picked(xs, roles, role, k - 1) + (if roles[k - 1] == role then [xs[k - 1]] else [])
  }

  /** The positions of `roles[..k]` holding `role`, in increasing order. */
  function Positions(roles: seq<Role>, role: Role, k: nat): seq<nat>
    requires k <= |roles|
  {
    if k == 0 then []
    else Positions(roles, role, k - 1) + (if roles[k - 1] == role then [k - 1] else [])
  }

  /** Positions lists exactly the positions of the role, strictly increasing. */
  lemma {:induction false} PositionsExact(roles: seq<Role>, role: Role, k: nat)
    requires k <= |roles|
    ensures var p := Positions(roles, role, k);
      (forall j :: 0 <= j < |p| ==> p[j] < k && roles[p[j]] == role) &&
      (forall j, j' :: 0 <= j < j' < |p| ==> p[j] < p[j']) &&
      (forall i :: 0 <= i < k && roles[i] == role ==> i in p) &&
      |p| == RoleCount(roles[..k], role)
  {
    if k > 0 {
      PositionsExact(roles, role, k - 1);
      assert roles[..k][..k - 1] == roles[..k - 1];
    }
  }

  /** The stacks keep the order of their frames: entry j of the stack is the
      frame at the j-th position of the role. */
  lemma {:induction false} PickedInOrder<T>(xs: seq<T>, roles: seq<Role>, role: Role, k: nat)
    requires k <= |roles|
    requires forall i :: 0 <= i < k && roles[i] == role ==> i < |xs|
    ensures var p := Positions(roles, role, k);
      var r := Picked(xs, roles, role, k);
      |r| == |p| && forall j :: 0 <= j < |p| ==> p[j] < |xs| && r[j] == xs[p[j]]
  {
    if k > 0 {
      PickedInOrder(xs, roles, role, k - 1);
      PositionsExact(roles, role, k);
    }
  }

  /** Every stacked frame is a frame of the series, so it has its voxel count. */
  lemma PickedRect(frames: seq<seq<real>>, roles: seq<Role>, role: Role, n: nat)
    requires Rect(frames, n)
    requires forall i :: 0 <= i < |roles| && roles[i] == role ==> i < |frames|
    ensures Rect(Picked(frames, roles, role, |roles|), n)
  {
    var r := Picked(frames, roles, role, |roles|);
    forall j | 0 <= j < |r|
      ensures |r[j]| == n
    {
      assert r[j] in frames;
    }
  }

  /** The results of f(0), ..., f(k - 1) in order, or the first error: a loop
      that stops at the first exception. */
  function Collect<T>(f: nat -> Result<T>, k: nat): Result<seq<T>> {
    if k == 0 then Ok([])
    else
      var before :- Collect(f, k - 1);
      var x :- f(k - 1);
      Ok(before + [x])
  }

  /** Collect succeeds with one result per index, each f's own, or fails with
      the error of the first index that fails. */
  lemma {:induction false} CollectInOrder<T>(f: nat -> Result<T>, k: nat)
    ensures Collect(f, k).Ok? ==> (|Collect(f, k).value| == k &&
      forall p :: 0 <= p < k ==> f(p).Ok? && Collect(f, k).value[p] == f(p).value)
    ensures Collect(f, k).Err? ==> exists p :: (0 <= p < k && f(p) == Err(Collect(f, k).error) &&
      forall q :: 0 <= q < p ==> f(q).Ok?)
    ensures (forall p :: 0 <= p < k ==> f(p).Ok?) ==> Collect(f, k).Ok?
  {
    if k > 0 {
      CollectInOrder(f, k - 1);
    }
  }

  /** The loop Collect describes: f(0), f(1), ... in turn, stopping at the
      first error. */
  method CollectLoop<T>(f: nat -> Result<T>, n: nat) returns (r: Result<seq<T>>)
    ensures r == Collect(f, n)
  {
    var results: seq<T> := [];
    var k := 0;
    while k < n
      invariant k <= n
      invariant Collect(f, k) == Ok(results)
    {
      var x := f(k);
      if x.Err? {
        CollectFails(f, k, n);
        return Err(x.error);
      }
      results := results + [x.value];
      k := k + 1;
    }
    r := Ok(results);
  }

  /** One more index that fails ends the loop with its error. */
  lemma CollectFails<T>(f: nat -> Result<T>, k: nat, n: nat)
    requires k < n && Collect(f, k).Ok? && f(k).Err?
    ensures Collect(f, n) == Err(f(k).error)
  {
    CollectErrStays(f, k + 1, n);
  }

  lemma {:induction false} CollectErrStays<T>(f: nat -> Result<T>, k: nat, n: nat)
    requires k <= n && Collect(f, k).Err?
    ensures Collect(f, n) == Collect(f, k)
    decreases n - k
  {
    if k < n {
      CollectErrStays(f, k + 1, n);
    }
  }

  function Map(f: real -> real, s: seq<real>): (r: seq<real>)
    ensures |r| == |s| && forall i :: 0 <= i < |s| ==> r[i] == f(s[i])
  {
    seq(|s|, i requires 0 <= i < |s| => f(s[i]))
  }

  predicate Sorted(s: seq<real>) {
    forall i, j :: 0 <= i < j < |s| ==> s[i] <= s[j]
  }

  /** The non-zero entries of s, in order: `[x for x in s if x != 0]`. */
  function NonZero(s: seq<real>): (r: seq<real>)
    ensures |r| <= |s|
    ensures forall x :: x in r <==> x in s && x != 0.0
  {
    if s == [] then []
    else NonZero(s[..|s| - 1]) + (if s[|s| - 1] != 0.0 then [s[|s| - 1]] else [])
  }

  lemma {:induction false} NonZeroAppend(a: seq<real>, b: seq<real>)
    ensures NonZero(a + b) == NonZero(a) + NonZero(b)
    decreases |b|
  {
    if b == [] {
      assert a + b == a;
    } else {
      var b' := b[..|b| - 1];
      assert (a + b)[..|a + b| - 1] == a + b';
      NonZeroAppend(a, b');
    }
  }

  /** The first non-zero PLD of a PLD list, or None when there is none. The
      Python code takes element 0 of `list(set(...))`, whose order the language
      leaves open; PldIsAnyNonZero shows the two agree whenever all non-zero
      entries are equal, which is the single-delay case these modules serve. */
  function FirstNonZero(s: seq<real>): (r: Option<real>)
    ensures r.None? <==> NonZero(s) == []
    ensures r.Some? ==> r.value == NonZero(s)[0]
  {
    var nz := NonZero(s);
    if nz == [] then None else Some(nz[0])
  }

  lemma PldIsAnyNonZero(s: seq<real>, x: real)
    requires x in s && x != 0.0
    requires forall i, j :: 0 <= i < j < |s| && s[i] != 0.0 && s[j] != 0.0 ==> s[i] == s[j]
    ensures FirstNonZero(s) == Some(x)
  {
    var y := NonZero(s)[0];
    assert y in NonZero(s);
    var i :| 0 <= i < |s| && s[i] == y;
    var j :| 0 <= j < |s| && s[j] == x;
    assert i < j || j < i || i == j;
  }
}
