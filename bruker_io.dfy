/** The Bruker parameter-file reader of PyASL (pyasl/utils/bruker_io.py,
    `read_nmr_par`). A JCAMP-style parameter file is read line by line; each
    line is classified by the first of seven regular expressions it matches;
    the classified lines are folded into a dictionary, remembering the last
    parameter named so that continuation lines extend it; finally strings that
    spell one number or a whitespace-separated list of numbers become floats.

    A line is given as `readlines` yields it, without its terminator: the
    file is opened in text mode, so every line ends in one '\n' (the last one
    possibly not) and holds no other. The empty line "\n" is therefore the
    empty string here. */
module BrukerIo {
  import opened Common

  // ---------------------------------------------------------------------------
  // Line classification (bruker_io.py:12-28)

  /** A classified line with the groups of the pattern it matched. */
  datatype Row =
    | ParVecVal(name: string, value: string)   // ##$NAME=( 3 )rest
    | ParVec(name: string)                     // ##$NAME=( 3 )
    | ParVal(name: string, value: string)      // ##$NAME=value
    | Val(text: string)                        // a continuation line
    | Stamp(text: string)                      // $$ comment
    | EmptyPar(name: string)                   // ##$NAME=
    | Anything(text: string)                   // any other non-empty line

  /** "##" at the start of a line. */
  predicate Header(c: string) {
    |c| >= 2 && c[0] == '#' && c[1] == '#'
  }

  /** Length of the run of '$' starting at index i. */
  function Dollars(c: string, i: nat): (k: nat)
    ensures i + k <= |c| || (i > |c| && k == 0)
    ensures forall j :: i <= j < i + k ==> c[j] == '$'
    ensures i + k < |c| ==> c[i + k] != '$'
    decreases |c| - i
  {
    if i < |c| && c[i] == '$' then 1 + Dollars(c, i + 1) else 0
  }

  /** Group 1 of a header pattern when its '=' is at e: `\$*` greedily takes
      the '$' run after "##", but leaves at least one character to `(.+)`. */
  function Name(c: string, e: nat): string
    requires 3 <= e <= |c|
  {
    c[Min(2 + Dollars(c, 2), e - 1)..e]
  }

  function Min(a: nat, b: nat): nat {
    if a <= b then a else b
  }

  /** The characters `[\ \d\.]` of a vector size. */
  predicate SizeChar(ch: char) {
    ch == ' ' || IsDigit(ch) || ch == '.'
  }

  /** First index at or after i that is not a size character. */
  function SizeRunEnd(c: string, i: nat): (j: nat)
    requires i <= |c|
    ensures i <= j <= |c|
    ensures forall k :: i <= k < j ==> SizeChar(c[k])
    ensures j < |c| ==> !SizeChar(c[j])
    decreases |c| - i
  {
    if i < |c| && SizeChar(c[i]) then SizeRunEnd(c, i + 1) else i
  }

  /** The index of the ')' closing `\ ?\([\ \d\.]+\)` after the '=' at e,
      if that text follows it. */
  function SizeClose(c: string, e: nat): (r: Option<nat>)
    requires e < |c|
    ensures r.Some? ==> e + 3 <= r.value < |c| && c[r.value] == ')'
  {
    var open :=
      if e + 1 < |c| && c[e + 1] == ' ' then (if e + 2 < |c| && c[e + 2] == '(' then Some(e + 2) else None)
      else if e + 1 < |c| && c[e + 1] == '(' then Some(e + 1)
      else None;
    if open.None? then None
    else
      var j := SizeRunEnd(c, open.value + 1);
      if j > open.value + 1 && j < |c| && c[j] == ')' then Some(j) else None
  }

  /** The four ways a header line can go on after its '='. */
  datatype Tail = VecValTail | VecTail | ValTail | EmptyTail

  /** Whether the text from the '=' at e on matches the tail t. */
  predicate Fits(t: Tail, c: string, e: nat)
    requires e < |c|
  {
    c[e] == '=' &&
    match t
    case VecValTail => SizeClose(c, e).Some? && SizeClose(c, e).value + 1 < |c|
    case VecTail => SizeClose(c, e).Some? && SizeClose(c, e).value + 1 == |c|
    case ValTail => e + 1 < |c|
    case EmptyTail => e + 1 == |c|
  }

  /** The '=' the greedy `(.+)` settles on: the last one below hi, from
      index 3 on, after which the tail t matches. */
  function LastFit(t: Tail, c: string, hi: nat): (r: Option<nat>)
    requires hi <= |c|
    ensures r.Some? ==> 3 <= r.value < hi && Fits(t, c, r.value)
    ensures r.Some? ==> forall e :: r.value < e < hi ==> !Fits(t, c, e)
    ensures r.None? ==> forall e :: 3 <= e < hi ==> !Fits(t, c, e)
  {
    if hi <= 3 then None
    else if Fits(t, c, hi - 1) then Some(hi - 1)
    else LastFit(t, c, hi - 1)
  }

  /** Group 2 of ParVal: `\ ?` takes a space only when a character follows. */
  function ValueAfter(c: string, e: nat): string
    requires e + 1 < |c|
  {
    if c[e + 1] == ' ' && e + 2 < |c| then c[e + 2..] else c[e + 1..]
  }

  /** The row a line becomes: the first pattern that matches wins. The empty
      line is "\n" to Python, which `[^\$#]` matches, so it is a Val. */
  function Classify(c: string): Row {
    var vecVal := LastFit(VecValTail, c, |c|);
    var vec := LastFit(VecTail, c, |c|);
    var val := LastFit(ValTail, c, |c|);
    var empty := LastFit(EmptyTail, c, |c|);
    if Header(c) && vecVal.Some? then
      ParVecVal(Name(c, vecVal.value), c[SizeClose(c, vecVal.value).value + 1..])
    else if Header(c) && vec.Some? then ParVec(Name(c, vec.value))
    else if Header(c) && val.Some? then ParVal(Name(c, val.value), ValueAfter(c, val.value))
    else if c == [] then Val("\n")
    else if c[0] != '$' && c[0] != '#' then Val(c)
    else if |c| >= 2 && c[0] == '$' && c[1] == '$' then Stamp(c[2..])
    else if Header(c) && empty.Some? then EmptyPar(Name(c, empty.value))
    else Anything(c)
  }

  predicate AllDollars(d: string) {
    forall i :: 0 <= i < |d| ==> d[i] == '$'
  }

  /** A header line c whose '=' signs from index 3 on all lie at or after
      e0, where the text rest starts. */
  predicate HeaderShape(c: string, e0: nat, rest: string) {
    Header(c) && e0 >= 3 && |c| == e0 + |rest| &&
    (forall e :: 3 <= e < e0 ==> c[e] != '=') &&
    (forall i :: 0 <= i < |rest| ==> c[e0 + i] == rest[i])
  }

  /** A header line "##" + d + n + rest whose name n holds no '=' and does
      not start with '$': the '$' run is d, and n is the name of the '=' that
      starts rest. */
  lemma HeaderParts(d: string, n: string, rest: string)
    requires AllDollars(d) && n != [] && n[0] != '$' && '=' !in n
    ensures var c := "##" + d + n + rest; var e0 := 2 + |d| + |n|;
      HeaderShape(c, e0, rest) && Dollars(c, 2) == |d| && Name(c, e0) == n
  {
    var c := "##" + d + n + rest;
    var e0 := 2 + |d| + |n|;
    assert forall i :: 0 <= i < |d| ==> c[2 + i] == d[i];
    assert forall i :: 0 <= i < |n| ==> c[2 + |d| + i] == n[i];
    assert forall i :: 0 <= i < |rest| ==> c[e0 + i] == rest[i];
    DollarsOf(c, 2, |d|);
    forall e | 3 <= e < e0
      ensures c[e] != '='
    {
      if e >= 2 + |d| {
        assert c[e] == n[e - 2 - |d|];
      }
    }
    assert c[2 + |d|..e0] == n;
  }

  lemma {:induction false} DollarsOf(c: string, i: nat, k: nat)
    requires i + k < |c| && c[i + k] != '$'
    requires forall j :: i <= j < i + k ==> c[j] == '$'
    ensures Dollars(c, i) == k
    decreases k
  {
    if k > 0 {
      DollarsOf(c, i + 1, k - 1);
    }
  }

  /** The greedy choice, in terms of the positions that fit. */
  lemma LastFitIs(t: Tail, c: string, e: nat)
    requires 3 <= e < |c| && Fits(t, c, e)
    requires forall e' :: e < e' < |c| ==> !Fits(t, c, e')
    ensures LastFit(t, c, |c|) == Some(e)
  {
  }

  lemma NoFit(t: Tail, c: string)
    requires forall e :: 3 <= e < |c| ==> !Fits(t, c, e)
    ensures LastFit(t, c, |c|) == None
  {
  }

  /** The classification of a header line whose only '=' (from index 3 on)
      is at e0, in terms of what follows that '='. */
  lemma HeaderAt(c: string, e0: nat)
    requires Header(c) && 3 <= e0 < |c| && c[e0] == '='
    requires forall e :: 3 <= e < |c| && e != e0 ==> c[e] != '='
    ensures SizeClose(c, e0).None? && e0 + 1 < |c| ==> Classify(c) == ParVal(Name(c, e0), ValueAfter(c, e0))
    ensures SizeClose(c, e0).Some? && SizeClose(c, e0).value + 1 == |c| ==> Classify(c) == ParVec(Name(c, e0))
    ensures SizeClose(c, e0).Some? && SizeClose(c, e0).value + 1 < |c| ==>
      Classify(c) == ParVecVal(Name(c, e0), c[SizeClose(c, e0).value + 1..])
    ensures e0 + 1 == |c| ==> Classify(c) == EmptyPar(Name(c, e0))
  {
    forall t: Tail
      ensures Fits(t, c, e0) ==> LastFit(t, c, |c|) == Some(e0)
      ensures !Fits(t, c, e0) ==> LastFit(t, c, |c|) == None
    {
      if Fits(t, c, e0) {
        LastFitIs(t, c, e0);
      } else {
        NoFit(t, c);
      }
    }
  }

  /** A `##NAME=value` line gives its name and value back. */
  lemma ClassifyParVal(d: string, n: string, sp: string, v: string)
    requires AllDollars(d) && n != [] && n[0] != '$' && '=' !in n
    requires sp == "" || sp == " "
    requires v != [] && v[0] != ' ' && v[0] != '(' && '=' !in v
    ensures Classify("##" + d + n + ("=" + sp + v)) == ParVal(n, v)
  {
    var rest := "=" + sp + v;
    HeaderParts(d, n, rest);
    ValueRest(sp, v);
    ParValAfterName("##" + d + n + rest, 2 + |d| + |n|, rest, sp, v);
  }

  /** ClassifyParVal on the positions of the line. */
  lemma ParValAfterName(c: string, e0: nat, rest: string, sp: string, v: string)
    requires HeaderShape(c, e0, rest)
    requires ValueShape(rest, sp, v)
    ensures Classify(c) == ParVal(Name(c, e0), v)
  {
    ParValPositions(c, e0, rest, sp, v);
    HeaderAt(c, e0);
  }

  /** The '=' at e0 is the only one, no vector size follows it, and the value
      after it is v. */
  lemma ParValPositions(c: string, e0: nat, rest: string, sp: string, v: string)
    requires HeaderShape(c, e0, rest)
    requires ValueShape(rest, sp, v)
    ensures e0 < |c| && c[e0] == '=' && forall e :: 3 <= e < |c| && e != e0 ==> c[e] != '='
    ensures e0 + 1 < |c| && SizeClose(c, e0).None? && ValueAfter(c, e0) == v
  {
    assert c[e0 + 1] == rest[1];
    if sp == " " {
      assert c[e0 + 2] == rest[2];
    }
    forall e | e0 < e < |c|
      ensures c[e] != '='
    {
      assert c[e] == rest[e - e0];
    }
    assert ValueAfter(c, e0) == v by {
      forall i | 0 <= i < |v|
        ensures c[e0 + 1 + |sp| + i] == v[i]
      {
        assert c[e0 + (1 + |sp| + i)] == rest[1 + |sp| + i];
      }
    }
  }

  /** rest is '=', at most one space sp, and the value v, which starts with
      neither a space nor '(' and holds no '='. */
  predicate ValueShape(rest: string, sp: string, v: string) {
    (sp == "" || sp == " ") &&
    |rest| == 1 + |sp| + |v| && v != [] && rest[0] == '=' &&
    (forall j :: 1 <= j < |rest| ==> rest[j] != '=') &&
    (sp == " " ==> rest[1] == ' ' && rest[2] == v[0]) &&
    (sp == "" ==> rest[1] == v[0]) &&
    v[0] != ' ' && v[0] != '(' &&
    (forall i :: 0 <= i < |v| ==> rest[1 + |sp| + i] == v[i])
  }

  /** The text after the name of a `##NAME=value` line. */
  lemma ValueRest(sp: string, v: string)
    requires sp == "" || sp == " "
    requires v != [] && v[0] != ' ' && v[0] != '(' && '=' !in v
    ensures ValueShape("=" + sp + v, sp, v)
  {
    var rest := "=" + sp + v;
    forall j | 1 <= j < |rest|
      ensures rest[j] != '='
    {
      if j > |sp| {
        assert rest[j] == v[j - 1 - |sp|];
      }
    }
  }

  /** A vector size line `##NAME=( sizes )`, with or without a value after
      the parenthesis. */
  lemma ClassifyVector(d: string, n: string, sp: string, z: string, v: string)
    requires AllDollars(d) && n != [] && n[0] != '$' && '=' !in n
    requires sp == "" || sp == " "
    requires z != [] && forall i :: 0 <= i < |z| ==> SizeChar(z[i])
    requires '=' !in v
    ensures Classify("##" + d + n + ("=" + sp + "(" + z + ")" + v)) == if v == [] then ParVec(n) else ParVecVal(n, v)
  {
    var rest := "=" + sp + "(" + z + ")" + v;
    assert VectorPieces(d, n, sp, z, v);
    VectorParts(d, n, sp, z, v);
    VectorAfterName("##" + d + n + rest, 2 + |d| + |n|, rest, sp, z, v, n);
  }

  /** The pieces of a vector size line: the '$' run d, the name n, at most
      one space sp, the sizes z and what follows the parenthesis, v. */
  predicate VectorPieces(d: string, n: string, sp: string, z: string, v: string) {
    AllDollars(d) && n != [] && n[0] != '$' && '=' !in n &&
    (sp == "" || sp == " ") &&
    z != [] && (forall i :: 0 <= i < |z| ==> SizeChar(z[i])) &&
    '=' !in v
  }

  lemma VectorParts(d: string, n: string, sp: string, z: string, v: string)
    requires VectorPieces(d, n, sp, z, v)
    ensures var rest := "=" + sp + "(" + z + ")" + v;
      HeaderShape("##" + d + n + rest, 2 + |d| + |n|, rest) && VectorShape(rest, sp, z, v) &&
      Name("##" + d + n + rest, 2 + |d| + |n|) == n
  {
    HeaderParts(d, n, "=" + sp + "(" + z + ")" + v);
    VectorRest(sp, z, v);
  }

  /** ClassifyVector on the positions of the line. */
  lemma VectorAfterName(c: string, e0: nat, rest: string, sp: string, z: string, v: string, n: string)
    requires HeaderShape(c, e0, rest)
    requires VectorShape(rest, sp, z, v)
    requires Name(c, e0) == n
    ensures Classify(c) == if v == [] then ParVec(n) else ParVecVal(n, v)
  {
    VectorPositions(c, e0, rest, sp, z, v);
    HeaderAt(c, e0);
  }

  /** The '=' at e0 is the only one, and the vector size after it closes at
      the ')' before v. */
  lemma VectorPositions(c: string, e0: nat, rest: string, sp: string, z: string, v: string)
    requires HeaderShape(c, e0, rest)
    requires VectorShape(rest, sp, z, v)
    ensures e0 < |c| && c[e0] == '=' && forall e :: 3 <= e < |c| && e != e0 ==> c[e] != '='
    ensures SizeClose(c, e0) == Some(|c| - |v| - 1) && c[|c| - |v|..] == v
  {
    var open := 1 + |sp|;
    var close := open + 1 + |z|;
    assert c[e0 + 1] == rest[1];
    assert c[e0 + open] == rest[open];
    if sp == " " {
      assert c[e0 + 2] == rest[2];
    }
    forall k | e0 + open + 1 <= k < e0 + close
      ensures SizeChar(c[k])
    {
      assert c[k] == rest[k - e0];
      assert rest[k - e0] == z[k - e0 - open - 1];
    }
    assert c[e0 + close] == rest[close];
    RunEndOf(c, e0 + open + 1, e0 + close);
    assert SizeClose(c, e0) == Some(e0 + close);
    forall e | e0 < e < |c|
      ensures c[e] != '='
    {
      assert c[e] == rest[e - e0];
    }
    if v != [] {
      forall i | 0 <= i < |v|
        ensures c[e0 + close + 1 + i] == v[i]
      {
        assert c[e0 + (close + 1 + i)] == rest[close + 1 + i];
      }
      assert c[e0 + close + 1..] == v;
    }
  }

  /** rest is '=', at most one space sp, the sizes z in parentheses, and
      then v. */
  predicate VectorShape(rest: string, sp: string, z: string, v: string) {
    (sp == "" || sp == " ") &&
    z != [] && (forall i :: 0 <= i < |z| ==> SizeChar(z[i])) &&
    var open := 1 + |sp|; var close := open + 1 + |z|;
    |rest| == close + 1 + |v| && rest[0] == '=' &&
    (forall j :: 1 <= j < |rest| ==> rest[j] != '=') &&
    (sp == " " ==> rest[1] == ' ') && rest[open] == '(' &&
    (forall i :: 0 <= i < |z| ==> rest[open + 1 + i] == z[i]) && rest[close] == ')' &&
    (forall i :: 0 <= i < |v| ==> rest[close + 1 + i] == v[i])
  }

  /** The text after the name of a vector size line. */
  lemma VectorRest(sp: string, z: string, v: string)
    requires sp == "" || sp == " "
    requires z != [] && forall i :: 0 <= i < |z| ==> SizeChar(z[i])
    requires '=' !in v
    ensures VectorShape("=" + sp + "(" + z + ")" + v, sp, z, v)
  {
    var a := "=" + sp + "(";
    var rest := a + z + ")" + v;
    assert "=" + sp + "(" + z + ")" + v == rest;
    var close := |a| + |z|;
    assert forall i :: 0 <= i < |z| ==> rest[|a| + i] == z[i];
    assert forall i :: 0 <= i < |v| ==> rest[close + 1 + i] == v[i];
    forall j | 1 <= j < |rest|
      ensures rest[j] != '='
    {
      if j > close {
        assert rest[j] == v[j - close - 1];
      } else if j >= |a| && j < close {
        assert rest[j] == z[j - |a|];
      }
    }
  }

  lemma {:induction false} RunEndOf(c: string, i: nat, j: nat)
    requires i <= j < |c| && !SizeChar(c[j])
    requires forall k :: i <= k < j ==> SizeChar(c[k])
    ensures SizeRunEnd(c, i) == j
    decreases j - i
  {
    if i < j {
      RunEndOf(c, i + 1, j);
    }
  }

  /** `##NAME=` with nothing after the '='. */
  lemma ClassifyEmptyPar(d: string, n: string)
    requires AllDollars(d) && n != [] && n[0] != '$' && '=' !in n
    ensures Classify("##" + d + n + "=") == EmptyPar(n)
  {
    HeaderParts(d, n, "=");
    var c := "##" + d + n + "=";
    HeaderAt(c, 2 + |d| + |n|);
  }

  /** The inverse direction: a ParVal row is its line taken apart. The line
      is "##", a run of '$', the name, '=', at most one space, the value. */
  lemma ParValReassembles(c: string)
    requires Classify(c).ParVal?
    ensures exists d, sp ::
      AllDollars(d) && (sp == "" || sp == " ") && c == "##" + d + Classify(c).name + "=" + sp + Classify(c).value
  {
    var e := ParValRow(c);
    ReassembleAt(c, e);
  }

  /** A header line taken apart at the '=' at e. */
  lemma ReassembleAt(c: string, e: nat)
    requires Header(c) && 3 <= e && e + 1 < |c| && c[e] == '='
    ensures exists d, sp ::
      AllDollars(d) && (sp == "" || sp == " ") && c == "##" + d + Name(c, e) + "=" + sp + ValueAfter(c, e)
  {
    var s := Min(2 + Dollars(c, 2), e - 1);
    var d := c[2..s];
    var sp := if c[e + 1] == ' ' && e + 2 < |c| then " " else "";
    var vStart := e + 1 + |sp|;
    assert AllDollars(d);
    assert c[e + 1..vStart] == sp;
    Reassemble(c, s, e, vStart, sp);
    assert c == "##" + d + Name(c, e) + "=" + sp + ValueAfter(c, e);
  }

  /** A line is "##", then the pieces between the cut points s and e, the
      '=' at e, sp, and the rest from vStart. */
  lemma Reassemble(c: string, s: nat, e: nat, vStart: nat, sp: string)
    requires 2 <= s <= e < vStart <= |c| && vStart == e + 1 + |sp|
    requires c[0] == '#' && c[1] == '#' && c[e] == '=' && c[e + 1..vStart] == sp
    ensures c == "##" + c[2..s] + c[s..e] + "=" + sp + c[vStart..]
  {
    var r := "##" + c[2..s] + c[s..e] + "=" + sp + c[vStart..];
    forall i | 0 <= i < |c|
      ensures r[i] == c[i]
    {
      if e < i < vStart {
        assert r[i] == sp[i - e - 1];
      }
    }
  }

  /** A ParVal row comes from the '=' at e that the value pattern settles on. */
  lemma ParValRow(c: string) returns (e: nat)
    requires Classify(c).ParVal?
    ensures Header(c) && 3 <= e && e + 1 < |c| && c[e] == '='
    ensures Classify(c) == ParVal(Name(c, e), ValueAfter(c, e))
  {
    e := LastFit(ValTail, c, |c|).value;
  }

  /** `(.+)` is greedy: of several '=' the last one that leaves a value ends
      the name. */
  lemma GreedyName()
    ensures Classify("##A=b=c") == ParVal("A=b", "c")
    ensures Classify("##A=b=") == ParVal("A", "b=")
  {
    var c := "##A=b=c";
    assert !Fits(VecValTail, c, 3) && !Fits(VecValTail, c, 5);
    assert !Fits(VecTail, c, 3) && !Fits(VecTail, c, 5);
    NoFit(VecValTail, c);
    NoFit(VecTail, c);
    LastFitIs(ValTail, c, 5);
    assert Dollars(c, 2) == 0;
    var c' := "##A=b=";
    assert !Fits(VecValTail, c', 3) && !Fits(VecValTail, c', 5);
    assert !Fits(VecTail, c', 3) && !Fits(VecTail, c', 5);
    NoFit(VecValTail, c');
    NoFit(VecTail, c');
    LastFitIs(ValTail, c', 3);
    assert Dollars(c', 2) == 0;
  }

  /** Lines not starting with '$' or '#' are continuation lines, whole; the
      empty line is the continuation "\n". */
  lemma ContinuationLine(c: string)
    requires c != [] ==> c[0] != '$' && c[0] != '#'
    ensures c != [] ==> Classify(c) == Val(c)
    ensures c == [] ==> Classify(c) == Val("\n")
  {
  }

  /** Lines starting with "$$" are stamps without the "$$". */
  lemma StampLine(t: string)
    ensures Classify("$$" + t) == Stamp(t)
  {
    assert !Header("$$" + t);
  }

  // ---------------------------------------------------------------------------
  // Accumulation into the dictionary (bruker_io.py:30-52)

  /** A dictionary value before conversion: a string, or a list. The list
      starts as `[]`; `list += str` extends it by the string's characters. */
  datatype Raw = RawStr(s: string) | RawList(items: seq<string>)

  /** `v += tail`. */
  function Extend(v: Raw, tail: string): (r: Raw)
    ensures v.RawStr? ==> r == RawStr(v.s + tail)
    ensures v.RawList? ==> r.RawList? && |r.items| == |v.items| + |tail| && r.items[..|v.items|] == v.items
  {
    match v
    case RawStr(s) => RawStr(s + tail)
    case RawList(items) => RawList(items + seq(|tail|, i requires 0 <= i < |tail| => [tail[i]]))
  }

  /** The dictionary p and last_parameter_name. */
  datatype State = State(p: map<string, Raw>, last: Option<string>) {
    /** The last parameter is always a key of the dictionary. */
    predicate Valid() {
      last.Some? ==> last.value in p
    }
  }

  const Init: State := State(map[], None)

  /** One pass of the accumulation loop. */
  function Step(st: State, row: Row): (r: State)
    requires st.Valid()
    ensures r.Valid()
  {
    match row
    case ParVal(name, value) => State(st.p[name := RawStr(value)], Some(name))
    case ParVec(name) => State(st.p[name := RawList([])], Some(name))
    case EmptyPar(name) => State(st.p[name := RawList([])], Some(name))
    case ParVecVal(name, value) => State(st.p[name := RawStr(value)], Some(name))
    case Val(text) =>
      if st.last.None? || st.last.value == "" then st
      else
        var k := st.last.value;
        if st.p[k] == RawList([]) then State(st.p[k := RawStr(text)], st.last)
        else State(st.p[k := Extend(st.p[k], " " + text)], st.last)
    case Stamp(text) =>
      if "Stamp" !in st.p then State(st.p["Stamp" := RawStr(text)], st.last)
      else State(st.p["Stamp" := Extend(st.p["Stamp"], " ## " + text)], st.last)
    case Anything(_) => st
  }

  /** The state after the rows, in order, from st. */
  function Fold(st: State, rows: seq<Row>): (r: State)
    requires st.Valid()
    ensures r.Valid()
  {
    if rows == [] then st else Step(Fold(st, rows[..|rows| - 1]), rows[|rows| - 1])
  }

  lemma {:induction false} FoldAppend(st: State, rows: seq<Row>, more: seq<Row>)
    requires st.Valid()
    ensures Fold(st, rows + more) == Fold(Fold(st, rows), more)
    decreases |more|
  {
    if more == [] {
      assert rows + more == rows;
    } else {
      assert (rows + more)[..|rows + more| - 1] == rows + more[..|more| - 1];
      FoldAppend(st, rows, more[..|more| - 1]);
    }
  }

  /** The name a row declares, if it declares one. */
  function Declares(row: Row): Option<string> {
    match row
    case ParVal(name, _) => Some(name)
    case ParVec(name) => Some(name)
    case EmptyPar(name) => Some(name)
    case ParVecVal(name, _) => Some(name)
    case _ => None
  }

  /** The names the rows declare. */
  function Names(rows: seq<Row>): set<string> {
    set i | 0 <= i < |rows| && Declares(rows[i]).Some? :: Declares(rows[i]).value
  }

  predicate HasStamp(rows: seq<Row>) {
    exists i :: 0 <= i < |rows| && rows[i].Stamp?
  }

  /** One step adds the declared name, or "Stamp" for a stamp, to the keys,
      and makes a declared name the last parameter. */
  lemma StepKeys(st: State, row: Row)
    requires st.Valid()
    ensures Step(st, row).p.Keys ==
      st.p.Keys + (if Declares(row).Some? then {Declares(row).value} else {}) + (if row.Stamp? then {"Stamp"} else {})
    ensures Step(st, row).last == if Declares(row).Some? then Declares(row) else st.last
  {
  }

  lemma NamesSnoc(rows: seq<Row>, row: Row)
    ensures Names(rows + [row]) == Names(rows) + (if Declares(row).Some? then {Declares(row).value} else {})
  {
    var all := rows + [row];
    forall x | x in Names(all)
      ensures x in Names(rows) || (Declares(row).Some? && x == Declares(row).value)
    {
      var i :| 0 <= i < |all| && Declares(all[i]).Some? && Declares(all[i]).value == x;
      if i < |rows| {
        assert all[i] == rows[i];
      }
    }
    forall x | x in Names(rows)
      ensures x in Names(all)
    {
      var i :| 0 <= i < |rows| && Declares(rows[i]).Some? && Declares(rows[i]).value == x;
      assert all[i] == rows[i];
    }
    if Declares(row).Some? {
      assert Declares(all[|rows|]).Some?;
    }
  }

  lemma HasStampSnoc(rows: seq<Row>, row: Row)
    ensures HasStamp(rows + [row]) == (HasStamp(rows) || row.Stamp?)
  {
    var all := rows + [row];
    if HasStamp(rows) {
      var i :| 0 <= i < |rows| && rows[i].Stamp?;
      assert all[i] == rows[i];
    }
    if HasStamp(all) && !row.Stamp? {
      var i :| 0 <= i < |all| && all[i].Stamp?;
      assert i < |rows| && rows[i] == all[i];
    }
    if row.Stamp? {
      assert all[|rows|].Stamp?;
    }
  }

  /** The dictionary's keys are exactly the declared names, plus "Stamp"
      when there is a stamp line; a continuation line before any declaration
      is dropped, and last_parameter_name is the last declared name. */
  lemma {:induction false} FoldKeys(rows: seq<Row>)
    ensures Fold(Init, rows).p.Keys == Names(rows) + (if HasStamp(rows) then {"Stamp"} else {})
    ensures Fold(Init, rows).last.None? <==> Names(rows) == {}
    ensures Fold(Init, rows).last.Some? ==> Fold(Init, rows).last.value in Names(rows)
  {
    if rows != [] {
      var front, row := rows[..|rows| - 1], rows[|rows| - 1];
      FoldKeys(front);
      assert rows == front + [row];
      NamesSnoc(front, row);
      HasStampSnoc(front, row);
      StepKeys(Fold(Init, front), row);
    }
  }

  /** `" ".join` and `" ## ".join`, built left to right as the loop does. */
  function Join(parts: seq<string>, sep: string): string {
    if parts == [] then ""
    else if |parts| == 1 then parts[0]
    else Join(parts[..|parts| - 1], sep) + sep + parts[|parts| - 1]
  }

  /** Rows of the given kind, one per text. */
  function Vals(ts: seq<string>): (r: seq<Row>)
    ensures |r| == |ts| && forall i :: 0 <= i < |ts| ==> r[i] == Val(ts[i])
  {
    seq(|ts|, i requires 0 <= i < |ts| => Val(ts[i]))
  }

  function Stamps(ts: seq<string>): (r: seq<Row>)
    ensures |r| == |ts| && forall i :: 0 <= i < |ts| ==> r[i] == Stamp(ts[i])
  {
    seq(|ts|, i requires 0 <= i < |ts| => Stamp(ts[i]))
  }

  /** A parameter with a value, continued on the next lines: the lines are
      appended to the value, each after one space. */
  lemma {:induction false} ValueContinues(st: State, n: string, v: string, ts: seq<string>)
    requires st.Valid() && n != ""
    ensures Fold(st, [ParVal(n, v)] + Vals(ts)) == State(st.p[n := RawStr(Join([v] + ts, " "))], Some(n))
    decreases |ts|
  {
    var rows := [ParVal(n, v)] + Vals(ts);
    if ts == [] {
      assert rows == [ParVal(n, v)];
      assert Fold(st, rows) == Step(Fold(st, []), ParVal(n, v));
    } else {
      var ts', t := ts[..|ts| - 1], ts[|ts| - 1];
      assert rows[..|rows| - 1] == [ParVal(n, v)] + Vals(ts');
      assert rows[|rows| - 1] == Val(t);
      ValueContinues(st, n, v, ts');
      var before := Fold(st, [ParVal(n, v)] + Vals(ts'));
      assert Fold(st, rows) == Step(before, Val(t));
      assert ([v] + ts)[..|ts|] == [v] + ts';
      assert Join([v] + ts, " ") == Join([v] + ts', " ") + " " + t;
      ContinueString(st.p, n, Join([v] + ts', " "), t);
    }
  }

  /** A continuation line after a string value. */
  lemma ContinueString(p: map<string, Raw>, n: string, s: string, t: string)
    requires n != ""
    ensures Step(State(p[n := RawStr(s)], Some(n)), Val(t)) == State(p[n := RawStr(s + " " + t)], Some(n))
  {
    assert s + (" " + t) == s + " " + t;
    assert p[n := RawStr(s)][n := RawStr(s + " " + t)] == p[n := RawStr(s + " " + t)];
  }

  /** A stamp line after earlier ones. */
  lemma ContinueStamp(p: map<string, Raw>, last: Option<string>, s: string, t: string)
    requires State(p["Stamp" := RawStr(s)], last).Valid()
    ensures Step(State(p["Stamp" := RawStr(s)], last), Stamp(t)) == State(p["Stamp" := RawStr(s + " ## " + t)], last)
  {
    assert s + (" ## " + t) == s + " ## " + t;
    assert p["Stamp" := RawStr(s)]["Stamp" := RawStr(s + " ## " + t)] == p["Stamp" := RawStr(s + " ## " + t)];
  }

  /** A vector declaration followed by k >= 1 value lines: the first line
      replaces the empty list, the others are appended after one space. */
  lemma {:induction false} VectorValues(st: State, n: string, ts: seq<string>)
    requires st.Valid() && n != "" && ts != []
    ensures Fold(st, [ParVec(n)] + Vals(ts)) == State(st.p[n := RawStr(Join(ts, " "))], Some(n))
    decreases |ts|
  {
    var rows := [ParVec(n)] + Vals(ts);
    var ts', t := ts[..|ts| - 1], ts[|ts| - 1];
    assert rows[..|rows| - 1] == [ParVec(n)] + Vals(ts');
    assert rows[|rows| - 1] == Val(t);
    var before := Fold(st, [ParVec(n)] + Vals(ts'));
    assert Fold(st, rows) == Step(before, Val(t));
    if ts' == [] {
      assert [ParVec(n)] + Vals(ts') == [ParVec(n)];
      assert before == Step(Fold(st, []), ParVec(n));
      assert Step(before, Val(t)) == State(st.p[n := RawList([])][n := RawStr(t)], Some(n));
      assert st.p[n := RawList([])][n := RawStr(t)] == st.p[n := RawStr(t)];
    } else {
      VectorValues(st, n, ts');
      assert Join(ts, " ") == Join(ts', " ") + " " + t;
      ContinueString(st.p, n, Join(ts', " "), t);
    }
  }

  /** Stamp lines join with " ## " under the key "Stamp", and leave
      last_parameter_name alone. */
  lemma {:induction false} StampsJoin(st: State, ts: seq<string>)
    requires st.Valid() && "Stamp" !in st.p && ts != []
    ensures Fold(st, Stamps(ts)) == State(st.p["Stamp" := RawStr(Join(ts, " ## "))], st.last)
    decreases |ts|
  {
    var rows := Stamps(ts);
    var ts', t := ts[..|ts| - 1], ts[|ts| - 1];
    assert rows[..|rows| - 1] == Stamps(ts');
    var before := Fold(st, Stamps(ts'));
    assert Fold(st, rows) == Step(before, Stamp(t));
    if ts' == [] {
      assert Stamps(ts') == [];
    } else {
      StampsJoin(st, ts');
      assert Join(ts, " ## ") == Join(ts', " ## ") + " ## " + t;
      ContinueStamp(st.p, st.last, Join(ts', " ## "), t);
    }
  }

  // ---------------------------------------------------------------------------
  // Conversion of strings to numbers (bruker_io.py:54-60)

  /** Python's str.isspace(), which both `\s` and str.split() use. */
  predicate IsSpace(ch: char) {
    ch == ' ' || '\t' <= ch <= '\r' || '\U{1C}' <= ch <= '\U{1F}' || ch == '\U{85}' || ch == '\U{A0}' ||
    ch == '\U{1680}' || '\U{2000}' <= ch <= '\U{200A}' || ch == '\U{2028}' || ch == '\U{2029}' ||
    ch == '\U{202F}' || ch == '\U{205F}' || ch == '\U{3000}'
  }

  /** Length of the run of non-space characters at the start of s. */
  function WordLen(s: string): (n: nat)
    ensures 0 < |s| && !IsSpace(s[0]) ==> 0 < n
    ensures n <= |s| && forall i :: 0 <= i < n ==> !IsSpace(s[i])
    ensures n < |s| ==> IsSpace(s[n])
  {
    if s == [] || IsSpace(s[0]) then 0 else 1 + WordLen(s[1..])
  }

  /** `s.split()`: the maximal runs of non-space characters. */
  function Words(s: string): seq<string>
    decreases |s|
  {
    if s == [] then []
    else if IsSpace(s[0]) then Words(s[1..])
    else [s[..WordLen(s)]] + Words(s[WordLen(s)..])
  }

  /** `re.match` with `$`, which also matches before one final "\n". */
  function BeforeNewline(s: string): (t: string)
    ensures t == s || s == t + "\n"
  {
    if |s| > 0 && s[|s| - 1] == '\n' then s[..|s| - 1] else s
  }

  /** Strings matching `(-?\d+(\.\d+)?\s+)+-?\d+(\.\d+)?`: at least two
      decimals separated by whitespace, with none before or after. */
  predicate IsDecimalList(t: string) {
    t != [] && !IsSpace(t[0]) && !IsSpace(t[|t| - 1]) && |Words(t)| >= 2 &&
    forall i :: 0 <= i < |Words(t)| ==> IsDecimal(Words(t)[i])
  }

  /** A dictionary value after conversion. */
  datatype Param = Str(s: string) | List(items: seq<string>) | Num(x: real) | Nums(xs: seq<real>)

  /** The value of each string in a list of decimals. */
  function Values(ws: seq<string>): (r: seq<real>)
    requires forall i :: 0 <= i < |ws| ==> IsDecimal(ws[i])
    ensures |r| == |ws| && forall i :: 0 <= i < |ws| ==> r[i] == DecimalValue(ws[i])
  {
    seq(|ws|, i requires 0 <= i < |ws| => DecimalValue(ws[i]))
  }

  /** The conversion of one value: lists stay, numeric strings become floats. */
  function Convert(v: Raw): Param {
    match v
    case RawList(items) => List(items)
    case RawStr(s) =>
      var t := BeforeNewline(s);
      if IsDecimal(t) then Num(DecimalValue(t))
      else if IsDecimalList(t) then
        Nums(Values(Words(t)))
      else Str(s)
  }

  /** Characters a decimal can hold. */
  lemma DecimalChars(d: string)
    requires IsDecimal(d)
    ensures d != [] && IsDigit(d[|d| - 1])
    ensures forall i :: 0 <= i < |d| ==> d[i] == '-' || d[i] == '.' || IsDigit(d[i])
  {
    var (u, neg) := Unsigned(d);
    var p := DotAt(u);
    assert forall i :: 0 <= i < |u| ==> u[i] == '.' || IsDigit(u[i]) by {
      forall i | 0 <= i < |u|
        ensures u[i] == '.' || IsDigit(u[i])
      {
        if i < p {
          assert u[i] == u[..p][i];
        } else if i > p {
          assert u[i] == u[p + 1..][i - p - 1];
        }
      }
    }
    if p == |u| {
      assert u[|u| - 1] == u[..p][p - 1];
    } else {
      assert u[|u| - 1] == u[p + 1..][|u| - p - 2];
    }
    if neg {
      assert d == "-" + u;
    }
  }

  /** Join of one word and more: the first word comes first. */
  lemma {:induction false} JoinFront(d: string, rest: seq<string>, sep: string)
    requires rest != []
    ensures Join([d] + rest, sep) == d + sep + Join(rest, sep)
    decreases |rest|
  {
    if |rest| == 1 {
      assert [d] + rest == [d, rest[0]];
      assert ([d] + rest)[..1] == [d];
    } else {
      var r' := rest[..|rest| - 1];
      assert ([d] + rest)[..|rest|] == [d] + r';
      JoinFront(d, r', sep);
    }
  }

  /** Words of a word, a space and more. */
  lemma WordsCons(d: string, s: string)
    requires d != [] && forall i :: 0 <= i < |d| ==> !IsSpace(d[i])
    ensures Words(d + " " + s) == [d] + Words(s)
  {
    var c := d + " " + s;
    WordLenOf(d, s);
    assert c[..|d|] == d;
    assert c[|d|..] == " " + s;
    assert (" " + s)[1..] == s;
  }

  lemma {:induction false} WordLenOf(d: string, s: string)
    requires forall i :: 0 <= i < |d| ==> !IsSpace(d[i])
    ensures WordLen(d + " " + s) == |d|
    decreases |d|
  {
    if d != [] {
      assert (d + " " + s)[1..] == d[1..] + " " + s;
      WordLenOf(d[1..], s);
    }
  }

  lemma WordsOfWord(d: string)
    requires d != [] && forall i :: 0 <= i < |d| ==> !IsSpace(d[i])
    ensures Words(d) == [d]
  {
    WordLenAll(d);
    assert d[..|d|] == d;
    assert d[|d|..] == [];
  }

  lemma {:induction false} WordLenAll(d: string)
    requires forall i :: 0 <= i < |d| ==> !IsSpace(d[i])
    ensures WordLen(d) == |d|
  {
    if d != [] {
      WordLenAll(d[1..]);
    }
  }

  /** Splitting decimals joined by single spaces gives the decimals back. */
  lemma {:induction false} WordsOfJoin(ds: seq<string>)
    requires ds != [] && forall i :: 0 <= i < |ds| ==> IsDecimal(ds[i])
    ensures Words(Join(ds, " ")) == ds
    decreases |ds|
  {
    DecimalChars(ds[0]);
    if |ds| == 1 {
      WordsOfWord(ds[0]);
    } else {
      var rest := ds[1..];
      assert ds == [ds[0]] + rest;
      JoinFront(ds[0], rest, " ");
      WordsCons(ds[0], Join(rest, " "));
      WordsOfJoin(rest);
    }
  }

  /** The first and last characters of a join of decimals are digits or
      '-', never whitespace, and the join has a space when it has two parts. */
  lemma {:induction false} JoinEnds(ds: seq<string>)
    requires ds != [] && forall i :: 0 <= i < |ds| ==> IsDecimal(ds[i])
    ensures var s := Join(ds, " "); s != [] && !IsSpace(s[0]) && IsDigit(s[|s| - 1])
    ensures |ds| >= 2 ==> ' ' in Join(ds, " ")
    decreases |ds|
  {
    DecimalChars(ds[0]);
    DecimalChars(ds[|ds| - 1]);
    if |ds| > 1 {
      var front := ds[..|ds| - 1];
      JoinEnds(front);
      var s := Join(ds, " ");
      assert s == Join(front, " ") + " " + ds[|ds| - 1];
      assert s[0] == Join(front, " ")[0];
      assert s[|Join(front, " ")|] == ' ';
    }
  }

  /** A space-separated list of two or more decimals becomes the list of
      their values. */
  lemma NumberList(ds: seq<string>)
    requires |ds| >= 2 && forall i :: 0 <= i < |ds| ==> IsDecimal(ds[i])
    ensures Convert(RawStr(Join(ds, " "))) == Nums(Values(ds))
  {
    var s := Join(ds, " ");
    JoinIsList(ds);
    ConvertList(s);
  }

  /** The join of two or more decimals is a decimal list and no decimal. */
  lemma JoinIsList(ds: seq<string>)
    requires |ds| >= 2 && forall i :: 0 <= i < |ds| ==> IsDecimal(ds[i])
    ensures var s := Join(ds, " "); BeforeNewline(s) == s && !IsDecimal(s) && IsDecimalList(s) && Words(s) == ds
  {
    var s := Join(ds, " ");
    JoinEnds(ds);
    WordsOfJoin(ds);
    SpacedNotDecimal(s);
    DigitNotSpace(s[|s| - 1]);
    assert BeforeNewline(s) == s;
    ListOfWords(s, ds);
  }

  lemma DigitNotSpace(c: char)
    requires IsDigit(c)
    ensures !IsSpace(c) && c != '\n'
  {
  }

  /** A string with no space at either end whose words are two or more
      decimals is a decimal list. */
  lemma ListOfWords(s: string, ds: seq<string>)
    requires s != [] && !IsSpace(s[0]) && !IsSpace(s[|s| - 1])
    requires Words(s) == ds && |ds| >= 2 && forall i :: 0 <= i < |ds| ==> IsDecimal(ds[i])
    ensures IsDecimalList(s)
  {
  }

  /** A string without a newline that is a decimal list converts word by word. */
  lemma ConvertList(s: string)
    requires BeforeNewline(s) == s && !IsDecimal(s) && IsDecimalList(s)
    ensures Convert(RawStr(s)) == Nums(Values(Words(s)))
  {
  }

  /** A string with a space in it is not one decimal. */
  lemma SpacedNotDecimal(s: string)
    requires ' ' in s
    ensures !IsDecimal(s)
  {
    if IsDecimal(s) {
      DecimalChars(s);
      assert false;
    }
  }

  /** A decimal string becomes its value, with or without a final newline. */
  lemma OneNumber(d: string)
    requires IsDecimal(d)
    ensures Convert(RawStr(d)) == Num(DecimalValue(d))
    ensures Convert(RawStr(d + "\n")) == Num(DecimalValue(d))
  {
    DecimalChars(d);
    assert (d + "\n")[..|d|] == d;
  }

  /** Lists, and strings that are no number, are kept as they are. */
  lemma KeptAsIs(v: Raw)
    requires v.RawStr? ==> !IsDecimal(BeforeNewline(v.s)) && !IsDecimalList(BeforeNewline(v.s))
    ensures v.RawList? ==> Convert(v) == List(v.items)
    ensures v.RawStr? ==> Convert(v) == Str(v.s)
  {
  }

  // ---------------------------------------------------------------------------
  // read_nmr_par

  /** The dictionary read_nmr_par returns for the lines of a file. */
  function Parse(lines: seq<string>): (r: map<string, Param>)
    ensures r.Keys == Fold(Init, Rows(lines)).p.Keys
  {
    var p := Fold(Init, Rows(lines)).p;
    map k | k in p :: Convert(p[k])
  }

  function Rows(lines: seq<string>): (r: seq<Row>)
    ensures |r| == |lines| && forall i :: 0 <= i < |lines| ==> r[i] == Classify(lines[i])
  {
    seq(|lines|, i requires 0 <= i < |lines| => Classify(lines[i]))
  }

  /** The rows of a small method file: a scalar, a vector whose values sit
      on the next line, those values, and a stamp. */
  lemma ExampleRow3()
    ensures Classify("$$ made by hand") == Stamp(" made by hand")
  {
    StampLine(" made by hand");
  }

  lemma ExampleRow2()
    ensures Classify("64 64") == Val("64 64")
  {
  }

  lemma ExampleRow0()
    ensures Classify("##$NR=1") == ParVal("NR", "1")
  {
    assert "##$NR=1" == "##" + "$" + "NR" + ("=" + "" + "1");
    ClassifyParVal("$", "NR", "", "1");
  }

  lemma ExampleRow1()
    ensures Classify("##$PVM_Matrix=( 2 )") == ParVec("PVM_Matrix")
  {
    assert "##$PVM_Matrix=( 2 )" == "##" + "$" + "PVM_Matrix" + ("=" + "" + "(" + " 2 " + ")" + "");
    ClassifyVector("$", "PVM_Matrix", "", " 2 ", "");
  }

  /** What those rows leave in the dictionary before conversion. */
  lemma ExampleFold()
    ensures Fold(Init, [ParVal("NR", "1"), ParVec("PVM_Matrix"), Val("64 64"), Stamp(" made by hand")]).p ==
      map["NR" := RawStr("1"), "PVM_Matrix" := RawStr("64 64"), "Stamp" := RawStr(" made by hand")]
  {
    var r0, r1, r2, r3 := ParVal("NR", "1"), ParVec("PVM_Matrix"), Val("64 64"), Stamp(" made by hand");
    var s1 := Step(Init, r0);
    assert Fold(Init, [r0]) == s1 by {
      assert [r0][..0] == [];
    }
    var s2 := Step(s1, r1);
    assert Fold(Init, [r0, r1]) == s2 by {
      assert [r0, r1][..1] == [r0];
    }
    var s3 := Step(s2, r2);
    assert Fold(Init, [r0, r1, r2]) == s3 by {
      assert [r0, r1, r2][..2] == [r0, r1];
    }
    assert Fold(Init, [r0, r1, r2, r3]) == Step(s3, r3) by {
      assert [r0, r1, r2, r3][..3] == [r0, r1, r2];
    }
    assert s3.p == map["NR" := RawStr("1"), "PVM_Matrix" := RawStr("64 64")];
  }

  /** read_nmr_par: None stands for a file that cannot be opened. */
  method ReadNmrPar(file: Option<seq<string>>, filename: string) returns (r: Result<map<string, Param>>)
    ensures file.None? ==> r == Err(OsError(filename))
    ensures file.Some? ==> r == Ok(Parse(file.value))
  {
    if file.None? {
      return Err(OsError(filename));
    }
    var lines := file.value;
    var rows: seq<Row> := [];
    var i := 0;
    while i < |lines|
      invariant i <= |lines|
      invariant rows == Rows(lines[..i])
    {
      rows := rows + [Classify(lines[i])];
      i := i + 1;
    }
    assert lines[..i] == lines;
    var st := Init;
    var j := 0;
    while j < |rows|
      invariant j <= |rows|
      invariant st.Valid() && st == Fold(Init, rows[..j])
    {
      assert rows[..j + 1][..j] == rows[..j];
      st := Step(st, rows[j]);
      j := j + 1;
    }
    assert rows[..j] == rows;
    var p := st.p;
    var keys := p.Keys;
    var out: map<string, Param> := map[];
    while keys != {}
      invariant keys <= p.Keys
      invariant out.Keys == p.Keys - keys
      invariant forall k :: k in out ==> out[k] == Convert(p[k])
      decreases keys
    {
      var k :| k in keys;
      out := out[k := Convert(p[k])];
      keys := keys - {k};
    }
    assert out == map k | k in p :: Convert(p[k]);
    r := Ok(out);
  }
}
