/** The two text readers of the MRICloud ROI step: the multilevel lookup
    table (one whitespace-split row per line after a title line) and the ROI
    statistics file, from which the segment names of each hierarchy level are
    collected. Files arrive as their lines, each still ending in its newline
    as `readlines` leaves it. */
module RoiLists {
  import opened Common

  /* ---------- Python string primitives ---------- */

  /** The characters `str.isspace` accepts, hence those `strip()` and
      `split()` treat as whitespace. */
  const PyWhitespace: set<char> := {
    ' ', '\t', '\n', '\r', '\U{b}', '\U{c}', '\U{1c}', '\U{1d}', '\U{1e}', '\U{1f}',
    '\U{85}', '\U{a0}', '\U{1680}', '\U{2000}', '\U{2001}', '\U{2002}', '\U{2003}',
    '\U{2004}', '\U{2005}', '\U{2006}', '\U{2007}', '\U{2008}', '\U{2009}', '\U{200a}',
    '\U{2028}', '\U{2029}', '\U{202f}', '\U{205f}', '\U{3000}'}

  /** The character class `[ \t\b]` of the header split; inside a class `\b` is a backspace. */
  const HeaderSeparators: set<char> := {' ', '\t', '\U{8}'}

  /** The character class `[ \t]` of the name split. */
  const NameSeparators: set<char> := {' ', '\t'}

  function StripLeft(s: string): (r: string)
    ensures |r| <= |s|
  {
    if s != [] && s[0] in PyWhitespace then StripLeft(s[1..]) else s
  }

  function StripRight(s: string): (r: string)
    ensures |r| <= |s|
  {
    if s != [] && s[|s| - 1] in PyWhitespace then StripRight(s[..|s| - 1]) else s
  }

  /** `str.strip()`. */
  function Strip(s: string): string {
    StripRight(StripLeft(s))
  }

  /** strip() removes exactly the leading and trailing whitespace: the result
      is a slice of s, bordered only by whitespace outside and by
      non-whitespace inside. */
  lemma {:induction false} StripShape(s: string)
    ensures exists a, b :: (0 <= a <= b <= |s| && Strip(s) == s[a..b] &&
      (forall i :: 0 <= i < a ==> s[i] in PyWhitespace) &&
      (forall i :: b <= i < |s| ==> s[i] in PyWhitespace))
    ensures Strip(s) != [] ==> Strip(s)[0] !in PyWhitespace && Strip(s)[|Strip(s)| - 1] !in PyWhitespace
  {
    var a := StripLeftShape(s);
    var l := StripLeft(s);
    var b := StripRightShape(l);
    assert Strip(s) == s[a..a + b];
    assert forall i :: a + b <= i < |s| ==> s[i] == l[i - a];
  }

  lemma {:induction false} StripLeftShape(s: string) returns (a: nat)
    ensures a <= |s| && StripLeft(s) == s[a..]
    ensures forall i :: 0 <= i < a ==> s[i] in PyWhitespace
    ensures StripLeft(s) != [] ==> StripLeft(s)[0] !in PyWhitespace
    decreases |s|
  {
    if s != [] && s[0] in PyWhitespace {
      var a' := StripLeftShape(s[1..]);
      a := a' + 1;
      assert s[1..][a'..] == s[a..];
    } else {
      a := 0;
    }
  }

  lemma {:induction false} StripRightShape(s: string) returns (b: nat)
    ensures b <= |s| && StripRight(s) == s[..b]
    ensures forall i :: b <= i < |s| ==> s[i] in PyWhitespace
    ensures StripRight(s) != [] ==> StripRight(s)[|StripRight(s)| - 1] !in PyWhitespace
    decreases |s|
  {
    if s != [] && s[|s| - 1] in PyWhitespace {
      b := StripRightShape(s[..|s| - 1]);
      assert s[..|s| - 1][..b] == s[..b];
    } else {
      b := |s|;
    }
  }

  /** Index of the first character of s in sep, or |s|. */
  function FirstIn(s: string, sep: set<char>): (i: nat)
    ensures i <= |s|
  {
    if s == [] then 0
    else if s[0] in sep then 0
    else 1 + FirstIn(s[1..], sep)
  }

  /** End of the run of separator characters starting at i. */
  function RunEnd(s: string, i: nat, sep: set<char>): (j: nat)
    requires i <= |s|
    ensures i <= j <= |s|
    decreases |s| - i
  {
    if i < |s| && s[i] in sep then RunEnd(s, i + 1, sep) else i
  }

  /** `re.split("[...]+", s)` for the class sep: the maximal separator-free
      pieces of s, an empty piece at either end when s starts or ends with a
      separator, and `[""]` for the empty string. */
  function SplitRuns(s: string, sep: set<char>): (r: seq<string>)
    ensures |r| >= 1
    decreases |s|
  {
    var i := FirstIn(s, sep);
    if i == |s| then [s] else [s[..i]] + SplitRuns(s[RunEnd(s, i, sep)..], sep)
  }

  lemma {:induction false} FirstInShape(s: string, sep: set<char>)
    ensures FirstIn(s, sep) < |s| ==> s[FirstIn(s, sep)] in sep
    ensures forall k :: 0 <= k < FirstIn(s, sep) ==> s[k] !in sep
  {
    if s != [] && s[0] !in sep {
      FirstInShape(s[1..], sep);
    }
  }

  /** The pieces are separator-free, the first runs up to the first
      separator, and there is more than one piece exactly when s holds a
      separator. */
  lemma {:induction false} SplitRunsShape(s: string, sep: set<char>)
    ensures SplitRuns(s, sep)[0] == s[..FirstIn(s, sep)]
    ensures |SplitRuns(s, sep)| > 1 <==> exists k :: 0 <= k < |s| && s[k] in sep
    ensures forall k, c :: 0 <= k < |SplitRuns(s, sep)| && c in SplitRuns(s, sep)[k] ==> c !in sep
    decreases |s|
  {
    FirstInShape(s, sep);
    var i := FirstIn(s, sep);
    if i < |s| {
      var j := RunEnd(s, i, sep);
      SplitRunsShape(s[j..], sep);
      var r := SplitRuns(s, sep);
      assert r == [s[..i]] + SplitRuns(s[j..], sep);
      forall k, c | 0 <= k < |r| && c in r[k]
        ensures c !in sep
      {
        if k == 0 {
          var m :| 0 <= m < i && s[..i][m] == c;
        } else {
          assert r[k] == SplitRuns(s[j..], sep)[k - 1];
        }
      }
    }
  }

  function NonEmpty(fields: seq<string>): (r: seq<string>)
    ensures forall k :: 0 <= k < |r| ==> r[k] != [] && r[k] in fields
  {
    if fields == [] then []
    else NonEmpty(fields[..|fields| - 1]) + (if fields[|fields| - 1] == [] then [] else [fields[|fields| - 1]])
  }

  /** `str.split()` without arguments: the non-empty whitespace-free pieces. */
  function PySplit(s: string): (r: seq<string>)
    ensures forall k :: 0 <= k < |r| ==> r[k] != [] && r[k] in SplitRuns(s, PyWhitespace)
  {
    NonEmpty(SplitRuns(s, PyWhitespace))
  }

  /* ---------- mricloud_read_roi_lookup_table ---------- */

  /** The first line is the title; every later line becomes its list of
      whitespace-separated columns. */
  function ReadLookupTable(lines: seq<string>): (rows: seq<seq<string>>)
    ensures |rows| == if lines == [] then 0 else |lines| - 1
    ensures forall k :: 0 <= k < |rows| ==> rows[k] == PySplit(lines[k + 1])
  {
    if lines == [] then [] else seq(|lines| - 1, k requires 0 <= k < |lines| - 1 => PySplit(lines[k + 1]))
  }

  /* ---------- mricloud_read_roi_lists_info ---------- */

  /** What the reader collects for one ROI type header. */
  datatype RoiList = RoiList(roiType: string, count: nat, names: seq<string>)

  /** `re.search(".img", line)`: some character other than a newline directly
      followed by "img". */
  predicate HasImg(line: string) {
    exists i :: 0 <= i && i + 4 <= |line| && line[i] != '\n' && line[i + 1..i + 4] == "img"
  }

  /** The first piece of a stripped line split on `[ \t\b]+`. */
  function HeaderToken(line: string): string {
    SplitRuns(Strip(line), HeaderSeparators)[0]
  }

  /** The second piece of a stripped line split on `[ \t]+`, when there is one. */
  function NameToken(line: string): (r: seq<string>)
    ensures |r| <= 1
  {
    var f := SplitRuns(Strip(line), NameSeparators);
    if |f| > 1 then [f[1]] else []
  }

  /** First index from i on that is past the end or holds no `.img` match. */
  function ImgEnd(lines: seq<string>, i: nat): (j: nat)
    ensures j >= i && (j < |lines| ==> !HasImg(lines[j]))
    decreases |lines| - i
  {
    if i < |lines| && HasImg(lines[i]) then ImgEnd(lines, i + 1) else i
  }

  /** Every line the run covers matches `.img`. */
  lemma {:induction false} ImgEndCovers(lines: seq<string>, i: nat, k: nat)
    requires i <= k < ImgEnd(lines, i)
    ensures k < |lines| && HasImg(lines[k])
    decreases |lines| - i
  {
    if k > i {
      ImgEndCovers(lines, i + 1, k);
    }
  }

  /** The names found on lines[i..j]. */
  function ImgNames(lines: seq<string>, i: nat, j: nat): (r: seq<string>)
    requires i <= j <= |lines|
    ensures |r| <= j - i
    decreases j - i
  {
    if j == i then [] else ImgNames(lines, i, j - 1) + NameToken(lines[j - 1])
  }

  /** The block that follows a matched header at line h: two lines skipped,
      then the run of `.img` lines. */
  function Block(lines: seq<string>, head: string, h: nat): (r: RoiList)
    ensures r.roiType == head && |r.names| <= r.count
  {
    var start := h + 2;
    var j := ImgEnd(lines, start);
    RoiList(head, j - start, if j <= |lines| then ImgNames(lines, start, j) else [])
  }

  /** The inner loop over the ROI types for a header token computed once at
      line h, while the line position moves on with each match: the line
      index afterwards and the blocks collected. */
  function TypesScan(lines: seq<string>, head: string, types: seq<string>, h: nat): (r: (nat, seq<RoiList>))
    ensures r.0 >= h
    decreases |types|
  {
    if types == [] then (h, [])
    else if head == types[0] then
      var b := Block(lines, head, h);
      var rest := TypesScan(lines, head, types[1..], h + 2 + b.count);
      (rest.0, [b] + rest.1)
    else
      var rest := TypesScan(lines, head, types[1..], h);
      (rest.0, rest.1)
  }

  /** The outer loop from line i on. */
  function ParseFrom(lines: seq<string>, types: seq<string>, i: nat): seq<RoiList>
    decreases |lines| - i
  {
    if i >= |lines| then []
    else
      var scan := TypesScan(lines, HeaderToken(lines[i]), types, i);
      scan.1 + ParseFrom(lines, types, scan.0 + 1)
  }

  /** The blocks found for one header carry that header, which is one of the
      requested types, and at most one name per counted line. */
  lemma {:induction false} BlocksWellFormed(lines: seq<string>, head: string, types: seq<string>, h: nat)
    ensures forall b :: b in TypesScan(lines, head, types, h).1 ==>
      b.roiType == head && head in types && |b.names| <= b.count
    decreases |types|
  {
    if types != [] {
      if head == types[0] {
        BlocksWellFormed(lines, head, types[1..], h + 2 + Block(lines, head, h).count);
      } else {
        BlocksWellFormed(lines, head, types[1..], h);
      }
    }
  }

  /** mricloud_read_roi_lists_info with the regular-expression module in scope. */
  function ReadRoiListsInfo(lines: seq<string>, types: seq<string>): seq<RoiList> {
    ParseFrom(lines, types, 0)
  }

  /** Every block belongs to one of the requested types and holds at most one
      name per `.img` line it counted. */
  lemma {:induction false} RoiListsWellFormed(lines: seq<string>, types: seq<string>, i: nat)
    ensures forall b :: b in ParseFrom(lines, types, i) ==> b.roiType in types && |b.names| <= b.count
    decreases |lines| - i
  {
    if i < |lines| {
      var scan := TypesScan(lines, HeaderToken(lines[i]), types, i);
      BlocksWellFormed(lines, HeaderToken(lines[i]), types, i);
      RoiListsWellFormed(lines, types, scan.0 + 1);
    }
  }

  /** mricloud_read_roi_lists_info as the file stands: the module never
      imports `re`, so the first loop iteration, reached for any non-empty
      file, fails on the name lookup. */
  function ReadRoiListsInfoAsWritten(lines: seq<string>, types: seq<string>): (r: Result<seq<RoiList>>)
    ensures r.Ok? <==> lines == []
  {
    if lines == [] then Ok([]) else Err(NameError("re"))
  }

  /** The discrepancy: a statistics file with one ROI block that the intended
      reader parses, while the code as written raises NameError. */
  lemma AsWrittenLosesBlock()
    ensures ReadRoiListsInfoAsWritten(["T\n", "-\n"], ["T"]) == Err(NameError("re"))
    ensures ReadRoiListsInfo(["T\n", "-\n"], ["T"]) == [RoiList("T", 0, [])]
  {
    var lines := ["T\n", "-\n"];
    assert StripLeft("T\n") == "T\n";
    assert StripRight("T\n"[..1]) == "T";
    assert "T\n"[..1] == "T";
    assert Strip("T\n") == "T";
    assert FirstIn("T", HeaderSeparators) == 1;
    assert HeaderToken(lines[0]) == "T";
    assert ImgEnd(lines, 2) == 2;
    assert Block(lines, "T", 0) == RoiList("T", 0, []);
    assert ["T"][1..] == [];
    assert TypesScan(lines, "T", [], 2) == (2, []);
    var types := ["T"];
    assert types[0] == "T" && types != [];
    var b := Block(lines, "T", 0);
    var rest := TypesScan(lines, "T", types[1..], 0 + 2 + b.count);
    assert rest == (2, []);
    assert TypesScan(lines, "T", types, 0) == (rest.0, [b] + rest.1);
    assert [b] + rest.1 == [RoiList("T", 0, [])];
    assert TypesScan(lines, "T", ["T"], 0) == (2, [RoiList("T", 0, [])]);
  }

  /** The `.img` loop after a header matched at line h: skip two lines, then
      count the matching lines and collect their names. */
  method ReadBlock(lines: seq<string>, head: string, h: nat) returns (b: RoiList, next: nat)
    ensures b == Block(lines, head, h)
    ensures next == h + 2 + b.count
  {
    next := h + 2;
    var count := 0;
    var names := [];
    while next < |lines| && HasImg(lines[next])
      invariant next == h + 2 + count
      invariant ImgEnd(lines, next) == ImgEnd(lines, h + 2)
      invariant next <= |lines| ==> names == ImgNames(lines, h + 2, next)
      invariant next > |lines| ==> names == [] && count == 0
      decreases |lines| - next
    {
      count := count + 1;
      var name := NameToken(lines[next]);
      names := names + name;
      next := next + 1;
    }
    b := RoiList(head, count, names);
  }

  /** The loop over the ROI types for the header token of line h. */
  method ScanTypes(lines: seq<string>, head: string, types: seq<string>, h: nat) returns (next: nat, found: seq<RoiList>)
    ensures (next, found) == TypesScan(lines, head, types, h)
  {
    next := h;
    found := [];
    var t := 0;
    while t < |types|
      invariant t <= |types|
      invariant TypesScan(lines, head, types[t..], next).0 == TypesScan(lines, head, types, h).0
      invariant found + TypesScan(lines, head, types[t..], next).1 == TypesScan(lines, head, types, h).1
    {
      assert types[t..][1..] == types[t + 1..];
      if head == types[t] {
        var b;
        b, next := ReadBlock(lines, head, next);
        found := found + [b];
      }
      t := t + 1;
    }
    assert types[t..] == [];
    assert TypesScan(lines, head, [], next) == (next, []);
    assert found + [] == found;
    var r := TypesScan(lines, head, types, h);
    assert next == r.0 && found == r.1;
  }

  /** The reader as a loop, as the source writes it. */
  method MricloudReadRoiListsInfo(lines: seq<string>, types: seq<string>) returns (info: seq<RoiList>)
    ensures info == ReadRoiListsInfo(lines, types)
  {
    info := [];
    var iline := 0;
    while iline < |lines|
      invariant info + ParseFrom(lines, types, iline) == ReadRoiListsInfo(lines, types)
      decreases |lines| - iline
    {
      var found;
      iline, found := ScanTypes(lines, HeaderToken(lines[iline]), types, iline);
      info := info + found;
      iline := iline + 1;
    }
  }

  /** When every `.img` line of a block carries a name, the count equals the
      number of names. */
  lemma {:induction false} NamedBlockCounts(lines: seq<string>, i: nat, j: nat)
    requires i <= j <= |lines|
    requires forall k :: i <= k < j ==> |NameToken(lines[k])| == 1
    ensures |ImgNames(lines, i, j)| == j - i
    decreases j - i
  {
    if j > i {
      NamedBlockCounts(lines, i, j - 1);
    }
  }
}
