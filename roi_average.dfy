/** MRICloud T1 ROI averages: the segmentation labels of the T1 image are
    grouped into the segments of each hierarchy level by name, and every
    segment's mean aCBF, mean rCBF and voxel count inside the calculation
    mask are reported, level by level, then once per label. */
module RoiAverage {
  import opened Common
  import opened RoiLists

  /** The hierarchy levels, and the lookup-table column holding each level's
      segment name. */
  const RoiTypes: seq<string> := ["Type1-L2", "Type1-L3", "Type1-L5"]
  const RoiLookupColumns: seq<nat> := [4, 3, 1]

  /** A segment list entry: a name read from the statistics file, or, for the
      third entry once it has been replaced by the lookup table, a whole
      lookup row, which never equals a table cell. */
  datatype Name = Text(text: string) | Columns(cells: seq<string>)

  datatype SegmentRow = SegmentRow(index: nat, name: Name, acbf: Option<real>, rcbf: Option<real>, nvox: nat)

  /** One table of the result file; level tables are followed by a blank
      separator, the final per-label table is not. */
  datatype RoiTable = RoiTable(segNum: nat, rows: seq<SegmentRow>, separated: bool)

  /** Row kk of the lookup table names segment ii in column tbl. */
  predicate Matches(lookup: seq<seq<string>>, tbl: nat, names: seq<Name>, ii: nat, kk: nat)
    requires ii < |names| && kk < |lookup|
  {
    |lookup[kk]| > tbl && names[ii] == Text(lookup[kk][tbl])
  }

  /** Some row kk < k with label kk + 1 == label names segment ii. */
  predicate MatchBefore(lab: real, lookup: seq<seq<string>>, tbl: nat, names: seq<Name>, ii: nat, k: nat)
    requires ii < |names| && k <= |lookup|
  {
    k > 0 && (MatchBefore(lab, lookup, tbl, names, ii, k - 1) || (lab == k as real && Matches(lookup, tbl, names, ii, k - 1)))
  }

  /** The segment a voxel with this label ends up in after segments 0..n-1
      have been written: the last one whose name matches, or 0. */
  function SegAt(lab: real, lookup: seq<seq<string>>, tbl: nat, names: seq<Name>, n: nat): (s: nat)
    requires n <= |names|
    ensures s <= n
  {
    if n == 0 then 0
    else if MatchBefore(lab, lookup, tbl, names, n - 1, |lookup|) then n
    else SegAt(lab, lookup, tbl, names, n - 1)
  }

  lemma {:induction false} MatchBeforeMeans(lab: real, lookup: seq<seq<string>>, tbl: nat, names: seq<Name>, ii: nat, k: nat)
    requires ii < |names| && k <= |lookup|
    ensures MatchBefore(lab, lookup, tbl, names, ii, k) <==>
      exists kk :: 0 <= kk < k && lab == (kk + 1) as real && Matches(lookup, tbl, names, ii, kk)
  {
    if k > 0 {
      MatchBeforeMeans(lab, lookup, tbl, names, ii, k - 1);
    }
  }

  /** What the segment number means: segment s is the last of the first n
      whose name a lookup row with this label carries, and 0 means that none
      does. */
  lemma {:induction false} SegAtMeans(lab: real, lookup: seq<seq<string>>, tbl: nat, names: seq<Name>, n: nat)
    requires n <= |names|
    ensures SegAt(lab, lookup, tbl, names, n) > 0 ==>
      MatchBefore(lab, lookup, tbl, names, SegAt(lab, lookup, tbl, names, n) - 1, |lookup|)
    ensures forall ii :: SegAt(lab, lookup, tbl, names, n) <= ii < n ==> !MatchBefore(lab, lookup, tbl, names, ii, |lookup|)
  {
    if n > 0 {
      SegAtMeans(lab, lookup, tbl, names, n - 1);
    }
  }

  /** The segmentation mask of one level, voxel by voxel. */
  function Segmask(mskv: seq<real>, lookup: seq<seq<string>>, tbl: nat, names: seq<Name>, segNum: nat): (r: seq<nat>)
    requires segNum <= |names|
    ensures |r| == |mskv|
  {
    seq(|mskv|, v requires 0 <= v < |mskv| => SegAt(mskv[v], lookup, tbl, names, segNum))
  }

  /** Some lookup row has more than tbl columns. */
  predicate AnyWide(lookup: seq<seq<string>>, tbl: nat, k: nat)
    requires k <= |lookup|
  {
    k > 0 && (AnyWide(lookup, tbl, k - 1) || |lookup[k - 1]| > tbl)
  }

  lemma {:induction false} AnyWideGrows(lookup: seq<seq<string>>, tbl: nat, k: nat, k': nat)
    requires k <= k' <= |lookup| && AnyWide(lookup, tbl, k)
    ensures AnyWide(lookup, tbl, k')
    decreases k' - k
  {
    if k < k' {
      AnyWideGrows(lookup, tbl, k, k' - 1);
    }
  }

  /** The nested loops that write segmask. Segment ii is looked up only for
      a lookup row wide enough, so a segment count above the number of names
      fails there only when such a row exists. */
  method BuildSegmask(mskv: seq<real>, lookup: seq<seq<string>>, tbl: nat, names: seq<Name>, segNum: nat)
    returns (r: Result<seq<nat>>)
    ensures segNum <= |names| ==> r == Ok(Segmask(mskv, lookup, tbl, names, segNum))
    ensures segNum > |names| ==> (r.Err? <==> AnyWide(lookup, tbl, |lookup|))
  {
    var segmask: seq<nat> := seq(|mskv|, v => 0);
    var ii := 0;
    while ii < segNum
      invariant ii <= segNum && |segmask| == |mskv|
      invariant ii <= |names| ==> forall v :: 0 <= v < |mskv| ==> segmask[v] == SegAt(mskv[v], lookup, tbl, names, ii)
      invariant ii > |names| ==> !AnyWide(lookup, tbl, |lookup|) && forall v :: 0 <= v < |mskv| ==> segmask[v] == SegAt(mskv[v], lookup, tbl, names, |names|)
    {
      var kk := 0;
      while kk < |lookup|
        invariant kk <= |lookup| && |segmask| == |mskv|
        invariant ii >= |names| ==> !AnyWide(lookup, tbl, kk)
        invariant ii >= |names| ==> forall v :: 0 <= v < |mskv| ==> segmask[v] == SegAt(mskv[v], lookup, tbl, names, |names|)
        invariant ii < |names| ==> forall v :: 0 <= v < |mskv| ==>
          segmask[v] == (if MatchBefore(mskv[v], lookup, tbl, names, ii, kk) then ii + 1 else SegAt(mskv[v], lookup, tbl, names, ii))
      {
        if |lookup[kk]| > tbl {
          if ii >= |names| {
            AnyWideGrows(lookup, tbl, kk + 1, |lookup|);
            return Err(IndexError("roi_lst[ii]"));
          }
          if names[ii] == Text(lookup[kk][tbl]) {
            segmask := seq(|mskv|, v requires 0 <= v < |mskv| => if mskv[v] == (kk + 1) as real then ii + 1 else segmask[v]);
          }
        }
        kk := kk + 1;
      }
      ii := ii + 1;
    }
    r := Ok(segmask);
    if segNum <= |names| {
      assert segmask == Segmask(mskv, lookup, tbl, names, segNum);
    }
  }

  /** The voxels of segment s inside the calculation mask. */
  function Selection(segmask: seq<nat>, s: nat, msk1: seq<real>): (sel: seq<bool>)
    requires |segmask| == |msk1|
    ensures |sel| == |segmask|
    ensures forall v :: 0 <= v < |sel| ==> (sel[v] <==> segmask[v] == s && msk1[v] > 0.5)
  {
    seq(|segmask|, v requires 0 <= v < |segmask| => segmask[v] == s && msk1[v] > 0.5)
  }

  /** One output row: the means (None where numpy prints nan) and the count
      are all taken over the same voxel set. */
  function Row(index: nat, name: Name, sel: seq<bool>, acbf: seq<real>, rcbf: seq<real>): (row: SegmentRow)
    requires |sel| == |acbf| == |rcbf|
    ensures row.nvox == CountTrue(sel)
    ensures row.acbf == MaskedMean(acbf, sel) && row.rcbf == MaskedMean(rcbf, sel)
    ensures row.acbf.None? <==> row.nvox == 0
  {
    SegmentRow(index, name, MaskedMean(acbf, sel), MaskedMean(rcbf, sel), CountTrue(sel))
  }

  /** A level table for the segments of `names`. */
  function LevelTable(lookup: seq<seq<string>>, tbl: nat, names: seq<Name>, segNum: nat,
                      mskv: seq<real>, acbf: seq<real>, rcbf: seq<real>, msk1: seq<real>): (r: Result<RoiTable>)
    requires |mskv| == |acbf| == |rcbf| == |msk1|
    ensures r.Err? <==> segNum > |names|
    ensures r.Ok? ==> r.value.segNum == segNum && |r.value.rows| == segNum && r.value.separated
    ensures r.Ok? ==> forall ii :: 0 <= ii < segNum ==>
      r.value.rows[ii] == Row(ii + 1, names[ii], Selection(Segmask(mskv, lookup, tbl, names, segNum), ii + 1, msk1), acbf, rcbf)
  {
    if segNum > |names| then Err(IndexError("roi_lst[ii]"))
    else
      var segmask := Segmask(mskv, lookup, tbl, names, segNum);
      Ok(RoiTable(segNum, seq(segNum, ii requires 0 <= ii < segNum =>
        Row(ii + 1, names[ii], Selection(segmask, ii + 1, msk1), acbf, rcbf)), true))
  }

  /** The per-label table: label ii + 1 alone, named by lookup column 1. */
  function FullTable(lookup: seq<seq<string>>, mskv: seq<real>, acbf: seq<real>, rcbf: seq<real>, msk1: seq<real>): (r: Result<RoiTable>)
    requires |mskv| == |acbf| == |rcbf| == |msk1|
    ensures r.Err? <==> exists ii :: 0 <= ii < |lookup| && |lookup[ii]| < 2
    ensures r.Ok? ==> r.value.segNum == |lookup| && |r.value.rows| == |lookup| && !r.value.separated
    ensures r.Ok? ==> forall ii :: 0 <= ii < |lookup| ==>
      r.value.rows[ii] == Row(ii + 1, Text(lookup[ii][1]), LabelSelection(mskv, ii + 1, msk1), acbf, rcbf)
  {
    if exists ii :: 0 <= ii < |lookup| && |lookup[ii]| < 2 then Err(IndexError("roi_lookup_all[ii][1]"))
    else Ok(RoiTable(|lookup|, seq(|lookup|, ii requires 0 <= ii < |lookup| =>
      Row(ii + 1, Text(lookup[ii][1]), LabelSelection(mskv, ii + 1, msk1), acbf, rcbf)), false))
  }

  function LabelSelection(mskv: seq<real>, lab: nat, msk1: seq<real>): (sel: seq<bool>)
    requires |mskv| == |msk1|
    ensures |sel| == |mskv|
    ensures forall v :: 0 <= v < |sel| ==> (sel[v] <==> mskv[v] == lab as real && msk1[v] > 0.5)
  {
    seq(|mskv|, v requires 0 <= v < |mskv| => mskv[v] == lab as real && msk1[v] > 0.5)
  }

  /** The segment list of entry tt once entry 2 has been replaced by the
      lookup table. */
  function LevelNames(infos: seq<RoiList>, lookup: seq<seq<string>>, tt: nat): (r: (seq<Name>, nat))
    requires tt < |infos|
  {
    if tt == 2 then (seq(|lookup|, k requires 0 <= k < |lookup| => Columns(lookup[k])), |lookup|)
    else (seq(|infos[tt].names|, k requires 0 <= k < |infos[tt].names| => Text(infos[tt].names[k])), infos[tt].count)
  }

  /** Level tables tt..|infos|-2. */
  function Levels(lookup: seq<seq<string>>, infos: seq<RoiList>, tt: nat,
                  mskv: seq<real>, acbf: seq<real>, rcbf: seq<real>, msk1: seq<real>): Result<seq<RoiTable>>
    requires |mskv| == |acbf| == |rcbf| == |msk1|
    decreases |infos| - tt
  {
    if tt + 1 >= |infos| then Ok([])
    else if tt >= |RoiLookupColumns| then Err(IndexError("roi_lookup_tbl[tt]"))
    else
      var ln := LevelNames(infos, lookup, tt);
      var table :- LevelTable(lookup, RoiLookupColumns[tt], ln.0, ln.1, mskv, acbf, rcbf, msk1);
      var rest :- Levels(lookup, infos, tt + 1, mskv, acbf, rcbf, msk1);
      Ok([table] + rest)
  }

  /** The ROI averaging of one ASL file: `infos` is what the list reader
      returned for RoiTypes, `lookup` the lookup table, `mskv` the label
      image, `msk1` the calculation mask. */
  function RoiCbfAverage(lookup: seq<seq<string>>, infos: seq<RoiList>,
                         mskv: seq<real>, acbf: seq<real>, rcbf: seq<real>, msk1: seq<real>): Result<seq<RoiTable>>
    requires |mskv| == |acbf| == |rcbf| == |msk1|
  {
    if |infos| < 3 then Err(IndexError("roi_lists_info[2]"))
    else
      var levels :- Levels(lookup, infos, 0, mskv, acbf, rcbf, msk1);
      var full :- FullTable(lookup, mskv, acbf, rcbf, msk1);
      Ok(levels + [full])
  }

  /** With the usual three entries the result holds the L2 and L3 tables and
      the per-label table; with fewer entries it fails, and with five or more
      the level loop runs out of lookup columns. */
  lemma RoiCbfAverageShape(lookup: seq<seq<string>>, infos: seq<RoiList>,
                           mskv: seq<real>, acbf: seq<real>, rcbf: seq<real>, msk1: seq<real>)
    requires |mskv| == |acbf| == |rcbf| == |msk1|
    ensures |infos| < 3 || |infos| >= 5 ==> RoiCbfAverage(lookup, infos, mskv, acbf, rcbf, msk1).Err?
    ensures (|infos| == 3 && infos[0].count <= |infos[0].names| && infos[1].count <= |infos[1].names| &&
      (forall ii :: 0 <= ii < |lookup| ==> |lookup[ii]| >= 2)) ==>
      (RoiCbfAverage(lookup, infos, mskv, acbf, rcbf, msk1).Ok? &&
       |RoiCbfAverage(lookup, infos, mskv, acbf, rcbf, msk1).value| == 3 &&
       RoiCbfAverage(lookup, infos, mskv, acbf, rcbf, msk1).value[0].segNum == infos[0].count &&
       RoiCbfAverage(lookup, infos, mskv, acbf, rcbf, msk1).value[1].segNum == infos[1].count &&
       RoiCbfAverage(lookup, infos, mskv, acbf, rcbf, msk1).value[2].segNum == |lookup|)
  {
    if |infos| >= 5 {
      LevelsFailPastColumns(lookup, infos, 0, mskv, acbf, rcbf, msk1);
    }
    if |infos| == 3 && infos[0].count <= |infos[0].names| && infos[1].count <= |infos[1].names| &&
      (forall ii :: 0 <= ii < |lookup| ==> |lookup[ii]| >= 2) {
      assert Levels(lookup, infos, 2, mskv, acbf, rcbf, msk1) == Ok([]);
      var n0 := LevelNames(infos, lookup, 0);
      var n1 := LevelNames(infos, lookup, 1);
      assert |n0.0| == |infos[0].names| && n0.1 == infos[0].count;
      assert |n1.0| == |infos[1].names| && n1.1 == infos[1].count;
      var t0 := LevelTable(lookup, 4, n0.0, n0.1, mskv, acbf, rcbf, msk1);
      var t1 := LevelTable(lookup, 3, n1.0, n1.1, mskv, acbf, rcbf, msk1);
      assert t0.Ok? && t1.Ok?;
      assert RoiLookupColumns[0] == 4 && RoiLookupColumns[1] == 3 && |RoiLookupColumns| == 3;
      assert [t1.value] + [] == [t1.value] && [t0.value] + [t1.value] == [t0.value, t1.value];
      assert Levels(lookup, infos, 1, mskv, acbf, rcbf, msk1) == Ok([t1.value]);
      assert Levels(lookup, infos, 0, mskv, acbf, rcbf, msk1) == Ok([t0.value, t1.value]);
    }
  }

  lemma {:induction false} LevelsFailPastColumns(lookup: seq<seq<string>>, infos: seq<RoiList>, tt: nat,
                                                 mskv: seq<real>, acbf: seq<real>, rcbf: seq<real>, msk1: seq<real>)
    requires |mskv| == |acbf| == |rcbf| == |msk1|
    requires |infos| >= 5 && tt <= 3
    ensures Levels(lookup, infos, tt, mskv, acbf, rcbf, msk1).Err?
    decreases 3 - tt
  {
    if tt < 3 {
      LevelsFailPastColumns(lookup, infos, tt + 1, mskv, acbf, rcbf, msk1);
    }
  }

  /** In the replaced third entry no name is text, so its segment mask is all
      zero and every one of its rows is empty. */
  lemma ReplacedEntryMatchesNothing(lookup: seq<seq<string>>, infos: seq<RoiList>, mskv: seq<real>, v: nat)
    requires 3 <= |infos| && v < |mskv|
    ensures Segmask(mskv, lookup, RoiLookupColumns[2], LevelNames(infos, lookup, 2).0, |lookup|)[v] == 0
  {
    var names := LevelNames(infos, lookup, 2).0;
    forall ii | 0 <= ii < |lookup|
      ensures !MatchBefore(mskv[v], lookup, 1, names, ii, |lookup|)
    {
      MatchBeforeMeans(mskv[v], lookup, 1, names, ii, |lookup|);
    }
    SegAtNone(mskv[v], lookup, 1, names, |lookup|);
  }

  lemma {:induction false} SegAtNone(lab: real, lookup: seq<seq<string>>, tbl: nat, names: seq<Name>, n: nat)
    requires n <= |names|
    requires forall ii :: 0 <= ii < n ==> !MatchBefore(lab, lookup, tbl, names, ii, |lookup|)
    ensures SegAt(lab, lookup, tbl, names, n) == 0
  {
    if n > 0 {
      SegAtNone(lab, lookup, tbl, names, n - 1);
    }
  }

  /** A voxel lies in at most one segment of a level, so a level's voxel
      counts add up to at most the size of the calculation mask. */
  lemma {:induction false} CountsWithinMask(segmask: seq<nat>, msk1: seq<real>, n: nat)
    requires |segmask| == |msk1|
    ensures SegCounts(segmask, msk1, n) <= CountTrue(InMask(msk1))
    decreases |segmask|
  {
    if segmask == [] {
      SegCountsEmpty(segmask, msk1, n);
    } else {
      var k := |segmask| - 1;
      CountsWithinMask(segmask[..k], msk1[..k], n);
      SegCountsSnoc(segmask, msk1, n);
      assert InMask(msk1)[..k] == InMask(msk1[..k]);
    }
  }

  /** The calculation-mask test `msk1 > 0.5`. */
  function InMask(msk1: seq<real>): (m: seq<bool>)
    ensures |m| == |msk1| && forall v :: 0 <= v < |m| ==> (m[v] <==> msk1[v] > 0.5)
  {
    seq(|msk1|, v requires 0 <= v < |msk1| => msk1[v] > 0.5)
  }

  lemma {:induction false} SegCountsEmpty(segmask: seq<nat>, msk1: seq<real>, n: nat)
    requires segmask == [] && msk1 == []
    ensures SegCounts(segmask, msk1, n) == 0
  {
    if n > 0 {
      SegCountsEmpty(segmask, msk1, n - 1);
      assert Selection(segmask, n, msk1) == [];
    }
  }

  /** Sum over segments 1..n of their voxel counts. */
  function SegCounts(segmask: seq<nat>, msk1: seq<real>, n: nat): nat
    requires |segmask| == |msk1|
  {
    if n == 0 then 0 else SegCounts(segmask, msk1, n - 1) + CountTrue(Selection(segmask, n, msk1))
  }

  /** Dropping the last voxel lowers the summed counts by one exactly when
      that voxel is in the mask and in one of the segments 1..n. */
  lemma {:induction false} SegCountsSnoc(segmask: seq<nat>, msk1: seq<real>, n: nat)
    requires |segmask| == |msk1| > 0
    ensures SegCounts(segmask, msk1, n) == SegCounts(segmask[..|segmask| - 1], msk1[..|msk1| - 1], n) +
      (if 1 <= segmask[|segmask| - 1] <= n && msk1[|msk1| - 1] > 0.5 then 1 else 0)
  {
    if n > 0 {
      SegCountsSnoc(segmask, msk1, n - 1);
      var k := |segmask| - 1;
      assert Selection(segmask, n, msk1)[..k] == Selection(segmask[..k], n, msk1[..k]);
    }
  }
}
