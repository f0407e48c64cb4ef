/** The merge step of the merger, `merge`: a size check, an inner join of the
    two prepared tables on row_id, the ratio column and the final projection
    to (store_id, var1, var2, ratio). */
module Merger {
  import opened Wrappers
  import opened Numeric
  import opened Frames

  /** Measure column names of the first and the second file. */
  const Variable1: string := "variable1"
  const Variable2: string := "variable2"

  const MismatchMessage: string := "Dataframes with different number of rows"

  /** A row of `pd.merge(df1[[ROW_ID, STORE_ID, ADDRESS, VALUE]], df2[[ROW_ID, ADDRESS, VALUE]], on=ROW_ID)`:
      the columns of the second table carry the suffix `_y`, those of the first `_x`. */
  datatype JoinedRow = JoinedRow(rowId: nat, storeId: string, addressX: string, valueX: real,
                                 addressY: string, valueY: real)

  /** The ratio cell: `"%.2f" % (value_x / value_y)` (here the exact quotient)
      or the sentinel -1. */
  datatype Ratio = Sentinel | Quotient(q: real)

  /** An output line, columns STORE_ID, VAR1, VAR2, RATIO in that order. */
  datatype OutputRow = OutputRow(storeId: string, var1: real, var2: real, ratio: Ratio)

  /** The joined row of a row of the first table with a row of the second. */
  function Pair(x: Row, y: Row): JoinedRow {
    JoinedRow(x.rowId, x.storeId, x.address, x.value, y.address, y.value)
  }

  /** `j` joins `x` with `y`, and the two share their row id. */
  predicate PairOf(j: JoinedRow, x: Row, y: Row) {
    x.rowId == y.rowId && j == Pair(x, y)
  }

  /** The rows of the second table that match one row of the first, in order. */
  function MatchesOf(x: Row, right: seq<Row>): (r: seq<JoinedRow>)
    ensures |r| <= |right|
    decreases |right|
  {
    if right == [] then []
    else (if right[0].rowId == x.rowId then [Pair(x, right[0])] else []) + MatchesOf(x, right[1..])
  }

  /** Inner join on row_id, in the order of the first table's rows, as
      `pd.merge(..., on=ROW_ID)` with its default `how='inner'`. */
  function JoinOnRowId(left: seq<Row>, right: seq<Row>): (r: seq<JoinedRow>)
    ensures left == [] || right == [] ==> r == []
    decreases |left|
  {
    if left == [] then [] else MatchesOf(left[0], right) + JoinOnRowId(left[1..], right)
  }

  /** The positional pairing of two tables of one length. */
  function Zip(left: seq<Row>, right: seq<Row>): (r: seq<JoinedRow>)
    requires |left| == |right|
  {
    seq(|left|, i requires 0 <= i < |left| => Pair(left[i], right[i]))
  }

  /** The ratio rule: the quotient exactly when the divisor is positive, the
      sentinel -1 otherwise (zero and negative divisors alike). */
  function RatioOf(x: real, y: real): (r: Ratio)
    ensures r.Quotient? <==> y > 0.0
    ensures r.Sentinel? <==> y <= 0.0
    ensures r.Quotient? ==> r.q * y == x
  {
    if y > 0.0 then Quotient(x / y) else Sentinel
  }

  /** The ratio column followed by the projection to the output columns:
      store_id of the first table, both measures, and the ratio between them. */
  function Project(j: JoinedRow): (o: OutputRow)
    ensures o.storeId == j.storeId && o.var1 == j.valueX && o.var2 == j.valueY
    ensures RatioRule(o)
  {
    OutputRow(j.storeId, j.valueX, j.valueY, RatioOf(j.valueX, j.valueY))
  }

  /** Lines 44-51 of `merge` on two prepared tables: the size check comes
      before the join, so tables of different lengths are never joined. */
  function MergeFrames(df1: seq<Row>, df2: seq<Row>): (r: Result<seq<OutputRow>, Error>)
    ensures r.Err? <==> |df1| != |df2|
    ensures r.Err? ==> r.error == MergerError(MismatchMessage)
  {
    if |df1| != |df2| then Err(MergerError(MismatchMessage))
    else
      var joined := JoinOnRowId(df1, df2);
      Ok(seq(|joined|, n requires 0 <= n < |joined| => Project(joined[n])))
  }

  /** `merge`: prepare the first file on `variable1`, the second on
      `variable2`, then size check, join, ratio and projection. */
  function Merge(records1: seq<Record>, records2: seq<Record>): (r: Result<seq<OutputRow>, Error>)
    ensures |records1| != |records2| ==> r.Err?
    ensures r.Ok? ==> |records1| == |records2| && |r.value| == |records1|
  {
    match Prepared(records1, Variable1)
    case Err(e) => Err(e)
    case Ok(df1) =>
      match Prepared(records2, Variable2)
      case Err(e) => Err(e)
      case Ok(df2) =>
        if |df1| == |df2| then
          JoinIsZip(df1, df2);
          MergeFrames(df1, df2)
        else
          MergeFrames(df1, df2)
  }

  // ---------------------------------------------------------------------
  // The join on row_id of index-keyed tables

  lemma {:induction false} MatchesOfIndexed(x: Row, right: seq<Row>, k: nat)
    requires forall j :: 0 <= j < |right| ==> right[j].rowId == k + j
    ensures MatchesOf(x, right) == if k <= x.rowId < k + |right| then [Pair(x, right[x.rowId - k])] else []
    decreases |right|
  {
    if right != [] {
      MatchesOfIndexed(x, right[1..], k + 1);
      if x.rowId == k {
        assert MatchesOf(x, right[1..]) == [];
      }
    }
  }

  /** `r` pairs row i of `left` with row k + i of `right`, for every i. */
  predicate PairsAt(r: seq<JoinedRow>, left: seq<Row>, right: seq<Row>, k: nat)
    requires k + |left| <= |right|
  {
    |r| == |left| && forall i :: 0 <= i < |left| ==> r[i] == Pair(left[i], right[k + i])
  }

  lemma PairsAtCons(left: seq<Row>, right: seq<Row>, k: nat, rest: seq<JoinedRow>)
    requires |left| > 0 && k + |left| <= |right|
    requires PairsAt(rest, left[1..], right, k + 1)
    ensures PairsAt([Pair(left[0], right[k])] + rest, left, right, k)
  {
    var r := [Pair(left[0], right[k])] + rest;
    forall i | 0 <= i < |left| ensures r[i] == Pair(left[i], right[k + i]) {
      if i > 0 {
        assert r[i] == rest[i - 1] && left[1..][i - 1] == left[i];
      }
    }
  }

  lemma ShiftedIds(left: seq<Row>, k: nat)
    requires |left| > 0
    requires forall i :: 0 <= i < |left| ==> left[i].rowId == k + i
    ensures forall i :: 0 <= i < |left[1..]| ==> left[1..][i].rowId == k + 1 + i
  {
    forall i | 0 <= i < |left[1..]| ensures left[1..][i].rowId == k + 1 + i {
      assert left[1..][i] == left[i + 1];
    }
  }

  lemma {:induction false} JoinOfIndexed(left: seq<Row>, right: seq<Row>, k: nat)
    requires forall i :: 0 <= i < |left| ==> left[i].rowId == k + i
    requires RowIdsAreIndices(right) && k + |left| <= |right|
    ensures PairsAt(JoinOnRowId(left, right), left, right, k)
    decreases |left|
  {
    if left != [] {
      JoinHead(left, right, k);
      ShiftedIds(left, k);
      JoinOfIndexed(left[1..], right, k + 1);
      PairsAtCons(left, right, k, JoinOnRowId(left[1..], right));
    }
  }

  lemma JoinHead(left: seq<Row>, right: seq<Row>, k: nat)
    requires |left| > 0 && left[0].rowId == k
    requires RowIdsAreIndices(right) && k < |right|
    ensures JoinOnRowId(left, right) == [Pair(left[0], right[k])] + JoinOnRowId(left[1..], right)
  {
    MatchesOfIndexed(left[0], right, 0);
    var head := MatchesOf(left[0], right);
    assert head == [Pair(left[0], right[k])];
    assert JoinOnRowId(left, right) == head + JoinOnRowId(left[1..], right);
  }

  /** The inner join on row_id of two tables whose row ids are their positions
      and that have one length is the positional pairing: row i with row i. */
  lemma JoinIsZip(left: seq<Row>, right: seq<Row>)
    requires RowIdsAreIndices(left) && RowIdsAreIndices(right)
    requires |left| == |right|
    ensures JoinOnRowId(left, right) == Zip(left, right)
  {
    JoinOfIndexed(left, right, 0);
  }

  lemma {:induction false} MatchesSound(x: Row, right: seq<Row>, j: nat)
    requires j < |MatchesOf(x, right)|
    ensures exists k :: 0 <= k < |right| && PairOf(MatchesOf(x, right)[j], x, right[k])
    decreases |right|
  {
    var head := if right[0].rowId == x.rowId then [Pair(x, right[0])] else [];
    if j < |head| {
      assert PairOf(MatchesOf(x, right)[j], x, right[0]);
    } else {
      MatchesSound(x, right[1..], j - |head|);
      var k :| 0 <= k < |right[1..]| && PairOf(MatchesOf(x, right[1..])[j - |head|], x, right[1..][k]);
      assert PairOf(MatchesOf(x, right)[j], x, right[k + 1]);
    }
  }

  /** Every row of the inner join pairs a row of each table that share a row id. */
  lemma {:induction false} JoinSound(left: seq<Row>, right: seq<Row>, j: nat)
    requires j < |JoinOnRowId(left, right)|
    ensures exists i, k :: 0 <= i < |left| && 0 <= k < |right| && PairOf(JoinOnRowId(left, right)[j], left[i], right[k])
    decreases |left|
  {
    var first := MatchesOf(left[0], right);
    if j < |first| {
      MatchesSound(left[0], right, j);
      var k :| 0 <= k < |right| && PairOf(first[j], left[0], right[k]);
      assert PairOf(JoinOnRowId(left, right)[j], left[0], right[k]);
    } else {
      JoinSound(left[1..], right, j - |first|);
      var i, k :| 0 <= i < |left[1..]| && 0 <= k < |right| &&
                  PairOf(JoinOnRowId(left[1..], right)[j - |first|], left[1..][i], right[k]);
      assert PairOf(JoinOnRowId(left, right)[j], left[i + 1], right[k]);
    }
  }

  /** Every pair of rows that share a row id appears in the inner join. */
  lemma {:induction false} JoinComplete(left: seq<Row>, right: seq<Row>, i: nat, k: nat)
    requires i < |left| && k < |right|
    requires left[i].rowId == right[k].rowId
    ensures Pair(left[i], right[k]) in JoinOnRowId(left, right)
    decreases |left|
  {
    if i == 0 {
      MatchesComplete(left[0], right, k);
    } else {
      JoinComplete(left[1..], right, i - 1, k);
    }
  }

  lemma {:induction false} MatchesComplete(x: Row, right: seq<Row>, k: nat)
    requires k < |right| && right[k].rowId == x.rowId
    ensures Pair(x, right[k]) in MatchesOf(x, right)
    decreases |right|
  {
    if k > 0 {
      MatchesComplete(x, right[1..], k - 1);
    }
  }

  /** On index-keyed tables of one length the merge yields one output row per
      input row, in order: store_id of the first table, both measures, their ratio. */
  lemma MergeFramesPositional(df1: seq<Row>, df2: seq<Row>)
    requires RowIdsAreIndices(df1) && RowIdsAreIndices(df2)
    requires |df1| == |df2|
    ensures MergeFrames(df1, df2).Ok?
    ensures |MergeFrames(df1, df2).value| == |df1|
    ensures forall i :: 0 <= i < |df1| ==>
              MergeFrames(df1, df2).value[i] ==
                OutputRow(df1[i].storeId, df1[i].value, df2[i].value, RatioOf(df1[i].value, df2[i].value))
  {
    JoinIsZip(df1, df2);
  }

  // ---------------------------------------------------------------------
  // The whole merge on parsed records

  /** The merge succeeds exactly when both files prepare and have as many
      records; then output row i is built from record i of each file. */
  lemma MergeOk(records1: seq<Record>, records2: seq<Record>)
    ensures Merge(records1, records2).Ok? <==>
              Prepared(records1, Variable1).Ok? && Prepared(records2, Variable2).Ok? && |records1| == |records2|
    ensures Merge(records1, records2).Ok? ==>
              var out := Merge(records1, records2).value;
              |out| == |records1| &&
              forall i :: 0 <= i < |out| ==>
                (IdStoreColumn in records1[i] ==> out[i].storeId == records1[i][IdStoreColumn]) &&
                (IdStoreColumn !in records1[i] ==> out[i].storeId == "") &&
                Variable1 in records1[i] && ParseFloat(records1[i][Variable1]) == Some(out[i].var1) &&
                Variable2 in records2[i] && ParseFloat(records2[i][Variable2]) == Some(out[i].var2) &&
                out[i].ratio == RatioOf(out[i].var1, out[i].var2)
  {
    var p1 := Prepared(records1, Variable1);
    var p2 := Prepared(records2, Variable2);
    if p1.Ok? && p2.Ok? {
      PreparedOneRowPerRecord(records1, Variable1);
      PreparedOneRowPerRecord(records2, Variable2);
      if |records1| == |records2| {
        MergeFramesPositional(p1.value, p2.value);
        var out := Merge(records1, records2).value;
        forall i | 0 <= i < |out|
          ensures (IdStoreColumn in records1[i] ==> out[i].storeId == records1[i][IdStoreColumn]) &&
                  (IdStoreColumn !in records1[i] ==> out[i].storeId == "") &&
                  Variable1 in records1[i] && ParseFloat(records1[i][Variable1]) == Some(out[i].var1) &&
                  Variable2 in records2[i] && ParseFloat(records2[i][Variable2]) == Some(out[i].var2) &&
                  out[i].ratio == RatioOf(out[i].var1, out[i].var2)
        {
          PreparedFields(records1, Variable1, i);
          PreparedFields(records2, Variable2, i);
        }
      }
    }
  }

  /** Errors come out in the order `merge` meets them: the first file's, then
      the second file's, then the row-count check, which runs before any join. */
  lemma MergeErrors(records1: seq<Record>, records2: seq<Record>)
    ensures Prepared(records1, Variable1).Err? ==>
              Merge(records1, records2) == Err(Prepared(records1, Variable1).error)
    ensures Prepared(records1, Variable1).Ok? && Prepared(records2, Variable2).Err? ==>
              Merge(records1, records2) == Err(Prepared(records2, Variable2).error)
    ensures Prepared(records1, Variable1).Ok? && Prepared(records2, Variable2).Ok? && |records1| != |records2| ==>
              Merge(records1, records2) == Err(MergerError(MismatchMessage))
  {
    if Prepared(records1, Variable1).Ok? && Prepared(records2, Variable2).Ok? {
      PreparedOneRowPerRecord(records1, Variable1);
      PreparedOneRowPerRecord(records2, Variable2);
    }
  }

  /** Files with different record counts never produce output. */
  lemma MergeRowCountMismatch(records1: seq<Record>, records2: seq<Record>)
    requires |records1| != |records2|
    ensures Merge(records1, records2).Err?
  {
    MergeOk(records1, records2);
  }

  /** The ratio column of every output row follows the sentinel rule. */
  lemma MergeRatioRule(records1: seq<Record>, records2: seq<Record>)
    requires Merge(records1, records2).Ok?
    ensures forall i :: 0 <= i < |Merge(records1, records2).value| ==>
              RatioRule(Merge(records1, records2).value[i])
  {
    var df1 := Prepared(records1, Variable1).value;
    var df2 := Prepared(records2, Variable2).value;
    var out := Merge(records1, records2).value;
    assert out == MergeFrames(df1, df2).value;
    var joined := JoinOnRowId(df1, df2);
    forall i | 0 <= i < |out| ensures RatioRule(out[i]) {
      assert out[i] == Project(joined[i]);
    }
  }

  /** `ratio` is the quotient var1 / var2 exactly when var2 > 0, and -1 otherwise. */
  predicate RatioRule(o: OutputRow) {
    (o.ratio.Quotient? <==> o.var2 > 0.0) &&
    (o.ratio.Quotient? ==> o.ratio.q * o.var2 == o.var1)
  }

  /** The projection drops both files' addresses and the second file's store
      id: files that agree on everything else merge to the same result. */
  lemma MergeIgnoresAddressesAndSecondStore(records1: seq<Record>, other1: seq<Record>,
                                            records2: seq<Record>, other2: seq<Record>)
    requires SameMeasures(records1, other1, Variable1) && SameStores(records1, other1)
    requires SameMeasures(records2, other2, Variable2)
    ensures Merge(records1, records2) == Merge(other1, other2)
  {
    PreparedSameMeasures(records1, other1, Variable1);
    PreparedSameMeasures(records2, other2, Variable2);
    var p1, q1 := Prepared(records1, Variable1), Prepared(other1, Variable1);
    var p2, q2 := Prepared(records2, Variable2), Prepared(other2, Variable2);
    if p1.Ok? && p2.Ok? && |p1.value| == |p2.value| {
      var df1, dg1, df2, dg2 := p1.value, q1.value, p2.value, q2.value;
      PreparedOneRowPerRecord(records1, Variable1);
      PreparedOneRowPerRecord(other1, Variable1);
      PreparedOneRowPerRecord(records2, Variable2);
      PreparedOneRowPerRecord(other2, Variable2);
      MergeFramesPositional(df1, df2);
      MergeFramesPositional(dg1, dg2);
      var a := MergeFrames(df1, df2).value;
      var b := MergeFrames(dg1, dg2).value;
      assert |a| == |b|;
      forall i | 0 <= i < |a| ensures a[i] == b[i] {
        PreparedFields(records1, Variable1, i);
        PreparedFields(other1, Variable1, i);
        assert df1[i].storeId == dg1[i].storeId && df1[i].value == dg1[i].value;
        assert df2[i].value == dg2[i].value;
      }
      assert a == b;
    }
  }

  /** Two files whose records agree on the `id_store` column and its cells. */
  predicate SameStores(a: seq<Record>, b: seq<Record>) {
    |a| == |b| &&
    forall i :: 0 <= i < |a| ==>
      (IdStoreColumn in a[i] <==> IdStoreColumn in b[i]) &&
      (IdStoreColumn in a[i] ==> a[i][IdStoreColumn] == b[i][IdStoreColumn])
  }

  /** Two files whose records agree on which of `address` and the measure
      column they hold, and on the measure cells. */
  predicate SameMeasures(a: seq<Record>, b: seq<Record>, varName: string) {
    |a| == |b| &&
    forall i :: 0 <= i < |a| ==>
      (AddressColumn in a[i] <==> AddressColumn in b[i]) &&
      (varName in a[i] <==> varName in b[i]) &&
      (varName in a[i] ==> a[i][varName] == b[i][varName])
  }

  lemma {:induction false} PreparedSameMeasures(a: seq<Record>, b: seq<Record>, varName: string)
    requires SameMeasures(a, b, varName)
    ensures Prepared(a, varName).Err? <==> Prepared(b, varName).Err?
    ensures Prepared(a, varName).Err? ==> Prepared(a, varName).error == Prepared(b, varName).error
    ensures Prepared(a, varName).Ok? ==>
              |Prepared(a, varName).value| == |Prepared(b, varName).value| &&
              forall i :: 0 <= i < |Prepared(a, varName).value| ==>
                Prepared(a, varName).value[i].value == Prepared(b, varName).value[i].value
    decreases |a|
  {
    if a != [] {
      var last := |a| - 1;
      assert SameMeasures(a[..last], b[..last], varName) by {
        forall i | 0 <= i < last ensures a[..last][i] == a[i] && b[..last][i] == b[i] { }
      }
      PreparedSameMeasures(a[..last], b[..last], varName);
      var ra := BuildRow(a[last], last, varName);
      var rb := BuildRow(b[last], last, varName);
      assert ra.Err? <==> rb.Err?;
    }
  }
}
