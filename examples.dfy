/** Concrete runs of the model on the files the test suite and the script's
    documentation describe. */
module Scenarios {
  import opened Wrappers
  import opened Numeric
  import opened Frames
  import opened Merger

  const Store1: Record := map["id_store" := "1", "address" := "100 High St.", "variable1" := "74", "category" := "A"]
  const Store2: Record := map["id_store" := "2", "address" := "382-384 Brixton Rd", "variable1" := "91", "category" := "A"]
  const Other1: Record := map["address" := "100 High Street", "variable2" := "88"]
  const Other2: Record := map["address" := "382-384 Brixton Road", "variable2" := "42"]
  const Other3: Record := map["address" := "11 Little Stonegate", "variable2" := "70"]

  const Row1: Row := Row(0, "1", "100 High St.", 74.0)
  const Row2: Row := Row(1, "2", "382-384 Brixton Rd", 91.0)

  lemma ParseFirstFileCells()
    ensures ParseFloat("74") == Some(74.0) && ParseFloat("91") == Some(91.0)
  {
    ParsesAs(74, "74");
    ParsesAs(91, "91");
  }

  lemma ParseSecondFileCells()
    ensures ParseFloat("88") == Some(88.0) && ParseFloat("42") == Some(42.0)
  {
    ParsesAs(88, "88");
    ParsesAs(42, "42");
  }

  lemma ParseNonPositiveCells()
    ensures ParseFloat("0") == Some(0.0) && ParseFloat("-5") == Some(-5.0)
  {
    ParsesAs(0, "0");
    ParsesAs(-5, "-5");
  }

  lemma ParsesAs(n: int, text: string)
    requires IntText(n) == text
    ensures ParseFloat(text) == Some(n as real)
  {
    ParseFloatIntText(n);
  }

  lemma PreparedPair(a: Record, b: Record, varName: string, x: Row, y: Row)
    requires BuildRow(a, 0, varName) == Ok(x) && BuildRow(b, 1, varName) == Ok(y)
    ensures Prepared([a, b], varName) == Ok([x, y])
  {
    assert Prepared([], varName) == Ok([]);
    assert [a][..0] == [];
    assert [] + [x] == [x];
    assert Prepared([a], varName) == Ok([x]);
    assert [a, b][..1] == [a];
    assert Prepared([a, b], varName) == Ok([x] + [y]);
    assert [x] + [y] == [x, y];
  }

  lemma FirstFilePrepares()
    ensures Prepared([Store1, Store2], Variable1) == Ok([Row1, Row2])
  {
    ParseFirstFileCells();
    PreparedPair(Store1, Store2, Variable1, Row1, Row2);
  }

  lemma MergePair(records1: seq<Record>, records2: seq<Record>, x: Row, y: Row, out: seq<OutputRow>)
    requires Prepared(records1, Variable1) == Ok([Row1, Row2])
    requires Prepared(records2, Variable2) == Ok([x, y])
    requires x.rowId == 0 && y.rowId == 1
    requires out == [OutputRow("1", 74.0, x.value, RatioOf(74.0, x.value)),
                     OutputRow("2", 91.0, y.value, RatioOf(91.0, y.value))]
    ensures Merge(records1, records2) == Ok(out)
  {
    var df1, df2 := [Row1, Row2], [x, y];
    assert RowIdsAreIndices(df1) && RowIdsAreIndices(df2);
    MergeFramesPositional(df1, df2);
    var m := MergeFrames(df1, df2).value;
    assert m[0] == out[0] && m[1] == out[1];
    assert m == out;
    assert Merge(records1, records2) == MergeFrames(df1, df2);
  }

  /** Two stores joined by position: 74 / 88 and 91 / 42. */
  lemma TwoStoresMerge()
    ensures Merge([Store1, Store2], [Other1, Other2]) ==
              Ok([OutputRow("1", 74.0, 88.0, Quotient(74.0 / 88.0)),
                  OutputRow("2", 91.0, 42.0, Quotient(91.0 / 42.0))])
  {
    ParseSecondFileCells();
    FirstFilePrepares();
    var x, y := Row(0, "", "100 High Street", 88.0), Row(1, "", "382-384 Brixton Road", 42.0);
    PreparedPair(Other1, Other2, Variable2, x, y);
    MergePair([Store1, Store2], [Other1, Other2], x, y,
              [OutputRow("1", 74.0, 88.0, Quotient(74.0 / 88.0)), OutputRow("2", 91.0, 42.0, Quotient(91.0 / 42.0))]);
  }

  /** Two records against three, as in the script's usage text: the size
      check rejects the pair instead of producing three lines. */
  lemma TwoAgainstThreeFails()
    ensures Merge([Store1, Store2], [Other1, Other2, Other3]) == Err(MergerError(MismatchMessage))
  {
    FirstFilePrepares();
    SecondFileOfThreePrepares();
    MergeMismatch([Store1, Store2], [Other1, Other2, Other3], [Row1, Row2], [Other1Row, Other2Row, Other3Row]);
  }

  const Other1Row: Row := Row(0, "", "100 High Street", 88.0)
  const Other2Row: Row := Row(1, "", "382-384 Brixton Road", 42.0)
  const Other3Row: Row := Row(2, "", "11 Little Stonegate", 70.0)

  lemma SecondFileOfThreePrepares()
    ensures Prepared([Other1, Other2, Other3], Variable2) == Ok([Other1Row, Other2Row, Other3Row])
  {
    ParseSecondFileCells();
    ParsesAs(70, "70");
    PreparedTriple(Other1, Other2, Other3, Variable2, Other1Row, Other2Row, Other3Row);
  }

  lemma PreparedTriple(a: Record, b: Record, c: Record, varName: string, x: Row, y: Row, z: Row)
    requires BuildRow(a, 0, varName) == Ok(x) && BuildRow(b, 1, varName) == Ok(y)
    requires BuildRow(c, 2, varName) == Ok(z)
    ensures Prepared([a, b, c], varName) == Ok([x, y, z])
  {
    PreparedPair(a, b, varName, x, y);
    assert [a, b, c][..2] == [a, b];
    assert Prepared([a, b, c], varName) == Ok([x, y] + [z]);
    assert [x, y] + [z] == [x, y, z];
  }

  lemma MergeMismatch(records1: seq<Record>, records2: seq<Record>, df1: seq<Row>, df2: seq<Row>)
    requires Prepared(records1, Variable1) == Ok(df1) && Prepared(records2, Variable2) == Ok(df2)
    requires |df1| != |df2|
    ensures Merge(records1, records2) == Err(MergerError(MismatchMessage))
  {
  }

  /** Preparing on a measure column the file does not have raises KeyError. */
  lemma UnknownMeasureFails()
    ensures Prepared([Store1, Store2], "unknown") == Err(MissingColumn("unknown"))
  {
    MissingMeasureFails([Store1, Store2], "unknown");
  }

  /** A zero and a negative second measure both give the sentinel -1. */
  lemma NonPositiveDivisorGivesSentinel()
    ensures Merge([Store1, Store2], [Other1[Variable2 := "0"], Other2[Variable2 := "-5"]]) ==
              Ok([OutputRow("1", 74.0, 0.0, Sentinel), OutputRow("2", 91.0, -5.0, Sentinel)])
  {
    ParseNonPositiveCells();
    FirstFilePrepares();
    var zero, negative := Other1[Variable2 := "0"], Other2[Variable2 := "-5"];
    var x, y := Row(0, "", "100 High Street", 0.0), Row(1, "", "382-384 Brixton Road", -5.0);
    PreparedPair(zero, negative, Variable2, x, y);
    MergePair([Store1, Store2], [zero, negative], x, y,
              [OutputRow("1", 74.0, 0.0, Sentinel), OutputRow("2", 91.0, -5.0, Sentinel)]);
  }
}
