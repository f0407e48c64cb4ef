/** The row-set preparation of the merger, `prepare_df`: every parsed record
    of an input file becomes one row (row_id, store_id, address, value). */
module Frames {
  import opened Wrappers
  import opened Numeric

  /** Input column names the preparation reads. */
  const IdStoreColumn: string := "id_store"
  const AddressColumn: string := "address"

  /** One parsed data line of a ';'-separated file: column name to cell text. */
  type Record = map<string, string>

  /** A row of the prepared table, columns ROW_ID, STORE_ID, ADDRESS, VALUE. */
  datatype Row = Row(rowId: nat, storeId: string, address: string, value: real)

  /** What the merger raises: a KeyError for an absent column, the ValueError
      of `float` on a non-numeric cell, and its own MergerError. */
  datatype Error =
    | MissingColumn(column: string)
    | NotANumber(text: string)
    | MergerError(msg: string)

  /** The row built from the record at position `index`, or the error raised
      while building it: `row['address']` is read before `row[var_name]`, and
      `float` is applied last. */
  function BuildRow(record: Record, index: nat, varName: string): (r: Result<Row, Error>)
    ensures r.Ok? <==> AddressColumn in record && varName in record && ParseFloat(record[varName]).Some?
    ensures AddressColumn !in record ==> r == Err(MissingColumn(AddressColumn))
    ensures AddressColumn in record && varName !in record ==> r == Err(MissingColumn(varName))
    ensures AddressColumn in record && varName in record && ParseFloat(record[varName]).None? ==>
              r == Err(NotANumber(record[varName]))
    ensures r.Ok? ==> r.value.rowId == index && r.value.address == record[AddressColumn]
    ensures r.Ok? ==> ParseFloat(record[varName]) == Some(r.value.value)
    ensures r.Ok? && IdStoreColumn in record ==> r.value.storeId == record[IdStoreColumn]
    ensures r.Ok? && IdStoreColumn !in record ==> r.value.storeId == ""
  {
    var storeId := if IdStoreColumn in record then record[IdStoreColumn] else "";
    if AddressColumn !in record then Err(MissingColumn(AddressColumn))
    else if varName !in record then Err(MissingColumn(varName))
    else match ParseFloat(record[varName])
      case None => Err(NotANumber(record[varName]))
      case Some(v) => Ok(Row(index, storeId, record[AddressColumn], v))
  }

  /** The table `prepare_df` returns for `records`, or the first error raised
      while walking them in order. */
  function Prepared(records: seq<Record>, varName: string): (r: Result<seq<Row>, Error>)
    ensures r.Ok? ==> |r.value| == |records| && RowIdsAreIndices(r.value)
    decreases |records|
  {
    if records == [] then Ok([])
    else
      var last := |records| - 1;
      match Prepared(records[..last], varName)
      case Err(e) => Err(e)
      case Ok(rows) =>
        match BuildRow(records[last], last, varName)
        case Err(e) => Err(e)
        case Ok(row) => Ok(rows + [row])
  }

  /** Row `i` of a table built from `records` is the row built from record `i`. */
  predicate RowsMatchRecords(rows: seq<Row>, records: seq<Record>, varName: string) {
    |rows| == |records| &&
    forall i :: 0 <= i < |records| ==> BuildRow(records[i], i, varName) == Ok(rows[i])
  }

  /** The row ids of a table are its positions 0, 1, 2, ... */
  predicate RowIdsAreIndices(rows: seq<Row>) {
    forall i :: 0 <= i < |rows| ==> rows[i].rowId == i
  }

  /** `prepare_df`: the loop over `df.iterrows()` that fills `df_norm.loc[index]`. */
  method PrepareDf(records: seq<Record>, varName: string) returns (r: Result<seq<Row>, Error>)
    ensures r == Prepared(records, varName)
  {
    var rows: seq<Row> := [];
    var index: nat := 0;
    while index < |records|
      invariant index <= |records|
      invariant |rows| == index
      invariant Prepared(records[..index], varName) == Ok(rows)
    {
      var row := records[index];
      ghost var built := BuildRow(row, index, varName);
      ghost var upTo := records[..index + 1];
      assert upTo[..index] == records[..index] && upTo[index] == row;
      assert Prepared(upTo, varName) == if built.Err? then Err(built.error) else Ok(rows + [built.value]);
      var storeId := if IdStoreColumn in row then row[IdStoreColumn] else "";
      if AddressColumn !in row {
        PreparedExtendError(records, index + 1, varName);
        return Err(MissingColumn(AddressColumn));
      }
      var address := row[AddressColumn];
      if varName !in row {
        PreparedExtendError(records, index + 1, varName);
        return Err(MissingColumn(varName));
      }
      var value := ParseFloat(row[varName]);
      if value.None? {
        PreparedExtendError(records, index + 1, varName);
        return Err(NotANumber(row[varName]));
      }
      var item := Row(index, storeId, address, value.value);
      assert built == Ok(item);
      rows := rows + [item];
      index := index + 1;
    }
    assert records[..index] == records;
    return Ok(rows);
  }

  /** Once a prefix of the records fails, the whole walk fails with the same error. */
  lemma {:induction false} PreparedExtendError(records: seq<Record>, n: nat, varName: string)
    requires n <= |records|
    requires Prepared(records[..n], varName).Err?
    ensures Prepared(records, varName) == Prepared(records[..n], varName)
    decreases |records| - n
  {
    if n < |records| {
      var longer := records[..n + 1];
      assert longer[..n] == records[..n];
      assert Prepared(longer, varName) == Prepared(records[..n], varName);
      PreparedExtendError(records, n + 1, varName);
    } else {
      assert records[..n] == records;
    }
  }

  /** The preparation succeeds exactly when every record yields a row, and
      then row `i` is the row of record `i`. */
  lemma {:induction false} PreparedOk(records: seq<Record>, varName: string)
    ensures Prepared(records, varName).Ok? <==>
              forall i :: 0 <= i < |records| ==> BuildRow(records[i], i, varName).Ok?
    ensures Prepared(records, varName).Ok? ==> RowsMatchRecords(Prepared(records, varName).value, records, varName)
    decreases |records|
  {
    if records != [] {
      var last := |records| - 1;
      var prefix := records[..last];
      PreparedOk(prefix, varName);
      if Prepared(prefix, varName).Err? {
        var i :| 0 <= i < last && BuildRow(prefix[i], i, varName).Err?;
        assert prefix[i] == records[i];
      } else {
        var rows := Prepared(prefix, varName).value;
        var next := BuildRow(records[last], last, varName);
        if next.Ok? {
          var all := rows + [next.value];
          assert Prepared(records, varName) == Ok(all);
          forall i | 0 <= i < |records| ensures BuildRow(records[i], i, varName) == Ok(all[i]) {
            if i < last {
              assert prefix[i] == records[i];
            }
          }
        }
      }
    }
  }

  /** A failing preparation reports the error of the first record that fails. */
  lemma {:induction false} PreparedErr(records: seq<Record>, varName: string)
    requires Prepared(records, varName).Err?
    ensures exists i :: 0 <= i < |records| &&
              BuildRow(records[i], i, varName) == Err(Prepared(records, varName).error) &&
              forall j :: 0 <= j < i ==> BuildRow(records[j], j, varName).Ok?
    decreases |records|
  {
    var last := |records| - 1;
    var prefix := records[..last];
    assert forall i :: 0 <= i < last ==> prefix[i] == records[i];
    if Prepared(prefix, varName).Err? {
      PreparedErr(prefix, varName);
      var i :| 0 <= i < |prefix| &&
               BuildRow(prefix[i], i, varName) == Err(Prepared(prefix, varName).error) &&
               forall j :: 0 <= j < i ==> BuildRow(prefix[j], j, varName).Ok?;
      assert BuildRow(records[i], i, varName) == Err(Prepared(records, varName).error);
    } else {
      PreparedOk(prefix, varName);
      assert BuildRow(records[last], last, varName) == Err(Prepared(records, varName).error);
    }
  }

  /** One row per record, in record order, and the row id of row `i` is `i`. */
  lemma PreparedOneRowPerRecord(records: seq<Record>, varName: string)
    requires Prepared(records, varName).Ok?
    ensures |Prepared(records, varName).value| == |records|
    ensures RowIdsAreIndices(Prepared(records, varName).value)
  {
    PreparedOk(records, varName);
    var rows := Prepared(records, varName).value;
    forall i | 0 <= i < |rows| ensures rows[i].rowId == i {
      assert BuildRow(records[i], i, varName) == Ok(rows[i]);
    }
  }

  /** `store_id` is the `id_store` cell, or '' when the record has no such column;
      `address` is the address cell and `value` the parsed measure cell. */
  lemma PreparedFields(records: seq<Record>, varName: string, i: nat)
    requires Prepared(records, varName).Ok?
    requires i < |records|
    ensures i < |Prepared(records, varName).value|
    ensures var row := Prepared(records, varName).value[i];
            (IdStoreColumn in records[i] ==> row.storeId == records[i][IdStoreColumn]) &&
            (IdStoreColumn !in records[i] ==> row.storeId == "") &&
            AddressColumn in records[i] && row.address == records[i][AddressColumn] &&
            varName in records[i] && ParseFloat(records[i][varName]) == Some(row.value)
  {
    PreparedOk(records, varName);
    assert BuildRow(records[i], i, varName) == Ok(Prepared(records, varName).value[i]);
  }

  /** A file without an `address` column fails with KeyError('address'). */
  lemma MissingAddressFails(records: seq<Record>, varName: string)
    requires |records| > 0
    requires forall i :: 0 <= i < |records| ==> AddressColumn !in records[i]
    ensures Prepared(records, varName) == Err(MissingColumn(AddressColumn))
  {
    PreparedErrFirst(records, varName);
  }

  /** A file with addresses but without the measure column fails with KeyError(var_name). */
  lemma MissingMeasureFails(records: seq<Record>, varName: string)
    requires |records| > 0
    requires forall i :: 0 <= i < |records| ==> AddressColumn in records[i] && varName !in records[i]
    ensures Prepared(records, varName) == Err(MissingColumn(varName))
  {
    PreparedErrFirst(records, varName);
  }

  /** A measure cell that `float` rejects makes the whole preparation fail. */
  lemma NonNumericFails(records: seq<Record>, varName: string, i: nat)
    requires i < |records|
    requires varName in records[i] && ParseFloat(records[i][varName]).None?
    ensures Prepared(records, varName).Err?
  {
    PreparedOk(records, varName);
  }

  /** When the first record fails, its error is the error of the whole walk. */
  lemma PreparedErrFirst(records: seq<Record>, varName: string)
    requires |records| > 0 && BuildRow(records[0], 0, varName).Err?
    ensures Prepared(records, varName) == Err(BuildRow(records[0], 0, varName).error)
  {
    assert records[..1][..0] == [];
    PreparedExtendError(records, 1, varName);
  }
}
