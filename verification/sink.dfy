/** The output loop of main.go: the expansion of each finished record into
    CSV rows. */
module Sink {
  import opened Outcomes
  import opened Records

  /** One CSV row: source domain, name, address, error text. */
  type Row = seq<string>

  /** The rows of a record without an error: one per address, in order. */
  function AddressRows(from: string, name: string, addrs: seq<string>): (rows: seq<Row>)
    ensures |rows| == |addrs|
    ensures forall i :: 0 <= i < |rows| ==> rows[i] == [from, name, addrs[i], ""]
  {
    if addrs == [] then []
    else AddressRows(from, name, addrs[..|addrs| - 1]) + [[from, name, addrs[|addrs| - 1], ""]]
  }

  /** The rows one finished record turns into. */
  function RowsOf(rec: Record): seq<Row> {
    match rec.err
    case Some(msg) => [[rec.from, rec.name, "", msg]]
    case None => AddressRows(rec.from, rec.name, rec.addrs)
  }

  /** How many rows a record turns into. */
  function RowCount(rec: Record): nat {
    if rec.err.Some? then 1 else |rec.addrs|
  }

  function TotalRows(recs: seq<Record>): nat {
    if recs == [] then 0 else TotalRows(recs[..|recs| - 1]) + RowCount(recs[|recs| - 1])
  }

  function AllRows(recs: seq<Record>): seq<Row> {
    if recs == [] then [] else AllRows(recs[..|recs| - 1]) + RowsOf(recs[|recs| - 1])
  }

  /** A record with an error gives exactly one row carrying the error text,
      whatever its addresses; one without gives one row per address, and
      none when it has no address (the bypassed names). */
  lemma RowsOfRecord(rec: Record)
    ensures rec.err.Some? ==> RowsOf(rec) == [[rec.from, rec.name, "", rec.err.value]]
    ensures rec.err.None? ==> |RowsOf(rec)| == |rec.addrs|
    ensures rec.err.None? ==> forall i :: 0 <= i < |rec.addrs| ==> RowsOf(rec)[i] == [rec.from, rec.name, rec.addrs[i], ""]
    ensures rec.err.None? && rec.addrs == [] ==> RowsOf(rec) == []
    ensures |RowsOf(rec)| == RowCount(rec)
  {
  }

  /** The row-count equation: the rows of a stream of records number the
      records with an error plus the addresses of the others. */
  lemma {:induction false} RowCountEquation(recs: seq<Record>)
    ensures |AllRows(recs)| == TotalRows(recs)
  {
    if recs != [] {
      RowCountEquation(recs[..|recs| - 1]);
      RowsOfRecord(recs[|recs| - 1]);
    }
  }

  /** Every row has four columns, and its first two are the source domain and
      name of one of the records. */
  lemma {:induction false} RowShape(recs: seq<Record>)
    ensures forall k :: 0 <= k < |AllRows(recs)| ==>
              |AllRows(recs)[k]| == 4
              && exists j :: 0 <= j < |recs| && AllRows(recs)[k][0] == recs[j].from && AllRows(recs)[k][1] == recs[j].name
  {
    if recs != [] {
      var init := recs[..|recs| - 1];
      var last := recs[|recs| - 1];
      RowShape(init);
      var rows := AllRows(recs);
      assert rows == AllRows(init) + RowsOf(last);
      forall k | 0 <= k < |rows|
        ensures |rows[k]| == 4
        ensures exists j :: 0 <= j < |recs| && rows[k][0] == recs[j].from && rows[k][1] == recs[j].name
      {
        if k < |AllRows(init)| {
          assert rows[k] == AllRows(init)[k];
          var j :| 0 <= j < |init| && rows[k][0] == init[j].from && rows[k][1] == init[j].name;
          assert init[j] == recs[j];
        } else {
          assert rows[k] == RowsOf(last)[k - |AllRows(init)|];
          assert rows[k][0] == recs[|recs| - 1].from && rows[k][1] == recs[|recs| - 1].name;
        }
      }
    }
  }

  /** The output loop of main.go: for each record, either the error row, or
      one row per address written from a single reused row whose third
      column is overwritten. */
  method WriteRows(recs: seq<Record>) returns (rows: seq<Row>)
    ensures rows == AllRows(recs)
    ensures |rows| == TotalRows(recs)
  {
    rows := [];
    var i := 0;
    while i < |recs|
      invariant 0 <= i <= |recs|
      invariant rows == AllRows(recs[..i])
    {
      var rec := recs[i];
      if rec.err.Some? {
        rows := rows + [[rec.from, rec.name, "", rec.err.value]];
      } else {
        var row := [rec.from, rec.name, "", ""];
        var j := 0;
        while j < |rec.addrs|
          invariant 0 <= j <= |rec.addrs|
          invariant |row| == 4 && row[0] == rec.from && row[1] == rec.name && row[3] == ""
          invariant rows == AllRows(recs[..i]) + AddressRows(rec.from, rec.name, rec.addrs[..j])
        {
          row := row[2 := rec.addrs[j]];
          assert row == [rec.from, rec.name, rec.addrs[j], ""];
          assert rec.addrs[..j + 1][..j] == rec.addrs[..j];
          assert AddressRows(rec.from, rec.name, rec.addrs[..j + 1])
              == AddressRows(rec.from, rec.name, rec.addrs[..j]) + [row];
          rows := rows + [row];
          j := j + 1;
        }
        assert rec.addrs[..j] == rec.addrs;
      }
      assert recs[..i + 1][..i] == recs[..i];
      i := i + 1;
    }
    assert recs[..i] == recs;
    RowCountEquation(recs);
  }
}
