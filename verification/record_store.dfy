/**
 `save_to_excel` (profile_manager.py, lines 196-221): a read-modify-write of the
 record table of one (user, profile). A missing table starts empty with the
 columns "Store Name", "Item Purchased", "Price"; the new records are
 concatenated after the existing rows, and the whole table is written back.
 */
module RecordStore {
  import opened Wrappers
  import opened Parser
  import opened Storage

  const StoreColumn := "Store Name"
  const ItemColumn := "Item Purchased"
  const PriceColumn := "Price"
  const RecordColumns := [StoreColumn, ItemColumn, PriceColumn]

  /** The table a missing record file starts from. */
  const EmptyRecordTable := Table(RecordColumns, [])

  /** The row `pd.DataFrame(items)` holds for one record; a `None` store name
      is an empty cell. */
  function RowOf(rec: Record): Row
  {
    var row := map[ItemColumn := rec.item, PriceColumn := rec.price];
    match rec.storeName
    case Some(s) => row[StoreColumn := s]
    case None => row
  }

  /** Reads a record back from a row of a record table, if the row has the
      item and price cells. */
  function RecordOfRow(row: Row): Option<Record>
  {
    if ItemColumn in row && PriceColumn in row then
      var store := if StoreColumn in row then Some(row[StoreColumn]) else None;
      Some(Record(store, row[ItemColumn], row[PriceColumn]))
    else None
  }

  /** The rows of `pd.DataFrame(items)`, one per record in order. */
  function RowsOf(recs: seq<Record>): (rows: seq<Row>)
    ensures |rows| == |recs|
  {
    if |recs| == 0 then [] else [RowOf(recs[0])] + RowsOf(recs[1..])
  }

  /** Reads records back from rows; `None` if some row is not a record row. */
  function RecordsOfRows(rows: seq<Row>): Option<seq<Record>>
  {
    if |rows| == 0 then Some([])
    else
      match (RecordOfRow(rows[0]), RecordsOfRows(rows[1..]))
      case (Some(r), Some(rs)) => Some([r] + rs)
      case _ => None
  }

  /** The columns of `pd.DataFrame(items)`: the record columns, or none at all
      for an empty list. */
  function ItemColumns(items: seq<Record>): seq<string>
  {
    if |items| == 0 then [] else RecordColumns
  }

  /** Where `c` first occurs in `cols` (`|cols|` when it does not). */
  function FirstIndex(cols: seq<string>, c: string): (k: nat)
    ensures k <= |cols|
    ensures k < |cols| <==> c in cols
    ensures k < |cols| ==> cols[k] == c && c !in cols[..k]
  {
    if |cols| == 0 then 0
    else if cols[0] == c then 0
    else
      var k := 1 + FirstIndex(cols[1..], c);
      assert k < |cols| ==> cols[..k] == [cols[0]] + cols[1..][..k - 1];
      k
  }

  /** The columns of `pd.concat([existing, new])`: the existing columns in
      order, then each incoming column not already present, once, in the
      order it first comes in (`MergeColumnsAddsInOrder`). */
  function MergeColumns(existing: seq<string>, incoming: seq<string>): (r: seq<string>)
    ensures |r| >= |existing| && r[..|existing|] == existing
    ensures forall c :: c in r <==> c in existing || c in incoming
    ensures forall k :: |existing| <= k < |r| ==> r[k] !in existing
    ensures (forall c :: c in incoming ==> c in existing) ==> r == existing
    decreases |incoming|
  {
    if |incoming| == 0 then existing
    else if incoming[0] in existing then MergeColumns(existing, incoming[1..])
    else
      var r := MergeColumns(existing + [incoming[0]], incoming[1..]);
      assert (existing + [incoming[0]])[..|existing|] == existing;
      assert r[..|existing|] == r[..|existing| + 1][..|existing|];
      r
  }

  /** The columns of `r` after the first `from` come in the order of their
      first positions in `incoming`. */
  predicate InIncomingOrder(incoming: seq<string>, r: seq<string>, from: nat)
  {
    forall j, k :: from <= j < k < |r| ==> FirstIndex(incoming, r[j]) < FirstIndex(incoming, r[k])
  }

  /** The added columns follow the order in which they first come in. */
  lemma {:induction false} MergeColumnsAddsInOrder(existing: seq<string>, incoming: seq<string>)
    ensures InIncomingOrder(incoming, MergeColumns(existing, incoming), |existing|)
    decreases |incoming|
  {
    var r := MergeColumns(existing, incoming);
    if |incoming| > 0 {
      var rest := incoming[1..];
      if incoming[0] in existing {
        assert r == MergeColumns(existing, rest);
        MergeColumnsAddsInOrder(existing, rest);
        MergeOrderStep(existing, incoming, r, |existing|);
      } else {
        var ext := existing + [incoming[0]];
        assert r == MergeColumns(ext, rest);
        MergeColumnsAddsInOrder(ext, rest);
        assert r[..|ext|] == ext;
        MergeOrderStep(ext, incoming, r, |ext|);
        forall j, k | |existing| <= j < k < |r|
          ensures FirstIndex(incoming, r[j]) < FirstIndex(incoming, r[k])
        {
          if j == |existing| {
            assert r[j] == ext[j] == incoming[0];
          }
        }
      }
    }
  }

  /** So no column is added twice. */
  lemma MergeColumnsAddsOnce(existing: seq<string>, incoming: seq<string>)
    ensures var r := MergeColumns(existing, incoming);
            forall j, k :: |existing| <= j < k < |r| ==> r[j] != r[k]
  {
    MergeColumnsAddsInOrder(existing, incoming);
  }

  /** The columns of `r` from `from` on were added after `incoming[0]` was
      settled: none is `incoming[0]`, so each one's first position in
      `incoming` is one more than in `incoming[1..]`. */
  lemma MergeOrderStep(settled: seq<string>, incoming: seq<string>, r: seq<string>, from: nat)
    requires |incoming| > 0 && incoming[0] in settled
    requires from <= |r|
    requires forall k :: from <= k < |r| ==> r[k] !in settled
    ensures forall k :: from <= k < |r| ==>
              FirstIndex(incoming, r[k]) == 1 + FirstIndex(incoming[1..], r[k])
  {
  }

  /** The record table currently stored for (user, profile), or the empty one. */
  function CurrentTable(disk: Disk, user: string, profile: string): Table
  {
    var path := RecordPath(user, profile);
    if path in disk.tables then disk.tables[path] else EmptyRecordTable
  }

  /** `save_to_excel(username, profile_name, items)`. */
  function SaveToExcel(disk: Disk, user: string, profile: string, items: seq<Record>): (d: Disk)
    ensures RecordPath(user, profile) in d.tables
    ensures d.indexes == disk.indexes
    ensures forall p :: p != RecordPath(user, profile) ==>
              (p in d.tables <==> p in disk.tables)
              && (p in disk.tables ==> d.tables[p] == disk.tables[p])
  {
    var current := CurrentTable(disk, user, profile);
    var t := Table(MergeColumns(current.columns, ItemColumns(items)), current.rows + RowsOf(items));
    disk.(tables := disk.tables[RecordPath(user, profile) := t])
  }

  // ---------------------------------------------------------------------------
  // Properties

  /** A record survives being written to a row and read back. */
  lemma RowRoundTrip(rec: Record)
    ensures RecordOfRow(RowOf(rec)) == Some(rec)
  {
  }

  /** Records survive being written to rows and read back, in order. */
  lemma {:induction false} RowsRoundTrip(recs: seq<Record>)
    ensures RecordsOfRows(RowsOf(recs)) == Some(recs)
    decreases |recs|
  {
    if |recs| > 0 {
      RowRoundTrip(recs[0]);
      RowsRoundTrip(recs[1..]);
      assert RowsOf(recs)[1..] == RowsOf(recs[1..]);
      assert [recs[0]] + recs[1..] == recs;
    }
  }

  /** Writing the rows of two lists of records one after the other gives the
      rows of the concatenation. */
  lemma {:induction false} RowsOfAppend(a: seq<Record>, b: seq<Record>)
    ensures RowsOf(a + b) == RowsOf(a) + RowsOf(b)
    decreases |a|
  {
    if |a| == 0 {
      assert a + b == b;
    } else {
      assert (a + b)[1..] == a[1..] + b;
      RowsOfAppend(a[1..], b);
    }
  }

  /** Saving keeps every existing row, unchanged and first, and appends rows
      that read back as exactly the new records, in order; a missing table
      starts from the three record columns and no rows. */
  lemma SaveAppends(disk: Disk, user: string, profile: string, items: seq<Record>)
    ensures var before := CurrentTable(disk, user, profile);
            var after := SaveToExcel(disk, user, profile, items).tables[RecordPath(user, profile)];
            && |after.rows| == |before.rows| + |items|
            && after.rows[..|before.rows|] == before.rows
            && RecordsOfRows(after.rows[|before.rows|..]) == Some(items)
            && after.columns[..|before.columns|] == before.columns
    ensures RecordPath(user, profile) !in disk.tables ==>
              var after := SaveToExcel(disk, user, profile, items).tables[RecordPath(user, profile)];
              RecordsOfRows(after.rows) == Some(items)
              && (|items| > 0 ==> after.columns == RecordColumns)
  {
    var before := CurrentTable(disk, user, profile);
    var after := SaveToExcel(disk, user, profile, items).tables[RecordPath(user, profile)];
    assert after.rows == before.rows + RowsOf(items);
    assert after.rows[|before.rows|..] == RowsOf(items);
    RowsRoundTrip(items);
    if RecordPath(user, profile) !in disk.tables && |items| > 0 {
    }
  }

  /** After saving at least one record, the table has a "Price" column. */
  lemma SaveHasPriceColumn(disk: Disk, user: string, profile: string, items: seq<Record>)
    requires |items| > 0
    ensures PriceColumn in SaveToExcel(disk, user, profile, items).tables[RecordPath(user, profile)].columns
  {
    assert PriceColumn in ItemColumns(items);
  }

  /** Saving the same N records twice adds 2N rows: there is no deduplication. */
  lemma SaveTwiceDuplicates(disk: Disk, user: string, profile: string, items: seq<Record>)
    ensures var once := SaveToExcel(disk, user, profile, items);
            var twice := SaveToExcel(once, user, profile, items);
            |CurrentTable(twice, user, profile).rows|
            == |CurrentTable(disk, user, profile).rows| + 2 * |items|
  {
    SaveAppends(disk, user, profile, items);
    SaveAppends(SaveToExcel(disk, user, profile, items), user, profile, items);
  }
}
