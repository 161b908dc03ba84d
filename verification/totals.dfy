/**
 `calculate_total_sum` (profile_manager.py, lines 67-82): the sum of a record
 table's prices. Each price has every `$` and `,` removed and is then parsed
 as a number; a price that does not parse (pandas' coerced NaN) or an empty
 cell contributes nothing. A missing file or a table without a "Price" column
 totals 0.

 Prices are in cents, and the numeric parse (`pd.to_numeric`) is a parameter:
 `parse(s)` is `None` exactly when pandas would coerce `s` to NaN.

 As written, the function reads `record/<user>_<profile>_data.xlsx`, which is
 not the file `save_to_excel` writes (`record/direct_base_<user>/...`), so
 saved records never reach the total. `TotalSumAsWritten` models that;
 `TotalSum` reads the file the records are saved to.
 */
module Totals {
  import opened Wrappers
  import opened Storage
  import opened RecordStore

  /** `.replace({r'\$': '', ',': ''}, regex=True)` on one price. */
  function CleanPrice(s: string): (r: string)
    ensures '$' !in r && ',' !in r
    ensures |r| <= |s|
  {
    if |s| == 0 then ""
    else
      var rest := CleanPrice(s[1..]);
      if s[0] == '$' || s[0] == ',' then rest else [s[0]] + rest
  }

  /** What one row adds to the total. */
  function RowPrice(row: Row, parse: string -> Option<int>): int
  {
    if PriceColumn in row then parse(CleanPrice(row[PriceColumn])).GetOr(0) else 0
  }

  /** `df['Price'].sum()` after cleaning and coercion: NaN values are skipped. */
  function SumPrices(rows: seq<Row>, parse: string -> Option<int>): int
  {
    if |rows| == 0 then 0 else RowPrice(rows[0], parse) + SumPrices(rows[1..], parse)
  }

  /** The total of one table: 0 without a "Price" column. */
  function TableTotal(t: Table, parse: string -> Option<int>): int
  {
    if PriceColumn in t.columns then SumPrices(t.rows, parse) else 0
  }

  /** The total of the file at `path`: 0 when it is missing. */
  function TotalAt(disk: Disk, path: string, parse: string -> Option<int>): (total: int)
    ensures path !in disk.tables ==> total == 0
    ensures path in disk.tables && PriceColumn !in disk.tables[path].columns ==> total == 0
  {
    if path in disk.tables then TableTotal(disk.tables[path], parse) else 0
  }

  /** `calculate_total_sum(username, profile_name)` as written: it reads
      `record/<user>_<profile>_data.xlsx`. */
  function TotalSumAsWritten(disk: Disk, user: string, profile: string, parse: string -> Option<int>): int
  {
    TotalAt(disk, TotalPathAsWritten(user, profile), parse)
  }

  /** The evidently intended total: the one of the table the records are saved
      to and offered for download. */
  function TotalSum(disk: Disk, user: string, profile: string, parse: string -> Option<int>): int
  {
    TotalAt(disk, RecordPath(user, profile), parse)
  }

  // ---------------------------------------------------------------------------
  // Properties

  /** Cleaning removes only `$` and `,`: every other character occurs as
      often as before. */
  lemma {:induction false} CleanPriceKeepsOthers(s: string)
    ensures forall c :: c != '$' && c != ',' ==> multiset(CleanPrice(s))[c] == multiset(s)[c]
    decreases |s|
  {
    if |s| > 0 {
      CleanPriceKeepsOthers(s[1..]);
      assert s == [s[0]] + s[1..];
    }
  }

  /** Cleaning works character by character: the cleaned parts of a price
      follow each other as the parts did, so the kept characters stay in
      order. */
  lemma {:induction false} CleanPriceAppend(a: string, b: string)
    ensures CleanPrice(a + b) == CleanPrice(a) + CleanPrice(b)
    decreases |a|
  {
    if |a| == 0 {
      assert a + b == b;
    } else {
      assert (a + b)[0] == a[0] && (a + b)[1..] == a[1..] + b;
      CleanPriceAppend(a[1..], b);
    }
  }

  /** Cleaning is idempotent. */
  lemma {:induction false} CleanPriceIdempotent(s: string)
    ensures CleanPrice(CleanPrice(s)) == CleanPrice(s)
    decreases |s|
  {
    if |s| > 0 {
      CleanPriceIdempotent(s[1..]);
    }
  }

  /** A price without `$` or `,` is left as it is. */
  lemma {:induction false} CleanPriceKeeps(s: string)
    requires '$' !in s && ',' !in s
    ensures CleanPrice(s) == s
    decreases |s|
  {
    if |s| > 0 {
      CleanPriceKeeps(s[1..]);
      assert [s[0]] + s[1..] == s;
    }
  }

  /** The sum of a concatenation is the sum of the parts. */
  lemma {:induction false} SumPricesAppend(a: seq<Row>, b: seq<Row>, parse: string -> Option<int>)
    ensures SumPrices(a + b, parse) == SumPrices(a, parse) + SumPrices(b, parse)
    decreases |a|
  {
    if |a| == 0 {
      assert a + b == b;
    } else {
      assert (a + b)[1..] == a[1..] + b;
      SumPricesAppend(a[1..], b, parse);
    }
  }

  /** Removing the row at `i` takes exactly its price off the sum. */
  lemma SumPricesRemove(rows: seq<Row>, i: nat, parse: string -> Option<int>)
    requires i < |rows|
    ensures SumPrices(rows, parse) == RowPrice(rows[i], parse) + SumPrices(rows[..i] + rows[i + 1..], parse)
  {
    var pre, post := rows[..i], rows[i + 1..];
    assert rows == pre + ([rows[i]] + post);
    SumPricesAppend(pre, [rows[i]] + post, parse);
    SumPricesCons(rows[i], post, parse);
    SumPricesAppend(pre, post, parse);
  }

  /** A row in front adds its price. */
  lemma SumPricesCons(row: Row, rows: seq<Row>, parse: string -> Option<int>)
    ensures SumPrices([row] + rows, parse) == RowPrice(row, parse) + SumPrices(rows, parse)
  {
    assert ([row] + rows)[1..] == rows;
  }

  /** The total does not depend on the order of the rows. */
  lemma {:induction false} SumPricesPermutation(a: seq<Row>, b: seq<Row>, parse: string -> Option<int>)
    requires multiset(a) == multiset(b)
    ensures SumPrices(a, parse) == SumPrices(b, parse)
    decreases |a|
  {
    if |a| == 0 {
      assert |b| == |multiset(b)|;
    } else {
      assert a[0] in multiset(b);
      var i :| 0 <= i < |b| && b[i] == a[0];
      PermutationWithout(a, b, i);
      SumPricesPermutation(a[1..], b[..i] + b[i + 1..], parse);
      SumPricesRemove(b, i, parse);
    }
  }

  /** Taking the head of `a` out of `a` and one copy of it out of `b` keeps
      the two sequences permutations of each other. */
  lemma PermutationWithout(a: seq<Row>, b: seq<Row>, i: nat)
    requires |a| > 0 && i < |b| && b[i] == a[0]
    requires multiset(a) == multiset(b)
    ensures multiset(a[1..]) == multiset(b[..i] + b[i + 1..])
  {
    assert a == [a[0]] + a[1..];
    assert multiset(a[1..]) == multiset(a) - multiset{a[0]};
    assert b == b[..i] + [b[i]] + b[i + 1..];
    assert multiset(b[..i] + b[i + 1..]) == multiset(b) - multiset{b[i]};
  }

  /** Rows whose price does not parse contribute nothing. */
  lemma {:induction false} UnparsableContributeNothing(rows: seq<Row>, parse: string -> Option<int>)
    requires forall k :: 0 <= k < |rows| && PriceColumn in rows[k] ==>
               parse(CleanPrice(rows[k][PriceColumn])).None?
    ensures SumPrices(rows, parse) == 0
    decreases |rows|
  {
    if |rows| > 0 {
      UnparsableContributeNothing(rows[1..], parse);
    }
  }

  /** As written, saving records never changes the total shown for the same
      user and profile: the total reads another file. */
  lemma SaveInvisibleToTotalAsWritten(disk: Disk, user: string, profile: string, items: seq<Parser.Record>, parse: string -> Option<int>)
    ensures TotalSumAsWritten(SaveToExcel(disk, user, profile, items), user, profile, parse)
            == TotalSumAsWritten(disk, user, profile, parse)
  {
    TotalPathDiffers(user, profile);
  }

  /** The prices of freshly saved records, cleaned and parsed. */
  function RecordsTotal(items: seq<Parser.Record>, parse: string -> Option<int>): int
  {
    SumPrices(RowsOf(items), parse)
  }

  /** With the intended path, saving adds exactly the new records' prices to
      the total (for a table that already has a "Price" column, or none yet). */
  lemma SaveAddsToTotal(disk: Disk, user: string, profile: string, items: seq<Parser.Record>, parse: string -> Option<int>)
    requires |items| > 0
    requires RecordPath(user, profile) in disk.tables ==> PriceColumn in disk.tables[RecordPath(user, profile)].columns
    ensures TotalSum(SaveToExcel(disk, user, profile, items), user, profile, parse)
            == TotalSum(disk, user, profile, parse) + RecordsTotal(items, parse)
  {
    var before := CurrentTable(disk, user, profile);
    var after := SaveToExcel(disk, user, profile, items).tables[RecordPath(user, profile)];
    SaveHasPriceColumn(disk, user, profile, items);
    assert after.rows == before.rows + RowsOf(items);
    SumPricesAppend(before.rows, RowsOf(items), parse);
  }

  /** A leading dollar sign is cleaned away. */
  lemma CleanDollar(amount: string)
    requires '$' !in amount && ',' !in amount
    ensures CleanPrice("$" + amount) == amount
  {
    assert ("$" + amount)[0] == '$' && ("$" + amount)[1..] == amount;
    CleanPriceKeeps(amount);
  }

  /** What a saved record contributes to the total. */
  lemma RecordPrice(rec: Parser.Record, amount: string, parse: string -> Option<int>)
    requires rec.price == "$" + amount && '$' !in amount && ',' !in amount
    ensures RowPrice(RowOf(rec), parse) == parse(amount).GetOr(0)
  {
    assert |PriceColumn| != |StoreColumn|;
    assert RowOf(rec)[PriceColumn] == rec.price;
    CleanDollar(amount);
  }

  /** The prices of two lists of records add up. */
  lemma RecordsTotalAppend(a: seq<Parser.Record>, b: seq<Parser.Record>, parse: string -> Option<int>)
    ensures RecordsTotal(a + b, parse) == RecordsTotal(a, parse) + RecordsTotal(b, parse)
  {
    RowsOfAppend(a, b);
    SumPricesAppend(RowsOf(a), RowsOf(b), parse);
  }

  /** A single saved record's total is its own price. */
  lemma SingleRecordTotal(rec: Parser.Record, parse: string -> Option<int>)
    ensures RecordsTotal([rec], parse) == RowPrice(RowOf(rec), parse)
  {
    assert RowsOf([rec]) == [RowOf(rec)];
    SumPricesCons(RowOf(rec), [], parse);
    assert [RowOf(rec)] + [] == [RowOf(rec)];
  }

  /** A concrete run that shows the discrepancy: one record priced "$3.50"
      saved to an empty disk totals 0 as written, 350 cents as intended. */
  lemma TotalPathCounterexample(parse: string -> Option<int>)
    requires parse("3.50") == Some(350)
    ensures var rec := Parser.Record(Some("ACME"), "Milk", "$3.50");
            var disk := SaveToExcel(Disk(map[], map[]), "a", "home", [rec]);
            TotalSumAsWritten(disk, "a", "home", parse) == 0
            && TotalSum(disk, "a", "home", parse) == 350
  {
    var rec := Parser.Record(Some("ACME"), "Milk", "$3.50");
    SaveInvisibleToTotalAsWritten(Disk(map[], map[]), "a", "home", [rec], parse);
    SaveAddsToTotal(Disk(map[], map[]), "a", "home", [rec], parse);
    assert "$3.50" == "$" + "3.50";
    RecordPrice(rec, "3.50", parse);
    SingleRecordTotal(rec, parse);
  }
}
