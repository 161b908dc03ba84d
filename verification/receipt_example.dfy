/**
 A worked receipt, the five reply lines
   Store Name: ACME / Item Purchase: Milk / Price: $3.50 /
   Item Purchase: Bread / Price: $2.00
 Each line carries the label it is looked up by and yields its value as its
 field; the lines parse to two records, Milk at $3.50 and Bread at $2.00, both
 at store "ACME"; and those records, once saved to an empty disk, total 5.50
 (550 cents) at the record path.
 */
module ReceiptExample {
  import opened Wrappers
  import opened Text
  import opened Parser
  import opened Storage
  import opened RecordStore
  import opened Totals

  /** A line of the form `<key>: <value>`, as the model is asked to write. */
  function Labelled(key: string, value: string): string
  {
    key + ": " + value
  }

  const L0 := Labelled(StoreLabel, "ACME")
  const L1 := Labelled(ItemLabel, "Milk")
  const L2 := Labelled(PriceLabel, "$3.50")
  const L3 := Labelled(ItemLabel, "Bread")
  const L4 := Labelled(PriceLabel, "$2.00")
  const Lines := [L0, L1, L2, L3, L4]

  const Milk := Record(Some("ACME"), "Milk", "$3.50")
  const Bread := Record(Some("ACME"), "Bread", "$2.00")

  /** A labelled line contains its key. */
  lemma LabelledContainsKey(key: string, value: string)
    ensures Contains(Labelled(key, value), key)
  {
    assert Labelled(key, value) == key + (": " + value);
    ContainsPrefix(key, ": " + value);
  }

  /** A labelled line whose key and value have no colon has the value as its
      field, once the value has no surrounding whitespace. */
  lemma LabelledField(key: string, value: string)
    requires ':' !in key && ':' !in value && |value| > 0
    requires !IsSpace(value[0]) && !IsSpace(value[|value| - 1])
    ensures Field(Labelled(key, value)) == Success(value)
  {
    var padded := " " + value;
    assert Labelled(key, value) == key + [':'] + padded;
    FieldAfterOnlyColon(key, padded);
    StripOneSpace(value);
  }

  lemma StripOneSpace(value: string)
    requires |value| > 0 && !IsSpace(value[0]) && !IsSpace(value[|value| - 1])
    ensures Strip(" " + value) == value
  {
    assert " " + value == " " + value + "";
    StripPadded(" ", value, "");
  }

  /** Which labels each line carries. */
  lemma LineLabels()
    ensures Contains(L0, StoreLabel)
    ensures !Contains(L0, ItemLabel) && !Contains(L2, ItemLabel) && !Contains(L4, ItemLabel)
    ensures Contains(L1, ItemLabel) && Contains(L3, ItemLabel)
    ensures Contains(L2, PriceLabel) && Contains(L4, PriceLabel)
  {
    LabelledContainsKey(StoreLabel, "ACME");
    NotContainsFirstChar(L0, ItemLabel);
    NotContainsFirstChar(L2, ItemLabel);
    NotContainsFirstChar(L4, ItemLabel);
    LabelledContainsKey(ItemLabel, "Milk");
    LabelledContainsKey(ItemLabel, "Bread");
    LabelledContainsKey(PriceLabel, "$3.50");
    LabelledContainsKey(PriceLabel, "$2.00");
  }

  /** The fields of the five lines. */
  lemma LineFields()
    ensures Field(L0) == Success("ACME")
    ensures Field(L1) == Success("Milk") && Field(L3) == Success("Bread")
    ensures Field(L2) == Success("$3.50") && Field(L4) == Success("$2.00")
  {
    NoColons();
    SpaceFacts();
    LabelledField(StoreLabel, "ACME");
    LabelledField(ItemLabel, "Milk");
    LabelledField(ItemLabel, "Bread");
    LabelledField(PriceLabel, "$3.50");
    LabelledField(PriceLabel, "$2.00");
  }

  lemma NoColons()
    ensures ':' !in StoreLabel && ':' !in ItemLabel && ':' !in PriceLabel
    ensures ':' !in "ACME" && ':' !in "Milk" && ':' !in "Bread" && ':' !in "$3.50" && ':' !in "$2.00"
  {
  }

  lemma SpaceFacts()
    ensures !IsSpace('A') && !IsSpace('E') && !IsSpace('M') && !IsSpace('k')
    ensures !IsSpace('B') && !IsSpace('d') && !IsSpace('$') && !IsSpace('0')
    ensures "ACME"[0] == 'A' && "ACME"[3] == 'E' && "Milk"[0] == 'M' && "Milk"[3] == 'k'
    ensures "Bread"[0] == 'B' && "Bread"[4] == 'd' && "$3.50"[0] == '$' && "$3.50"[4] == '0'
    ensures "$2.00"[0] == '$' && "$2.00"[4] == '0'
  {
  }

  /** Every labelled line has a colon. */
  lemma LabelledHasColon(key: string, value: string)
    ensures ':' in Labelled(key, value)
  {
    assert Labelled(key, value)[|key|] == ':';
  }

  /** A field that reads `v` has `v` as its text. */
  lemma FieldTextOf(line: string, v: string)
    requires Field(line) == Success(v)
    ensures FieldText(line) == v
  {
  }

  /** The example reply line by line. */
  predicate ExampleLines(lines: seq<string>)
  {
    |lines| == 5 && lines[0] == L0 && lines[1] == L1 && lines[2] == L2 && lines[3] == L3 && lines[4] == L4
  }

  lemma LinesAreExample()
    ensures ExampleLines(Lines)
  {
  }

  /** The five lines parse to the two records, Milk then Bread, both at
      ACME. */
  lemma ParseExample()
    ensures ParseLines(Lines) == Success([Milk, Bread])
  {
    LinesAreExample();
    ParseExampleLines(Lines);
  }

  lemma ParseExampleLines(lines: seq<string>)
    requires ExampleLines(lines)
    ensures ParseLines(lines) == Success([Milk, Bread])
  {
    ExampleParsesToPairs(lines);
    var r := ParseLines(lines);
    ExamplePairRecords(lines);
    RecordsOfTwoPairs(lines, Some("ACME"), r.value, Milk, Bread);
    assert r == Success(r.value);
  }

  /** The example parses, to the records of the pair lines 1 and 3 at ACME. */
  lemma ExampleParsesToPairs(lines: seq<string>)
    requires ExampleLines(lines)
    ensures ParseLines(lines).Success?
    ensures RecordsAt(lines, Some("ACME"), ParseLines(lines).value, [1, 3])
  {
    ExampleWellFormed(lines);
    WellFormedParses(lines);
    ParseRecords(lines);
    ExamplePairs(lines);
    ExampleStatedStore(lines);
  }

  /** Records kept in step with the pair lines 1 and 3 are the records of
      those two pairs. */
  lemma RecordsOfTwoPairs(lines: seq<string>, store: Option<string>, recs: seq<Record>, a: Record, b: Record)
    requires 4 < |lines| && RecordsAt(lines, store, recs, [1, 3])
    requires PairRecord(lines, store, 1) == a && PairRecord(lines, store, 3) == b
    ensures recs == [a, b]
  {
    assert recs[0] == a && recs[1] == b;
  }

  /** The pair lines of the example are the two item lines. */
  lemma ExamplePairs(lines: seq<string>)
    requires ExampleLines(lines)
    ensures PairIndices(lines, 0) == [1, 3]
  {
    LineLabels();
    assert PairIndices(lines, 5) == [];
    assert !IsPair(lines, 4);
    assert PairIndices(lines, 4) == [];
    assert IsPair(lines, 3);
    assert PairIndices(lines, 3) == [3];
    assert !IsPair(lines, 2);
    assert PairIndices(lines, 2) == [3];
    assert IsPair(lines, 1);
    assert PairIndices(lines, 1) == [1, 3];
    assert !IsPair(lines, 0);
  }

  /** Every line the parser splits has a colon. */
  lemma ExampleWellFormed(lines: seq<string>)
    requires ExampleLines(lines)
    ensures WellFormed(lines)
  {
    LineLabels();
    assert FirstContaining(lines, StoreLabel, 0) == Some(0);
    ExampleColons(lines);
  }

  /** Every line of the example has a colon. */
  lemma ExampleColons(lines: seq<string>)
    requires ExampleLines(lines)
    ensures forall i :: 0 <= i < |lines| ==> ':' in lines[i]
  {
    LabelledHasColon(StoreLabel, "ACME");
    LabelledHasColon(ItemLabel, "Milk");
    LabelledHasColon(PriceLabel, "$3.50");
    LabelledHasColon(ItemLabel, "Bread");
    LabelledHasColon(PriceLabel, "$2.00");
    forall i | 0 <= i < |lines|
      ensures ':' in lines[i]
    {
      if i == 0 {
      } else if i == 1 {
      } else if i == 2 {
      } else if i == 3 {
      } else {
        assert i == 4;
      }
    }
  }

  /** The reply states the store name "ACME". */
  lemma ExampleStatedStore(lines: seq<string>)
    requires ExampleLines(lines)
    ensures StatedStore(lines) == Some("ACME")
  {
    LineLabels();
    assert FirstContaining(lines, StoreLabel, 0) == Some(0);
    LineFields();
    FieldTextOf(L0, "ACME");
  }

  /** The two pairs read as Milk and Bread. */
  lemma ExamplePairRecords(lines: seq<string>)
    requires ExampleLines(lines)
    ensures PairRecord(lines, Some("ACME"), 1) == Milk
    ensures PairRecord(lines, Some("ACME"), 3) == Bread
  {
    LineFields();
    PairRecordOf(lines, Some("ACME"), 1, "Milk", "$3.50");
    PairRecordOf(lines, Some("ACME"), 3, "Bread", "$2.00");
  }

  /** A pair whose two lines read `item` and `price` yields that record. */
  lemma PairRecordOf(lines: seq<string>, store: Option<string>, i: nat, item: string, price: string)
    requires i + 1 < |lines|
    requires Field(lines[i]) == Success(item) && Field(lines[i + 1]) == Success(price)
    ensures PairRecord(lines, store, i) == Record(store, item, price)
  {
    FieldTextOf(lines[i], item);
    FieldTextOf(lines[i + 1], price);
  }

  /** The store name of the example is "ACME". */
  lemma StoreOfExample()
    ensures StoreName(Lines) == Success(Some("ACME"))
  {
    LineLabels();
    LineFields();
    assert FirstContaining(Lines, StoreLabel, 0) == Some(0);
  }

  /** The parsed records, saved to an empty disk, total 550 cents at the
      record path, given a parse that reads "3.50" as 350 and "2.00" as 200. */
  lemma TotalExample(parse: string -> Option<int>)
    requires parse("3.50") == Some(350) && parse("2.00") == Some(200)
    ensures ParseLines(Lines).Success?
    ensures TotalSum(SaveToExcel(Disk(map[], map[]), "a", "home", ParseLines(Lines).value), "a", "home", parse)
            == 550
  {
    ParseExample();
    var empty := Disk(map[], map[]);
    SaveAddsToTotal(empty, "a", "home", [Milk, Bread], parse);
    assert TotalSum(empty, "a", "home", parse) == 0;
    assert [Milk, Bread] == [Milk] + [Bread];
    RecordsTotalAppend([Milk], [Bread], parse);
    MilkTotal(parse);
    BreadTotal(parse);
  }

  /** The first record adds 3.50 as parsed. */
  lemma MilkTotal(parse: string -> Option<int>)
    ensures RecordsTotal([Milk], parse) == parse("3.50").GetOr(0)
  {
    assert Milk.price == "$" + "3.50";
    RecordPrice(Milk, "3.50", parse);
    SingleRecordTotal(Milk, parse);
  }

  /** The second record adds 2.00 as parsed. */
  lemma BreadTotal(parse: string -> Option<int>)
    ensures RecordsTotal([Bread], parse) == parse("2.00").GetOr(0)
  {
    assert Bread.price == "$" + "2.00";
    RecordPrice(Bread, "2.00", parse);
    SingleRecordTotal(Bread, parse);
  }
}
