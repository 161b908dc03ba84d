/**
 The record parser of the upload flow (profile_manager.py, lines 169-188): it
 turns the language model's labelled reply into purchase records.

 The reply is split into lines on `'\n'`. The store name is taken from the
 first line containing "Store Name"; a record is emitted for every line
 containing "Item Purchase" whose next line contains "Price". Every field is
 `line.split(":")[1].strip()`: the text between the first and the second
 colon, trimmed. A consulted line without a colon raises `IndexError`, which
 aborts the whole reply.
 */
module Parser {
  import opened Wrappers
  import opened Text

  const StoreLabel := "Store Name"
  const ItemLabel := "Item Purchase"
  const PriceLabel := "Price"

  /** One purchased line item; `storeName` is `None` when the reply has no
      "Store Name" line. */
  datatype Record = Record(storeName: Option<string>, item: string, price: string)

  /** The only failure of the parser: Python's `IndexError` from `split(":")[1]`
      on a line that has no colon. */
  datatype ParseError = IndexError

  /** `line.split(":")[1].strip()`. */
  function Field(line: string): (r: Result<string, ParseError>)
    ensures r.Success? <==> ':' in line
    ensures r.Success? ==> Trimmed(r.value)
  {
    if ':' in line then Success(FieldText(line)) else Failure(IndexError)
  }

  /** `Field` is Python's `line.split(":")[1].strip()`: it fails exactly when
      the split yields a single piece, and otherwise strips the second piece,
      the text between the first and the second colon. */
  lemma FieldIsSplitSecond(line: string)
    ensures Field(line).Failure? <==> |Split(line, ':')| == 1
    ensures Field(line).Success? ==>
              && Field(line).value == Strip(Split(line, ':')[1])
              && Field(line).value == Strip(SecondSegment(line, ':'))
  {
    if ':' in line {
      SplitSecond(line, ':');
    }
  }

  /** Index of the first line, at or after `from`, that contains `label`. */
  function FirstContaining(lines: seq<string>, tag: string, from: nat): (r: Option<nat>)
    requires from <= |lines|
    ensures r.Some? ==> from <= r.value < |lines| && Contains(lines[r.value], tag)
    ensures r.Some? ==> forall k :: from <= k < r.value ==> !Contains(lines[k], tag)
    ensures r.None? ==> forall k :: from <= k < |lines| ==> !Contains(lines[k], tag)
    decreases |lines| - from
  {
    if from == |lines| then None
    else if Contains(lines[from], tag) then Some(from)
    else FirstContaining(lines, tag, from + 1)
  }

  /** The generator `next((line.split(":")[1].strip() for line in lines if
      "Store Name" in line), None)`: only the first matching line is consulted. */
  function StoreName(lines: seq<string>): (r: Result<Option<string>, ParseError>)
    ensures r.Failure? <==> (match FirstContaining(lines, StoreLabel, 0)
                             case None => false
                             case Some(k) => ':' !in lines[k])
    ensures r.Success? ==> r.value == StatedStore(lines)
  {
    match FirstContaining(lines, StoreLabel, 0)
    case None => Success(None)
    case Some(k) =>
      var name :- Field(lines[k]);
      Success(Some(name))
  }

  predicate IsItemLine(lines: seq<string>, i: nat)
    requires i < |lines|
  {
    Contains(lines[i], ItemLabel)
  }

  /** The line after item line `i` exists and carries a price label. */
  predicate HasPriceAfter(lines: seq<string>, i: nat)
    requires i < |lines|
  {
    i + 1 < |lines| && Contains(lines[i + 1], PriceLabel)
  }

  /** Line `i` produces a record (provided nothing raises). */
  predicate IsPair(lines: seq<string>, i: nat)
    requires i < |lines|
  {
    IsItemLine(lines, i) && HasPriceAfter(lines, i)
  }

  /** The `for i in range(len(lines))` loop from iteration `i` on. */
  function CollectItems(lines: seq<string>, store: Option<string>, i: nat)
    : (r: Result<seq<Record>, ParseError>)
    requires i <= |lines|
    decreases |lines| - i
  {
    if i == |lines| then Success([])
    else if !IsItemLine(lines, i) then CollectItems(lines, store, i + 1)
    else
      var item :- Field(lines[i]);
      if HasPriceAfter(lines, i) then
        var price :- Field(lines[i + 1]);
        var rest :- CollectItems(lines, store, i + 1);
        Success([Record(store, item, price)] + rest)
      else
        CollectItems(lines, store, i + 1)
  }

  /** The parsing block on the reply already split into lines. */
  function ParseLines(lines: seq<string>): (r: Result<seq<Record>, ParseError>)
    ensures r.Success? && |lines| == 0 ==> r.value == []
    ensures r.Success? && |lines| > 0 ==> |r.value| < |lines|
  {
    var store :- StoreName(lines);
    var r := CollectItems(lines, store, 0);
    if r.Success? then
      CollectItemsRecords(lines, store, 0);
      PairIndicesCount(lines, 0);
      r
    else r
  }

  /** The parsing block on the raw reply text. */
  function ParseReply(reply: string): (r: Result<seq<Record>, ParseError>)
    ensures '\n' !in reply ==> r == ParseLines([reply])
    ensures '\n' !in reply && r.Success? ==> r.value == []
  {
    var lines := Split(reply, '\n');
    assert '\n' !in reply ==> lines == [lines[0]] == [reply];
    ParseLines(lines)
  }

  // ---------------------------------------------------------------------------
  // Independent description of what the parser produces

  /** The store name the reply states, when every line it consults has a colon. */
  function StatedStore(lines: seq<string>): Option<string>
  {
    match FirstContaining(lines, StoreLabel, 0)
    case None => None
    case Some(k) => Some(FieldText(lines[k]))
  }

  /** The trimmed text between the first and second colon of a line (empty
      for a line without a colon, which the parser never reaches). */
  function FieldText(line: string): string
  {
    if ':' in line then Strip(SecondSegment(line, ':')) else ""
  }

  /** Indices `k >= from` of the lines that start an (item, price) pair, in
      increasing order. */
  function PairIndices(lines: seq<string>, from: nat): seq<nat>
    requires from <= |lines|
    decreases |lines| - from
  {
    if from == |lines| then []
    else if IsPair(lines, from) then [from] + PairIndices(lines, from + 1)
    else PairIndices(lines, from + 1)
  }

  /** Every line the parser splits on a colon has one: the first "Store Name"
      line, every "Item Purchase" line, and every price line that follows an
      item line. */
  predicate WellFormed(lines: seq<string>)
  {
    && (match FirstContaining(lines, StoreLabel, 0)
        case None => true
        case Some(k) => ':' in lines[k])
    && WellFormedFrom(lines, 0)
  }

  /** Every item line at or after `from` has a colon, and so does the price
      line following each such item line. */
  predicate WellFormedFrom(lines: seq<string>, from: nat)
  {
    && (forall i :: from <= i < |lines| && IsItemLine(lines, i) ==> ':' in lines[i])
    && (forall i :: from <= i < |lines| && IsPair(lines, i) ==> ':' in lines[i + 1])
  }

  /** The record the pair starting at line `i` yields. */
  function PairRecord(lines: seq<string>, store: Option<string>, i: nat): Record
    requires i + 1 < |lines|
  {
    Record(store, FieldText(lines[i]), FieldText(lines[i + 1]))
  }

  /** `recs` are the records of the pair lines `idx`, one for one and in the
      same order. */
  predicate RecordsAt(lines: seq<string>, store: Option<string>, recs: seq<Record>, idx: seq<nat>)
  {
    |recs| == |idx|
    && forall k :: 0 <= k < |idx| ==>
         idx[k] + 1 < |lines| && recs[k] == PairRecord(lines, store, idx[k])
  }

  /** The pair indices are strictly increasing, lie in range, and are exactly
      the pair lines at or after `from`. */
  lemma {:induction false} PairIndicesExact(lines: seq<string>, from: nat)
    requires from <= |lines|
    ensures forall k :: 0 <= k < |PairIndices(lines, from)| ==>
              from <= PairIndices(lines, from)[k] < |lines| && IsPair(lines, PairIndices(lines, from)[k])
    ensures forall k, m :: 0 <= k < m < |PairIndices(lines, from)| ==>
              PairIndices(lines, from)[k] < PairIndices(lines, from)[m]
    ensures forall i :: from <= i < |lines| && IsPair(lines, i) ==> i in PairIndices(lines, from)
    decreases |lines| - from
  {
    if from < |lines| {
      PairIndicesExact(lines, from + 1);
    }
  }

  /** The loop from line `from` on fails exactly when a line it consults
      lacks a colon. */
  lemma {:induction false} CollectItemsSucceedsIff(lines: seq<string>, store: Option<string>, from: nat)
    requires from <= |lines|
    ensures CollectItems(lines, store, from).Success? <==> WellFormedFrom(lines, from)
    decreases |lines| - from
  {
    if from < |lines| {
      CollectItemsSucceedsIff(lines, store, from + 1);
      if !IsItemLine(lines, from) {
        assert WellFormedFrom(lines, from) <==> WellFormedFrom(lines, from + 1);
      } else if ':' !in lines[from] {
        assert !WellFormedFrom(lines, from);
      } else if !HasPriceAfter(lines, from) {
        assert WellFormedFrom(lines, from) <==> WellFormedFrom(lines, from + 1);
      } else if ':' !in lines[from + 1] {
        assert IsPair(lines, from);
        assert !WellFormedFrom(lines, from);
      } else {
        assert WellFormedFrom(lines, from) <==> WellFormedFrom(lines, from + 1);
      }
    }
  }

  /** Each pair needs its own item line and a line after it: from line
      `from` on there are fewer pairs than lines left. */
  lemma {:induction false} PairIndicesCount(lines: seq<string>, from: nat)
    requires from <= |lines|
    ensures PairIndices(lines, from) == [] || |PairIndices(lines, from)| + from < |lines|
    decreases |lines| - from
  {
    if from < |lines| {
      PairIndicesCount(lines, from + 1);
      if IsPair(lines, from) {
        PairIndicesAtPair(lines, from);
      } else {
        assert PairIndices(lines, from) == PairIndices(lines, from + 1);
      }
    }
  }

  /** One iteration of the loop, on a line that succeeds: a pair line adds
      its record in front of the rest, any other line adds nothing. */
  lemma CollectItemsStep(lines: seq<string>, store: Option<string>, from: nat)
    requires from < |lines|
    requires CollectItems(lines, store, from).Success?
    ensures CollectItems(lines, store, from + 1).Success?
    ensures IsPair(lines, from) ==>
              CollectItems(lines, store, from).value
              == [PairRecord(lines, store, from)] + CollectItems(lines, store, from + 1).value
    ensures !IsPair(lines, from) ==>
              CollectItems(lines, store, from).value == CollectItems(lines, store, from + 1).value
  {
  }

  /** Prepending a pair line's record and its index keeps the two sequences
      in step. */
  lemma RecordsAtCons(lines: seq<string>, store: Option<string>, recs: seq<Record>, idx: seq<nat>, i: nat)
    requires i + 1 < |lines|
    requires RecordsAt(lines, store, recs, idx)
    ensures RecordsAt(lines, store, [PairRecord(lines, store, i)] + recs, [i] + idx)
  {
    var recs' := [PairRecord(lines, store, i)] + recs;
    var idx' := [i] + idx;
    forall k | 0 <= k < |idx'|
      ensures idx'[k] + 1 < |lines| && recs'[k] == PairRecord(lines, store, idx'[k])
    {
      if k > 0 {
        assert recs'[k] == recs[k - 1] && idx'[k] == idx[k - 1];
      }
    }
  }

  /** When the loop from line `from` on succeeds, it yields one record per
      pair line, in order. */
  lemma {:induction false} CollectItemsRecords(lines: seq<string>, store: Option<string>, from: nat)
    requires from <= |lines|
    requires CollectItems(lines, store, from).Success?
    ensures RecordsAt(lines, store, CollectItems(lines, store, from).value, PairIndices(lines, from))
    decreases |lines| - from
  {
    if from == |lines| {
      assert PairIndices(lines, from) == [];
    } else {
      CollectItemsStep(lines, store, from);
      CollectItemsRecords(lines, store, from + 1);
      var all := CollectItems(lines, store, from).value;
      var recs := CollectItems(lines, store, from + 1).value;
      var idx := PairIndices(lines, from + 1);
      if IsPair(lines, from) {
        PairIndicesAtPair(lines, from);
        RecordsAtCons(lines, store, recs, idx, from);
        assert all == [PairRecord(lines, store, from)] + recs;
        assert PairIndices(lines, from) == [from] + idx;
      } else {
        assert all == recs;
        assert PairIndices(lines, from) == idx;
      }
    }
  }

  /** A pair line heads the pair indices from its own index on. */
  lemma PairIndicesAtPair(lines: seq<string>, from: nat)
    requires from < |lines| && IsPair(lines, from)
    ensures PairIndices(lines, from) == [from] + PairIndices(lines, from + 1)
  {
  }

  /** A field is the text between the first and second colon, trimmed:
      whatever follows a second colon is dropped. */
  lemma FieldBetweenColons(key: string, value: string, tail: string)
    requires ':' !in key && ':' !in value
    ensures Field(key + [':'] + value + [':'] + tail) == Success(Strip(value))
  {
    SecondSegmentBetween(key, value, tail, ':');
  }

  /** With a single colon, the field is everything after it, trimmed. */
  lemma FieldAfterOnlyColon(key: string, value: string)
    requires ':' !in key && ':' !in value
    ensures Field(key + [':'] + value) == Success(Strip(value))
  {
    SecondSegmentLast(key, value, ':');
  }

  /** All-or-nothing: parsing fails (with `IndexError`) exactly when some line
      the source splits on a colon has none. */
  lemma ParseFailsIff(lines: seq<string>)
    ensures ParseLines(lines).Failure? <==> !WellFormed(lines)
  {
    CollectItemsSucceedsIff(lines, StatedStore(lines), 0);
    match FirstContaining(lines, StoreLabel, 0)
    case None =>
    case Some(k) =>
  }

  /** On success the records are, in source order, exactly one per "Item
      Purchase" line immediately followed by a "Price" line, each carrying the
      reply's store name and the trimmed second colon-separated field of the
      item and price lines. */
  lemma ParseRecords(lines: seq<string>)
    requires ParseLines(lines).Success?
    ensures RecordsAt(lines, StatedStore(lines), ParseLines(lines).value, PairIndices(lines, 0))
  {
    ParseFailsIff(lines);
    CollectItemsRecords(lines, StatedStore(lines), 0);
  }

  /** Every record of one reply carries the same store name: the field of the
      first "Store Name" line, or `None` when there is no such line. */
  lemma ParseSameStore(lines: seq<string>)
    requires ParseLines(lines).Success?
    ensures forall k :: 0 <= k < |ParseLines(lines).value| ==>
              ParseLines(lines).value[k].storeName == StatedStore(lines)
    ensures StatedStore(lines).None? <==> FirstContaining(lines, StoreLabel, 0).None?
  {
    ParseRecords(lines);
    ParseFailsIff(lines);
  }

  /** An item line at the very end, or one followed by a line without "Price",
      contributes no record. */
  lemma UnpairedItemDropped(lines: seq<string>, i: nat)
    requires i < |lines| && IsItemLine(lines, i) && !HasPriceAfter(lines, i)
    ensures i !in PairIndices(lines, 0)
  {
    PairIndicesExact(lines, 0);
  }

  /** A well-formed reply with `n` pair lines parses to exactly `n` records. */
  lemma WellFormedParses(lines: seq<string>)
    requires WellFormed(lines)
    ensures ParseLines(lines).Success?
    ensures |ParseLines(lines).value| == |PairIndices(lines, 0)|
  {
    ParseFailsIff(lines);
    ParseRecords(lines);
  }
}

module ParserExamples {
  import opened Wrappers
  import opened Text
  import opened Parser

  /** Only the text up to the second colon is kept: `"Price: 10:30"` yields
      `"10"`, not `"10:30"`. */
  lemma FieldStopsAtSecondColon()
    ensures Field("Price: 10:30") == Success("10")
  {
    assert "Price: 10:30" == "Price" + [':'] + " 10" + [':'] + "30";
    FieldBetweenColons("Price", " 10", "30");
    StripExample();
  }

  /** Stripping `" 10"` leaves `"10"`. */
  lemma StripExample()
    ensures Strip(" 10") == "10"
  {
    assert IsSpace(' ') && !IsSpace('1') && !IsSpace('0');
    assert " 10"[1..] == "10";
    assert " 10" == " " + "10" + "";
    StripPadded(" ", "10", "");
  }
}
