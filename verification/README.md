# Receipt recorder: parsing, storage and totals

This project models the core of the receipt recorder, a small Streamlit app. A
user uploads a receipt photo. The app runs OCR on it, asks a language model to
rewrite the text as labelled lines (`Store Name: …`, `Item Purchase: …`,
`Price: …`), parses those lines into purchase records and appends the records
to a per-user, per-profile spreadsheet. The app also keeps a per-user list of
profile names and shows the sum of a profile's prices.

The model is pure Dafny functions over immutable data:

- `Wrappers`: `Option` and `Result`.
- `Text`: the Python `str` operations the code relies on: `in`, `strip()`, and `split`/`join` on one character.
- `Parser`: the record parser of the upload flow, lines 169-188 of `profile_manager.py`.
- `Storage`: the disk, a map from file path to the table `pandas.read_excel` would return (plus the profile index files), and the three file paths the code builds.
- `RecordStore`: `save_to_excel`.
- `Profiles`: `load_profiles`, the write part of `create_new_profile`, and `delete_profile`.
- `Totals`: `calculate_total_sum`, as written and as evidently intended.
- `Tokens`: `calculate_token_count` and the 128000-token gate.
- `Ocr`: the join and fallback of `extract_text_from_image`.
- `Upload`: one pass of the upload flow, from the OCR text to the saved table.
- `ReceiptExample`: a worked receipt.

Prices are kept as the strings the model wrote. Numeric parsing (`pd.to_numeric`) is a
parameter `parse: string -> Option<int>` that gives cents, or `None` where pandas
would give NaN. The tokenizer, the OCR detector and the language model are also
parameters. A tokenizer that raises is modelled as `None`.

Two details of the parsing matter:

- A field is `line.split(":")[1].strip()`, the text between the first and the second colon. It is not everything after the first colon, so `"Price: 10:30"` yields `"10"`.
- Only `$` and `,` are removed from a price before parsing. Other currency text is not removed, so a price like `"RM3.50"` does not parse and contributes nothing.

## Model

| member | source | states |
|---|---|---|
| `Text.IsSpace` | profile_manager.py:176 | the characters `strip()` removes; `Text.StripIsSlice` and `Text.StripPadded` state that only these are dropped, and only at the ends |
| `Text.Contains` | profile_manager.py:171-177 | Python's substring test `label in line`; `Parser.FirstContaining` and `Parser.PairIndicesExact` state which lines the parser picks by it |
| `Text.Join` | tool.py:51 | `"\n".join(texts)`; `Text.Split` states that splitting gives pieces that join back to the text, and `Text.SplitJoin` that splitting a join of newline-free pieces gives back the pieces |
| `Text.SplitUnfold` | profile_manager.py:169 | a text with a separator splits into the piece before the first separator, then the pieces of the rest |
| `Text.Split` | profile_manager.py:169 | there is always one piece or more, and more than one exactly when the separator occurs; no piece contains the separator; joining the pieces with the separator gives back the text |
| `Text.SplitJoin` | tool.py:51 | splitting a newline-joined list of newline-free lines gives back the list |
| `Text.Strip` | profile_manager.py:176 | the result is no longer than the input and has no whitespace at either end |
| `Text.StripIsSlice` | profile_manager.py:176 | the result is a contiguous slice of the input with only whitespace dropped before and after it |
| `Text.StripPadded` | profile_manager.py:178 | stripping trimmed text padded with any whitespace gives back exactly that text |
| `Parser.Field` | profile_manager.py:171-178 | reading a field raises `IndexError` exactly when the line has no colon; a field has no surrounding whitespace |
| `Parser.FieldIsSplitSecond` | profile_manager.py:176 | `split(":")` gives a single piece exactly when the field fails; otherwise the field is the stripped second piece, which is the text between the first and the second colon |
| `Parser.FieldBetweenColons` | profile_manager.py:178 | in `key:value:tail` the field is the stripped `value`, whatever the tail holds |
| `ParserExamples.FieldStopsAtSecondColon` | profile_manager.py:178 | `"Price: 10:30"` yields `"10"` |
| `Parser.StoreName` | profile_manager.py:171 | the store-name lookup fails exactly when the first "Store Name" line has no colon; otherwise it is the stated store, which is none exactly when no line has the label |
| `Parser.CollectItems` | profile_manager.py:174-179 | the item loop; `Parser.CollectItemsSucceedsIff` states when it raises and `Parser.CollectItemsRecords` what it yields |
| `Parser.ParseLines` | profile_manager.py:169-188 | a parsed reply has fewer records than lines, and none when it has no line; `Parser.ParseFailsIff` and `Parser.ParseRecords` state the rest |
| `Parser.PairIndicesCount` | profile_manager.py:174-177 | each pair takes an item line and the line after it, so there are fewer pairs than lines |
| `Parser.ParseReply` | profile_manager.py:169 | a reply without a newline is parsed as a single line and so yields no record |
| `Parser.FirstContaining` | profile_manager.py:171 | the result is the first line at or after the start that contains the label, or none exactly when no such line exists |
| `Parser.PairIndicesExact` | profile_manager.py:174-177 | the pair lines are strictly increasing and in range, and they are exactly the "Item Purchase" lines whose next line exists and contains "Price" |
| `Parser.CollectItemsSucceedsIff` | profile_manager.py:174-179 | the item loop raises exactly when an item line, or a price line after an item line, has no colon |
| `Parser.CollectItemsRecords` | profile_manager.py:174-179 | when the item loop succeeds, it yields one record per pair line, in order, each with the item and price fields of that pair |
| `Parser.ParseFailsIff` | profile_manager.py:171-188 | parsing a reply is all-or-nothing: it fails exactly when the first "Store Name" line, an item line, or a price line after an item has no colon |
| `Parser.ParseRecords` | profile_manager.py:171-179 | a successful parse gives, in source order, exactly one record per item line followed by a price line, each carrying the stated store name and the two fields |
| `Parser.ParseSameStore` | profile_manager.py:171-179 | every record of one reply carries the same store name, which is none exactly when no line contains "Store Name" |
| `Parser.UnpairedItemDropped` | profile_manager.py:177 | an item line at the end, or one whose next line lacks "Price", yields no record |
| `Parser.WellFormedParses` | profile_manager.py:174-188 | a reply whose consulted lines all have colons parses, to as many records as it has pair lines |
| `RecordStore.MergeColumns` | profile_manager.py:218 | the concatenated table keeps the existing columns first and in order, adds only columns not already there, and has no other columns |
| `RecordStore.MergeColumnsAddsInOrder` | profile_manager.py:218 | the added columns come in the order of their first appearance among the new columns |
| `RecordStore.MergeColumnsAddsOnce` | profile_manager.py:218 | no column is added twice |
| `RecordStore.RowsOf` | profile_manager.py:215 | `pd.DataFrame(items)`: one row per record, in order; `RecordStore.RowsRoundTrip` states that the rows read back as the records |
| `RecordStore.CurrentTable` | profile_manager.py:209-212 | the stored table, or an empty one with the three record columns when the file is missing; `RecordStore.SaveAppends` states what a save builds from it |
| `RecordStore.SaveToExcel` | profile_manager.py:196-221 | saving writes the record table of the (user, profile) pair and no other file: profile indexes and all other tables are unchanged |
| `RecordStore.SaveAppends` | profile_manager.py:209-221 | existing rows stay first and unchanged; the appended rows read back as exactly the new records, in order; a missing table starts from the three record columns |
| `RecordStore.RowsRoundTrip` | profile_manager.py:215 | records written as rows read back as the same records |
| `RecordStore.RowsOfAppend` | profile_manager.py:215-218 | the rows of two record lists, one after the other, are the rows of their concatenation |
| `RecordStore.SaveHasPriceColumn` | profile_manager.py:212-218 | after saving at least one record, the table has a "Price" column |
| `RecordStore.SaveTwiceDuplicates` | profile_manager.py:209-221 | saving the same N records twice adds 2N rows, so there is no deduplication |
| `Profiles.LoadProfiles` | profile_manager.py:84-92 | an empty username or a missing index lists nothing; otherwise the stored names are listed in order |
| `Profiles.CreateProfile` | profile_manager.py:98-117 | creating fails exactly for an empty name and never touches a record table or another user's index |
| `Profiles.CreateThenLoad` | profile_manager.py:104-113 | after creating, the listing is the old listing with the name appended, even when the name was already there |
| `Profiles.RemoveAll` | profile_manager.py:124 | the filtered list has no entry equal to the name and keeps every other name as often as before |
| `Profiles.RemoveAllAppend` | profile_manager.py:124 | filtering distributes over concatenation, so the remaining names keep their order |
| `Profiles.DeleteProfile` | profile_manager.py:119-127 | deleting fails exactly when the index file is missing; it never touches a record table or another user's index |
| `Profiles.DeleteThenLoad` | profile_manager.py:121-125 | after deleting, the listing is the old listing filtered: no copy of the name remains and the other names keep their multiplicities |
| `Profiles.DeleteIdempotent` | profile_manager.py:124-125 | deleting the same name a second time changes nothing more |
| `Profiles.CreateThenDelete` | profile_manager.py:111-125 | creating a name and then deleting it lists the same as deleting alone |
| `Totals.CleanPrice` | profile_manager.py:78 | the cleaned price has no `$` or `,` and is no longer than the original |
| `Totals.CleanPriceKeepsOthers` | profile_manager.py:78 | cleaning keeps every character other than `$` and `,`, as often as before |
| `Totals.CleanPriceAppend` | profile_manager.py:78 | cleaning works character by character: cleaning a concatenation concatenates the cleaned parts, so the kept characters stay in order |
| `Totals.CleanPriceIdempotent` | profile_manager.py:78 | cleaning twice is cleaning once |
| `Totals.TableTotal` | profile_manager.py:76-80 | 0 without a "Price" column, otherwise the sum of the cleaned, parsed prices; `Totals.TotalAt` and `Totals.SaveAddsToTotal` state it |
| `Totals.TotalAt` | profile_manager.py:72-82 | a missing file, or a table without a "Price" column, totals 0 |
| `Totals.RowPrice` | profile_manager.py:78-80 | a row adds its cleaned, parsed price, and nothing when it has no price or the price does not parse; stated by `Totals.RecordPrice` and `Totals.UnparsableContributeNothing` |
| `Totals.SumPrices` | profile_manager.py:78-80 | the sum of the rows' prices; stated by `Totals.SumPricesAppend` and `Totals.SumPricesPermutation` |
| `Totals.TotalSumAsWritten` | profile_manager.py:67-82 | the total as written, read from the path of line 69; `Totals.SaveInvisibleToTotalAsWritten` states that no save reaches it |
| `Totals.TotalSum` | profile_manager.py:67-82 | the total read from the file records are saved to; `Totals.SaveAddsToTotal` states that a save adds exactly the saved prices |
| `Totals.SumPricesAppend` | profile_manager.py:80 | the total of two blocks of rows is the sum of their totals |
| `Totals.SumPricesPermutation` | profile_manager.py:78-80 | the total does not depend on the order of the rows |
| `Totals.UnparsableContributeNothing` | profile_manager.py:79-80 | rows whose cleaned price does not parse contribute nothing |
| `Totals.RecordPrice` | profile_manager.py:78-79 | a record priced `$<amount>` adds the parsed amount |
| `Totals.SaveInvisibleToTotalAsWritten` | profile_manager.py:69 | as written, saving records never changes the total shown for that user and profile |
| `Totals.TotalPathCounterexample` | profile_manager.py:69 | one record priced `$3.50` saved to an empty disk totals 0 as written and 350 cents as intended |
| `Totals.SaveAddsToTotal` | profile_manager.py:67-82 | reading the file that saving writes, a save adds exactly the new records' cleaned, parsed prices to the total |
| `Totals.RecordsTotalAppend` | profile_manager.py:215-218 | the prices of two record lists add up |
| `Storage.IndexPath` | profile_manager.py:88 | the username can be read back from its index path, so no two users share an index file |
| `Storage.RecordPath` | profile_manager.py:200-206 | the file records are saved to and downloaded from; `Storage.TotalPathDiffers` states that the total never reads it |
| `Storage.TotalPathAsWritten` | profile_manager.py:69 | the file the total reads; `Storage.TotalPathDiffers` states that it is never the record path |
| `Storage.TotalPathDiffers` | profile_manager.py:69 | the file the total reads is never the file records are saved to |
| `Tokens.CalculateTokenCount` | tool.py:32-42 | the count is the sum of the messages' token lengths; it is 0 when the encoding cannot be obtained or a message fails to encode |
| `Tokens.TokenCount` | tool.py:32-42 | the count the gate sees; `Tokens.CalculateTokenCount` states that the loop computes it |
| `Tokens.TokenSumAppend` | tool.py:37-38 | token counts add up over concatenated message lists |
| `Tokens.GateMessages` | profile_manager.py:142-145 | the fixed instruction followed by the OCR text; `Tokens.GateCountIsSum` states the count of this pair |
| `Tokens.GateCountIsSum` | profile_manager.py:142-147 | the upload flow's count is the instruction's token length plus the OCR text's |
| `Tokens.WithinBudget` | profile_manager.py:151 | the gate's test; `Tokens.BudgetBoundary` states where it passes |
| `Tokens.BudgetBoundary` | profile_manager.py:151 | the gate passes exactly when the count is at most 128000, so 128000 passes and 128001 does not |
| `Ocr.Texts` | tool.py:51 | one text per detection, in detector order |
| `Ocr.ExtractText` | tool.py:44-59 | an exception or an empty detection list gives the empty text |
| `Ocr.ExtractTextLines` | tool.py:50-52 | with at least one detection, and when no detected text contains a newline, splitting the text on newlines gives back the detected texts in order |
| `Upload.HandleUpload` | profile_manager.py:136-192 | the model is asked at most once, with the OCR text; it is asked exactly when the count is within budget; a reply that parses to at least one record is saved, all of it, and the disk changes in no other case; each other ending (no file, over budget, no response, a reply that does not parse, no records) happens exactly in its own case |
| `Upload.NothingToSaveKeepsDisk` | profile_manager.py:181-186 | a reply that parses to no record leaves every file as it was |
| `ReceiptExample.LabelledField` | profile_manager.py:171-178 | a `Key: value` line with no other colon has the value as its field when the value is non-empty and has no surrounding whitespace |
| `ReceiptExample.ParseExample` | profile_manager.py:169-188 | the worked receipt's five lines parse to two records, Milk at $3.50 then Bread at $2.00, both at "ACME" |
| `ReceiptExample.StoreOfExample` | profile_manager.py:171 | the worked receipt's store name is "ACME" |
| `ReceiptExample.TotalExample` | profile_manager.py:67-82 | the worked receipt's parsed records, saved to an empty disk, total 550 cents |

## Left out

- Streamlit UI, widgets, session state and `st.rerun` are left out: they are presentation and control flow only. This covers `manage_profiles` and the text input and button of `create_new_profile`.
- `process_uploaded_file` and the module-level UI of `tool.py` are left out: the upload flow that is modelled does not call them.
- `main.py` (hard-coded credentials, login form) is not part of this model.
- Real file and spreadsheet I/O is left out. Disk state is two maps keyed by path: profile indexes, and tables as `read_excel` returns them. The Excel round trip is assumed lossless. For example, an empty store-name cell is an absent key, not pandas' NaN.
- `os.path.join` is modelled as `/`-concatenation. Its reset on an absolute second component is left out.
- Image decoding, thumbnailing and `pytesseract.image_to_string` are left out. The upload flow takes the OCR text as a parameter; `None` stands for "no file uploaded".
- The easyocr detector, the tiktoken encoder and the OpenAI call are parameters, modelled only through their outcomes.
- Float arithmetic and NaN semantics of `pd.to_numeric` and `sum`, and the `RM{total:.2f}` formatting, are left out. Prices are integers in cents through an abstract parse.
- The download button and the existence check on the download path are left out: they are I/O. The path they use is `Storage.RecordPath`.
- Concurrency and lost updates on the read-modify-write of the index and record files are left out: the code has no locking.
- Parser.Field: states only that the field is trimmed and fails exactly without a colon. Its exact value is stated by `Parser.FieldIsSplitSecond`, so that the parser's proofs do not carry the split's full contract.
- Text.Strip: states only trimming and length in its own contract. The slice and whitespace-only facts are `Text.StripIsSlice`, for the same reason.

## Findings

| source | as written | input that shows it | evidently intended | confidence | as-written member | corrected member |
|---|---|---|---|---|---|---|
| profile_manager.py:69 | `calculate_total_sum` reads `record/<user>_<profile>_data.xlsx`, but `save_to_excel` writes `record/direct_base_<user>/<user>_<profile>_data.xlsx` (line 206), which is also the file the download offers (line 52) | user "a", profile "home", one record priced "$3.50" saved to an empty disk: the total shown is 0 | the total reads the file the records are saved to and shows 3.50 | high; not executed | `Totals.TotalPathCounterexample` | `Totals.SaveAddsToTotal` |

`Totals.TotalSumAsWritten` is the total as written. `Totals.SaveInvisibleToTotalAsWritten` proves that no save ever reaches it. `Totals.TotalSum` reads the record path. `Totals.SaveAddsToTotal` and `ReceiptExample.TotalExample` are stated about `Totals.TotalSum`.
