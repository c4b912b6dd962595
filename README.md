# Transaction CSV ingest and query, modelled in Dafny

This project models the backend of a small bank-transaction service. A client
uploads a CSV of transactions. The server checks the upload, then reads the
rows one by one:

- it normalizes each row's date;
- it derives a deduplication key from the date, description, amount and
  currency;
- it skips rows that are already stored and stores the others;
- it collects a message for every row that cannot be read.

A second endpoint lists the stored transactions in a date window, newest
first, one page at a time.

Modules, following `server.py`:

- `Wrappers`: `Option` and `Result`.
- `Text`: the Python string operations the code relies on. These are
  `split`, `join`, `strip`, `zfill`, `lower`, the substring test and the
  decimal text of an integer.
- `Dates`: `normalize_date`.
- `Dedup`: `generate_hash` and its pre-image.
- `Validation`: `validate_csv_content`.
- `Records`: the stored transaction and the view of it that queries return.
- `Ingest`: `upload_transactions_csv`. The row loop is specified by a fold,
  `IngestAll`. The class `TransactionStore` holds the store as a field that
  its `Upload` method updates in place, and `Upload` is proved to end in
  the state the fold gives.
- `Query`: `get_transactions`, as a function of the stored records.

Collaborators the code calls but the model does not define are
parameters:

- the flexible date parser followed by `strftime` (`Env.parseDate`, a
  partial function of the date text and of the day the request is served,
  from which `dateutil` fills the fields a text leaves out);
- `float()` (`Env.parseFloat`);
- MD5 (`Env.md5`, an arbitrary function);
- the fresh `uuid4()` id and creation time of each new record (`stamps`);
- the date thirty days before the request (`thirtyDaysAgo`).

The CSV is given already parsed, as a header and a sequence of rows. Each
row maps a column name to a cell, and `None` stands for an empty (NaN)
cell.

Behaviours of the code that a reader may not expect, which the model
keeps:

- An empty cell is `str(nan)`, so an empty `currency` cell gives the
  currency `"nan"`, not `"USD"` (`Ingest.EmptyCurrencyCell`). Empty date or
  description cells likewise become the text `"nan"`.
- A `balance` cell that does not parse is a row error. It is not dropped.
- Distinct rows can share a key when a description or currency contains
  `|` (`Dedup.SeparatorCollision`).
- `D/M/YYYY` is read day first, with no range check.
- A header that lacks a required column is refused with 422 before any
  row is read. A failing row is reported only after every row has been
  tried, and the rows stored meanwhile stay stored.

## Model

| member | source | states |
|---|---|---|
| Text.StripTrimmed | server.py:165-168 | the result of `strip()` is a prefix of the input with its leading whitespace removed, and that is a suffix of the input; stripping it again changes nothing |
| Text.Strip | server.py:165-168 | `strip()` leaves no whitespace at either end, is no longer than its input, and returns a string without whitespace at its ends unchanged |
| Text.Split | server.py:91 | `split` gives at least one part; no part contains the separator; a string without the separator is one part |
| Text.SplitJoin | server.py:91 | joining the parts of `split` with the separator gives back the string |
| Text.JoinSplit | server.py:110 | splitting a `join` of separator-free parts gives back the parts |
| Text.ZFill | server.py:95 | `zfill(width)` pads to the width with zeros after any sign and leaves longer strings alone |
| Text.ZFillDigits | server.py:95 | zero-filling a digit string keeps it a digit string of the same numeric value |
| Text.NatText | server.py:198 | the decimal text of `n` is digits without a leading zero whose value is `n` |
| Text.NatTextOfValue | server.py:198 | a canonical digit string is the decimal text of its own value |
| Text.IntTextInjective | server.py:110 | different integers have different decimal texts |
| Text.ContainsAt | server.py:141 | the substring test `Contains` holds exactly when the substring occurs at some position |
| Text.LowerKeepsOut | server.py:141 | `lower()` produces a lower-case letter only from that letter or its capital |
| Text.Lower | server.py:141 | `lower()` keeps the length, maps each character on its own and leaves no ASCII capital |
| Dates.NormalizeDate | server.py:85-106 | fails exactly when the input is not slash-shaped and the parser fails, and the error is "Invalid date format: " with the raw input; an input that is not slash-shaped gets the parser's result |
| Dates.SlashDate | server.py:89-95 | `day/month/year` with a four-character year becomes `year-zfill(month,2)-zfill(day,2)`, whatever the parser says |
| Dates.SlashFallthrough | server.py:89-106 | any other input containing `/` goes to the parser |
| Dates.NumericSlashDate | server.py:93-95 | a numeric `D/M/YYYY` with one- or two-digit day and month gives a `YYYY-MM-DD` string whose fields carry the input values, with no range check |
| Dates.DayFirstExample | server.py:93-95 | `31/01/2024` becomes `2024-01-31` |
| Dates.NoRangeCheckExample | server.py:93-95 | `45/13/2024` becomes `2024-13-45` |
| Dates.PaddingExample | server.py:95 | `5/3/2024` becomes `2024-03-05` |
| Dates.ShortYearExample | server.py:92-106 | `01/31/24` is not rewritten; when the parser fails, it is rejected with the raw input in the message |
| Dedup.PreimageText | server.py:110 | the hashed text `Preimage` is date, description, amount and currency with `\|` between them, in that order |
| Dedup.GenerateHash | server.py:108-111 | the key is the digest of `date\|description\|amount\|currency` |
| Dedup.PreimageFields | server.py:110 | when no text field contains `\|`, splitting the pre-image on `\|` gives the four fields back |
| Dedup.PreimageInjective | server.py:108-111 | under that condition two inputs have the same pre-image exactly when all four fields are equal |
| Dedup.SeparatorCollision | server.py:110 | without that condition, moving `\|amount` from the description into the currency gives a different row with the same pre-image and hash |
| Dedup.SeparatorCollisionExample | server.py:110 | `("a\|1", 2, "USD")` and `("a", 1, "2\|USD")` get the same key |
| Validation.Absent | server.py:119 | the names not among the columns, and only those, in their original order |
| Validation.MissingColumns | server.py:118-119 | the required columns the header lacks, in required order |
| Validation.ValidateColumns | server.py:113-123 | at most one message; no message exactly when date, description and amount are all columns; otherwise "Missing required columns: " and the missing names joined by ", " |
| Validation.MissingAmountExample | server.py:113-123 | a header lacking only `amount` gives exactly "Missing required columns: amount" |
| Validation.MissingSeveralExample | server.py:113-123 | missing `date` and `description` are listed in that order |
| Ingest.Currency | server.py:168 | the currency is never empty; it is "USD" when the column is absent or the stripped cell is empty, otherwise the stripped cell |
| Ingest.Balance | server.py:169 | no balance exactly when the column is absent or the cell empty; otherwise the parsed value, or the `float()` error naming the cell's text |
| Ingest.EmptyCurrencyCell | server.py:168 | an empty cell in a present `currency` column gives "nan" |
| Ingest.ExtractRowOk | server.py:164-172 | `ExtractRow`, the body of the `try` up to the key, succeeds exactly when the three cells are present, the amount and any balance parse and the date normalizes; the fields are then the stripped description, the parsed numbers, the currency and the normalized date |
| Ingest.ExtractRowFirstError | server.py:164-172 | the reason reported is the first failure in source order: missing cell, then the amount (`ToFloat` with its message), then the balance, then the date |
| Ingest.RowMessageExample | server.py:198 | `RowMessage` reports the first data row as "Row 2" and the tenth as "Row 11" |
| Ingest.FindByKey | server.py:178 | finds a record exactly when one carrying the key is stored, and the found record carries that key |
| Ingest.MediaTypeMeaning | server.py:141-142 | `AcceptsMediaType`: the media type is accepted exactly when it is present and `csv` occurs in its lower-cased text |
| Ingest.SizeLimit | server.py:144-146 | `TooLarge`: an upload is too large exactly when the size the framework reports exceeds 10485760 bytes; exactly 10 MiB passes, and so does an upload with no reported size |
| Ingest.StepCounts | server.py:162-198 | `Step`, one iteration, counts the row exactly once, as imported, skipped or failed; it only appends to the store and the errors, and adds an error exactly when the row cannot be read |
| Ingest.UploadSpec | server.py:140-205 | 401 exactly when the key is wrong (the key check of lines 79-82); then 415, 413 and the unreadable CSV each exactly when every earlier check passed; a header without a required column gives 422 with the validator's message and an untouched store; the store changes only when every check up to the columns passed |
| Ingest.TransactionStore.Upload | server.py:140-205 | the response and the new store are those of `UploadSpec`; the store keeps unique, matching keys; what was stored before is a prefix of what is stored after |
| Ingest.TransactionStore.IngestRows | server.py:158-198 | the loop ends with the counters, errors and store given by the fold `IngestAll`; keys stay unique and matching; the old store is kept |
| Ingest.TransactionStore.InsertOne | server.py:194 | the record, whose key is its own hash and not yet stored, is appended; nothing else changes; a valid store stays valid |
| Ingest.StepStore | server.py:177-195 | one row leaves the store as it was, or appends one new record for a readable row whose key was not stored |
| Ingest.IngestAccounting | server.py:158-198 | over the fold `IngestAll`, imported plus skipped plus the number of errors grows by exactly the number of rows, and the store grows by the number imported |
| Ingest.IngestGrows | server.py:178-198 | the store and the error list only grow: earlier records are never changed or removed |
| Ingest.IngestKeepsKeys | server.py:175-194 | no two stored records share a key, and every key is the hash of its record's fields |
| Ingest.StepKeepsKeys | server.py:175-194 | one row keeps the keys unique and matching |
| Ingest.AppendKeepsKeys | server.py:184-194 | appending a record whose key is its own hash and not yet stored keeps the keys unique and matching |
| Ingest.IngestErrors | server.py:162-198 | the errors are exactly the messages of the failing rows in file order, whatever the store and the earlier rows: every row is attempted |
| Ingest.RowErrorsEmpty | server.py:197-202 | no row error exactly when every row can be read |
| Ingest.IngestStoresKeys | server.py:178-195 | after the loop, the key of every readable row is stored |
| Ingest.IngestKeysFrom | server.py:178-195 | every key stored after the loop was stored before or is the key of a row |
| Ingest.IngestKnownRows | server.py:178-181 | rows whose keys are all stored are all skipped, and the store is unchanged |
| Ingest.KnownRowsWithErrors | server.py:162-198 | rows whose readable keys are all stored leave the store as it was: every readable row is skipped and every other row reports its message |
| Ingest.ReingestSkipsAll | server.py:178-181 | running the same rows again with the same reader, after an error-free run, imports none, skips all and leaves the store as it was |
| Ingest.IngestNewRows | server.py:184-195 | readable rows with distinct keys, none stored, are all imported, with none skipped and no error |
| Ingest.UploadAccounting | server.py:158-205 | a 200 response has imported plus skipped equal to the number of rows, and the store grew by the imported records only |
| Ingest.UploadSucceeds | server.py:158-205 | once every check up to the columns has passed, the response is 200 exactly when every row can be read |
| Ingest.UploadRowErrors | server.py:197-202 | if a row fails, the response is 422 with the message of each failing row in file order, and the imports already made stay |
| Ingest.UploadIdempotent | server.py:178-205 | uploading the same file again on the same day after a success imports none, skips every row and leaves the store as it was |
| Ingest.UploadRetryAfterRefusal | server.py:154-205 | uploading a file again on the same day after a 422, even one that stored some rows, gives the same 422 and leaves the store as the first attempt left it |
| Ingest.UploadNewRows | server.py:184-205 | a file of readable rows with distinct new keys is imported in full |
| Ingest.NoLetterCRejected | server.py:141-142 | a content type without the letter c in either case is refused with 415 and the store is untouched |
| Ingest.PlainTextRejected | server.py:141-142 | `text/plain` is refused with 415 |
| Query.StrLeReflexive | server.py:229-237 | the string order on dates is reflexive, so both bounds include equal dates |
| Query.StrLeTotal | server.py:246 | any two dates are ordered one way or the other |
| Query.StrLeTransitive | server.py:246 | the string order is transitive |
| Query.StrLeAntisymmetric | server.py:246 | dates ordered both ways are equal |
| Query.WindowMeaning | server.py:227-237 | `Matches` of the built filter: with neither bound given (absent or empty) the window is dates on or after thirty days ago; otherwise the given bounds, both inclusive |
| Query.BoundsInclusive | server.py:232-237 | a transaction dated on either bound is in the window |
| Query.BuildFilter | server.py:227-237 | with neither bound given the filter is "on or after thirty days ago"; otherwise each given bound is kept and each missing one is absent |
| Query.EmptyWindow | server.py:232-237 | a window whose lower bound lies after its upper bound matches nothing |
| Query.Filter | server.py:240 | the matching records, and only those, drawn from the store |
| Query.FilterCounts | server.py:240 | each matching record is kept as often as it is stored, so the total counts documents |
| Query.InsertDescMultiset | server.py:246 | `InsertDesc`, one insertion into the ordered list, adds the record and loses nothing |
| Query.InsertDescSorted | server.py:246 | inserting keeps a newest-first list newest first |
| Query.SortDesc | server.py:246 | newest first, and a permutation of the input |
| Query.Page | server.py:243-247 | at most `limit` items, taken in order from position `skip`, and none when `skip` is past the end |
| Query.Views | server.py:250-260 | each returned item is the view of the record at the same position |
| Query.SkipOfPosition | server.py:243 | position `j` is item `j % limit` after the skip of page `j / limit + 1` |
| Query.ListTransactions | server.py:214-267 | refused exactly when `page < 1` or `limit` is outside 1..200; otherwise echoes page and limit, returns at most `limit` items and a total equal to the number of matching records |
| Query.ListingContents | server.py:243-260 | item `k` of a page is the view of the matching record at position `(page - 1) * limit + k` in newest-first order |
| Query.OrderedMember | server.py:240-246 | every record in response order is a stored record inside the window |
| Query.ListingInWindow | server.py:227-260 | every returned item is the view of a stored transaction inside the window |
| Query.ListingNewestFirst | server.py:246-260 | the items of a page are newest first |
| Query.DefaultWindow | server.py:227-229 | with no bounds, exactly the stored transactions dated thirty days ago or later are listed |
| Query.TotalIgnoresPaging | server.py:240 | the total does not depend on the page or the limit |
| Query.PagesPartition | server.py:243-247 | the record at position `j` of the newest-first order is item `j % limit` of page `j / limit + 1`, so the pages cover every record exactly once |
| Query.FullPage | server.py:243-247 | a page holds exactly `limit` items while records remain past it |
| Query.EightRecordsExample | server.py:243-247 | with eight matching records and five per page, page 1 holds 5, page 2 holds 3, page 3 is empty, and the total is 8 each time |

## Left out

- FastAPI routing, response models, CORS, logging, the `/health` endpoint and the shutdown hook are web-framework wiring with no logic of their own.
- The `slowapi` rate limit of 60 uploads a minute is a boundary policy that depends on time and client address.
- A request without the `x-api-key` header is refused by FastAPI's validation (422) before the code runs; the model always has a key and checks only its value (401).
- MongoDB I/O is replaced by a sequence of records. The check-then-insert race between concurrent uploads is a concurrency issue and is not modelled; each upload runs alone.
- A failure of the store itself is not modelled. Inside the row loop a failing `find_one` or `insert_one` is caught by the row's `try` and becomes a `Row N: …` error, ending in 422; the model's store never fails, so it never produces such an error. A failing `count_documents` or `find` in the listing gives 500, which the model does not produce either. The 500 for a CSV that cannot be decoded or parsed is modelled as `CsvUnreadable`.
- pandas decoding and parsing of the CSV is not modelled; the input is the parsed header and rows.
- The flexible date parser and `strftime` are an abstract partial function. The `YYYY-MM-DD` branch calls the same parser as the final fallback, so both are the same call in the model.
- MD5 is an abstract function; nothing is claimed about its collisions.
- Float parsing and formatting are not modelled. Amounts and balances are integers, `float()` is an abstract partial function, and the pre-image renders the amount with the integer's decimal text where Python writes the float's `repr` (`12.0`). `pd.notna` of a balance is modelled as "the cell is present and not empty".
- Dedup.PreimageInjective: holds for the integer rendering of amounts only. With Python floats it fails both ways: `0.0 == -0.0` while their pre-images differ (`0.0` and `-0.0`), and NaN is unequal to itself while every NaN renders as `nan`.
- An empty `amount` cell is NaN, and `float(nan)` does not raise, so the code imports such a row with `nan` in its pre-image. Integer amounts cannot be NaN, so the model cannot express this row; it depends on what `float()` is given to return for the text `nan`.
- Ingest.ExtractRowFirstError: the `float()` error message is modelled as `could not convert string to float: '<text>'` without Python's `repr` escaping of the text.
- `Lower` folds ASCII letters only. That is enough for the test against `csv`, but not Python's full Unicode `lower()`.
- `uuid4()`, `datetime.now`, the day a request is served and "today minus thirty days" are inputs, not computed.
- Ingest.UploadIdempotent: promised for a second upload served on the same day only. A date text missing a field (`"Jan 5"`, `"2024-01"`) is completed from the day, so on another day it can normalize and hash differently and be imported again.
- Ingest.ReingestSkipsAll: promised for the same reader on both runs, which in the upload means the same day, for the reason above.
- MongoDB does not fix the order of records with the same date under `sort("date", -1)`. The model fixes one order, store order, so its contracts are stronger than the store's guarantee.
- Query.Skip: the skip `(page - 1) * limit` is an unbounded integer. When it exceeds a signed 8-byte integer, the driver cannot encode the `find` and the request ends in 500; the model returns an empty page.
- Dates are compared as strings character by character, as MongoDB compares the stored `YYYY-MM-DD` strings. The model does not check that the bounds are well-formed dates, and neither does the code.
