/**
 * `upload_transactions_csv`: the checks made before any row is read, and the
 * row loop that reads, normalizes, deduplicates and stores each row, counting
 * imports and skips and collecting per-row errors.
 *
 * The loop is specified by `IngestAll`, a fold of `Step` over the rows; the
 * method `TransactionStore.Upload` runs it in place on the store.
 */
module Ingest {
  import opened Wrappers
  import opened Text
  import opened Dates
  import opened Dedup
  import opened Validation
  import opened Records

  /** One CSV row: column name to cell, `None` for an empty (NaN) cell. */
  type Row = map<string, Option<string>>

  /** The parsed CSV: the header and the rows in file order. */
  datatype Table = Table(columns: seq<string>, rows: seq<Row>)

  /** The day a request is served on. The flexible date parser fills the
      fields a date text leaves out (`"Jan 5"`, `"2024-01"`) from it. */
  type Day = string

  /** The collaborators the pipeline calls but the model does not define:
      the flexible date parser for a given day, `float()` (`None` where it
      raises) and MD5. */
  datatype Env = Env(parseDate: Day -> DateParser, parseFloat: string -> Option<int>, md5: Digest)

  /** The fresh values a new record receives: a `uuid4()` id and the time. */
  datatype Stamp = Stamp(id: string, createdAt: int)

  /** The fields read from one row, normalized. */
  datatype Fields = Fields(date: string, description: string, amount: int,
                           currency: string, balance: Option<int>)

  /** The upload request as the pipeline sees it: the `x-api-key` header,
      the content type and the size the framework reports, the CSV (`None` when
      the bytes could not be decoded and parsed) and the day it is served. */
  datatype Request = Request(apiKey: string, contentType: Option<string>,
                             size: Option<nat>, table: Option<Table>, today: Day)

  /** The response: the counts on success, otherwise the error status. */
  datatype Outcome =
    | Imported(imported: nat, skipped: nat)   // 200
    | Unauthorized                            // 401
    | UnsupportedMediaType                    // 415
    | PayloadTooLarge                         // 413
    | Unprocessable(errors: seq<string>)      // 422, missing columns or row errors
    | CsvUnreadable                           // 500, decoding or parsing failed

  function Status(o: Outcome): int {
    match o
    case Imported(_, _) => 200
    case Unauthorized => 401
    case UnsupportedMediaType => 415
    case PayloadTooLarge => 413
    case Unprocessable(_) => 422
    case CsvUnreadable => 500
  }

  const ApiKey: string := "dev-key"
  const MaxUploadBytes: nat := 10 * 1024 * 1024

  /** The content type is present and contains `csv`, ignoring case. */
  predicate AcceptsMediaType(contentType: Option<string>) {
    contentType.Some? && Contains(Lower(contentType.value), "csv")
  }

  /** A reported size above 10 MiB; an absent size passes. */
  predicate TooLarge(size: Option<nat>) {
    size.Some? && size.value > MaxUploadBytes
  }

  /** The media type is accepted exactly when it is present and `csv`
      occurs somewhere in its lower-cased text. */
  lemma MediaTypeMeaning(contentType: string)
    ensures !AcceptsMediaType(None)
    ensures AcceptsMediaType(Some(contentType)) <==> exists i :: OccursAt(Lower(contentType), "csv", i)
  {
    ContainsAt(Lower(contentType), "csv");
  }

  /** The size limit is 10485760 bytes, inclusive; a request without a
      reported size is never too large. */
  lemma SizeLimit(size: Option<nat>)
    ensures TooLarge(size) <==> size.Some? && size.value > 10485760
    ensures !TooLarge(None) && !TooLarge(Some(10485760)) && TooLarge(Some(10485761))
  {
  }

  // ----- reading one row -----

  /** `str()` of a NaN cell is `"nan"`. */
  function CellOrNan(cell: Option<string>): string {
    match cell
    case None => "nan"
    case Some(text) => text
  }

  /** `str(row[column])`; a column the row lacks raises `KeyError`, whose
      message is the quoted column name. */
  function CellText(row: Row, column: string): Result<string, string> {
    if column !in row then Err(KeyError(column)) else Ok(CellOrNan(row[column]))
  }

  function KeyError(column: string): string {
    "'" + column + "'"
  }

  function FloatError(text: string): string {
    "could not convert string to float: '" + text + "'"
  }

  /** `float(text)`. */
  function ToFloat(env: Env, text: string): Result<int, string> {
    match env.parseFloat(text)
    case Some(x) => Ok(x)
    case None => Err(FloatError(text))
  }

  /** `str(row.get('currency', 'USD')).strip() or 'USD'`. */
  function Currency(row: Row): (c: string)
    ensures c != ""
    ensures "currency" !in row ==> c == "USD"
    ensures "currency" in row ==>
      c == if Strip(CellOrNan(row["currency"])) == "" then "USD" else Strip(CellOrNan(row["currency"]))
  {
    if "currency" !in row then "USD"
    else
      var text := Strip(CellOrNan(row["currency"]));
      if text == "" then "USD" else text
  }

  /** `float(row['balance']) if pd.notna(row.get('balance')) else None`. */
  function Balance(env: Env, row: Row): (b: Result<Option<int>, string>)
    ensures b == Ok(None) <==> "balance" !in row || row["balance"].None?
    ensures (b.Ok? && b.value.Some?) <==>
      ("balance" in row && row["balance"].Some? && env.parseFloat(row["balance"].value).Some?)
    ensures (b.Ok? && b.value.Some?) ==> b.value.value == env.parseFloat(row["balance"].value).value
    ensures b.Err? ==> "balance" in row && row["balance"].Some? && b.error == FloatError(row["balance"].value)
  {
    if "balance" !in row || row["balance"].None? then Ok(None)
    else
      var b :- ToFloat(env, row["balance"].value);
      Ok(Some(b))
  }

  /** The body of the `try` for one row, up to the key: the fields, or the
      message of the first exception, in the order the source raises them. */
  function ExtractRow(env: Env, today: Day, row: Row): Result<Fields, string> {
    var dateText :- CellText(row, "date");
    var description :- CellText(row, "description");
    var amountText :- CellText(row, "amount");
    var amount :- ToFloat(env, amountText);
    var currency := Currency(row);
    var balance :- Balance(env, row);
    var date :- NormalizeDate(Strip(dateText), env.parseDate(today));
    Ok(Fields(date, Strip(description), amount, currency, balance))
  }

  /** A row is read exactly when its three cells are present, the amount
      and any balance parse and the date normalizes; the fields are then the
      stripped description, the parsed numbers, the currency and the
      normalized date. */
  lemma ExtractRowOk(env: Env, today: Day, row: Row)
    ensures ExtractRow(env, today, row).Ok? <==>
      "date" in row && "description" in row && "amount" in row
      && env.parseFloat(CellOrNan(row["amount"])).Some?
      && Balance(env, row).Ok?
      && NormalizeDate(Strip(CellOrNan(row["date"])), env.parseDate(today)).Ok?
    ensures ExtractRow(env, today, row).Ok? ==>
      ExtractRow(env, today, row).value == Fields(
        NormalizeDate(Strip(CellOrNan(row["date"])), env.parseDate(today)).value,
        Strip(CellOrNan(row["description"])),
        env.parseFloat(CellOrNan(row["amount"])).value,
        Currency(row),
        Balance(env, row).value)
  {
  }

  /** The reason reported for a row is the first failure in source order:
      a missing cell, then the amount, then the balance, then the date. */
  lemma ExtractRowFirstError(env: Env, today: Day, row: Row)
    ensures "date" !in row ==> ExtractRow(env, today, row) == Err(KeyError("date"))
    ensures ("date" in row && "description" !in row) ==>
      ExtractRow(env, today, row) == Err(KeyError("description"))
    ensures ("date" in row && "description" in row && "amount" !in row) ==>
      ExtractRow(env, today, row) == Err(KeyError("amount"))
    ensures ("date" in row && "description" in row && "amount" in row
             && env.parseFloat(CellOrNan(row["amount"])).None?) ==>
      ExtractRow(env, today, row) == Err(FloatError(CellOrNan(row["amount"])))
    ensures ("date" in row && "description" in row && "amount" in row
             && env.parseFloat(CellOrNan(row["amount"])).Some? && Balance(env, row).Err?) ==>
      ExtractRow(env, today, row) == Err(FloatError(row["balance"].value))
    ensures ("date" in row && "description" in row && "amount" in row
             && env.parseFloat(CellOrNan(row["amount"])).Some? && Balance(env, row).Ok?
             && NormalizeDate(Strip(CellOrNan(row["date"])), env.parseDate(today)).Err?) ==>
      ExtractRow(env, today, row) == Err(InvalidDate(Strip(CellOrNan(row["date"]))))
  {
  }

  /** An empty cell in a `currency` column is `str(nan)`, so the currency
      becomes `"nan"`; only an absent column or a blank text gives `"USD"`. */
  lemma EmptyCurrencyCell(row: Row)
    requires "currency" in row && row["currency"].None?
    ensures Currency(row) == "nan"
  {
    assert IsSpace('n') == false && IsSpace('a') == false;
    var s := "nan";
    assert StripLeft(s) == s;
    assert StripRight(s) == s;
  }

  /** `generate_hash` over the normalized fields. */
  function Key(md5: Digest, f: Fields): string {
    GenerateHash(md5, f.date, f.description, f.amount, f.currency)
  }

  function NewRecord(f: Fields, key: string, stamp: Stamp): Transaction {
    Transaction(stamp.id, f.date, f.description, f.amount, f.currency, f.balance, stamp.createdAt, key)
  }

  /** `"Row {index + 2}: {reason}"`: the header is line 1 and rows count from 0. */
  function RowMessage(index: nat, reason: string): string {
    "Row " + NatText(index + 2) + ": " + reason
  }

  /** The first data row is reported as row 2, the tenth as row 11. */
  lemma RowMessageExample(reason: string)
    ensures RowMessage(0, reason) == "Row 2: " + reason
    ensures RowMessage(9, reason) == "Row 11: " + reason
  {
    NatTextOfValue("2");
    NatTextOfValue("11");
    assert "Row " + "2" + ": " + reason == "Row 2: " + reason;
    assert "Row " + "11" + ": " + reason == "Row 11: " + reason;
  }

  // ----- the store -----

  /** Some stored record carries `key`. */
  predicate HasKey(store: seq<Transaction>, key: string) {
    exists i | 0 <= i < |store| :: store[i].hashKey == key
  }

  /** `find_one({"hash_key": key})`: the first record carrying `key`. */
  function FindByKey(store: seq<Transaction>, key: string): (found: Option<Transaction>)
    ensures found.Some? <==> HasKey(store, key)
    ensures found.Some? ==> found.value in store && found.value.hashKey == key
    decreases |store|
  {
    if |store| == 0 then None
    else if store[0].hashKey == key then Some(store[0])
    else
      var found := FindByKey(store[1..], key);
      assert HasKey(store, key) ==> HasKey(store[1..], key) by {
        if HasKey(store, key) {
          var i :| 0 <= i < |store| && store[i].hashKey == key;
          assert store[1..][i - 1].hashKey == key;
        }
      }
      assert HasKey(store[1..], key) ==> HasKey(store, key) by {
        if HasKey(store[1..], key) {
          var i :| 0 <= i < |store[1..]| && store[1..][i].hashKey == key;
          assert store[i + 1].hashKey == key;
        }
      }
      found
  }

  /** No two stored records share a key. */
  predicate UniqueKeys(store: seq<Transaction>) {
    forall i, j | 0 <= i < j < |store| :: store[i].hashKey != store[j].hashKey
  }

  /** Every stored record's key is the hash of its own four fields. */
  predicate KeysMatch(md5: Digest, store: seq<Transaction>) {
    forall i | 0 <= i < |store| ::
      store[i].hashKey == GenerateHash(md5, store[i].date, store[i].description, store[i].amount, store[i].currency)
  }

  // ----- the row loop as a function -----

  /** What the loop does with a row: read it (`ExtractRow` in the upload)
      and hash the fields. The fold below is stated for any reader. */
  datatype Pipeline = Pipeline(read: Row -> Result<Fields, string>, md5: Digest)

  function PipelineOf(env: Env, today: Day): Pipeline {
    Pipeline(row => ExtractRow(env, today, row), env.md5)
  }

  /** The loop's state: the two counters, the error list and the store. */
  datatype Tally = Tally(imported: nat, skipped: nat, errors: seq<string>, store: seq<Transaction>)

  function Start(store: seq<Transaction>): Tally {
    Tally(0, 0, [], store)
  }

  /** One iteration: a row that fails adds its message; a row whose key is
      stored is skipped; any other row is stored as a new record. */
  function Step(p: Pipeline, t: Tally, row: Row, index: nat, stamp: Stamp): Tally {
    match p.read(row)
    case Err(reason) => t.(errors := t.errors + [RowMessage(index, reason)])
    case Ok(f) =>
      var key := Key(p.md5, f);
      if FindByKey(t.store, key).Some? then t.(skipped := t.skipped + 1)
      else t.(imported := t.imported + 1, store := t.store + [NewRecord(f, key, stamp)])
  }

  /** One iteration counts its row exactly once, as imported, skipped or
      failed; it only appends to the store and to the errors, and it adds
      an error exactly when the row cannot be read. */
  lemma StepCounts(p: Pipeline, t: Tally, row: Row, index: nat, stamp: Stamp)
    ensures var r := Step(p, t, row, index, stamp);
      r.imported + r.skipped + |r.errors| == t.imported + t.skipped + |t.errors| + 1
      && t.store <= r.store && t.errors <= r.errors
      && (r.errors != t.errors <==> p.read(row).Err?)
  {
  }

  /** The state after the loop has run over `rows`, from `t0`. Row `i` gets
      the fresh values `stamps(i)`. */
  function IngestAll(p: Pipeline, t0: Tally, rows: seq<Row>, stamps: nat -> Stamp): Tally
    decreases |rows|
  {
    if |rows| == 0 then t0
    else
      var k := |rows| - 1;
      Step(p, IngestAll(p, t0, rows[..k], stamps), rows[k], k, stamps(k))
  }

  /** The row errors as a function of the rows alone: the message of every
      failing row, in file order. */
  function RowErrors(p: Pipeline, rows: seq<Row>): seq<string>
    decreases |rows|
  {
    if |rows| == 0 then []
    else
      var k := |rows| - 1;
      RowErrors(p, rows[..k]) + RowError(p, rows[k], k)
  }

  /** The message of row `index`, if it cannot be read. */
  function RowError(p: Pipeline, row: Row, index: nat): seq<string> {
    match p.read(row)
    case Err(reason) => [RowMessage(index, reason)]
    case Ok(_) => []
  }

  /** Every row can be read. */
  predicate AllRowsRead(p: Pipeline, rows: seq<Row>) {
    forall i | 0 <= i < |rows| :: p.read(rows[i]).Ok?
  }

  /** Row `row` reads without error and its key is `key`. */
  predicate RowHasKey(p: Pipeline, row: Row, key: string) {
    p.read(row).Ok? && Key(p.md5, p.read(row).value) == key
  }

  /** The readable rows' keys are pairwise distinct. */
  predicate DistinctRowKeys(p: Pipeline, rows: seq<Row>)
    requires AllRowsRead(p, rows)
  {
    forall i, j | 0 <= i < j < |rows| ::
      Key(p.md5, p.read(rows[i]).value) != Key(p.md5, p.read(rows[j]).value)
  }

  // ----- the upload as a function -----

  /** The response and the store after an upload. */
  datatype Effect = Effect(outcome: Outcome, store: seq<Transaction>)

  /** `upload_transactions_csv`: the key check, then media type, size,
      CSV parse and columns, each failing before the store is touched; then
      every row, with the row errors reported only at the end. */
  function UploadSpec(env: Env, store: seq<Transaction>, req: Request, stamps: nat -> Stamp): (e: Effect)
    ensures e.outcome == Unauthorized <==> req.apiKey != ApiKey
    ensures e.outcome == UnsupportedMediaType <==>
      req.apiKey == ApiKey && !AcceptsMediaType(req.contentType)
    ensures e.outcome == PayloadTooLarge <==>
      req.apiKey == ApiKey && AcceptsMediaType(req.contentType) && TooLarge(req.size)
    ensures e.outcome == CsvUnreadable <==>
      req.apiKey == ApiKey && AcceptsMediaType(req.contentType) && !TooLarge(req.size) && req.table.None?
    ensures (req.apiKey == ApiKey && AcceptsMediaType(req.contentType) && !TooLarge(req.size)
             && req.table.Some? && ValidateColumns(req.table.value.columns) != []) ==>
      e == Effect(Unprocessable(ValidateColumns(req.table.value.columns)), store)
    ensures e.store != store ==>
      req.apiKey == ApiKey && AcceptsMediaType(req.contentType) && !TooLarge(req.size)
      && req.table.Some? && ValidateColumns(req.table.value.columns) == []
  {
    if req.apiKey != ApiKey then Effect(Unauthorized, store)
    else if !AcceptsMediaType(req.contentType) then Effect(UnsupportedMediaType, store)
    else if TooLarge(req.size) then Effect(PayloadTooLarge, store)
    else if req.table.None? then Effect(CsvUnreadable, store)
    else
      var table := req.table.value;
      var problems := ValidateColumns(table.columns);
      if problems != [] then Effect(Unprocessable(problems), store)
      else
        var t := IngestAll(PipelineOf(env, req.today), Start(store), table.rows, stamps);
        if t.errors != [] then Effect(Unprocessable(t.errors), t.store)
        else Effect(Imported(t.imported, t.skipped), t.store)
  }

  /** The upload endpoint's store, holding the records in insertion order. */
  class TransactionStore {
    var records: seq<Transaction>
    const env: Env

    ghost predicate Valid()
      reads this
    {
      UniqueKeys(records) && KeysMatch(env.md5, records)
    }

    constructor (env: Env)
      ensures Valid() && records == [] && this.env == env
    {
      this.env := env;
      records := [];
    }

    /** `insert_one` of a record whose key is its own hash and is not
        stored yet: the record is appended, nothing else changes, and a
        valid store stays valid. */
    method InsertOne(t: Transaction)
      requires !HasKey(records, t.hashKey)
      requires t.hashKey == GenerateHash(env.md5, t.date, t.description, t.amount, t.currency)
      modifies this
      ensures records == old(records) + [t]
      ensures old(Valid()) ==> Valid()
    {
      if Valid() {
        AppendKeepsKeys(env.md5, records, t);
      }
      records := records + [t];
    }

    /** `upload_transactions_csv`: the response, and the store updated in
        place exactly as `UploadSpec` says; what was stored before stays. */
    method Upload(req: Request, stamps: nat -> Stamp) returns (outcome: Outcome)
      requires Valid()
      modifies this
      ensures Valid()
      ensures old(records) <= records
      ensures Effect(outcome, records) == UploadSpec(env, old(records), req, stamps)
    {
      if req.apiKey != ApiKey {
        return Unauthorized;
      }
      if !AcceptsMediaType(req.contentType) {
        return UnsupportedMediaType;
      }
      if TooLarge(req.size) {
        return PayloadTooLarge;
      }
      if req.table.None? {
        return CsvUnreadable;
      }
      var table := req.table.value;
      var problems := ValidateColumns(table.columns);
      if problems != [] {
        return Unprocessable(problems);
      }
      var imported, skipped, rowErrors := IngestRows(PipelineOf(env, req.today), table.rows, stamps);
      if rowErrors != [] {
        return Unprocessable(rowErrors);
      }
      return Imported(imported, skipped);
    }

    /** The row loop of the upload: each row is read and either reported,
        skipped as a duplicate or inserted, exactly as `IngestAll` says. */
    method IngestRows(p: Pipeline, rows: seq<Row>, stamps: nat -> Stamp)
      returns (imported: nat, skipped: nat, rowErrors: seq<string>)
      requires Valid() && p.md5 == env.md5
      modifies this
      ensures Valid()
      ensures old(records) <= records
      ensures Tally(imported, skipped, rowErrors, records) == IngestAll(p, Start(old(records)), rows, stamps)
    {
      imported, skipped, rowErrors := 0, 0, [];
      var i := 0;
      while i < |rows|
        invariant 0 <= i <= |rows|
        invariant Tally(imported, skipped, rowErrors, records)
               == IngestAll(p, Start(old(records)), rows[..i], stamps)
      {
        ghost var before := Tally(imported, skipped, rowErrors, records);
        var row := rows[i];
        match p.read(row) {
          case Err(reason) =>
            rowErrors := rowErrors + [RowMessage(i, reason)];
          case Ok(f) =>
            var key := Key(p.md5, f);
            var existing := FindByKey(records, key);
            if existing.Some? {
              skipped := skipped + 1;
            } else {
              InsertOne(NewRecord(f, key, stamps(i)));
              imported := imported + 1;
            }
        }
        assert Tally(imported, skipped, rowErrors, records) == Step(p, before, row, i, stamps(i));
        assert rows[..i + 1][..i] == rows[..i];
        i := i + 1;
      }
      assert rows[..i] == rows;
      IngestGrows(p, Start(old(records)), rows, stamps);
      IngestKeepsKeys(p, Start(old(records)), rows, stamps);
    }
  }

  // ----- what the row loop guarantees, for any reader -----

  /** One step leaves the store as it was, or appends the new record of a
      readable row whose key was not stored yet. */
  lemma StepStore(p: Pipeline, t: Tally, row: Row, index: nat, stamp: Stamp)
    ensures var s := Step(p, t, row, index, stamp).store;
      s == t.store
      || (p.read(row).Ok? && !HasKey(t.store, Key(p.md5, p.read(row).value))
          && s == t.store + [NewRecord(p.read(row).value, Key(p.md5, p.read(row).value), stamp)])
  {
  }

  /** Every row moves exactly one counter (imported, skipped or errors), and
      the store only grows, by one record per import. */
  lemma {:induction false} IngestAccounting(p: Pipeline, t0: Tally, rows: seq<Row>, stamps: nat -> Stamp)
    ensures var t := IngestAll(p, t0, rows, stamps);
      t.imported + t.skipped + |t.errors| == t0.imported + t0.skipped + |t0.errors| + |rows|
      && t.imported >= t0.imported && t.skipped >= t0.skipped
      && |t.store| == |t0.store| + (t.imported - t0.imported)
    decreases |rows|
  {
    if |rows| > 0 {
      IngestAccounting(p, t0, rows[..|rows| - 1], stamps);
    }
  }

  /** Records already stored are never changed or removed: the old store is
      a prefix of the new one, and the error list only grows too. */
  lemma {:induction false} IngestGrows(p: Pipeline, t0: Tally, rows: seq<Row>, stamps: nat -> Stamp)
    ensures var t := IngestAll(p, t0, rows, stamps);
      t0.store <= t.store && t0.errors <= t.errors
    decreases |rows|
  {
    if |rows| > 0 {
      IngestGrows(p, t0, rows[..|rows| - 1], stamps);
    }
  }

  /** Keys stay unique and each record keeps the key of its own fields. */
  lemma {:induction false} IngestKeepsKeys(p: Pipeline, t0: Tally, rows: seq<Row>, stamps: nat -> Stamp)
    requires UniqueKeys(t0.store) && KeysMatch(p.md5, t0.store)
    ensures var t := IngestAll(p, t0, rows, stamps);
      UniqueKeys(t.store) && KeysMatch(p.md5, t.store)
    decreases |rows|
  {
    if |rows| > 0 {
      var k := |rows| - 1;
      var before := IngestAll(p, t0, rows[..k], stamps);
      IngestKeepsKeys(p, t0, rows[..k], stamps);
      StepKeepsKeys(p, before, rows[k], k, stamps(k));
    }
  }

  /** One step keeps the keys unique and matching. */
  lemma StepKeepsKeys(p: Pipeline, t: Tally, row: Row, index: nat, stamp: Stamp)
    requires UniqueKeys(t.store) && KeysMatch(p.md5, t.store)
    ensures var s := Step(p, t, row, index, stamp).store;
      UniqueKeys(s) && KeysMatch(p.md5, s)
  {
    StepStore(p, t, row, index, stamp);
    if p.read(row).Ok? {
      var f := p.read(row).value;
      if !HasKey(t.store, Key(p.md5, f)) {
        AppendKeepsKeys(p.md5, t.store, NewRecord(f, Key(p.md5, f), stamp));
      }
    }
  }

  /** Appending a record whose key is its own hash and not yet stored keeps
      the keys unique and matching. */
  lemma AppendKeepsKeys(md5: Digest, store: seq<Transaction>, t: Transaction)
    requires UniqueKeys(store) && KeysMatch(md5, store)
    requires !HasKey(store, t.hashKey)
    requires t.hashKey == GenerateHash(md5, t.date, t.description, t.amount, t.currency)
    ensures UniqueKeys(store + [t]) && KeysMatch(md5, store + [t])
  {
    var s := store + [t];
    forall i, j | 0 <= i < j < |s|
      ensures s[i].hashKey != s[j].hashKey
    {
      assert s[i] == store[i];
      if j < |store| {
        assert s[j] == store[j];
      }
    }
  }

  /** The errors do not depend on the store or on earlier rows: they are
      exactly the messages of the failing rows, in file order, and every
      row is attempted whatever failed before it. */
  lemma {:induction false} IngestErrors(p: Pipeline, t0: Tally, rows: seq<Row>, stamps: nat -> Stamp)
    ensures IngestAll(p, t0, rows, stamps).errors == t0.errors + RowErrors(p, rows)
    decreases |rows|
  {
    if |rows| > 0 {
      IngestErrors(p, t0, rows[..|rows| - 1], stamps);
    }
  }

  /** No row error exactly when every row can be read. */
  lemma {:induction false} RowErrorsEmpty(p: Pipeline, rows: seq<Row>)
    ensures RowErrors(p, rows) == [] <==> AllRowsRead(p, rows)
    decreases |rows|
  {
    if |rows| > 0 {
      var k := |rows| - 1;
      RowErrorsEmpty(p, rows[..k]);
      assert forall i | 0 <= i < k :: rows[..k][i] == rows[i];
    }
  }

  /** After the loop, the key of every readable row is in the store. */
  lemma {:induction false} IngestStoresKeys(p: Pipeline, t0: Tally, rows: seq<Row>, stamps: nat -> Stamp, i: nat, key: string)
    requires i < |rows| && RowHasKey(p, rows[i], key)
    ensures HasKey(IngestAll(p, t0, rows, stamps).store, key)
    decreases |rows|
  {
    var k := |rows| - 1;
    var before := IngestAll(p, t0, rows[..k], stamps);
    IngestAllLast(p, t0, rows, stamps);
    if i < k {
      assert rows[..k][i] == rows[i];
      IngestStoresKeys(p, t0, rows[..k], stamps, i, key);
      StepKeepsHasKey(p, before, rows[k], k, stamps(k), key);
    } else {
      assert i == k;
      StepStoresRowKey(p, before, rows[k], k, stamps(k), key);
    }
  }

  /** The fold's last step, spelled out. */
  lemma IngestAllLast(p: Pipeline, t0: Tally, rows: seq<Row>, stamps: nat -> Stamp)
    requires |rows| > 0
    ensures IngestAll(p, t0, rows, stamps)
         == Step(p, IngestAll(p, t0, rows[..|rows| - 1], stamps), rows[|rows| - 1], |rows| - 1, stamps(|rows| - 1))
  {
  }

  /** A stored key stays stored across one row. */
  lemma StepKeepsHasKey(p: Pipeline, t: Tally, row: Row, index: nat, stamp: Stamp, key: string)
    requires HasKey(t.store, key)
    ensures HasKey(Step(p, t, row, index, stamp).store, key)
  {
    StepCounts(p, t, row, index, stamp);
    HasKeyGrows(t.store, Step(p, t, row, index, stamp).store, key);
  }

  /** After one readable row its key is stored. */
  lemma StepStoresRowKey(p: Pipeline, t: Tally, row: Row, index: nat, stamp: Stamp, key: string)
    requires RowHasKey(p, row, key)
    ensures HasKey(Step(p, t, row, index, stamp).store, key)
  {
    if HasKey(t.store, key) {
      StepKeepsHasKey(p, t, row, index, stamp, key);
    } else {
      StepStore(p, t, row, index, stamp);
      var after := Step(p, t, row, index, stamp).store;
      assert after[|t.store|].hashKey == key;
    }
  }

  /** A key stays stored when the store grows. */
  lemma HasKeyGrows(s1: seq<Transaction>, s2: seq<Transaction>, key: string)
    requires s1 <= s2 && HasKey(s1, key)
    ensures HasKey(s2, key)
  {
    var j :| 0 <= j < |s1| && s1[j].hashKey == key;
    assert s2[j] == s1[j];
  }

  /** Every key in the store after the loop was there before or is the key
      of one of the rows. */
  lemma {:induction false} IngestKeysFrom(p: Pipeline, t0: Tally, rows: seq<Row>, stamps: nat -> Stamp, key: string)
    requires HasKey(IngestAll(p, t0, rows, stamps).store, key)
    ensures HasKey(t0.store, key) || exists i | 0 <= i < |rows| :: RowHasKey(p, rows[i], key)
    decreases |rows|
  {
    if |rows| > 0 {
      var k := |rows| - 1;
      var before := IngestAll(p, t0, rows[..k], stamps);
      var after := IngestAll(p, t0, rows, stamps);
      assert after == Step(p, before, rows[k], k, stamps(k));
      StepStore(p, before, rows[k], k, stamps(k));
      var j :| 0 <= j < |after.store| && after.store[j].hashKey == key;
      if j < |before.store| {
        assert before.store[j] == after.store[j];
        IngestKeysFrom(p, t0, rows[..k], stamps, key);
        if !HasKey(t0.store, key) {
          var i :| 0 <= i < k && RowHasKey(p, rows[..k][i], key);
          assert rows[..k][i] == rows[i];
        }
      } else {
        assert RowHasKey(p, rows[k], key);
      }
    }
  }

  /** Rows whose keys are all stored already are all skipped, and the store
      is left as it was. */
  lemma {:induction false} IngestKnownRows(p: Pipeline, t0: Tally, rows: seq<Row>, stamps: nat -> Stamp)
    requires AllRowsRead(p, rows)
    requires forall i | 0 <= i < |rows| :: HasKey(t0.store, Key(p.md5, p.read(rows[i]).value))
    ensures IngestAll(p, t0, rows, stamps) == t0.(skipped := t0.skipped + |rows|)
    decreases |rows|
  {
    if |rows| > 0 {
      var k := |rows| - 1;
      assert forall i | 0 <= i < k :: rows[..k][i] == rows[i];
      IngestKnownRows(p, t0, rows[..k], stamps);
    }
  }

  /** Running the same rows a second time, after a run without row errors,
      imports nothing and skips every row: re-ingestion is idempotent. */
  lemma ReingestSkipsAll(p: Pipeline, s0: seq<Transaction>, rows: seq<Row>, f1: nat -> Stamp, f2: nat -> Stamp)
    requires IngestAll(p, Start(s0), rows, f1).errors == []
    ensures var s1 := IngestAll(p, Start(s0), rows, f1).store;
      IngestAll(p, Start(s1), rows, f2) == Tally(0, |rows|, [], s1)
  {
    var s1 := IngestAll(p, Start(s0), rows, f1).store;
    IngestErrors(p, Start(s0), rows, f1);
    RowErrorsEmpty(p, rows);
    forall i | 0 <= i < |rows|
      ensures HasKey(s1, Key(p.md5, p.read(rows[i]).value))
    {
      IngestStoresKeys(p, Start(s0), rows, f1, i, Key(p.md5, p.read(rows[i]).value));
    }
    IngestKnownRows(p, Start(s1), rows, f2);
  }

  /** The number of rows that can be read. */
  function Readable(p: Pipeline, rows: seq<Row>): nat
    decreases |rows|
  {
    if |rows| == 0 then 0
    else
      var k := |rows| - 1;
      Readable(p, rows[..k]) + if p.read(rows[k]).Ok? then 1 else 0
  }

  /** Rows whose readable keys are all stored already change nothing but
      the counters and the errors: every readable row is skipped and every
      other row reports its message. */
  lemma {:induction false} KnownRowsWithErrors(p: Pipeline, t0: Tally, rows: seq<Row>, stamps: nat -> Stamp)
    requires forall i | 0 <= i < |rows| ::
      p.read(rows[i]).Ok? ==> HasKey(t0.store, Key(p.md5, p.read(rows[i]).value))
    ensures IngestAll(p, t0, rows, stamps)
         == t0.(skipped := t0.skipped + Readable(p, rows), errors := t0.errors + RowErrors(p, rows))
    decreases |rows|
  {
    if |rows| == 0 {
      assert t0.errors + [] == t0.errors;
    } else {
      var k := |rows| - 1;
      var prefix := rows[..k];
      assert forall i | 0 <= i < k :: prefix[i] == rows[i];
      KnownRowsWithErrors(p, t0, prefix, stamps);
      var before := IngestAll(p, t0, prefix, stamps);
      KnownRowStep(p, before, rows[k], k, stamps(k));
      IngestAllLast(p, t0, rows, stamps);
      assert Readable(p, rows) == Readable(p, prefix) + if p.read(rows[k]).Ok? then 1 else 0;
      assert RowErrors(p, rows) == RowErrors(p, prefix) + RowError(p, rows[k], k);
      assert t0.errors + RowErrors(p, prefix) + RowError(p, rows[k], k)
          == t0.errors + RowErrors(p, rows);
    }
  }

  /** One row whose key, if it reads, is stored already: it is skipped, or
      it reports its message. */
  lemma KnownRowStep(p: Pipeline, t: Tally, row: Row, index: nat, stamp: Stamp)
    requires p.read(row).Ok? ==> HasKey(t.store, Key(p.md5, p.read(row).value))
    ensures Step(p, t, row, index, stamp)
         == t.(skipped := t.skipped + (if p.read(row).Ok? then 1 else 0),
               errors := t.errors + RowError(p, row, index))
  {
    if p.read(row).Ok? {
      assert FindByKey(t.store, Key(p.md5, p.read(row).value)).Some?;
    }
  }

  /** Readable rows with distinct keys, none of them stored yet, are all
      imported. */
  lemma {:induction false} IngestNewRows(p: Pipeline, t0: Tally, rows: seq<Row>, stamps: nat -> Stamp)
    requires AllRowsRead(p, rows) && DistinctRowKeys(p, rows)
    requires forall i | 0 <= i < |rows| :: !HasKey(t0.store, Key(p.md5, p.read(rows[i]).value))
    ensures var t := IngestAll(p, t0, rows, stamps);
      t.imported == t0.imported + |rows| && t.skipped == t0.skipped && t.errors == t0.errors
    decreases |rows|
  {
    if |rows| > 0 {
      var k := |rows| - 1;
      var prefix := rows[..k];
      assert forall i | 0 <= i < k :: prefix[i] == rows[i];
      IngestNewRows(p, t0, prefix, stamps);
      var key := Key(p.md5, p.read(rows[k]).value);
      if HasKey(IngestAll(p, t0, prefix, stamps).store, key) {
        IngestKeysFrom(p, t0, prefix, stamps, key);
        assert false;
      }
    }
  }

  // ----- what the upload guarantees -----

  /** A successful upload accounts for every row: imported plus skipped is
      the number of rows, and the store grew by the imported records. */
  lemma UploadAccounting(env: Env, store: seq<Transaction>, req: Request, stamps: nat -> Stamp)
    requires UploadSpec(env, store, req, stamps).outcome.Imported?
    ensures var e := UploadSpec(env, store, req, stamps);
      req.table.Some? && e.outcome.imported + e.outcome.skipped == |req.table.value.rows|
      && store <= e.store && |e.store| == |store| + e.outcome.imported
  {
    IngestAccounting(PipelineOf(env, req.today), Start(store), req.table.value.rows, stamps);
    IngestGrows(PipelineOf(env, req.today), Start(store), req.table.value.rows, stamps);
  }

  /** A failed row does not undo the others: with row errors the response
      is 422 with one message per failing row, in file order, while every
      import already made stays in the store. */
  lemma UploadRowErrors(env: Env, store: seq<Transaction>, req: Request, stamps: nat -> Stamp)
    requires req.apiKey == ApiKey && AcceptsMediaType(req.contentType) && !TooLarge(req.size)
    requires req.table.Some? && ValidateColumns(req.table.value.columns) == []
    requires !AllRowsRead(PipelineOf(env, req.today), req.table.value.rows)
    ensures var e := UploadSpec(env, store, req, stamps);
      var t := IngestAll(PipelineOf(env, req.today), Start(store), req.table.value.rows, stamps);
      e == Effect(Unprocessable(RowErrors(PipelineOf(env, req.today), req.table.value.rows)), t.store)
      && store <= e.store && |e.store| == |store| + t.imported
  {
    var p := PipelineOf(env, req.today);
    var rows := req.table.value.rows;
    var t := IngestAll(p, Start(store), rows, stamps);
    IngestErrors(p, Start(store), rows, stamps);
    RowErrorsEmpty(p, rows);
    assert t.errors == RowErrors(p, rows) by {
      assert [] + RowErrors(p, rows) == RowErrors(p, rows);
    }
    assert UploadSpec(env, store, req, stamps) == Effect(Unprocessable(t.errors), t.store);
    IngestAccounting(p, Start(store), rows, stamps);
    IngestGrows(p, Start(store), rows, stamps);
  }

  /** Once every check up to the columns has passed, the upload succeeds
      exactly when every row can be read; the rows are not checked first,
      so a failing row shows only in the response. */
  lemma UploadSucceeds(env: Env, store: seq<Transaction>, req: Request, stamps: nat -> Stamp)
    requires req.apiKey == ApiKey && AcceptsMediaType(req.contentType) && !TooLarge(req.size)
    requires req.table.Some? && ValidateColumns(req.table.value.columns) == []
    ensures UploadSpec(env, store, req, stamps).outcome.Imported?
        <==> AllRowsRead(PipelineOf(env, req.today), req.table.value.rows)
  {
    var p := PipelineOf(env, req.today);
    IngestErrors(p, Start(store), req.table.value.rows, stamps);
    RowErrorsEmpty(p, req.table.value.rows);
  }

  /** Uploading the same file again on the same day, after a success,
      imports nothing, skips every row and leaves the store as it was. The
      day matters: the date parser fills missing date fields from it, so
      the same text can normalize, and hash, differently on another day. */
  lemma UploadIdempotent(env: Env, store: seq<Transaction>, req: Request, f1: nat -> Stamp, f2: nat -> Stamp)
    requires UploadSpec(env, store, req, f1).outcome.Imported?
    ensures var first := UploadSpec(env, store, req, f1);
      UploadSpec(env, first.store, req, f2)
        == Effect(Imported(0, first.outcome.imported + first.outcome.skipped), first.store)
  {
    UploadAccounting(env, store, req, f1);
    ReingestSkipsAll(PipelineOf(env, req.today), store, req.table.value.rows, f1, f2);
  }

  /** Retrying an upload refused with 422 is safe on the same day: the rows
      the first attempt stored are skipped, the same errors are reported,
      and the store is left as the first attempt left it. */
  lemma UploadRetryAfterRefusal(env: Env, store: seq<Transaction>, req: Request, f1: nat -> Stamp, f2: nat -> Stamp)
    requires UploadSpec(env, store, req, f1).outcome.Unprocessable?
    ensures var first := UploadSpec(env, store, req, f1);
      UploadSpec(env, first.store, req, f2) == Effect(first.outcome, first.store)
  {
    var first := UploadSpec(env, store, req, f1);
    var rows := req.table.value.rows;
    if ValidateColumns(req.table.value.columns) == [] {
      var p := PipelineOf(env, req.today);
      var t := IngestAll(p, Start(store), rows, f1);
      IngestErrors(p, Start(store), rows, f1);
      assert first == Effect(Unprocessable(RowErrors(p, rows)), t.store);
      forall i | 0 <= i < |rows| && p.read(rows[i]).Ok?
        ensures HasKey(t.store, Key(p.md5, p.read(rows[i]).value))
      {
        IngestStoresKeys(p, Start(store), rows, f1, i, Key(p.md5, p.read(rows[i]).value));
      }
      KnownRowsWithErrors(p, Start(t.store), rows, f2);
    }
  }

  /** A file of readable rows with distinct keys, none stored yet, is
      imported in full: `K` imported and none skipped (and, by
      `UploadIdempotent`, none imported and `K` skipped the second time). */
  lemma UploadNewRows(env: Env, store: seq<Transaction>, req: Request, stamps: nat -> Stamp)
    requires req.apiKey == ApiKey && AcceptsMediaType(req.contentType) && !TooLarge(req.size)
    requires req.table.Some? && ValidateColumns(req.table.value.columns) == []
    requires AllRowsRead(PipelineOf(env, req.today), req.table.value.rows)
    requires DistinctRowKeys(PipelineOf(env, req.today), req.table.value.rows)
    requires forall i | 0 <= i < |req.table.value.rows| ::
      !HasKey(store, Key(env.md5, ExtractRow(env, req.today, req.table.value.rows[i]).value))
    ensures UploadSpec(env, store, req, stamps).outcome == Imported(|req.table.value.rows|, 0)
  {
    IngestNewRows(PipelineOf(env, req.today), Start(store), req.table.value.rows, stamps);
  }

  /** A content type without the letter `c`, in either case, fails with
      415 before anything is read. */
  lemma NoLetterCRejected(env: Env, store: seq<Transaction>, req: Request, stamps: nat -> Stamp)
    requires req.apiKey == ApiKey && req.contentType.Some?
    requires 'c' !in req.contentType.value && 'C' !in req.contentType.value
    ensures UploadSpec(env, store, req, stamps) == Effect(UnsupportedMediaType, store)
  {
    var lowered := Lower(req.contentType.value);
    LowerKeepsOut(req.contentType.value, 'c');
    forall i ensures !OccursAt(lowered, "csv", i) {
      if 0 <= i <= |lowered| - 3 {
        assert lowered[i..i + 3][0] == lowered[i];
      }
    }
    ContainsAt(lowered, "csv");
  }

  /** In particular `text/plain` is refused with 415. */
  lemma PlainTextRejected(env: Env, store: seq<Transaction>, req: Request, stamps: nat -> Stamp)
    requires req.apiKey == ApiKey && req.contentType == Some("text/plain")
    ensures UploadSpec(env, store, req, stamps) == Effect(UnsupportedMediaType, store)
  {
    NoLetterCRejected(env, store, req, stamps);
  }
}
