/** The API server's four in-memory stores (`formulas`, `calculation_history`,
    `uploaded_data`, `data_validation_summary`) and the handlers that change
    them: the file upload with its column check and row normalisation, formula
    creation, price calculation with compliance classification, and the
    reports summary. Parsing a file into a table is left to the inputs. */
module Backend {
  import opened Common
  import opened Numerals
  import opened Api

  /** An `HTTPException`: status code and `detail`. */
  datatype HttpError = HttpError(status: nat, detail: string)

  datatype Result<+T> = Ok(value: T) | Err(error: HttpError)

  // ---------------------------------------------------------------------------
  // The uploaded table
  // ---------------------------------------------------------------------------

  /** One cell of the pandas frame: text, a number together with the text
      Python's `str()` gives for it, or a missing value (NaN). */
  datatype Cell = Text(s: string) | Number(x: real, repr: string) | Missing

  /** The frame the reader produced: its header, its rows keyed by the file's
      column names, and `len(df[df.duplicated()])`. */
  datatype Frame = Frame(columns: seq<string>, rows: seq<map<string, Cell>>, duplicateRows: nat)

  datatype ReadOutcome = Read(frame: Frame) | ReadError(message: string)

  /** An uploaded file: its name, and what `pd.read_csv` and `pd.read_excel`
      make of its bytes. */
  datatype UploadRequest = UploadRequest(filename: string, asCsv: ReadOutcome, asExcel: ReadOutcome)

  /** The body of a successful upload. */
  datatype UploadReply = UploadReply(message: string, rowCount: nat, data: seq<Row>, summary: ValidationSummary)

  const InvalidFormatMessage := "Invalid file format. Please upload a CSV, XLS, or XLSX file."
  const NoValidDataMessage := "No valid data could be processed from the file"

  /** `file.filename.endswith(('.csv', '.xls', '.xlsx'))`, case-sensitive. */
  predicate HasAcceptedSuffix(filename: string)
  {
    EndsWith(filename, ".csv") || EndsWith(filename, ".xls") || EndsWith(filename, ".xlsx")
  }

  /** `read_csv` for names ending in `.csv`, `read_excel` for the rest. */
  function ReadFile(request: UploadRequest): ReadOutcome
  {
    if EndsWith(request.filename, ".csv") then request.asCsv else request.asExcel
  }

  /** `column_mapping`. */
  const ColumnMapping: map<string, string> := map[
    "Drug Name" := "Product",
    "Manufacturer" := "Manufacturer",
    "Sales Year" := "Date",
    "Customer Category" := "Customer",
    "Sales Region" := "Transaction Type",
    "Total Sales (USD)" := "Price",
    "Discount Percentage (%)" := "Discount",
    "Pricing Compliance Status" := "Status",
    "Regulatory Price Limit (USD)" := "Regulatory Limit",
    "Effective Price After Discounts (USD)" := "Effective Price"]

  /** The name `df.rename(columns=column_mapping)` gives a column. */
  function Renamed(column: string): string
  {
    if column in ColumnMapping then ColumnMapping[column] else column
  }

  /** `required_columns`. The two price-limit columns of the mapping are not in it. */
  const RequiredColumns: seq<string> := [
    "Drug Name", "Manufacturer", "Sales Year", "Customer Category",
    "Sales Region", "Total Sales (USD)", "Discount Percentage (%)",
    "Pricing Compliance Status"]

  /** `[col for col in required_columns if col not in df.columns]`. */
  function MissingColumns(columns: seq<string>): seq<string>
  {
    Select(RequiredColumns, (c: string) => c !in columns)
  }

  /** The missing columns are exactly the required ones absent from the file,
      in the order of `required_columns`. */
  lemma MissingColumnsSpec(columns: seq<string>)
    ensures forall c :: c in MissingColumns(columns) <==> c in RequiredColumns && c !in columns
    ensures IsSubsequence(MissingColumns(columns), RequiredColumns)
    ensures MissingColumns(columns) == [] <==> forall c :: c in RequiredColumns ==> c in columns
  {
    SelectIsSubsequence(RequiredColumns, (c: string) => c !in columns);
  }

  function MissingColumnsMessage(missing: seq<string>, columns: seq<string>): string
  {
    "Missing required columns: " + Join(missing, ", ") + "\nAvailable columns in file: " + Join(columns, ", ")
  }

  /** The column of the file that `df[target]` reads after the rename: the
      first one renamed to `target`. */
  function SourceColumn(columns: seq<string>, target: string): (r: Option<string>)
    ensures r.Some? ==> r.value in columns && Renamed(r.value) == target
    ensures r.None? <==> forall c :: c in columns ==> Renamed(c) != target
  {
    if columns == [] then None
    else if Renamed(columns[0]) == target then Some(columns[0])
    else SourceColumn(columns[1..], target)
  }

  /** `row[target]` in the renamed frame; `None` where it raises `KeyError`. */
  function CellAt(columns: seq<string>, row: map<string, Cell>, target: string): Option<Cell>
  {
    match SourceColumn(columns, target)
    case None => None
    case Some(c) => if c in row then Some(row[c]) else None
  }

  /** Python's `str()` of a cell. */
  function StrOfCell(c: Cell): string
  {
    match c
    case Text(s) => s
    case Number(_, repr) => repr
    case Missing => "nan"
  }

  /** `float(cell) if pd.notnull(cell) else 0.0`; `None` where `float` raises. */
  function FloatOrZero(c: Cell): Option<real>
  {
    match c
    case Missing => Some(0.0)
    case Number(x, _) => Some(x)
    case Text(s) => PyFloat(s)
  }

  /** The columns a processed row reads, in the order the source reads them. */
  const ReadColumns: seq<string> := [
    "Date", "Product", "Customer", "Transaction Type", "Price", "Discount",
    "Status", "Manufacturer", "Regulatory Limit", "Effective Price"]

  /** The columns converted with `float`. */
  const AmountColumns: seq<string> := ["Price", "Regulatory Limit", "Effective Price"]

  /** The dictionary appended to `processed_data`, from the cells read and the
      three converted amounts. */
  function ProcessedRow(date: Cell, product: Cell, customer: Cell, kind: Cell, discount: Cell,
                        status: Cell, maker: Cell, price: real, limit: real, effective: real): Row
  {
    map[
      "Date" := Str(StrOfCell(date)),
      "Product" := Str(StrOfCell(product)),
      "Customer" := Str(StrOfCell(customer)),
      "Transaction Type" := Str(StrOfCell(kind)),
      "Quantity" := Num(1.0),
      "Price" := Num(price),
      "Discount" := Str(if discount.Missing? then "--" else StrOfCell(discount)),
      "Status" := Str(StrOfCell(status)),
      "Manufacturer" := Str(StrOfCell(maker)),
      "Regulatory Limit" := Num(limit),
      "Effective Price" := Num(effective)]
  }

  /** The body of the `try` at lines 127-141 for one frame row, given how
      `row[key]` reads the row: the processed row, or `None` when a lookup
      (`KeyError`) or a conversion (`ValueError`) raised and the row is skipped. */
  function NormaliseCells(get: string -> Option<Cell>): Option<Row>
  {
    var date, product, customer, kind := get("Date"), get("Product"), get("Customer"), get("Transaction Type");
    var price, discount, status, maker := get("Price"), get("Discount"), get("Status"), get("Manufacturer");
    var limit, effective := get("Regulatory Limit"), get("Effective Price");
    if date.None? || product.None? || customer.None? || kind.None? || price.None? || discount.None? ||
       status.None? || maker.None? || limit.None? || effective.None?
    then None
    else
      var p, l, e := FloatOrZero(price.value), FloatOrZero(limit.value), FloatOrZero(effective.value);
      if p.None? || l.None? || e.None? then None
      else Some(ProcessedRow(date.value, product.value, customer.value, kind.value, discount.value,
                             status.value, maker.value, p.value, l.value, e.value))
  }

  /** One row of the renamed frame, processed. */
  function NormaliseRow(columns: seq<string>, row: map<string, Cell>): Option<Row>
  {
    NormaliseCells((t: string) => CellAt(columns, row, t))
  }

  /** A processed row has the eleven keys of the source, Quantity 1, the
      amounts given, and "--" for a missing Discount. */
  lemma ProcessedRowFields(date: Cell, product: Cell, customer: Cell, kind: Cell, discount: Cell,
                           status: Cell, maker: Cell, price: real, limit: real, effective: real)
    ensures var r := ProcessedRow(date, product, customer, kind, discount, status, maker, price, limit, effective);
      && r.Keys == set k | k in ProcessedColumns
      && r["Quantity"] == Num(1.0)
      && r["Price"] == Num(price) && r["Regulatory Limit"] == Num(limit) && r["Effective Price"] == Num(effective)
      && r["Discount"] == Str(if discount.Missing? then "--" else StrOfCell(discount))
      && r["Product"] == Str(StrOfCell(product))
  {
  }

  /** No value of a processed row is null, and its Status is the status text. */
  lemma ProcessedRowValues(date: Cell, product: Cell, customer: Cell, kind: Cell, discount: Cell,
                           status: Cell, maker: Cell, price: real, limit: real, effective: real)
    ensures var r := ProcessedRow(date, product, customer, kind, discount, status, maker, price, limit, effective);
      && r["Status"] == Str(StrOfCell(status))
      && (forall k :: k in r ==> !r[k].Null?)
  {
  }

  /** Every column a row reads is there. */
  predicate AllRead(get: string -> Option<Cell>)
  {
    forall t :: t in ReadColumns ==> get(t).Some?
  }

  /** The cell holds text that `float` rejects. */
  predicate Rejected(c: Option<Cell>)
  {
    c.Some? && FloatOrZero(c.value).None?
  }

  /** One of the three amounts holds text that `float` rejects. */
  predicate SomeAmountRejected(get: string -> Option<Cell>)
  {
    Rejected(get("Price")) || Rejected(get("Regulatory Limit")) || Rejected(get("Effective Price"))
  }

  /** A row one of whose ten columns cannot be found is skipped. */
  lemma SkippedWhenColumnMissing(get: string -> Option<Cell>)
    requires !AllRead(get)
    ensures NormaliseCells(get).None?
  {
    var t :| t in ReadColumns && get(t).None?;
    assert t in {"Date", "Product", "Customer", "Transaction Type", "Price", "Discount",
                 "Status", "Manufacturer", "Regulatory Limit", "Effective Price"};
  }

  /** A row whose ten columns are all found is skipped exactly when one of
      its amounts is rejected. */
  lemma SkippedIffAmountRejected(get: string -> Option<Cell>)
    requires AllRead(get)
    ensures NormaliseCells(get).None? <==> SomeAmountRejected(get)
  {
    assert get("Price").Some? && get("Regulatory Limit").Some? && get("Effective Price").Some? by {
      assert "Price" in ReadColumns && "Regulatory Limit" in ReadColumns && "Effective Price" in ReadColumns;
    }
  }

  /** A row is skipped exactly when one of the ten columns it reads cannot be
      found or one of the three amounts holds text that `float` rejects. */
  lemma NormaliseRowSkips(get: string -> Option<Cell>)
    ensures NormaliseCells(get).None? <==> !AllRead(get) || SomeAmountRejected(get)
  {
    if AllRead(get) {
      SkippedIffAmountRejected(get);
    } else {
      SkippedWhenColumnMissing(get);
    }
  }

  /** Helper: unfolds `NormaliseCells` for a kept row. */
  lemma KeptRowIsBuilt(get: string -> Option<Cell>)
    requires NormaliseCells(get).Some?
    ensures && get("Date").Some? && get("Product").Some? && get("Customer").Some? && get("Transaction Type").Some?
            && get("Price").Some? && get("Discount").Some? && get("Status").Some? && get("Manufacturer").Some?
            && get("Regulatory Limit").Some? && get("Effective Price").Some?
    ensures && FloatOrZero(get("Price").value).Some? && FloatOrZero(get("Regulatory Limit").value).Some?
            && FloatOrZero(get("Effective Price").value).Some?
    ensures NormaliseCells(get).value == ProcessedRow(
      get("Date").value, get("Product").value, get("Customer").value, get("Transaction Type").value,
      get("Discount").value, get("Status").value, get("Manufacturer").value,
      FloatOrZero(get("Price").value).value, FloatOrZero(get("Regulatory Limit").value).value,
      FloatOrZero(get("Effective Price").value).value)
  {
  }

  /** A kept row has the eleven keys, Quantity 1, a string Product, the three
      amounts as converted (0.0 where the cell is missing), and "--" for a
      missing Discount. */
  lemma KeptRowFields(get: string -> Option<Cell>)
    requires NormaliseCells(get).Some?
    ensures var r := NormaliseCells(get).value;
      && r.Keys == set k | k in ProcessedColumns
      && r["Quantity"] == Num(1.0)
      && r["Product"] == Str(StrOfCell(get("Product").value))
      && r["Price"] == Num(FloatOrZero(get("Price").value).value)
      && r["Regulatory Limit"] == Num(FloatOrZero(get("Regulatory Limit").value).value)
      && r["Effective Price"] == Num(FloatOrZero(get("Effective Price").value).value)
      && (get("Price").value.Missing? ==> r["Price"] == Num(0.0))
      && (get("Regulatory Limit").value.Missing? ==> r["Regulatory Limit"] == Num(0.0))
      && (get("Effective Price").value.Missing? ==> r["Effective Price"] == Num(0.0))
      && r["Discount"] == Str(if get("Discount").value.Missing? then "--" else StrOfCell(get("Discount").value))
  {
    KeptRowIsBuilt(get);
    ProcessedRowFields(get("Date").value, get("Product").value, get("Customer").value, get("Transaction Type").value,
      get("Discount").value, get("Status").value, get("Manufacturer").value,
      FloatOrZero(get("Price").value).value, FloatOrZero(get("Regulatory Limit").value).value,
      FloatOrZero(get("Effective Price").value).value);
  }

  /** No value of a kept row is null, and its Status is the file's status text. */
  lemma KeptRowValues(get: string -> Option<Cell>)
    requires NormaliseCells(get).Some?
    ensures var r := NormaliseCells(get).value;
      && r["Status"] == Str(StrOfCell(get("Status").value))
      && (forall k :: k in r ==> !r[k].Null?)
  {
    KeptRowIsBuilt(get);
    ProcessedRowValues(get("Date").value, get("Product").value, get("Customer").value, get("Transaction Type").value,
      get("Discount").value, get("Status").value, get("Manufacturer").value,
      FloatOrZero(get("Price").value).value, FloatOrZero(get("Regulatory Limit").value).value,
      FloatOrZero(get("Effective Price").value).value);
  }

  /** A row that has all ten columns, whose amounts are numbers or empty, is kept. */
  lemma WellFormedRowKept(get: string -> Option<Cell>)
    requires AllRead(get)
    requires forall t :: t in AmountColumns ==> !get(t).value.Text?
    ensures NormaliseCells(get).Some?
  {
    NormaliseRowSkips(get);
    assert "Price" in AmountColumns && "Regulatory Limit" in AmountColumns && "Effective Price" in AmountColumns;
  }

  /** The keys of a processed row, in the order the source writes them. */
  const ProcessedColumns: seq<string> := [
    "Date", "Product", "Customer", "Transaction Type", "Quantity", "Price", "Discount",
    "Status", "Manufacturer", "Regulatory Limit", "Effective Price"]

  /** `processed_data` after the loop: the rows that did not raise, in order. */
  function NormalisedRows(columns: seq<string>, rows: seq<map<string, Cell>>): seq<Row>
  {
    FilterMap(rows, (row: map<string, Cell>) => NormaliseRow(columns, row))
  }

  /** Nothing is processed exactly when every row raised. */
  lemma NoRowProcessed(columns: seq<string>, rows: seq<map<string, Cell>>)
    ensures NormalisedRows(columns, rows) == [] <==> forall i :: 0 <= i < |rows| ==> NormaliseRow(columns, rows[i]).None?
  {
    FilterMapEmpty(rows, (row: map<string, Cell>) => NormaliseRow(columns, row));
  }

  /** `Regulatory Price Limit (USD)` is not required, but every row reads
      `Regulatory Limit`: a file without it passes the column check and then
      has every row skipped. */
  lemma NoLimitColumnSkipsEveryRow(columns: seq<string>, rows: seq<map<string, Cell>>)
    requires forall c :: c in columns ==> Renamed(c) != "Regulatory Limit"
    ensures NormalisedRows(columns, rows) == []
  {
    forall i | 0 <= i < |rows| ensures NormaliseRow(columns, rows[i]).None? {
      assert CellAt(columns, rows[i], "Regulatory Limit").None?;
    }
    NoRowProcessed(columns, rows);
  }

  /** The `validation_summary` of lines 118-122: rows whose Discount is
      missing, rows whose Customer is "Government", and the duplicate count. */
  function Validation(frame: Frame): ValidationSummary
  {
    ValidationSummary(
      CountWhere(frame.rows, (r: map<string, Cell>) => CellAt(frame.columns, r, "Discount") == Some(Missing)),
      CountWhere(frame.rows, (r: map<string, Cell>) => CellAt(frame.columns, r, "Customer") == Some(Text("Government"))),
      frame.duplicateRows)
  }

  /** Each count is at most the number of rows; the Discount count is 0 exactly
      when no row has an empty Discount and equals the number of rows exactly
      when every row has one; the same holds of the Government count. */
  lemma ValidationCounts(frame: Frame)
    ensures Validation(frame).missingDiscounts <= |frame.rows|
    ensures Validation(frame).govtTransactions <= |frame.rows|
    ensures Validation(frame).missingDiscounts == 0 <==>
      forall i :: 0 <= i < |frame.rows| ==> CellAt(frame.columns, frame.rows[i], "Discount") != Some(Missing)
    ensures Validation(frame).missingDiscounts == |frame.rows| <==>
      forall i :: 0 <= i < |frame.rows| ==> CellAt(frame.columns, frame.rows[i], "Discount") == Some(Missing)
    ensures Validation(frame).govtTransactions == 0 <==>
      forall i :: 0 <= i < |frame.rows| ==> CellAt(frame.columns, frame.rows[i], "Customer") != Some(Text("Government"))
    ensures Validation(frame).govtTransactions == |frame.rows| <==>
      forall i :: 0 <= i < |frame.rows| ==> CellAt(frame.columns, frame.rows[i], "Customer") == Some(Text("Government"))
    ensures Validation(frame).duplicateTransactions == frame.duplicateRows
  {
    CountWhereExtremes(frame.rows, (r: map<string, Cell>) => CellAt(frame.columns, r, "Discount") == Some(Missing));
    CountWhereExtremes(frame.rows, (r: map<string, Cell>) => CellAt(frame.columns, r, "Customer") == Some(Text("Government")));
  }

  /** The checks `upload_file` makes before it looks at any row: the file
      name, the reader, and the required columns. */
  function AcceptedFrame(request: UploadRequest): Result<Frame>
  {
    if !HasAcceptedSuffix(request.filename) then Err(HttpError(400, InvalidFormatMessage))
    else
      match ReadFile(request)
      case ReadError(message) => Err(HttpError(400, "Error reading file: " + message))
      case Read(frame) =>
        var missing := MissingColumns(frame.columns);
        if missing != [] then Err(HttpError(400, MissingColumnsMessage(missing, frame.columns)))
        else Ok(frame)
  }

  /** What `upload_file` answers for a frame that passed the checks. */
  function UploadFrame(frame: Frame): Result<UploadReply>
  {
    var processed := NormalisedRows(frame.columns, frame.rows);
    if processed == [] then Err(HttpError(400, NoValidDataMessage))
    else Ok(UploadReply("File processed successfully", |processed|, processed, Validation(frame)))
  }

  /** What `upload_file` answers. */
  function Upload(request: UploadRequest): Result<UploadReply>
  {
    match AcceptedFrame(request)
    case Err(e) => Err(e)
    case Ok(frame) => UploadFrame(frame)
  }

  /** A file passes the checks exactly when its name ends in `.csv`, `.xls` or
      `.xlsx` (case-sensitive), the chosen reader read a table and no required
      column is missing; every rejection is a 400. */
  lemma AcceptedFrameOutcome(request: UploadRequest)
    ensures AcceptedFrame(request).Ok? <==>
      && HasAcceptedSuffix(request.filename)
      && ReadFile(request).Read?
      && (forall c :: c in RequiredColumns ==> c in ReadFile(request).frame.columns)
    ensures AcceptedFrame(request).Ok? ==> AcceptedFrame(request).value == ReadFile(request).frame
    ensures AcceptedFrame(request).Err? ==> AcceptedFrame(request).error.status == 400
    ensures !HasAcceptedSuffix(request.filename) ==> AcceptedFrame(request) == Err(HttpError(400, InvalidFormatMessage))
  {
    if HasAcceptedSuffix(request.filename) && ReadFile(request).Read? {
      MissingColumnsSpec(ReadFile(request).frame.columns);
    }
  }

  /** Every rejection from the checks carries a non-empty message. */
  lemma AcceptedFrameErrorText(request: UploadRequest)
    ensures AcceptedFrame(request).Err? ==> AcceptedFrame(request).error.detail != []
  {
    if HasAcceptedSuffix(request.filename) {
      match ReadFile(request)
      case ReadError(message) =>
        assert ("Error reading file: " + message)[0] == 'E';
      case Read(frame) =>
        var missing := MissingColumns(frame.columns);
        assert MissingColumnsMessage(missing, frame.columns)[0] == 'M';
    }
  }

  /** An upload succeeds exactly when the file passes the checks and at least
      one row was processed; it then returns the processed rows and the
      summary of the frame. Every failure is a 400. */
  lemma UploadOutcome(request: UploadRequest)
    ensures Upload(request).Ok? <==>
      && AcceptedFrame(request).Ok?
      && NormalisedRows(ReadFile(request).frame.columns, ReadFile(request).frame.rows) != []
    ensures Upload(request).Ok? ==>
      var reply := Upload(request).value;
      && reply.data == NormalisedRows(ReadFile(request).frame.columns, ReadFile(request).frame.rows)
      && reply.rowCount == |reply.data| >= 1
      && reply.summary == Validation(ReadFile(request).frame)
    ensures Upload(request).Err? ==> Upload(request).error.status == 400
  {
    AcceptedFrameOutcome(request);
  }

  // ---------------------------------------------------------------------------
  // Formulas
  // ---------------------------------------------------------------------------

  /** The body of `POST /api/formulas`. */
  datatype FormulaInput = FormulaInput(name: string, description: string, formulaString: string)

  /** A stored formula (`formula.model_dump()`). */
  datatype FormulaRecord = FormulaRecord(name: string, description: string, formulaString: string, createdAt: Option<string>)

  /** `k` is `str(i)` for some `i` in `1..n`. */
  predicate IsIssuedId(k: string, n: nat)
  {
    |k| > 0 && AllDigits(k) && 1 <= DigitsValue(k) <= n && NatToString(DigitsValue(k)) == k
  }

  /** Every key of the store is one that `create_formula` could have issued. */
  ghost predicate IdsIssued(formulas: map<string, FormulaRecord>)
  {
    forall k :: k in formulas ==> IsIssuedId(k, |formulas|)
  }

  /** The id `str(len(formulas) + 1)` is not yet taken. */
  lemma NextIdIsFresh(formulas: map<string, FormulaRecord>)
    requires IdsIssued(formulas)
    ensures NatToString(|formulas| + 1) !in formulas
  {
    var id := NatToString(|formulas| + 1);
    NatToStringRoundTrip(|formulas| + 1);
  }

  // ---------------------------------------------------------------------------
  // Calculations
  // ---------------------------------------------------------------------------

  /** Python truthiness of a JSON value. */
  predicate Truthy(v: Value)
  {
    match v
    case Str(s) => s != []
    case Num(n) => n != 0.0
    case Null => false
  }

  /** Python's `float(v)`; `None` where it raises (`float(None)` is a `TypeError`). */
  function ValueFloat(v: Value): Option<real>
  {
    match v
    case Num(n) => Some(n)
    case Str(s) => PyFloat(s)
    case Null => None
  }

  /** `float(row[key]) if row[key] else 0.0`; `None` where it raises. */
  function AmountOrZero(row: Row, key: string): Option<real>
  {
    if key !in row then None
    else if !Truthy(row[key]) then Some(0.0)
    else ValueFloat(row[key])
  }

  /** `float(row["Discount"]) if row["Discount"] != "--" else 0.0`. */
  function DiscountPercentage(row: Row): Option<real>
  {
    if "Discount" !in row then None
    else if row["Discount"] == Str("--") then Some(0.0)
    else ValueFloat(row["Discount"])
  }

  /** `total_sales * (1 - (discount_percentage / 100))`, in exact arithmetic. */
  function EffectivePrice(totalSales: real, discountPercentage: real): real
  {
    totalSales * (1.0 - discountPercentage / 100.0)
  }

  function ComplianceStatus(effectivePrice: real, regulatoryLimit: real): string
  {
    if effectivePrice <= regulatoryLimit then "Compliant" else "Non-Compliant"
  }

  /** The dictionary appended to `results`. */
  function ResultRow(product: Value, total: real, effective: real, limit: real, discount: Value, formulaString: string): Row
  {
    map[
      "Product" := product,
      "Price" := Num(total),
      "Calculated Price" := Num(effective),
      "Regulatory Limit" := Num(limit),
      "Discount" := discount,
      "Compliance Status" := Str(ComplianceStatus(effective, limit)),
      "Formula Used" := Str(formulaString)]
  }

  /** The body of the `try` at lines 194-216 for one request row: the result
      row, or `None` where a lookup or conversion raised and the row is skipped. */
  function PriceRow(row: Row, formulaString: string): Option<Row>
  {
    var total, discount, limit := AmountOrZero(row, "Price"), DiscountPercentage(row), AmountOrZero(row, "Regulatory Limit");
    if total.None? || discount.None? || limit.None? || "Product" !in row then None
    else
      var effective := EffectivePrice(total.value, discount.value);
      Some(ResultRow(row["Product"], total.value, effective, limit.value, row["Discount"], formulaString))
  }

  /** A result row is "Compliant" exactly when its calculated price is at most
      its regulatory limit, and "Non-Compliant" otherwise; the Discount and
      Product are passed through; a "--" Discount prices as 0 %. */
  lemma PriceRowClassification(row: Row, formulaString: string)
    requires PriceRow(row, formulaString).Some?
    ensures var r := PriceRow(row, formulaString).value;
      && r["Calculated Price"].Num? && r["Regulatory Limit"].Num?
      && (r["Compliance Status"] == Str("Compliant") <==> r["Calculated Price"].n <= r["Regulatory Limit"].n)
      && (r["Compliance Status"] == Str("Non-Compliant") <==> r["Calculated Price"].n > r["Regulatory Limit"].n)
      && r["Discount"] == row["Discount"] && r["Product"] == row["Product"]
      && (row["Discount"] == Str("--") ==> r["Calculated Price"] == r["Price"])
  {
    var total, discount, limit := AmountOrZero(row, "Price"), DiscountPercentage(row), AmountOrZero(row, "Regulatory Limit");
    var effective := EffectivePrice(total.value, discount.value);
    var r := PriceRow(row, formulaString).value;
    assert r == ResultRow(row["Product"], total.value, effective, limit.value, row["Discount"], formulaString);
    assert r["Calculated Price"] == Num(effective);
    assert r["Regulatory Limit"] == Num(limit.value);
    assert r["Compliance Status"] == Str(ComplianceStatus(effective, limit.value));
    assert "Compliant" != "Non-Compliant";
  }

  /** `results` after the loop: the rows that did not raise, in order. */
  function PricedRows(data: seq<Row>, formulaString: string): seq<Row>
  {
    FilterMap(data, (row: Row) => PriceRow(row, formulaString))
  }

  /** Nothing is priced exactly when every row raised. */
  lemma NoRowPriced(data: seq<Row>, formulaString: string)
    ensures PricedRows(data, formulaString) == [] <==> forall i :: 0 <= i < |data| ==> PriceRow(data[i], formulaString).None?
  {
    FilterMapEmpty(data, (row: Row) => PriceRow(row, formulaString));
  }

  predicate HasStatus(r: Row, status: string)
  {
    Lookup(r, "Compliance Status") == Some(Str(status))
  }

  /** `sum(1 for r in results if r["Compliance Status"] == status)`. */
  function StatusCount(results: seq<Row>, status: string): nat
  {
    CountWhere(results, (r: Row) => HasStatus(r, status))
  }

  /** Every result is either compliant or not, so the two counts add up to the
      number of results. */
  lemma {:induction false} CountsAddUp(data: seq<Row>, formulaString: string)
    ensures StatusCount(PricedRows(data, formulaString), "Compliant") +
            StatusCount(PricedRows(data, formulaString), "Non-Compliant") == |PricedRows(data, formulaString)|
    decreases |data|
  {
    if data != [] {
      var pre := data[..|data| - 1];
      CountsAddUp(pre, formulaString);
      var p := PricedRows(pre, formulaString);
      var c := (r: Row) => HasStatus(r, "Compliant");
      var n := (r: Row) => HasStatus(r, "Non-Compliant");
      match PriceRow(data[|data| - 1], formulaString)
      case None =>
      case Some(r) =>
        PriceRowClassification(data[|data| - 1], formulaString);
        CountWhereConcat(p, [r], c);
        CountWhereConcat(p, [r], n);
    }
  }

  /** One entry of `calculation_history`. */
  datatype HistoryEntry = HistoryEntry(
    timestamp: string,
    formulaId: string,
    formulaName: string,
    rowsProcessed: nat,
    compliantCount: nat,
    nonCompliantCount: nat)

  const FormulaNotFound := HttpError(404, "Formula not found")

  /** The 400 "No calculations could be performed" is raised inside the `try`
      whose generic handler turns it into a 500 and prefixes the text of the
      exception (`"400: ..."`). */
  const NothingCalculated := HttpError(500, "Error performing calculations: 400: No calculations could be performed")

  /** What `calculate_prices` answers for the given store of formulas. */
  function Calculate(formulas: map<string, FormulaRecord>, request: CalculationRequest): (r: Result<CalculationResult>)
    ensures request.formulaId !in formulas ==> r == Err(FormulaNotFound)
    ensures r == Err(NothingCalculated) <==>
      request.formulaId in formulas && PricedRows(request.data, formulas[request.formulaId].formulaString) == []
    ensures request.formulaId in formulas && PricedRows(request.data, formulas[request.formulaId].formulaString) != [] ==>
      r.Ok?
    ensures r.Ok? ==>
      && request.formulaId in formulas
      && r.value.results == PricedRows(request.data, formulas[request.formulaId].formulaString)
      && 1 <= r.value.summary.totalProcessed == |r.value.results| <= |request.data|
      && r.value.summary.compliantCount == StatusCount(r.value.results, "Compliant")
      && r.value.summary.nonCompliantCount == StatusCount(r.value.results, "Non-Compliant")
      && r.value.summary.compliantCount + r.value.summary.nonCompliantCount == r.value.summary.totalProcessed
      && r.value.summary.formulaUsed == formulas[request.formulaId].formulaString
      && r.value.summary.formulaName == formulas[request.formulaId].name
    ensures r.Err? ==> r.error in {FormulaNotFound, NothingCalculated}
  {
    if request.formulaId !in formulas then Err(FormulaNotFound)
    else
      var formula := formulas[request.formulaId];
      var results := PricedRows(request.data, formula.formulaString);
      if results == [] then Err(NothingCalculated)
      else
        CountsAddUp(request.data, formula.formulaString);
        Ok(CalculationResult(results, CalculationSummary(
          |results|, StatusCount(results, "Compliant"), StatusCount(results, "Non-Compliant"),
          formula.formulaString, formula.name)))
  }

  /** A known formula with no row that could be priced ends as a 500, not a 400. */
  lemma NothingPricedIsServerError(formulas: map<string, FormulaRecord>, request: CalculationRequest)
    requires request.formulaId in formulas
    requires forall i :: 0 <= i < |request.data| ==> PriceRow(request.data[i], formulas[request.formulaId].formulaString).None?
    ensures Calculate(formulas, request) == Err(NothingCalculated)
  {
    NoRowPriced(request.data, formulas[request.formulaId].formulaString);
  }

  // ---------------------------------------------------------------------------
  // Reports
  // ---------------------------------------------------------------------------

  datatype ReportSummary = ReportSummary(totalCalculations: nat, latestCalculation: Option<HistoryEntry>)

  datatype Reports = Reports(calculations: seq<HistoryEntry>, summary: ReportSummary)

  /** `get_reports`: the whole history, its length and its last entry. The date
      parameters are accepted and not used. */
  function GetReports(history: seq<HistoryEntry>, startDate: Option<string>, endDate: Option<string>): Reports
  {
    Reports(history, ReportSummary(|history|, if history == [] then None else Some(history[|history| - 1])))
  }

  /** Every entry records at least one processed row, and its two counts add
      up to that number. */
  predicate HistoryConsistent(history: seq<HistoryEntry>)
  {
    forall i :: 0 <= i < |history| ==>
      1 <= history[i].rowsProcessed && history[i].compliantCount + history[i].nonCompliantCount == history[i].rowsProcessed
  }

  lemma HistoryAppendConsistent(history: seq<HistoryEntry>, entry: HistoryEntry)
    requires HistoryConsistent(history)
    requires 1 <= entry.rowsProcessed && entry.compliantCount + entry.nonCompliantCount == entry.rowsProcessed
    ensures HistoryConsistent(history + [entry])
  {
    assert forall i :: 0 <= i < |history| ==> (history + [entry])[i] == history[i];
  }

  /** Recording a calculation makes it the latest one the report shows, adds one
      to the total, and keeps the earlier entries in front of it. */
  lemma ReportsAfterAppend(history: seq<HistoryEntry>, entry: HistoryEntry, startDate: Option<string>, endDate: Option<string>)
    ensures GetReports(history + [entry], startDate, endDate).summary == ReportSummary(|history| + 1, Some(entry))
    ensures GetReports(history + [entry], startDate, endDate).calculations[..|history|] == history
  {
  }

  /** Over a consistent history, the latest calculation the report shows has
      counts that add up to its row count, which is at least 1. */
  lemma LatestReportConsistent(history: seq<HistoryEntry>, startDate: Option<string>, endDate: Option<string>)
    requires HistoryConsistent(history)
    ensures var latest := GetReports(history, startDate, endDate).summary.latestCalculation;
      latest.Some? ==> 1 <= latest.value.rowsProcessed == latest.value.compliantCount + latest.value.nonCompliantCount
  {
  }

  /** The report does not depend on the date parameters. */
  lemma ReportsIgnoreDates(history: seq<HistoryEntry>, startDate: Option<string>, endDate: Option<string>)
    ensures GetReports(history, startDate, endDate) == GetReports(history, None, None)
  {
  }

  // ---------------------------------------------------------------------------
  // The server state
  // ---------------------------------------------------------------------------

  /** The module-level stores of the API process. */
  class Server {
    var formulas: map<string, FormulaRecord>
    var calculationHistory: seq<HistoryEntry>
    var uploadedData: seq<Row>
    var dataValidationSummary: SummaryObject

    ghost predicate Valid()
      reads this
    {
      IdsIssued(formulas) && HistoryConsistent(calculationHistory)
    }

    constructor ()
      ensures Valid()
      ensures formulas == map[] && calculationHistory == [] && uploadedData == [] && dataValidationSummary == EmptyObject
    {
      formulas := map[];
      calculationHistory := [];
      uploadedData := [];
      dataValidationSummary := EmptyObject;
    }

    /** The loop of lines 126-145. */
    static method ProcessRows(frame: Frame) returns (processed: seq<Row>)
      ensures processed == NormalisedRows(frame.columns, frame.rows)
    {
      processed := [];
      var i := 0;
      while i < |frame.rows|
        invariant 0 <= i <= |frame.rows|
        invariant processed == NormalisedRows(frame.columns, frame.rows[..i])
      {
        assert frame.rows[..i + 1][..i] == frame.rows[..i];
        var processedRow := NormaliseRow(frame.columns, frame.rows[i]);
        if processedRow.None? {
          i := i + 1;
          continue;
        }
        processed := processed + [processedRow.value];
        i := i + 1;
      }
      assert frame.rows[..i] == frame.rows;
    }

    /** Lines 63-112 of `upload_file`: the name check, the read, and the
        required-column check. */
    static method OpenUpload(request: UploadRequest) returns (accepted: Result<Frame>)
      ensures accepted == AcceptedFrame(request)
    {
      if !HasAcceptedSuffix(request.filename) {
        return Err(HttpError(400, InvalidFormatMessage));
      }
      var contents := ReadFile(request);
      if contents.ReadError? {
        return Err(HttpError(400, "Error reading file: " + contents.message));
      }
      var frame := contents.frame;
      var missing := MissingColumns(frame.columns);
      if missing != [] {
        return Err(HttpError(400, MissingColumnsMessage(missing, frame.columns)));
      }
      accepted := Ok(frame);
    }

    /** `upload_file`: the stored rows and summary are replaced only by a
        successful upload, which needs at least one processed row. */
    method UploadFile(request: UploadRequest) returns (response: Result<UploadReply>)
      requires Valid()
      modifies this`uploadedData, this`dataValidationSummary
      ensures Valid()
      ensures response == Upload(request)
      ensures response.Ok? ==>
        uploadedData == response.value.data && dataValidationSummary == Counts(response.value.summary)
      ensures response.Err? ==>
        uploadedData == old(uploadedData) && dataValidationSummary == old(dataValidationSummary)
    {
      var accepted := OpenUpload(request);
      if accepted.Err? {
        return Err(accepted.error);
      }
      response := StoreFrame(accepted.value);
    }

    /** Lines 115-161 of `upload_file`: the rename, the summary, the row loop,
        and the update of the two stores. */
    method StoreFrame(frame: Frame) returns (response: Result<UploadReply>)
      requires Valid()
      modifies this`uploadedData, this`dataValidationSummary
      ensures Valid()
      ensures response == UploadFrame(frame)
      ensures response.Ok? ==>
        uploadedData == response.value.data && dataValidationSummary == Counts(response.value.summary)
      ensures response.Err? ==>
        uploadedData == old(uploadedData) && dataValidationSummary == old(dataValidationSummary)
    {
      var summary := Validation(frame);
      var processed := ProcessRows(frame);
      if processed == [] {
        return Err(HttpError(400, NoValidDataMessage));
      }
      uploadedData := processed;
      dataValidationSummary := Counts(summary);
      response := Ok(UploadReply("File processed successfully", |processed|, processed, summary));
    }

    /** `create_formula`: the new id is `str(len(formulas) + 1)`, not yet in
        use, and the store grows by exactly that one entry. */
    method CreateFormula(formula: FormulaInput, now: string) returns (id: string, record: FormulaRecord)
      requires Valid()
      modifies this`formulas
      ensures Valid()
      ensures id == NatToString(|old(formulas)| + 1) && id !in old(formulas)
      ensures record == FormulaRecord(formula.name, formula.description, formula.formulaString, Some(now))
      ensures formulas == old(formulas)[id := record] && |formulas| == |old(formulas)| + 1
    {
      NextIdIsFresh(formulas);
      id := NatToString(|formulas| + 1);
      record := FormulaRecord(formula.name, formula.description, formula.formulaString, Some(now));
      ghost var n := |formulas|;
      formulas := formulas[id := record];
      NatToStringRoundTrip(n + 1);
      assert forall k :: k in formulas ==> IsIssuedId(k, |formulas|) by {
        forall k | k in formulas ensures IsIssuedId(k, |formulas|) {
          if k != id {
            assert IsIssuedId(k, n);
          }
        }
      }
    }

    /** The loop of lines 193-221. */
    static method PriceAll(data: seq<Row>, formulaString: string) returns (results: seq<Row>)
      ensures results == PricedRows(data, formulaString)
    {
      results := [];
      var i := 0;
      while i < |data|
        invariant 0 <= i <= |data|
        invariant results == PricedRows(data[..i], formulaString)
      {
        assert data[..i + 1][..i] == data[..i];
        var resultRow := PriceRow(data[i], formulaString);
        if resultRow.None? {
          i := i + 1;
          continue;
        }
        results := results + [resultRow.value];
        i := i + 1;
      }
      assert data[..i] == data;
    }

    /** `calculate_prices`: an unknown formula is a 404 and nothing is
        recorded; otherwise the priced rows are returned and one history entry
        with the same counts is appended, unless no row could be priced. */
    method CalculatePrices(request: CalculationRequest, now: string) returns (response: Result<CalculationResult>)
      requires Valid()
      modifies this`calculationHistory
      ensures Valid()
      ensures response == Calculate(formulas, request)
      ensures response.Err? ==> calculationHistory == old(calculationHistory)
      ensures response.Ok? ==>
        calculationHistory == old(calculationHistory) + [HistoryEntry(
          now, request.formulaId, formulas[request.formulaId].name, response.value.summary.totalProcessed,
          response.value.summary.compliantCount, response.value.summary.nonCompliantCount)]
      ensures response.Ok? ==>
        GetReports(calculationHistory, None, None).summary == ReportSummary(|old(calculationHistory)| + 1,
          Some(HistoryEntry(now, request.formulaId, formulas[request.formulaId].name,
            response.value.summary.totalProcessed, response.value.summary.compliantCount,
            response.value.summary.nonCompliantCount)))
    {
      if request.formulaId !in formulas {
        return Err(FormulaNotFound);
      }
      var formula := formulas[request.formulaId];
      var results := PriceAll(request.data, formula.formulaString);
      if results == [] {
        return Err(NothingCalculated);
      }
      var compliant := StatusCount(results, "Compliant");
      var nonCompliant := StatusCount(results, "Non-Compliant");
      CountsAddUp(request.data, formula.formulaString);
      var entry := HistoryEntry(now, request.formulaId, formula.name, |results|, compliant, nonCompliant);
      ReportsAfterAppend(calculationHistory, entry, None, None);
      HistoryAppendConsistent(calculationHistory, entry);
      calculationHistory := calculationHistory + [entry];
      response := Ok(CalculationResult(results, CalculationSummary(
        |results|, compliant, nonCompliant, formula.formulaString, formula.name)));
    }

    function Reports(startDate: Option<string>, endDate: Option<string>): Reports
      reads this
    {
      GetReports(calculationHistory, startDate, endDate)
    }
  }
}
