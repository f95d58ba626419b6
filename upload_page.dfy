/** The sales-data upload page: the checks on a chosen file, the table of
    uploaded rows with its four filters, its drop-down values, its visible
    columns, the formatting of its cells and its 20-row pages. */
module UploadPage {
  import opened Common
  import opened Numerals
  import opened Api
  import opened TableView

  // ---------------------------------------------------------------------------
  // Choosing a file
  // ---------------------------------------------------------------------------

  /** The part of the browser's `File` object the page looks at. */
  datatype FileInfo = FileInfo(name: string, size: nat)

  const ValidTypes: seq<string> := [".csv", ".xls", ".xlsx"]

  /** 10 MiB. */
  const MaxSize: nat := 10 * 1024 * 1024

  const InvalidTypeMessage := "Invalid file type. Please upload a CSV, XLS, or XLSX file."
  const TooLargeMessage := "File is too large. Maximum size is 10MB."

  /** `name.substring(name.lastIndexOf('.')).toLowerCase()`; with no `.` at
      all, `lastIndexOf` gives -1 and the whole name is taken. */
  function FileExtension(name: string): string
  {
    Lower(Substring(name, LastIndexOf(name, '.')))
  }

  lemma LowerKeepsDots(s: string)
    ensures forall i :: 0 <= i < |s| ==> (Lower(s)[i] == '.' <==> s[i] == '.')
  {
  }

  /** The extension is the whole lower-cased name when it has no `.`, and
      otherwise the lower-cased suffix that starts at a `.` and holds no other `.`. */
  lemma FileExtensionIsLastDotSuffix(name: string)
    ensures '.' !in name ==> FileExtension(name) == Lower(name)
    ensures '.' in name ==>
      var e := FileExtension(name);
      |e| >= 1 && e[0] == '.' && '.' !in e[1..] && EndsWith(Lower(name), e)
  {
    var k := LastIndexOf(name, '.');
    if k >= 0 {
      var e := FileExtension(name);
      assert e == Lower(name[k..]);
      LowerKeepsDots(name[k..]);
      assert forall j :: 1 <= j < |e| ==> e[j] != '.' by {
        forall j | 1 <= j < |e| ensures e[j] != '.' {
          assert name[k..][j] == name[k + j];
        }
      }
      assert Lower(name)[|name| - |e|..] == e;
    }
  }

  /** The message `handleFileChange` shows for a chosen file: the type check
      runs first, then the size check; `None` when the file is accepted. */
  function FileProblem(f: FileInfo): Option<string>
  {
    if FileExtension(f.name) !in ValidTypes then Some(InvalidTypeMessage)
    else if f.size > MaxSize then Some(TooLargeMessage)
    else None
  }

  /** A file is accepted exactly when its extension is `.csv`, `.xls` or `.xlsx`
      and it holds at most 10·1024·1024 bytes; a badly named file gets the type
      message whatever its size. */
  lemma FileAcceptance(f: FileInfo)
    ensures FileProblem(f) == None <==>
      FileExtension(f.name) in {".csv", ".xls", ".xlsx"} && f.size <= 10485760
    ensures FileExtension(f.name) !in {".csv", ".xls", ".xlsx"} ==> FileProblem(f) == Some(InvalidTypeMessage)
    ensures FileExtension(f.name) in {".csv", ".xls", ".xlsx"} && f.size > 10485760 ==> FileProblem(f) == Some(TooLargeMessage)
  {
  }

  /** A file of exactly 10 MiB is accepted; one of 11 MiB gets the size message. */
  lemma SizeLimitExamples()
    ensures FileProblem(FileInfo("sales.csv", 10485760)) == None
    ensures FileProblem(FileInfo("sales.csv", 11 * 1024 * 1024)) == Some(TooLargeMessage)
  {
    assert LastIndexOf("sales.csv", '.') == 5;
    assert FileExtension("sales.csv") == ".csv";
  }

  /** The extension is compared after lower-casing. */
  lemma UpperCaseExtensionAccepted()
    ensures FileProblem(FileInfo("SALES.XLSX", 1)) == None
  {
    assert LastIndexOf("SALES.XLSX", '.') == 5;
    assert Substring("SALES.XLSX", 5) == ".XLSX";
    assert FileExtension("SALES.XLSX") == ".xlsx";
  }

  /** A name without a `.` is its own (lower-cased) extension, and never a
      valid one, whatever the size of the file. */
  lemma NameWithoutDotRejected(f: FileInfo)
    requires '.' !in f.name
    ensures FileProblem(f) == Some(InvalidTypeMessage)
  {
    FileExtensionIsLastDotSuffix(f.name);
    LowerKeepsDots(f.name);
    var e := FileExtension(f.name);
    assert '.' !in e;
    assert ".csv"[0] == '.' && ".xls"[0] == '.' && ".xlsx"[0] == '.';
  }

  // ---------------------------------------------------------------------------
  // Filtering, drop-downs and columns
  // ---------------------------------------------------------------------------

  /** One clause of `filteredData`: an empty filter holds; otherwise the column
      must hold a string (`typeof … === 'string'`) that contains the filter
      text, both lower-cased when `caseInsensitive`. */
  predicate ClauseHolds(row: Row, column: string, filter: string, caseInsensitive: bool)
  {
    filter == [] ||
    match StringAt(row, column)
    case None => false
    case Some(s) => if caseInsensitive then Contains(Lower(s), Lower(filter)) else Contains(s, filter)
  }

  /** The predicate `filteredData` keeps a row by: all four clauses. */
  predicate RowMatches(row: Row, f: Filters)
  {
    && ClauseHolds(row, "Product", f.product, true)
    && ClauseHolds(row, "Date", f.date, false)
    && ClauseHolds(row, "Transaction Type", f.transactionType, true)
    && ClauseHolds(row, "Customer", f.customer, true)
  }

  /** `uploadedData.filter(...)`. */
  function FilteredData(rows: seq<Row>, f: Filters): seq<Row>
  {
    Select(rows, (r: Row) => RowMatches(r, f))
  }

  /** The filtered rows are the input rows with some deleted, in their original order. */
  lemma FilteredDataIsSubsequence(rows: seq<Row>, f: Filters)
    ensures IsSubsequence(FilteredData(rows, f), rows)
  {
    SelectIsSubsequence(rows, (r: Row) => RowMatches(r, f));
  }

  /** With all four filters empty every row is kept. */
  lemma NoFiltersKeepAllRows(rows: seq<Row>)
    ensures FilteredData(rows, NoFilters) == rows
  {
    SelectAll(rows, (r: Row) => RowMatches(r, NoFilters));
  }

  /** A row is kept exactly when, for each non-empty filter, its column holds a
      string containing the filter text: Product, Transaction Type and Customer
      compared in lower case, Date as written. A number, null or missing value
      fails an active filter. */
  lemma FilteredDataMembership(rows: seq<Row>, f: Filters, row: Row)
    ensures row in FilteredData(rows, f) <==>
      && row in rows
      && (f.product != [] ==>
            StringAt(row, "Product").Some? && Contains(Lower(row["Product"].s), Lower(f.product)))
      && (f.date != [] ==>
            StringAt(row, "Date").Some? && Contains(row["Date"].s, f.date))
      && (f.transactionType != [] ==>
            StringAt(row, "Transaction Type").Some? &&
            Contains(Lower(row["Transaction Type"].s), Lower(f.transactionType)))
      && (f.customer != [] ==>
            StringAt(row, "Customer").Some? && Contains(Lower(row["Customer"].s), Lower(f.customer)))
  {
  }

  /** Lower-casing the Product, Transaction Type and Customer filters changes nothing. */
  lemma FilterIsCaseInsensitive(rows: seq<Row>, f: Filters)
    ensures FilteredData(rows, f) ==
      FilteredData(rows, f.(product := Lower(f.product), transactionType := Lower(f.transactionType),
                            customer := Lower(f.customer)))
  {
    var g := f.(product := Lower(f.product), transactionType := Lower(f.transactionType),
                customer := Lower(f.customer));
    LowerIdempotent(f.product);
    LowerIdempotent(f.transactionType);
    LowerIdempotent(f.customer);
    SelectAgreeing(rows, (r: Row) => RowMatches(r, f), (r: Row) => RowMatches(r, g));
  }

  /** The string values of column `field`, row by row; other values are skipped. */
  function StringValues(rows: seq<Row>, field: string): (r: seq<string>)
    ensures forall x :: x in r <==> exists i :: 0 <= i < |rows| && StringAt(rows[i], field) == Some(x)
    decreases |rows|
  {
    if rows == [] then []
    else
      var pre := StringValues(rows[..|rows| - 1], field);
      assert forall i :: 0 <= i < |rows| - 1 ==> rows[..|rows| - 1][i] == rows[i];
      match StringAt(rows[|rows| - 1], field)
      case Some(s) => pre + [s]
      case None => pre
  }

  /** One more row adds its string value, if it has one, at the end. */
  lemma StringValuesSnoc(rows: seq<Row>, row: Row, field: string)
    ensures StringValues(rows + [row], field) ==
      StringValues(rows, field) + (if field in row && row[field].Str? then [row[field].s] else [])
  {
    assert (rows + [row])[..|rows|] == rows;
  }

  /** What `getUniqueValues(field)` promises: only strings found in the column,
      each once, every one of them, in order of first occurrence. */
  lemma UniqueValuesSpec(rows: seq<Row>, field: string)
    ensures NoDuplicates(Distinct(StringValues(rows, field)))
    ensures forall x :: x in Distinct(StringValues(rows, field)) <==>
      exists i :: 0 <= i < |rows| && StringAt(rows[i], field) == Some(x)
    ensures forall i, j :: 0 <= i < j < |Distinct(StringValues(rows, field))| ==>
      FirstIndex(StringValues(rows, field), Distinct(StringValues(rows, field))[i]) <
      FirstIndex(StringValues(rows, field), Distinct(StringValues(rows, field))[j])
  {
    DistinctFirstOccurrenceOrder(StringValues(rows, field));
  }

  /** `getAvailableColumns()`: the columns of the first row whose value is not null. */
  function AvailableColumns(rows: seq<Row>): set<string>
  {
    if rows == [] then {} else set k | k in rows[0] && rows[0][k] != Null
  }

  // ---------------------------------------------------------------------------
  // Cells
  // ---------------------------------------------------------------------------

  /** The branch `formatCellValue` takes; the text itself comes from `toLocaleString`. */
  datatype CellText =
    | Placeholder              // '--'
    | Currency(amount: real)   // `$` and the number with two decimals
    | Percent(shown: Value)    // the value with `%` appended
    | Grouped(number: real)    // the number with digit grouping
    | AsIs(value: Value)       // the value unchanged

  predicate IsCurrencyColumn(column: string)
  {
    var c := Lower(column);
    Contains(c, "price") || Contains(c, "sales") || Contains(c, "amount") || Contains(c, "fees")
  }

  predicate IsPercentColumn(column: string)
  {
    var c := Lower(column);
    Contains(c, "percentage") || Contains(c, "margin")
  }

  lemma PriceIsCurrencyColumn()
    ensures IsCurrencyColumn("Price")
  {
    assert Lower("Price") == "price";
    assert OccursAt(Lower("Price"), "price", 0);
  }

  /** `formatCellValue(value, columnName)`; `None` stands for `undefined`. */
  function FormatCellValue(value: Option<Value>, column: string): CellText
  {
    match value
    case None => Placeholder
    case Some(v) =>
      if v.Null? then Placeholder
      else if IsCurrencyColumn(column) then (if v.Num? then Currency(v.n) else AsIs(v))
      else if IsPercentColumn(column) then
        (if v.Num? || (v.Str? && !JsNumberIsNaN(v.s)) then Percent(v) else AsIs(v))
      else if v.Num? then Grouped(v.n)
      else AsIs(v)
  }

  /** Null and undefined show '--'; a currency-named column formats numbers as
      money and returns anything else unchanged, and its name check wins over the
      percentage check; a percentage column appends `%` to numbers and to
      strings `Number` can read. */
  lemma FormatCellValueBranches(value: Option<Value>, column: string)
    ensures (value.None? || value == Some(Null)) ==> FormatCellValue(value, column) == Placeholder
    ensures value.Some? && value.value.Num? && IsCurrencyColumn(column) ==>
      FormatCellValue(value, column) == Currency(value.value.n)
    ensures value.Some? && value.value.Str? && IsCurrencyColumn(column) ==>
      FormatCellValue(value, column) == AsIs(value.value)
    ensures value.Some? && !value.value.Null? && IsPercentColumn(column) && !IsCurrencyColumn(column) ==>
      (FormatCellValue(value, column).Percent? <==> value.value.Num? || !JsNumberIsNaN(value.value.s))
    ensures FormatCellValue(value, column).Percent? ==> IsPercentColumn(column) && !IsCurrencyColumn(column)
  {
  }

  /** A column named for both a price and a margin is formatted as money. */
  lemma CurrencyBeatsPercentage()
    ensures FormatCellValue(Some(Num(12.5)), "Price Margin") == Currency(12.5)
  {
    assert OccursAt(Lower("Price Margin"), "price", 0);
  }

  /** How one table cell is drawn: the `Status` column is a badge, green for
      `'Compliant'` and red otherwise; every other column goes through `formatCellValue`. */
  datatype CellDisplay = StatusBadge(compliant: bool, shown: Option<Value>) | Formatted(text: CellText)

  function DisplayCell(row: Row, column: string): CellDisplay
  {
    if column == "Status" then StatusBadge(Lookup(row, column) == Some(Str("Compliant")), Lookup(row, column))
    else Formatted(FormatCellValue(Lookup(row, column), column))
  }

  // ---------------------------------------------------------------------------
  // Page state
  // ---------------------------------------------------------------------------

  /** What `err.response?.data?.detail` can be: a message or a list of messages. */
  datatype ErrorDetail = DetailText(text: string) | DetailList(items: seq<string>)

  /** The outcome of `POST /api/upload`, as the page receives it. */
  datatype UploadResponse =
    | Uploaded(data: seq<Row>, summary: ValidationSummary)
    | UploadFailed(detail: Option<ErrorDetail>, message: string)

  /** `err.response?.data?.detail || err.message || 'Error uploading file'`,
      joined with newlines when it is a list (an empty list is truthy). */
  function UploadErrorText(detail: Option<ErrorDetail>, message: string): string
  {
    match detail
    case Some(DetailList(items)) => Join(items, "\n")
    case Some(DetailText(t)) => if t != [] then t else if message != [] then message else "Error uploading file"
    case None => if message != [] then message else "Error uploading file"
  }

  /** What the Data Validation Summary box shows. */
  datatype SummaryBox = NoBox | BlankCounts | CountsShown(counts: ValidationSummary)

  /** `{validationSummary && ...}`: no box while the state is `null`; an empty
      object `{}` is truthy, so it gets a box whose three counts are blank. */
  function SummaryBoxOf(summary: Option<SummaryObject>): SummaryBox
  {
    match summary
    case None => NoBox
    case Some(EmptyObject) => BlankCounts
    case Some(Counts(c)) => CountsShown(c)
  }

  /** The React state of the upload page. */
  class UploadView {
    var file: Option<FileInfo>
    var uploadedData: seq<Row>
    /** `null` until a response arrives, then the server's `validation_summary` object. */
    var validationSummary: Option<SummaryObject>
    var error: string
    var currentPage: int
    var filters: Filters

    /** Only the page-positivity invariant: the upload page never clamps its
        page to the page count, so no upper bound holds. */
    ghost predicate Valid()
      reads this
    {
      currentPage >= 1
    }

    constructor ()
      ensures Valid()
      ensures file == None && uploadedData == [] && validationSummary == None
      ensures error == [] && currentPage == 1 && filters == NoFilters
    {
      file := None;
      uploadedData := [];
      validationSummary := None;
      error := [];
      currentPage := 1;
      filters := NoFilters;
    }

    function FilteredRows(): seq<Row>
      reads this
    {
      FilteredData(uploadedData, filters)
    }

    function PageCount(): nat
      reads this
    {
      TotalPages(|FilteredRows()|)
    }

    /** `currentData`, the rows the table shows. */
    function CurrentData(): seq<Row>
      reads this
    {
      Page(FilteredRows(), currentPage)
    }

    /** The mount-time `GET /api/data`: on success the stored rows and summary
        object replace the page's (before any upload that object is `{}`); a
        failure is only logged. */
    method ReceiveStoredData(response: Option<(seq<Row>, SummaryObject)>)
      requires Valid()
      modifies this`uploadedData, this`validationSummary
      ensures Valid()
      ensures response.Some? ==> uploadedData == response.value.0 && validationSummary == Some(response.value.1)
      ensures response.Some? && response.value.1 == EmptyObject ==> SummaryBoxOf(validationSummary) == BlankCounts
      ensures response.None? ==> uploadedData == old(uploadedData) && validationSummary == old(validationSummary)
    {
      if response.Some? {
        uploadedData := response.value.0;
        validationSummary := Some(response.value.1);
      }
    }

    /** `handleFileChange`: with no file chosen nothing happens; a rejected file
        clears `file` and sets the message; an accepted one is kept and the
        message cleared. */
    method HandleFileChange(selected: Option<FileInfo>)
      requires Valid()
      modifies this`file, this`error
      ensures Valid()
      ensures selected.None? ==> file == old(file) && error == old(error)
      ensures selected.Some? && FileProblem(selected.value).Some? ==>
        file == None && error == FileProblem(selected.value).value
      ensures selected.Some? && FileProblem(selected.value).None? ==> file == selected && error == []
    {
      if selected.Some? {
        var f := selected.value;
        var validTypes := [".csv", ".xls", ".xlsx"];
        var extension := Lower(Substring(f.name, LastIndexOf(f.name, '.')));
        if extension !in validTypes {
          error := InvalidTypeMessage;
          file := None;
          return;
        }
        var maxSize := 10 * 1024 * 1024;
        if f.size > maxSize {
          error := TooLargeMessage;
          file := None;
          return;
        }
        file := selected;
        error := [];
      }
    }

    /** `handleUpload` once the server has answered: without a file nothing is
        sent; a success stores the rows and summary, clears `file` and goes back
        to page 1; a failure only sets the message. Returns whether a request went out. */
    method HandleUpload(response: UploadResponse) returns (sent: bool)
      requires Valid()
      modifies this`file, this`error, this`uploadedData, this`validationSummary, this`currentPage
      ensures Valid()
      ensures sent <==> old(file).Some?
      ensures !sent ==>
        file == old(file) && error == old(error) && uploadedData == old(uploadedData) &&
        validationSummary == old(validationSummary) && currentPage == old(currentPage)
      ensures sent && response.Uploaded? ==>
        uploadedData == response.data && validationSummary == Some(Counts(response.summary)) &&
        file == None && currentPage == 1 && error == []
      ensures sent && response.UploadFailed? ==>
        error == UploadErrorText(response.detail, response.message) && file == old(file) &&
        uploadedData == old(uploadedData) && validationSummary == old(validationSummary) &&
        currentPage == old(currentPage)
    {
      if file.None? {
        return false;
      }
      sent := true;
      error := [];
      match response
      case Uploaded(data, summary) =>
        uploadedData := data;
        validationSummary := Some(Counts(summary));
        file := None;
        currentPage := 1;
      case UploadFailed(detail, message) =>
        error := UploadErrorText(detail, message);
    }

    /** A filter control's `onChange`. The upload page has no reset effect, so
        the page number stays as it was, possibly past the last page. */
    method SetFilters(f: Filters)
      requires Valid()
      modifies this`filters
      ensures Valid()
      ensures filters == f && currentPage == old(currentPage)
    {
      filters := f;
    }

    /** The Previous button. */
    method PreviousPage()
      requires Valid()
      modifies this`currentPage
      ensures Valid()
      ensures currentPage == AfterPrevious(old(currentPage), PageCount())
    {
      if PreviousEnabled(currentPage, PageCount()) {
        currentPage := Max(currentPage - 1, 1);
      }
    }

    /** The Next button. */
    method NextPage()
      requires Valid()
      modifies this`currentPage
      ensures Valid()
      ensures currentPage == AfterNext(old(currentPage), PageCount())
    {
      var totalPages := PageCount();
      if NextEnabled(currentPage, totalPages) {
        currentPage := Min(currentPage + 1, totalPages);
      }
    }

    /** `getUniqueValues(field)`: a `Set` filled row by row with the string
        values of the column, returned in insertion order. */
    method GetUniqueValues(field: string) returns (values: seq<string>)
      ensures values == Distinct(StringValues(uploadedData, field))
    {
      var data := uploadedData;
      values := [];
      var i := 0;
      while i < |data|
        invariant 0 <= i <= |data|
        invariant values == Distinct(StringValues(data[..i], field))
      {
        var row := data[i];
        assert data[..i + 1] == data[..i] + [row];
        StringValuesSnoc(data[..i], row, field);
        if field in row && row[field].Str? {
          var value := row[field].s;
          DistinctSnoc(StringValues(data[..i], field), value);
          if value !in values {
            values := values + [value];
          }
        }
        i := i + 1;
      }
      assert data[..i] == data;
    }
  }

  /** The upload page keeps its page number when a filter changes, so it can end
      up on a page with no rows: 30 matching rows, page 2, then a filter leaves 5. */
  lemma FilterChangeCanLeaveAnEmptyPage(rows: seq<Row>)
    requires |rows| == 5
    ensures TotalPages(|rows|) == 1 && Page(rows, 2) == []
  {
  }
}
