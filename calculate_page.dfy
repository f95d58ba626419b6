/** The price-calculation page: the guard in front of `POST /api/calculate`,
    the filters over the calculated rows (which, unlike the upload page's, call
    string methods without checking the value's type and so can throw), the
    drop-down values, the Discount cell and the 20-row pages, whose number goes
    back to 1 whenever the filters or the results change. */
module CalculatePage {
  import opened Common
  import opened Api
  import opened TableView

  // ---------------------------------------------------------------------------
  // Filtering
  // ---------------------------------------------------------------------------

  /** What evaluating one clause of the filter callback does. */
  datatype Verdict = Pass | Fail | Throws

  /** `!filters.product || row.Product.toLowerCase().includes(...)`: there is no
      guard, so undefined or null (no property to read) and a number (no
      `toLowerCase` to call) throw a `TypeError`. */
  function ProductClause(row: Row, filter: string): Verdict
  {
    if filter == [] then Pass
    else
      match Lookup(row, "Product")
      case Some(Str(s)) => if Contains(Lower(s), Lower(filter)) then Pass else Fail
      case _ => Throws
  }

  /** `!filter || row[column]?.includes(...)` (lower-cased when `caseInsensitive`):
      undefined and null short-circuit to `undefined` and fail; a number has no
      `includes` or `toLowerCase`, and calling `undefined` throws. */
  function GuardedClause(row: Row, column: string, filter: string, caseInsensitive: bool): Verdict
  {
    if filter == [] then Pass
    else
      match Lookup(row, column)
      case None => Fail
      case Some(Null) => Fail
      case Some(Num(_)) => Throws
      case Some(Str(s)) =>
        if (if caseInsensitive then Contains(Lower(s), Lower(filter)) else Contains(s, filter)) then Pass else Fail
  }

  /** `a && b`: `b` is only evaluated when `a` passes. */
  function AndThen(a: Verdict, b: Verdict): Verdict
  {
    if a == Pass then b else a
  }

  /** The filter callback of `getFilteredResults` on one row. */
  function RowVerdict(row: Row, f: Filters): Verdict
  {
    AndThen(ProductClause(row, f.product),
      AndThen(GuardedClause(row, "Date", f.date, false),
        AndThen(GuardedClause(row, "Transaction Type", f.transactionType, true),
          GuardedClause(row, "Customer", f.customer, true))))
  }

  /** A row passes exactly when, for each non-empty filter, its column holds a
      string containing the filter text: Product, Transaction Type and Customer
      in lower case, Date as written. A missing or null Date, Transaction Type
      or Customer fails an active filter. */
  lemma RowVerdictPass(row: Row, f: Filters)
    ensures RowVerdict(row, f) == Pass <==>
      && (f.product != [] ==>
            StringAt(row, "Product").Some? && Contains(Lower(row["Product"].s), Lower(f.product)))
      && (f.date != [] ==>
            StringAt(row, "Date").Some? && Contains(row["Date"].s, f.date))
      && (f.transactionType != [] ==>
            StringAt(row, "Transaction Type").Some? &&
            Contains(Lower(row["Transaction Type"].s), Lower(f.transactionType)))
      && (f.customer != [] ==>
            StringAt(row, "Customer").Some? && Contains(Lower(row["Customer"].s), Lower(f.customer)))
  {
  }

  /** When the callback throws: an active Product filter meets a value that is
      not a string, or an active later filter meets a number while every filter
      before it passed. */
  lemma RowVerdictThrows(row: Row, f: Filters)
    ensures RowVerdict(row, f) == Throws <==>
      || (f.product != [] && StringAt(row, "Product").None?)
      || (ProductClause(row, f.product) == Pass && f.date != [] && Lookup(row, "Date").Some? && Lookup(row, "Date").value.Num?)
      || (ProductClause(row, f.product) == Pass && GuardedClause(row, "Date", f.date, false) == Pass &&
          f.transactionType != [] && Lookup(row, "Transaction Type").Some? && Lookup(row, "Transaction Type").value.Num?)
      || (ProductClause(row, f.product) == Pass && GuardedClause(row, "Date", f.date, false) == Pass &&
          GuardedClause(row, "Transaction Type", f.transactionType, true) == Pass &&
          f.customer != [] && Lookup(row, "Customer").Some? && Lookup(row, "Customer").value.Num?)
  {
  }

  /** The outcome of evaluating an expression while the page renders. */
  datatype Rendered<T> = Shown(value: T) | TypeError

  /** `results.filter(...)`: the rows whose callback passes, or a `TypeError`
      as soon as one callback throws. */
  function FilterResults(rows: seq<Row>, f: Filters): (r: Rendered<seq<Row>>)
    ensures r.TypeError? <==> exists i :: 0 <= i < |rows| && RowVerdict(rows[i], f) == Throws
    ensures r.Shown? ==> r.value == Select(rows, (row: Row) => RowVerdict(row, f) == Pass)
  {
    if rows == [] then Shown([])
    else
      assert forall i :: 1 <= i < |rows| ==> rows[1..][i - 1] == rows[i];
      match RowVerdict(rows[0], f)
      case Throws => TypeError
      case Fail => FilterResults(rows[1..], f)
      case Pass =>
        match FilterResults(rows[1..], f)
        case TypeError => TypeError
        case Shown(rest) => Shown([rows[0]] + rest)
  }

  /** `getFilteredResults()`: nothing before the first calculation. */
  function FilteredResults(result: Option<CalculationResult>, f: Filters): Rendered<seq<Row>>
  {
    match result
    case None => Shown([])
    case Some(c) => FilterResults(c.results, f)
  }

  /** With no calculation result the filtered list is empty. */
  lemma NoResultNoRows(f: Filters)
    ensures FilteredResults(None, f) == Shown([])
  {
  }

  /** The filtered results are some of the results, in their original order;
      each of them meets every active filter, and every result that meets them is kept. */
  lemma FilteredResultsSound(c: CalculationResult, f: Filters)
    requires FilterResults(c.results, f).Shown?
    ensures IsSubsequence(FilterResults(c.results, f).value, c.results)
    ensures forall row :: row in FilterResults(c.results, f).value <==> row in c.results && RowVerdict(row, f) == Pass
  {
    SelectIsSubsequence(c.results, (row: Row) => RowVerdict(row, f) == Pass);
  }

  /** With all four filters empty nothing throws and every result is shown. */
  lemma NoFiltersShowAllResults(rows: seq<Row>)
    ensures FilterResults(rows, NoFilters) == Shown(rows)
  {
    SelectAll(rows, (row: Row) => RowVerdict(row, NoFilters) == Pass);
  }

  /** The condition under which nothing throws: every Product is a string,
      and no Date, Transaction Type or Customer is a number. */
  ghost predicate WellTyped(rows: seq<Row>)
  {
    forall i :: 0 <= i < |rows| ==>
      StringAt(rows[i], "Product").Some? &&
      !(Lookup(rows[i], "Date").Some? && Lookup(rows[i], "Date").value.Num?) &&
      !(Lookup(rows[i], "Transaction Type").Some? && Lookup(rows[i], "Transaction Type").value.Num?) &&
      !(Lookup(rows[i], "Customer").Some? && Lookup(rows[i], "Customer").value.Num?)
  }

  lemma WellTypedRowsDoNotThrow(rows: seq<Row>, f: Filters)
    requires WellTyped(rows)
    ensures FilterResults(rows, f).Shown?
  {
    forall i | 0 <= i < |rows| ensures RowVerdict(rows[i], f) != Throws {
      RowVerdictThrows(rows[i], f);
    }
  }

  // ---------------------------------------------------------------------------
  // Drop-downs and cells
  // ---------------------------------------------------------------------------

  /** `results.map(row => row[field])`. */
  function ColumnValues(rows: seq<Row>, field: string): seq<Option<Value>>
  {
    seq(|rows|, i requires 0 <= i < |rows| => Lookup(rows[i], field))
  }

  /** `getUniqueValues(field)`: `Array.from(new Set(...))` of every value in the
      column, strings or not, including `undefined` for rows without it. */
  function UniqueValues(result: Option<CalculationResult>, field: string): seq<Option<Value>>
  {
    match result
    case None => []
    case Some(c) => Distinct(ColumnValues(c.results, field))
  }

  /** The values are distinct, are exactly those found in the column (of any
      type), appear in order of first occurrence, and there are none before the
      first calculation. */
  lemma UniqueValuesSpec(result: Option<CalculationResult>, field: string)
    ensures result.None? ==> UniqueValues(result, field) == []
    ensures NoDuplicates(UniqueValues(result, field))
    ensures result.Some? ==> forall v :: v in UniqueValues(result, field) <==>
      exists i :: 0 <= i < |result.value.results| && Lookup(result.value.results[i], field) == v
    ensures result.Some? ==> forall i, j :: 0 <= i < j < |UniqueValues(result, field)| ==>
      FirstIndex(ColumnValues(result.value.results, field), UniqueValues(result, field)[i]) <
      FirstIndex(ColumnValues(result.value.results, field), UniqueValues(result, field)[j])
  {
    if result.Some? {
      var vs := ColumnValues(result.value.results, field);
      DistinctFirstOccurrenceOrder(vs);
      forall v ensures v in vs <==> exists i :: 0 <= i < |result.value.results| && Lookup(result.value.results[i], field) == v {
        assert |vs| == |result.value.results|;
        assert forall i :: 0 <= i < |vs| ==> vs[i] == Lookup(result.value.results[i], field);
        if v in vs {
          var i :| 0 <= i < |vs| && vs[i] == v;
          assert Lookup(result.value.results[i], field) == v;
        }
      }
    }
  }

  /** The Discount cell: `'--'` stays `'--'`, anything else gets `%` appended. */
  datatype DiscountText = Dashes | WithPercent(shown: Option<Value>)

  function DiscountCell(discount: Option<Value>): DiscountText
  {
    if discount == Some(Str("--")) then Dashes else WithPercent(discount)
  }

  // ---------------------------------------------------------------------------
  // Page state
  // ---------------------------------------------------------------------------

  /** One entry of the formula drop-down (`{id, ...formula}`). */
  datatype FormulaOption = FormulaOption(id: string, name: string, description: string, formulaString: string)

  /** The outcome of `POST /api/calculate`, as the page receives it. */
  datatype CalculateResponse = Calculated(result: CalculationResult) | CalculateFailed(detail: Option<string>)

  const MissingInputMessage := "Please select a formula and ensure data is uploaded"

  /** `error.response?.data?.detail || 'Error performing calculation'`. */
  function CalculateErrorText(detail: Option<string>): string
  {
    if detail.Some? && detail.value != [] then detail.value else "Error performing calculation"
  }

  /** The React state of the calculate page. */
  class CalculateView {
    var formulas: seq<FormulaOption>
    var selectedFormula: string
    var uploadedData: seq<Row>
    var calculationResult: Option<CalculationResult>
    var error: string
    var filters: Filters
    var currentPage: int

    function ShownRows(): Rendered<seq<Row>>
      reads this
    {
      FilteredResults(calculationResult, filters)
    }

    function ShownCount(): nat
      reads this
    {
      match ShownRows()
      case Shown(rows) => |rows|
      case TypeError => 0
    }

    function PageCount(): nat
      reads this
    {
      TotalPages(ShownCount())
    }

    /** Every change of the filters or of the results sends the page back to 1,
        and Previous/Next clamp, so the page is 1 or one of the pages there are. */
    ghost predicate Valid()
      reads this
    {
      currentPage == 1 || 2 <= currentPage <= PageCount()
    }

    /** The initial state, after the filter effect's first run. */
    constructor ()
      ensures Valid()
      ensures formulas == [] && selectedFormula == [] && uploadedData == [] && calculationResult == None
      ensures error == [] && filters == NoFilters && currentPage == 1
    {
      formulas := [];
      selectedFormula := [];
      uploadedData := [];
      calculationResult := None;
      error := [];
      filters := NoFilters;
      currentPage := 1;
    }

    /** The mount-time fetch of the formulas and the stored rows (both or neither). */
    method ReceiveInitialData(response: Option<(seq<FormulaOption>, seq<Row>)>)
      requires Valid()
      modifies this`formulas, this`uploadedData, this`error
      ensures Valid()
      ensures response.Some? ==>
        formulas == response.value.0 && uploadedData == response.value.1 && error == old(error)
      ensures response.None? ==>
        formulas == old(formulas) && uploadedData == old(uploadedData) && error == "Error fetching data"
    {
      if response.Some? {
        formulas := response.value.0;
        uploadedData := response.value.1;
      } else {
        error := "Error fetching data";
      }
    }

    /** The formula drop-down's `onChange`. */
    method SelectFormula(id: string)
      requires Valid()
      modifies this`selectedFormula
      ensures Valid()
      ensures selectedFormula == id
    {
      selectedFormula := id;
    }

    /** `handleCalculate` once the server has answered. Without a selected
        formula or without rows nothing is sent, the message is set and the
        result kept; otherwise the request carries the selection and the rows,
        and a success stores the result and goes back to page 1. Returns the
        request that went out. */
    method HandleCalculate(response: CalculateResponse) returns (request: Option<CalculationRequest>)
      requires Valid()
      modifies this`calculationResult, this`error, this`currentPage
      ensures Valid()
      ensures (old(selectedFormula) == [] || old(uploadedData) == []) ==>
        request == None && error == MissingInputMessage &&
        calculationResult == old(calculationResult) && currentPage == old(currentPage)
      ensures old(selectedFormula) != [] && old(uploadedData) != [] ==>
        request == Some(CalculationRequest(selectedFormula, uploadedData))
      ensures request.Some? && response.Calculated? ==>
        calculationResult == Some(response.result) && currentPage == 1 && error == []
      ensures request.Some? && response.CalculateFailed? ==>
        calculationResult == old(calculationResult) && currentPage == old(currentPage) &&
        error == CalculateErrorText(response.detail)
    {
      if selectedFormula == [] || |uploadedData| == 0 {
        error := MissingInputMessage;
        return None;
      }
      error := [];
      request := Some(CalculationRequest(selectedFormula, uploadedData));
      match response
      case Calculated(result) =>
        calculationResult := Some(result);
        currentPage := 1;
      case CalculateFailed(detail) =>
        error := CalculateErrorText(detail);
    }

    /** A filter control's `onChange`; the effect on `[filters]` then sets page 1. */
    method SetFilters(f: Filters)
      requires Valid()
      modifies this`filters, this`currentPage
      ensures Valid()
      ensures filters == f && currentPage == 1
    {
      filters := f;
      currentPage := 1;
    }

    /** The Previous button. */
    method PreviousPage()
      requires Valid()
      modifies this`currentPage
      ensures Valid()
      ensures currentPage == AfterPrevious(old(currentPage), PageCount())
    {
      if PreviousEnabled(currentPage, PageCount()) {
        currentPage := Max(currentPage - 1, 1);
      }
    }

    /** The Next button. */
    method NextPage()
      requires Valid()
      modifies this`currentPage
      ensures Valid()
      ensures currentPage == AfterNext(old(currentPage), PageCount())
    {
      var totalPages := PageCount();
      if NextEnabled(currentPage, totalPages) {
        currentPage := Min(currentPage + 1, totalPages);
      }
    }

    /** `currentResults`: the rows on the current page. */
    function CurrentResults(): Rendered<seq<Row>>
      reads this
    {
      match ShownRows()
      case Shown(rows) => Shown(Page(rows, currentPage))
      case TypeError => TypeError
    }
  }
}
