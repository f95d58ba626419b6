/** How the pages and the server fit together: a file the upload page accepts
    can still be refused by the server, rows the server stores are priced
    unless their Discount text does not parse, and the calculate page's
    filters over results the server computed never throw. */
module Workflow {
  import opened Common
  import opened Numerals
  import opened Api
  import opened TableView
  import opened UploadPage
  import opened CalculatePage
  import opened Backend

  /** The page lower-cases the extension before checking it, the server's
      `endswith` does not: "DATA.CSV" passes the page and gets the server's 400. */
  lemma UpperCaseNamePassesPageNotServer(asCsv: ReadOutcome, asExcel: ReadOutcome)
    ensures FileProblem(FileInfo("DATA.CSV", 1024)) == None
    ensures Upload(UploadRequest("DATA.CSV", asCsv, asExcel)) == Err(HttpError(400, InvalidFormatMessage))
  {
    assert LastIndexOf("DATA.CSV", '.') == 4;
    assert FileExtension("DATA.CSV") == ".csv";
    assert !EndsWith("DATA.CSV", ".csv") by {
      assert "DATA.CSV"[4..] == ".CSV";
    }
    assert !EndsWith("DATA.CSV", ".xls") by {
      assert "DATA.CSV"[4..] == ".CSV";
    }
    assert !EndsWith("DATA.CSV", ".xlsx") by {
      assert "DATA.CSV"[3..] == "A.CSV";
    }
    AcceptedFrameOutcome(UploadRequest("DATA.CSV", asCsv, asExcel));
  }

  /** The keys of a calculated row. */
  lemma ResultRowKeys(product: Value, total: real, effective: real, limit: real, discount: Value, formulaString: string)
    ensures var r := ResultRow(product, total, effective, limit, discount, formulaString);
      && r["Product"] == product
      && "Date" !in r && "Transaction Type" !in r && "Customer" !in r
  {
  }

  /** A calculated row carries the request row's Product and none of the Date,
      Transaction Type and Customer columns. */
  lemma PricedRowShape(data: seq<Row>, formulaString: string, x: Row)
    requires x in PricedRows(data, formulaString)
    ensures exists i :: 0 <= i < |data| && "Product" in data[i] && x["Product"] == data[i]["Product"]
    ensures "Date" !in x && "Transaction Type" !in x && "Customer" !in x
  {
    var i :| 0 <= i < |data| && PriceRow(data[i], formulaString) == Some(x);
    var row := data[i];
    var total, discount, limit := AmountOrZero(row, "Price"), DiscountPercentage(row), AmountOrZero(row, "Regulatory Limit");
    ResultRowKeys(row["Product"], total.value, EffectivePrice(total.value, discount.value), limit.value,
                  row["Discount"], formulaString);
  }

  /** On results priced from rows whose Product is a string, the calculate
      page's filter never throws, and an active Date, Transaction Type or
      Customer filter leaves nothing, since results have none of those columns. */
  lemma CalculatedRowsFilterCleanly(data: seq<Row>, formulaString: string, f: Filters)
    requires forall i :: 0 <= i < |data| && "Product" in data[i] ==> data[i]["Product"].Str?
    ensures FilterResults(PricedRows(data, formulaString), f).Shown?
    ensures f.date != [] || f.transactionType != [] || f.customer != [] ==>
      FilterResults(PricedRows(data, formulaString), f) == Shown([])
  {
    var results := PricedRows(data, formulaString);
    forall k | 0 <= k < |results|
      ensures RowVerdict(results[k], f) != Throws
      ensures f.date != [] || f.transactionType != [] || f.customer != [] ==> RowVerdict(results[k], f) != Pass
    {
      PricedRowShape(data, formulaString, results[k]);
      RowVerdictThrows(results[k], f);
    }
    if f.date != [] || f.transactionType != [] || f.customer != [] {
      SelectNone(results, (row: Row) => RowVerdict(row, f) == Pass);
    }
  }

  /** Every row the server stores has a string Product. */
  lemma StoredProductsAreStrings(columns: seq<string>, rows: seq<map<string, Cell>>, x: Row)
    requires x in NormalisedRows(columns, rows)
    ensures "Product" in x && x["Product"].Str?
  {
    var i :| 0 <= i < |rows| && NormaliseRow(columns, rows[i]) == Some(x);
    var get := (t: string) => CellAt(columns, rows[i], t);
    KeptRowFields(get);
  }

  /** A row the server stored is priced exactly when its Discount cell was
      empty, or its text is "--" or a number `float` reads; an empty Discount
      leaves the price undiscounted. */
  lemma StoredRowPriced(get: string -> Option<Cell>, formulaString: string)
    requires NormaliseCells(get).Some?
    ensures var d := get("Discount").value;
      PriceRow(NormaliseCells(get).value, formulaString).Some? <==>
        d.Missing? || StrOfCell(d) == "--" || PyFloat(StrOfCell(d)).Some?
    ensures get("Discount").value.Missing? ==>
      var r := PriceRow(NormaliseCells(get).value, formulaString).value;
      r["Calculated Price"] == r["Price"]
  {
    var row := NormaliseCells(get).value;
    var d := get("Discount").value;
    assert && "Price" in row && "Discount" in row && "Regulatory Limit" in row && "Product" in row
           && row["Price"].Num? && row["Regulatory Limit"].Num?
           && row["Discount"] == Str(if d.Missing? then "--" else StrOfCell(d)) by {
      KeptRowFields(get);
      assert "Price" in ProcessedColumns && "Discount" in ProcessedColumns;
      assert "Regulatory Limit" in ProcessedColumns && "Product" in ProcessedColumns;
    }
    if get("Discount").value.Missing? {
      PriceRowClassification(row, formulaString);
    }
  }

  /** Pricing the stored upload and filtering the results on the calculate page
      never throws. */
  lemma StoredDataFiltersCleanly(columns: seq<string>, rows: seq<map<string, Cell>>, formulaString: string, f: Filters)
    ensures FilterResults(PricedRows(NormalisedRows(columns, rows), formulaString), f).Shown?
  {
    var data: seq<Row> := NormalisedRows(columns, rows);
    forall i | 0 <= i < |data| && "Product" in data[i] ensures data[i]["Product"].Str? {
      StoredProductsAreStrings(columns, rows, data[i]);
    }
    CalculatedRowsFilterCleanly(data, formulaString, f);
  }

  /** The upload table's columns for stored data are the eleven keys of a
      processed row: no processed value is null. */
  lemma StoredColumnsShown(columns: seq<string>, rows: seq<map<string, Cell>>)
    requires NormalisedRows(columns, rows) != []
    ensures AvailableColumns(NormalisedRows(columns, rows)) == set c | c in ProcessedColumns
  {
    var data := NormalisedRows(columns, rows);
    assert data[0] in data;
    var i :| 0 <= i < |rows| && NormaliseRow(columns, rows[i]) == Some(data[0]);
    var get := (t: string) => CellAt(columns, rows[i], t);
    KeptRowFields(get);
    KeptRowValues(get);
  }

  /** In the upload table, a stored row's Status badge is green exactly when the
      file's status text is "Compliant". */
  lemma StoredStatusBadge(get: string -> Option<Cell>)
    requires NormaliseCells(get).Some?
    ensures var status := StrOfCell(get("Status").value);
      DisplayCell(NormaliseCells(get).value, "Status") == StatusBadge(status == "Compliant", Some(Str(status)))
  {
    KeptRowFields(get);
    KeptRowValues(get);
    assert "Status" in ProcessedColumns;
  }

  /** In the upload table, a stored row's Price is drawn as money. */
  lemma StoredPriceIsCurrency(get: string -> Option<Cell>)
    requires NormaliseCells(get).Some?
    ensures DisplayCell(NormaliseCells(get).value, "Price") ==
      Formatted(Currency(FloatOrZero(get("Price").value).value))
  {
    KeptRowFields(get);
    assert "Price" in ProcessedColumns;
    PriceIsCurrencyColumn();
  }

  /** On the calculate page, a priced stored row shows '--' for Discount exactly
      when the file's Discount was empty or the text "--"; otherwise it shows
      the file's text with `%` appended. */
  lemma StoredDiscountShown(get: string -> Option<Cell>, formulaString: string)
    requires NormaliseCells(get).Some?
    requires PriceRow(NormaliseCells(get).value, formulaString).Some?
    ensures var d := get("Discount").value;
      DiscountCell(Lookup(PriceRow(NormaliseCells(get).value, formulaString).value, "Discount")) ==
        if d.Missing? || StrOfCell(d) == "--" then Dashes else WithPercent(Some(Str(StrOfCell(d))))
  {
    KeptRowFields(get);
    var row := NormaliseCells(get).value;
    assert "Price" in row && "Discount" in row && "Regulatory Limit" in row && "Product" in row by {
      assert "Price" in ProcessedColumns && "Discount" in ProcessedColumns;
      assert "Regulatory Limit" in ProcessedColumns && "Product" in ProcessedColumns;
    }
    var total, discount, limit := AmountOrZero(row, "Price"), DiscountPercentage(row), AmountOrZero(row, "Regulatory Limit");
    ResultRowKeys(row["Product"], total.value, EffectivePrice(total.value, discount.value), limit.value,
                  row["Discount"], formulaString);
  }

  /** Every message the server sends with an upload rejection is non-empty, so
      the upload page shows it as sent. */
  lemma UploadRejectionShown(request: UploadRequest, message: string)
    requires Upload(request).Err?
    ensures UploadErrorText(Some(DetailText(Upload(request).error.detail)), message) == Upload(request).error.detail
  {
    match AcceptedFrame(request)
    case Ok(frame) =>
      assert Upload(request) == UploadFrame(frame);
    case Err(e) =>
      AcceptedFrameErrorText(request);
  }

  /** The calculate page shows the server's error text as sent: "Formula not
      found" for an unknown formula, and the wrapped 500 text when nothing could
      be priced. */
  lemma CalculateRejectionShown(formulas: map<string, FormulaRecord>, request: CalculationRequest)
    requires Calculate(formulas, request).Err?
    ensures CalculateErrorText(Some(Calculate(formulas, request).error.detail)) == Calculate(formulas, request).error.detail
    ensures request.formulaId !in formulas ==>
      CalculateErrorText(Some(Calculate(formulas, request).error.detail)) == "Formula not found"
    ensures request.formulaId in formulas ==>
      CalculateErrorText(Some(Calculate(formulas, request).error.detail)) ==
        "Error performing calculations: 400: No calculations could be performed"
  {
  }

  /** Before any upload, the server's summary is `{}`; the upload page that
      fetches it on mount shows the summary box with blank counts. */
  method FirstVisitShowsBlankSummary() returns (box: SummaryBox)
    ensures box == BlankCounts
  {
    var server := new Server();
    var view := new UploadView();
    view.ReceiveStoredData(Some((server.uploadedData, server.dataValidationSummary)));
    box := SummaryBoxOf(view.validationSummary);
  }
}
