# Formula Builder: a Dafny model of the upload, calculation and report core

Formula Builder is a drug-pricing compliance tool. It has a FastAPI server that keeps four in-memory stores: formulas, calculation history, uploaded rows and the validation summary. It also has two Next.js pages:

- the **upload page** checks a chosen spreadsheet and sends it to the server. It shows the stored rows in a filtered, 20-row paged table.
- the **calculate page** sends the stored rows with a chosen formula id to the server. It shows the priced, compliance-classified results, again filtered and paged.

The model is split into these modules:

- `Common`: the sequence and string operations the code relies on. These are `Array.prototype.filter`, `Array.from(new Set(...))`, `includes`, ASCII `toLowerCase`, `lastIndexOf`, `substring`, `join` and Python's `endswith`.
- `Numerals`: Python's `str(n)`, and the decimal strings Python's `float` and JavaScript's `Number` read.
- `Api`: the JSON shapes sent between the pages and the server. A row is a map from column name to a string, a number or null. An absent key stands for `undefined`.
- `TableView`: the four filter strings, the 20-row page slices, and the clamped Previous/Next controls.
- `UploadPage`: the file checks, the filter, the unique values, the visible columns and the cell formatting. The class `UploadView` holds the page's React state.
- `CalculatePage`: the filter over results, including the ways it can throw a `TypeError`, the unique values and the Discount cell. The class `CalculateView` holds the page's React state.
- `Backend`: the upload pipeline, formula ids, price calculation and reports, written as functions. The class `Server` holds the four stores. Its methods are proved equal to those functions, and they change only what the handler changes.
- `Workflow`: lemmas that relate the pages to the server.

Requests and responses from the network are parameters of the page methods. The clock (`datetime.now().isoformat()`) is a parameter of the server methods. Pandas parsing a file is an input: each request carries what `read_csv` and `read_excel` would produce. Numbers are exact reals.

Three facts about the paging:

- The page count is `Math.ceil(n / 20)`, so an empty table has 0 pages.
- Only the calculate page resets to page 1 when a filter changes. The upload page keeps its page number, and can show an empty page (`UploadPage.FilterChangeCanLeaveAnEmptyPage`).
- Neither page sorts its rows.

Some consequences of the code are proved as lemmas:

- The upload page lower-cases the file extension, but the server's `endswith` is case-sensitive. So `DATA.CSV` passes the page and is then rejected by the server with a 400.
- The 400 "No calculations could be performed" is raised inside the handler's outer `try`. Its `except Exception` catches it, so it reaches the client as a 500.
- Suppose a file has no `Regulatory Price Limit (USD)` column and no column already named `Regulatory Limit`. It passes the required-column check, and then every one of its rows is skipped.
- Before any upload, the server's validation summary is the empty object `{}`. The upload page treats it as present, so it shows the summary box with blank counts.
- Filtering calculated results by Date, Transaction Type or Customer always gives an empty table, because result rows have none of those columns.

## Model

| member | source | states |
|---|---|---|
| Common.Distinct | frontend/app/calculate/page.tsx:111-112 | `Array.from(new Set(xs))` holds exactly the elements of `xs`, each once |
| Numerals.PyFloatOfNumeral | backend/main.py:196-198 | Python's `float` reads back the decimal numeral of any natural number as that number |
| Numerals.NumeralIsNumber | frontend/app/upload/page.tsx:197 | `Number` reads the decimal numeral of any natural number, so `isNaN` is false for it |
| Numerals.LettersAreNaN | frontend/app/upload/page.tsx:197 | `isNaN(Number("abc"))` holds |
| TableView.TotalPages | frontend/app/upload/page.tsx:166 | the page count is the smallest count of 20-row pages that covers all rows, and it is 0 exactly when there are no rows |
| TableView.Page | frontend/app/calculate/page.tsx:118-121 | a page holds at most 20 rows |
| TableView.PageWindow | frontend/app/upload/page.tsx:167-169 | from page 1 on, a page is the rows from index `(page-1)*20` up to `page*20`, with both ends cut at the end of the list |
| TableView.PageNonEmptyIffInRange | frontend/app/upload/page.tsx:166-169 | a page from 1 on holds rows exactly when its number is at most the page count |
| TableView.PagesUpToIsPrefix | frontend/app/upload/page.tsx:166-169 | pages 1 to n, joined together, are the first min(20n, length) rows |
| TableView.PagesPartition | frontend/app/calculate/page.tsx:117-121 | joining all the pages gives back the filtered list exactly |
| TableView.RowPlacement | frontend/app/upload/page.tsx:166-169 | row i appears on page i/20+1, at position i%20, and that page exists |
| TableView.ClicksStayInRange | frontend/app/upload/page.tsx:364-382 | from a page in range, Previous gives max(p-1,1) and Next gives min(p+1,total), and both stay between 1 and the page count |
| TableView.ClicksKeepPagePositive | frontend/app/calculate/page.tsx:291-310 | no click takes the page number below 1 |
| TableView.NextFromBeyondTheEnd | frontend/app/upload/page.tsx:377-378 | from a page past the last one, Next goes back to the last page |
| UploadPage.FileExtensionIsLastDotSuffix | frontend/app/upload/page.tsx:57 | the extension is the lower-cased suffix that starts at the last `.`, or the whole lower-cased name when there is no `.` |
| UploadPage.FileAcceptance | frontend/app/upload/page.tsx:56-70 | a file is accepted exactly when its extension is .csv, .xls or .xlsx and its size is at most 10485760 bytes; the type check comes before the size check |
| UploadPage.SizeLimitExamples | frontend/app/upload/page.tsx:65-66 | a file of exactly 10 MiB is accepted, and one of 11 MiB gets the size message |
| UploadPage.UpperCaseExtensionAccepted | frontend/app/upload/page.tsx:57-58 | `SALES.XLSX` is accepted, because the extension is compared after lower-casing |
| UploadPage.NameWithoutDotRejected | frontend/app/upload/page.tsx:57-58 | every file whose name has no `.` gets the invalid-type message, whatever its size |
| UploadPage.FilteredDataIsSubsequence | frontend/app/upload/page.tsx:136-151 | the filtered rows are input rows, in their original order |
| UploadPage.NoFiltersKeepAllRows | frontend/app/upload/page.tsx:136-151 | with all four filters empty, every row is kept |
| UploadPage.FilteredDataMembership | frontend/app/upload/page.tsx:136-151 | a row is kept exactly when, for each active filter, its column holds a string containing the filter text: case-insensitive for Product, Transaction Type and Customer, as written for Date |
| UploadPage.FilterIsCaseInsensitive | frontend/app/upload/page.tsx:137-148 | lower-casing the Product, Transaction Type and Customer filter texts does not change the result |
| UploadPage.StringValues | frontend/app/upload/page.tsx:156-161 | the values collected are exactly the strings found in the column; other values are skipped |
| UploadPage.UniqueValuesSpec | frontend/app/upload/page.tsx:154-163 | the drop-down values are duplicate-free, are exactly the column's strings, and appear in the order each first occurs |
| UploadPage.FormatCellValueBranches | frontend/app/upload/page.tsx:181-208 | null and undefined show '--'; a currency-named column turns numbers into money and leaves strings unchanged; a percentage column, unless its name also marks currency, appends % exactly to numbers and to strings `Number` can read |
| UploadPage.CurrencyBeatsPercentage | frontend/app/upload/page.tsx:185-199 | a column named both for a price and a margin is formatted as money |
| UploadPage.PriceIsCurrencyColumn | frontend/app/upload/page.tsx:185 | the column name "Price" marks a currency column |
| UploadPage.UploadView.constructor | frontend/app/upload/page.tsx:22-36 | the page starts with no file, no rows, no summary, no message, page 1 and empty filters |
| UploadPage.UploadView.ReceiveStoredData | frontend/app/upload/page.tsx:39-50 | a successful fetch replaces the rows and the summary object; when that object is the empty `{}` the summary box is shown with blank counts; a failed fetch changes nothing |
| UploadPage.UploadView.HandleFileChange | frontend/app/upload/page.tsx:52-75 | with no file chosen nothing changes; a rejected file clears the selection and sets its message; an accepted one is kept and the message is cleared |
| UploadPage.UploadView.HandleUpload | frontend/app/upload/page.tsx:77-103 | a request is sent exactly when a file is chosen; a success stores the rows and the three counts, clears the file and goes to page 1; a failure only sets the message |
| UploadPage.UploadView.SetFilters | frontend/app/upload/page.tsx:287 | the filters change and the page number stays as it was |
| UploadPage.UploadView.PreviousPage | frontend/app/upload/page.tsx:367-368 | the page becomes max(p-1,1) when the button is shown and enabled, and stays the same otherwise |
| UploadPage.UploadView.NextPage | frontend/app/upload/page.tsx:377-378 | the page becomes min(p+1,total) when the button is shown and enabled, and stays the same otherwise |
| UploadPage.UploadView.GetUniqueValues | frontend/app/upload/page.tsx:154-163 | the loop that fills the `Set` returns the distinct string values of the column, in first-occurrence order |
| UploadPage.FilterChangeCanLeaveAnEmptyPage | frontend/app/upload/page.tsx:166-169 | with 5 matching rows there is 1 page, and page 2, which the page number can still point to, is empty |
| CalculatePage.RowVerdictPass | frontend/app/calculate/page.tsx:98-105 | a result row passes exactly when, for each active filter, its column holds a string containing the filter text |
| CalculatePage.RowVerdictThrows | frontend/app/calculate/page.tsx:100-103 | the callback throws exactly when an active Product filter meets a value that is not a string, or an active later filter meets a number after every earlier clause passed |
| CalculatePage.FilterResults | frontend/app/calculate/page.tsx:98-105 | filtering throws exactly when some row's callback throws; otherwise it keeps exactly the rows that pass, in order |
| CalculatePage.NoResultNoRows | frontend/app/calculate/page.tsx:96 | before the first calculation the filtered list is empty |
| CalculatePage.FilteredResultsSound | frontend/app/calculate/page.tsx:95-105 | the filtered results are results, in their original order, and a result is shown exactly when it passes |
| CalculatePage.NoFiltersShowAllResults | frontend/app/calculate/page.tsx:98-105 | with no active filter nothing throws and every result is shown |
| CalculatePage.WellTypedRowsDoNotThrow | frontend/app/calculate/page.tsx:100-103 | rows with a string Product and no numeric Date, Transaction Type or Customer never make the filter throw |
| CalculatePage.UniqueValuesSpec | frontend/app/calculate/page.tsx:109-113 | the drop-down values are duplicate-free, are exactly the values found in the column of any type, appear in first-occurrence order, and there are none before a calculation |
| CalculatePage.CalculateView.constructor | frontend/app/calculate/page.tsx:25-45 | the page starts with no formulas, no selection, no rows, no result, no message, empty filters and page 1 |
| CalculatePage.CalculateView.ReceiveInitialData | frontend/app/calculate/page.tsx:49-64 | a successful fetch sets the formulas and the rows; a failure only sets 'Error fetching data' |
| CalculatePage.CalculateView.SelectFormula | frontend/app/calculate/page.tsx:136 | the selection becomes the chosen id |
| CalculatePage.CalculateView.HandleCalculate | frontend/app/calculate/page.tsx:70-92 | with no formula or no rows, nothing is sent and the message is set; otherwise the request carries the selection and all rows; a success stores the result and goes to page 1; a failure shows the detail |
| CalculatePage.CalculateView.SetFilters | frontend/app/calculate/page.tsx:42-45 | changing the filters sends the page back to 1 |
| CalculatePage.CalculateView.PreviousPage | frontend/app/calculate/page.tsx:294-295 | the page becomes max(p-1,1) when enabled, and the page number stays 1 or a page that exists |
| CalculatePage.CalculateView.NextPage | frontend/app/calculate/page.tsx:304-305 | the page becomes min(p+1,total) when enabled, and the page number stays 1 or a page that exists |
| Backend.MissingColumnsSpec | backend/main.py:105-112 | the missing columns are exactly the required columns absent from the file, in the required order, and the list is empty exactly when all are present |
| Backend.SourceColumn | backend/main.py:115 | the column read for a target name is a file column renamed to it, and there is none exactly when no file column renames to it |
| Backend.ProcessedRowFields | backend/main.py:128-140 | a processed row has the eleven keys, Quantity 1, the converted amounts, the Product text, and '--' for a missing Discount |
| Backend.ProcessedRowValues | backend/main.py:128-140 | no value of a processed row is null, and its Status is the status text |
| Backend.SkippedWhenColumnMissing | backend/main.py:127-145 | a row that lacks one of the ten columns it reads is skipped |
| Backend.SkippedIffAmountRejected | backend/main.py:134-139 | a row with all ten columns is skipped exactly when `float` rejects one of its three amounts |
| Backend.NormaliseRowSkips | backend/main.py:126-145 | a row is skipped exactly when a column it reads is missing or `float` rejects one of its amounts |
| Backend.KeptRowFields | backend/main.py:128-141 | a kept row has the eleven keys, Quantity 1, a string Product, the converted amounts, 0.0 for a missing Price, Regulatory Limit or Effective Price, and '--' for a missing Discount |
| Backend.KeptRowValues | backend/main.py:128-141 | no value of a kept row is null, and its Status is the file's status text |
| Backend.WellFormedRowKept | backend/main.py:128-141 | a row with all ten columns whose amounts are numbers or empty is kept |
| Backend.NoRowProcessed | backend/main.py:147-148 | nothing is processed exactly when every row was skipped |
| Backend.NoLimitColumnSkipsEveryRow | backend/main.py:99-103 | a file without a column renamed to Regulatory Limit has every row skipped |
| Backend.ValidationCounts | backend/main.py:118-122 | each count is at most the number of rows; the missing-discount count is 0 exactly when no row has an empty Discount, and equals the row count exactly when every row has one; the same holds for Government customers; the duplicate count is passed through |
| Backend.AcceptedFrameOutcome | backend/main.py:63-112 | a file passes the checks exactly when its name ends in .csv, .xls or .xlsx (case-sensitive), the reader produced a table, and every required column is present; each rejection is a 400, and a bad name gets the invalid-format message |
| Backend.AcceptedFrameErrorText | backend/main.py:63-112 | every rejection from the three checks carries a non-empty message |
| Backend.UploadOutcome | backend/main.py:61-161 | an upload succeeds exactly when the file passes the checks and at least one row is processed; it then returns the processed rows, their count and the frame's summary; every failure is a 400 |
| Backend.NextIdIsFresh | backend/main.py:171 | when every key is one the handler could have issued, `str(len(formulas) + 1)` is not yet taken |
| Backend.PriceRowClassification | backend/main.py:196-215 | a result is 'Compliant' exactly when its calculated price is at most its limit, and 'Non-Compliant' exactly otherwise; it carries over Product and Discount; a '--' discount leaves the price unchanged |
| Backend.NoRowPriced | backend/main.py:223-224 | nothing is priced exactly when every row raised |
| Backend.CountsAddUp | backend/main.py:232-233 | the compliant and non-compliant counts add up to the number of results |
| Backend.Calculate | backend/main.py:181-249 | an unknown formula is a 404; a known formula with no priceable row is the 500 that wraps the 400, and with at least one it succeeds; a success returns the priced rows, at least one and at most the number sent, with the compliant and non-compliant counts of those rows (adding up to the total) and the formula's text and name |
| Backend.NothingPricedIsServerError | backend/main.py:223-249 | a known formula where no row can be priced ends as the 500 "Error performing calculations: 400: No calculations could be performed" |
| Backend.HistoryAppendConsistent | backend/main.py:227-234 | appending an entry with at least one row and counts that add up keeps the history consistent |
| Backend.ReportsAfterAppend | backend/main.py:251-259 | after a calculation is recorded, the report's total grows by one, the new entry is the latest, and the earlier entries come first |
| Backend.LatestReportConsistent | backend/main.py:251-259 | over a consistent history, the latest calculation in the report covers at least one row, and its compliant and non-compliant counts add up to it |
| Backend.ReportsIgnoreDates | backend/main.py:252-259 | the report is the same whatever start and end dates are given |
| Backend.Server.constructor | backend/main.py:24-27 | the formulas, history and rows start empty, and the validation summary starts as the empty object |
| Backend.Server.ProcessRows | backend/main.py:125-145 | the row loop, with `continue` on a failing row, yields exactly the rows that do not raise, in order |
| Backend.Server.OpenUpload | backend/main.py:63-112 | the name check, the read and the column check return the answer the checks define |
| Backend.Server.UploadFile | backend/main.py:61-167 | the reply is that of the upload functions; a success replaces the stored rows and the summary with the three counts, and a failure leaves both unchanged |
| Backend.Server.StoreFrame | backend/main.py:117-161 | for an accepted frame, the reply is the processed rows or the 400, and the stores change only on success |
| Backend.Server.CreateFormula | backend/main.py:169-175 | the id is `str(len(formulas) + 1)` and was not in use; the store gains exactly that entry, stamped with the given time |
| Backend.Server.PriceAll | backend/main.py:192-221 | the pricing loop yields exactly the rows that do not raise, in order |
| Backend.Server.CalculatePrices | backend/main.py:181-249 | the reply is that of `Calculate`; an error leaves the history unchanged; a success appends one entry with the formula, the time and the same counts as the reply; that entry becomes the latest one in the report; every entry in the history keeps counts that add up |
| Workflow.UpperCaseNamePassesPageNotServer | backend/main.py:63-64 | `DATA.CSV` passes the page's file check, and the server answers it with the 400 invalid-format error |
| Workflow.ResultRowKeys | backend/main.py:207-215 | a result row carries the Product given, and has no Date, Transaction Type or Customer key |
| Workflow.PricedRowShape | backend/main.py:207-215 | each calculated row takes its Product from a request row, and has no Date, Transaction Type or Customer |
| Workflow.CalculatedRowsFilterCleanly | frontend/app/calculate/page.tsx:98-105 | on results priced from rows whose Product is a string, the filter never throws, and an active Date, Transaction Type or Customer filter leaves nothing |
| Workflow.StoredProductsAreStrings | backend/main.py:130 | every stored row has a string Product |
| Workflow.StoredRowPriced | backend/main.py:196-198 | a stored row is priced exactly when its Discount cell was empty, is '--', or its text is a number `float` reads; an empty Discount leaves the price undiscounted |
| Workflow.StoredDataFiltersCleanly | frontend/app/calculate/page.tsx:98-105 | pricing the stored upload and filtering the results on the calculate page never throws |
| Workflow.StoredColumnsShown | frontend/app/upload/page.tsx:172-178 | for data the server stored, the upload table shows exactly the eleven columns of a processed row, because none of their values is null |
| Workflow.StoredStatusBadge | frontend/app/upload/page.tsx:344-351 | a stored row's Status badge is green exactly when the file's status text is "Compliant", and it shows that text |
| Workflow.StoredPriceIsCurrency | frontend/app/upload/page.tsx:185-191 | a stored row's Price is drawn as money, using the amount the server converted |
| Workflow.StoredDiscountShown | frontend/app/calculate/page.tsx:273 | a priced stored row shows '--' for Discount exactly when the file's Discount was empty or the text '--', and otherwise shows the file's text with % appended |
| Workflow.UploadRejectionShown | frontend/app/upload/page.tsx:98-99 | every upload rejection message from the server is non-empty, so the page shows it exactly as sent |
| Workflow.CalculateRejectionShown | frontend/app/calculate/page.tsx:88 | the page shows the server's error as sent: "Formula not found" for an unknown formula, and otherwise the wrapped 500 text |
| Workflow.FirstVisitShowsBlankSummary | frontend/app/upload/page.tsx:264-275 | a fresh server's `{}` summary, fetched when the page mounts, gives a summary box with blank counts |

## Left out

- Loading flags are not modelled. The disabled Previous and Next buttons are modelled by `PreviousEnabled` and `NextEnabled`.
- The Calculate button is disabled while loading, with no formula, or with no rows. So the guard message in `HandleCalculate` cannot be reached by a click. The model keeps the guard, but not the disabled button or the loading state.
- The Upload button is disabled while loading; this is not modelled.
- Concurrent requests and the order in which asynchronous responses arrive: each handler is modelled as one atomic step that receives its response as a parameter.
- The template download (`handleDownloadTemplate`): it only builds a fixed CSV text in the browser.
- `GET /`, `GET /api/data` and `GET /api/formulas`: they return a store unchanged. The pages' use of the last two is modelled by `ReceiveStoredData` and `ReceiveInitialData`.
- The formulas page, reports page, home page and layout: they are not part of this model.
- UploadPage.AvailableColumns: it returns a set, so the order of the columns (JavaScript key order) is not modelled.
- `toLocaleString`: number formatting is kept as the branch taken (`Currency`, `Percent`, `Grouped`) plus the number, not as the text drawn.
- Lower-casing: only ASCII letters are lower-cased. Trimming removes ASCII white space only.
- Python float spellings: `inf`, `infinity` and `nan` in any letter case and with an optional `+` or `-` sign (such as `-inf` or `+nan`), digit underscores and non-ASCII digits are not read by `PyFloat`. JavaScript `Number` is modelled for decimal, `Infinity` and 0x/0o/0b strings only.
- Numbers are exact reals: binary floating point, its rounding, and Python's `repr` of floats are not modelled. A numeric cell carries its `str()` text as an input.
- JSON booleans, arrays and objects in rows are not modelled; a value is a string, a number or null.
- Pandas: reading the bytes, inferring types, and `df.duplicated()` are inputs of the model (the frame and its duplicate count).
- Pandas column collisions: when two columns rename to the same name, the first one is read; the DataFrame that pandas would return in that case is not modelled.
- The 500 "Error processing file" path of `upload_file`: an exception outside the row loop cannot arise from the modelled inputs.
- FastAPI's list-shaped validation details are modelled on the upload page (`DetailList`) but not produced by the server model.
- The `filters` field of the calculation request: the server never reads it.
- `datetime.now().isoformat()` in `create_formula` and `calculate_prices`: the time is a parameter.
- Report date ranges: `get_reports` accepts `start_date` and `end_date` and ignores them, and so does the model.
