/** The shapes that travel between the browser pages and the server as JSON:
    a row record maps column names to a string, a number or null, and a key
    that is absent reads as JavaScript's `undefined`. */
module Api {
  import opened Common

  /** `ColumnValue = string | number | null`. Numbers are exact reals. */
  datatype Value = Str(s: string) | Num(n: real) | Null

  /** One row record, keyed by column name. */
  type Row = map<string, Value>

  /** `row[key]`: `None` stands for `undefined` (the key is absent). */
  function Lookup(row: Row, key: string): Option<Value>
  {
    if key in row then Some(row[key]) else None
  }

  /** The string held in column `key`, when the value there has `typeof` "string". */
  function StringAt(row: Row, key: string): Option<string>
  {
    if key in row && row[key].Str? then Some(row[key].s) else None
  }

  /** The three counts the upload endpoint reports about a file. */
  datatype ValidationSummary = ValidationSummary(
    missingDiscounts: nat,
    govtTransactions: nat,
    duplicateTransactions: nat)

  /** The `validation_summary` object the server holds and sends: the empty
      dict `{}` until an upload succeeds, then the three counts. */
  datatype SummaryObject = EmptyObject | Counts(counts: ValidationSummary)

  /** The `summary` object of a calculation response. */
  datatype CalculationSummary = CalculationSummary(
    totalProcessed: nat,
    compliantCount: nat,
    nonCompliantCount: nat,
    formulaUsed: string,
    formulaName: string)

  /** The body of `POST /api/calculate`: the chosen formula's id and the rows to price. */
  datatype CalculationRequest = CalculationRequest(formulaId: string, data: seq<Row>)

  /** The body of a successful `POST /api/calculate`. */
  datatype CalculationResult = CalculationResult(results: seq<Row>, summary: CalculationSummary)
}
