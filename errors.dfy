/**
 * Go `error` values as the program produces and compares them. Errors made
 * with `errors.New` or `fmt.Errorf` carry only their text; `sql.ErrNoRows`
 * is one distinguished value compared by identity; a `*strconv.NumError` is
 * structured; everything raised by code outside the model (the database
 * driver, the HTTP transport, the JSON decoder) is an opaque error with a text.
 */
module Errors {
  import Strconv

  datatype Error =
    | Message(text: string)
    | NoRows
    | Num(num: Strconv.NumError)
    | Foreign(text: string)

  /** `err.Error()`: the text an error prints. */
  function Text(e: Error): string {
    match e
    case Message(t) => t
    case NoRows => "sql: no rows in result set"
    case Num(n) => Strconv.NumErrorText(n)
    case Foreign(t) => t
  }
}
