/** Values shared by the price tracker: quotes, CSV rows, the decimal codec
    and the observable effects of one pipeline step. */
module Values {

  datatype Option<+T> = None | Some(value: T)

  /** One quote handed from the fetcher to the processor: a ticker and its price. */
  datatype StockData = StockData(ticker: string, price: real)

  /** One CSV record, as a list of fields. */
  type Row = seq<string>

  /** The header row every write puts first. */
  const Header: Row := ["ticker", "price"]

  /** The decimal library's text conversions, which the model does not open up:
      `format` stands for Decimal.String and `parse` for NewFromString, which
      either yields a decimal or fails. */
  datatype Codec = Codec(format: real -> string, parse: string -> Option<real>)

  /** What the processor does to the outside world, in the order it does it. */
  datatype Effect =
    | WroteRow(row: Row)                      // one record handed to the CSV writer of prices.csv
    | SentMail(subject: string, body: string) // one attempt to deliver an alert e-mail

  /** The effects of writing `rows` with a CSV writer, one record after another. */
  function Writes(rows: seq<Row>): (effects: seq<Effect>)
    ensures |effects| == |rows|
    ensures forall i :: 0 <= i < |rows| ==> effects[i] == WroteRow(rows[i])
  {
    if rows == [] then [] else Writes(rows[..|rows| - 1]) + [WroteRow(rows[|rows| - 1])]
  }
}
