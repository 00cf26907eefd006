# go-stocks price tracker, modelled in Dafny

go-stocks polls a quote for one ticker. It compares the quote with the last price recorded in `prices.csv` and rewrites that file with the new price. When the computed change exceeds 5 in absolute value, it sends an alert e-mail. Against a recorded price that change is a percentage; against a missing or zero record it is ten times the new price. This project models the decision core of `main.go`, with the I/O taken out:

- **`processData`** (module `Pipeline`). It computes the change against the previous price and writes the new price. When the absolute change is strictly above 5 it builds the alert subject and body and attempts the e-mail.
- **`getPreviousPrice`** (module `PriceStore`, with the write in `Pipeline.Monitor`). It scans the CSV records for the first row whose first field is the ticker. It falls back to zero on a read failure, a missing row or an unparsable price field.
- **`updateCell`** (`Pipeline.Monitor.UpdateCell`). It hands the CSV writer the header row `ticker,price` and then the ticker's row.

Layout:

- `values.dfy` (module `Values`): quotes, CSV rows, the header row, the decimal codec and the effect log entries.
- `alert_rule.dfy` (module `AlertRule`): the change formula, the threshold and the alert text, as pure functions with lemmas.
- `price_store.dfy` (module `PriceStore`): the scan as a specification function `FindRow`, the two rows a write emits (`Records`), and lemmas about them. It also holds `ScanRecords`, the loop of `getPreviousPrice`, proved against that function.
- `pipeline.dfy` (module `Pipeline`): `Process` is a step of `processData` as a function. The lemmas about it cover ordering, round trips and failure. Class `Monitor` holds the file's records and the log of effects. Its methods `UpdateCell`, `GetPreviousPrice` and `ProcessData` are proved against the functions.

Abstractions:

- Decimals are `real`. Division is exact.
- `Decimal.String` and `decimal.NewFromString` are opaque. They are the two fields of `Codec`: `format` and `parse`, where `parse` may fail. Facts about them, such as "the text of this price parses back to it" or "`price` does not parse", are stated as preconditions where they are needed.
- `prices.csv` is seen as the list of records a CSV reader returns. It is `None` when the file cannot be opened or is not valid CSV.
- Every `updateCell` leaves the file holding exactly the header and one row. This happens at the deferred flush.
- The quote and the e-mail relay's answer (`delivered`) are inputs.

Two points where the model follows the code literally rather than its evident intent:

- With no previous price, the code divides by `decimal.New(1, 1)`. That is 1×10¹ = 10, not 1. So the first-observation change is ten times the price: 50 reads as 500, not 5000 (`AlertRule.WorkedChanges`).
- Indexing `record[0]` or `record[1]` on a row that is too short panics in the source. The model keeps that as the `Crashed` outcome; it does not invent a fallback.

## Model

| member | source | states |
|---|---|---|
| AlertRule.Change | main.go:88-93 | the change formula of both branches; its contract says the change is zero exactly when the price is unchanged |
| AlertRule.Alerts | main.go:96 | the alert test on abs(change); its contract says it holds exactly when the change is above 5 or below -5 |
| AlertRule.Subject | main.go:98 | the subject is the prefix "Stock Alert: " followed by exactly the ticker |
| AlertRule.Body | main.go:99 | the body is "The price of ", the ticker, " has changed by ", the change text and "% compared to the previous price.", each at a fixed offset, and nothing else |
| AlertRule.ChangeIsPercentage | main.go:89-90 | against a non-zero previous price, applying the change as a percentage of the previous price gives back the new price |
| AlertRule.FirstObservationChange | main.go:91-92 | against a zero previous price the change is ten times the new price (decimal.New(1, 1) is 10); a new price of 0 gives change 0 and no alert; an alert fires exactly when the price's magnitude exceeds 0.5 |
| AlertRule.ThresholdIsStrict | main.go:96 | exactly +5 and -5 send nothing, and any change beyond them on either side alerts |
| AlertRule.AlertCriterion | main.go:89-96 | against a non-zero previous price, an alert fires exactly when 100·abs(new − previous) > 5·abs(previous), a criterion free of the division |
| AlertRule.WorkedChanges | main.go:88-96 | 100→106 gives 6 and alerts, 100→103 gives 3 and does not, 0→50 gives 500 and alerts |
| Values.Writes | main.go:257-261 | the effects of writing rows in order; its contract says the i-th effect writes the i-th row and there are as many effects as rows |
| PriceStore.FindRow | main.go:231-241 | the scan as a function; its contract says a hit is the second field of some row keyed by the ticker, and a miss means every row has a key field other than the ticker |
| PriceStore.LookupPrevious | main.go:212-246 | getPreviousPrice as a function of what the read returns; its contract says a zero-record write comes only with price 0, and a non-zero price is the parsed second field of a row keyed by the ticker |
| PriceStore.Records | main.go:252-255 | the header row and then (ticker, price text); its contract says scanning them for the ticker yields the price text, or the header's "price" for a ticker named "ticker" |
| PriceStore.ScanRecords | main.go:229-245 | the loop over the records returns the price of the first row keyed by the ticker, zero when its field does not parse, zero with a write request when no row matches, and a panic on a row too short to index |
| PriceStore.FindRowAtFirstMatch | main.go:231-240 | when row i is the first row keyed by the ticker, the scan yields that row's price field (or a panic if the row has no second field) |
| PriceStore.FindRowMiss | main.go:231-244 | the scan finds nothing iff every row has a key field and none equals the ticker |
| PriceStore.FindRowHitIsFirst | main.go:231-240 | every hit is the price field of the first row keyed by the ticker |
| PriceStore.FindRowAppend | main.go:231-241 | rows after a decided scan are never looked at, so a later duplicate of the ticker is ignored; after a miss the scan continues into appended rows |
| PriceStore.ZeroFallbacks | main.go:213-245 | a failed read and a missing row give 0 and ask for the zero record; an unparsable price field in the first matching row gives 0 and writes nothing |
| PriceStore.FirstMatchIsPrevious | main.go:232-245 | a parsable price field in the first matching row is the previous price, with no write |
| PriceStore.HeaderShadowsTickerNamedTicker | main.go:231-238 | the header row is scanned too: a ticker named "ticker" meets the header's "price" field, which does not parse, so it reads as 0 with no write |
| PriceStore.WrittenRecordsReadBack | main.go:252-255 | the two rows one write emits read back as the written price, when the price text parses back and the ticker is not "ticker" |
| Pipeline.AlertMail | main.go:98-100 | the e-mail attempt; its contract says the ticker can be read back from both its subject and its body |
| Pipeline.Process | main.go:86-110 | one processData step as a function; its contract says it crashes exactly when the lookup panics, a crash issues nothing and leaves the file alone, and a delivered e-mail never yields the send failure |
| Pipeline.PriceWriteAlwaysIssued | main.go:94-95 | every step that gets past the lookup writes the new price, whatever the alert decision and the relay's answer; the file then holds the header and that one row |
| Pipeline.WriteBeforeMail | main.go:94-100 | an alert e-mail is always the last effect of a step and always comes after the write of the new price |
| Pipeline.MailIffAlert | main.go:96-100 | an e-mail with the ticker's subject and the change in its body is attempted iff the change passes the threshold; otherwise the step only writes rows |
| Pipeline.SendFailureKeepsWrite | main.go:100-105 | a step reports the relay's failure iff an alert was due and not delivered; the new price is written before that failure |
| Pipeline.ProcessThenLookup | main.go:87-95 | after a step, the next lookup of the same ticker yields the price just processed (the round trip through the file) |
| Pipeline.UnseenTickerStep | main.go:87-95 | for a ticker absent from the file, the previous price is 0, the change is ten times the price, and the zero record is written before the price record |
| Pipeline.Monitor.UpdateCell | main.go:248-263 | the writer gets exactly two rows, the header and then (ticker, price text), appended to the effect log; the file then holds exactly those rows |
| Pipeline.Monitor.GetPreviousPrice | main.go:212-246 | returns the lookup of the file's records; it writes the zero record exactly on a read failure or a missing row, and otherwise changes nothing |
| Pipeline.Monitor.ProcessData | main.go:86-110 | the status, the effects appended and the new file contents are those of `Process` |

## Left out

- The producer and consumer goroutines, the unbuffered channel and the idle sleep loop in `main` (main.go:25-67) are left out. They are concurrency.
- `readDataFromSource` and `YahooFinanceClient.GetLatestPrice` are left out (HTTP, JSON and gjson). The quote is an input.
- `sendEmail` is left out (SMTP dial, STARTTLS, auth, base64 body). The relay's answer is the boolean input `delivered`.
- Credential loading through godotenv and `os.Getenv`, and the `log.Fatal` paths, are left out.
- Byte-level file behaviour is left out. Each write is modelled as leaving exactly two rows. In the source, `processData` rewrites from offset 0 without `O_TRUNC`, so a shorter rewrite can leave old bytes behind. The fallback write in `getPreviousPrice` is appended after what `ReadAll` consumed. The file handle is never closed. So `Pipeline.ProcessThenLookup` holds only for the row view. In the source, rewriting `AAPL,150.25` as `AAPL,149` leaves a stray tail line `25` behind. The next `ReadAll` then fails on the field count, the lookup reads 0 and appends the zero record, and the next change is ten times the price and alerts.
- When opening the file fails, the source hands `updateCell` a nil file and the write goes nowhere. The model records that write in the effect log and lets the file hold the two rows.
- The `os.OpenFile` error in `processData` is ignored by the source and is not modelled.
- Write errors reported by `csv.Writer.Write` (`log.Fatalln`) and by the deferred `Flush` are not modelled.
- shopspring/decimal rounds `Div` to 16 digits and formats with `Decimal.String`. Division is exact here, and the text is the opaque `Codec.format`.
- `sendDataDownstream`, which is a stub returning nil, is left out.
- The two-second sleep before a failed send is returned is left out, as is the `fmt.Println` logging.
- The CSV reader's rule that all records have as many fields as the first one is not modelled. The model allows any rows, and the scan panics on a row too short to index.
