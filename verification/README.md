# gold-tracker core in Dafny

gold-tracker scrapes a gold-price table twice a day. It turns the table rows into
`GoldPrice` records and compares the tracked instrument "Vàng nhẫn khâu 9999" with
the previous snapshot. It then renders a Vietnamese report for chat delivery. This
project models the pure logic of `main.go` between the HTML scrape and the
notification, and proves properties of it:

- price-cell parsing: `convertToInt64` and the `strconv.ParseInt(s, 10, 64)` call
  it relies on (module `IntParse`, with `Text` and `Decimal`);
- the per-row callback of `fetchGoldPrices` and the loop that collects its
  records (modules `Scrape` and `FilterMap`);
- currency rendering, `FormatVND` (module `Currency`);
- the report, `formatMessage`: picking the tracked record and wording the buy and
  sell movement (module `Report`);
- the choice of the next run in `main` (module `Schedule`).

A table row is abstracted to two things: whether it has a `<th>` cell, and the
texts of its `<td>` cells. Prices are unbounded integers in thousands of đồng.
Every operation is paired with a reference definition, an inverse or an
invariant:

- `ParseInt64` is paired with the integer-literal grammar.
- The backwards-writing loop of `FormatVND` is paired with a right-to-left
  grouping definition and the decoder `DecodeVND`.
- The row loop is paired with a filter-map definition and lemmas about order and
  provenance.
- Each commentary line is paired with the decoder `ReadDeltaLine`.
- The price line is paired with the decoder `ReadPriceLine`, which reads the
  amounts from the right, so any instrument name reads back.
- The next run is proved to be the earliest scheduled instant after now.

Behaviour worth noting:

- A price cell with a sign parses: `"-5"` gives -5, so negative prices are kept.
  The report shows a price without its sign.
- A page with no usable rows gives an empty snapshot, not an error.
- The zero record is used as the baseline whenever the previous snapshot lacks
  the tracked instrument.

## Model

| member | source | states |
|---|---|---|
| Text.Without | main.go:187 | deleting a character never lengthens the text |
| Text.WithoutSingle | main.go:187 | deleting `c` from one character gives nothing when it is `c` and the character otherwise; with `WithoutConcat`, every `c` is deleted and every other character is kept, in order |
| Text.WithoutConcat | main.go:187 | deleting a character from a concatenation deletes it from each part and joins the results |
| Text.WithoutCount | main.go:187 | the text shrinks by exactly the number of occurrences of the deleted character |
| Text.WithoutLacks | main.go:187 | no `,` is left in a cell once the separators are deleted |
| Text.WithoutIdempotent | main.go:187 | deleting the separators a second time changes nothing |
| Text.Trim | main.go:68 | the trimmed text is no longer than the cell and neither starts nor ends with a character of Go's `unicode.IsSpace` set |
| Text.TrimInfix | main.go:79 | the cell is its trimmed text with only white space before and after it |
| Text.TrimIdempotent | main.go:82 | trimming an already trimmed text leaves it unchanged |
| Decimal.Digits | main.go:212 | `%d` of a non-negative number is a non-empty digit string without a leading zero (except "0") whose value is the number |
| IntParse.ParseUint64Spec | main.go:189 | the unsigned digit loop succeeds exactly on a non-empty digit string whose value is at most 2^64 - 1, and returns that value |
| IntParse.ParseInt64 | main.go:189-192 | parsing succeeds exactly on an optionally signed digit string whose value lies in the int64 range, and returns that value |
| IntParse.ConvertToInt64 | main.go:186-195 | `convertToInt64` succeeds exactly when the cell with every `,` removed is an in-range integer literal, and returns its value |
| IntParse.ConvertIgnoresSeparators | main.go:187-189 | a cell and its comma-free form parse to the same outcome |
| IntParse.ConvertSeparatedExample | main.go:186-195 | "1,234" and "1234" both parse to 1234 |
| IntParse.ConvertDottedExample | main.go:186-195 | "1.234" is a syntax error |
| Scrape.ParsePriceCell | main.go:68-77 | a trimmed price cell parses exactly when, without its commas, it is an in-range integer literal, and then to that literal's value |
| Scrape.ParseRow | main.go:63-85 | a row is kept exactly when it has no header cell, has at least 3 data cells, and its trimmed cells 1 and 2 are price cells; a kept row's record holds trimmed cell 0, the parsed cells 1 and 2, and trimmed cell 3 or "" when absent |
| Scrape.FetchGoldPrices | main.go:61-87 | the row loop returns the records of the kept rows, in row order, skipping the dropped ones |
| FilterMap.KeptAppend | main.go:62-86 | rows are handled in order and independently: a dropped row never stops later rows from contributing |
| Scrape.SnapshotKeepsRows | main.go:62-86 | each kept row's record sits right after the records of the kept rows before it, and before later kept rows' records |
| Scrape.SnapshotRecordSource | main.go:62-86 | every record of the snapshot is the record of some kept row |
| Currency.WriteGroupedBackwards | main.go:215-222 | writing the digits last-to-first with a `.` after every third one (unless it is the first digit) gives the grouped digits read backwards |
| Currency.ReverseRunes | main.go:224-227 | the in-place swap loop reverses the runes |
| Currency.FormatVNDByReversal | main.go:207-229 | `FormatVND` equals the right-to-left grouping of the digits of abs(n*1000), followed by " ₫" |
| Currency.GroupThousandsShape | main.go:213-222 | the grouped text has a `.` exactly where the distance to its end is a multiple of four and digits elsewhere: the first group has 1-3 digits, later ones exactly 3, no leading or trailing separator |
| Currency.GroupThousandsUngroup | main.go:216-222 | removing the separators from the grouped text gives back the digits |
| Currency.FormatVNDShape | main.go:207-229 | `FormatVND(n)` is a grouped text plus " ₫", and without its `.` characters that text is the decimal digits of abs(n) * 1000 |
| Currency.FormatVNDIgnoresSign | main.go:208-211 | `FormatVND(-n) == FormatVND(n)`, and the rendering contains neither `-` nor a line break |
| Currency.DecodeFormatVND | main.go:207-229 | reading a rendering back gives abs(n): the scaling by 1000 and the grouping lose nothing but the sign |
| Currency.FormatVNDExample | main.go:207-229 | 5000 renders as "5.000.000 ₫" |
| Report.PickTracked | main.go:148-157 | the selection loop ends with the last record of the tracked instrument, or with its starting value when there is none |
| Report.Tracked | main.go:145-157 | a snapshot's tracked record is the zero record exactly when the snapshot has no record of "Vàng nhẫn khâu 9999", and otherwise a record of that instrument |
| Report.DeltaLineRoundTrip | main.go:165-181 | each commentary line says exactly one of increased, decreased or unchanged, chosen by the sign of current - last, and shows the magnitude of the difference |
| Report.DeltaLineIsOneLine | main.go:166-180 | each commentary line ends in its only line break |
| Report.FormatMessage | main.go:143-184 | `formatMessage` never reports an error, and its text ends in a line break |
| Report.PriceLineRoundTrip | main.go:159 | reading the price line back gives the record's name and the magnitudes of its buy and sell prices |
| Report.PriceLineHidesSign | main.go:159 | negating both prices of a record leaves its price line unchanged |
| Report.ReportStatesPrices | main.go:144-159 | the report starts with the header line, and the next line gives the current tracked record's name and the magnitudes of its buy and sell prices |
| Report.ReportStatesMovements | main.go:143-183 | the report's last two lines give the buy and sell movements of the current tracked record against the previous tracked record, or against zero when the previous snapshot lacks the instrument |
| Report.ConsecutiveSnapshotsExample | main.go:159-181 | buy 100 then 105 with sell 102 both times reports buy risen by 5 and sell unchanged |
| Report.MissingHistoryIsZeroBaseline | main.go:153-163 | with no previous record of the instrument, a positive buy price is reported as a rise by the whole price |
| Schedule.NextRun | main.go:239-248 | the next run is 03:00 or 08:00 of some day, strictly after now, less than a day ahead, and no later than any scheduled instant after now |
| Schedule.AtMorningWaitsForAfternoon | main.go:242-245 | at exactly 03:00 the next run is 08:00 |

## Left out

- The HTTP fetch and its status check (main.go:45-59): network I/O.
- goquery's selection of the price table and its rows: a library outside the model. Rows arrive as an abstract sequence, in document order.
- The warning printed for a dropped row (main.go:70, 75): logging only.
- SQLite table creation and inserts (main.go:90-119): persistence I/O.
- Reading and writing `latest.json`, and `log.Fatalf` when it is missing (main.go:197-205, 262-263): persistence I/O and process exit.
- Telegram and Slack delivery, including the quote escaping for Slack (main.go:121-141): transport.
- Config loading (main.go:34-42): file I/O and JSON.
- The clock:
  - Each kept row's `time.Now()` becomes one `now` parameter for the whole table.
  - The header's formatted time becomes an opaque `stamp` parameter.
  - `time.Until` and `time.Sleep` are not modelled.
- The loop in `main` that chains fetch, load, write, store, format and send (main.go:250-273): orchestration of I/O. Only its choice of the next run is modelled.
- Currency.FormatVNDByReversal: does not model int64 wrap-around of `n * 1000` or of negating the smallest int64. Prices are unbounded integers, because realistic gold prices are far from the limit.
- Report.DeltaLineRoundTrip: does not model int64 wrap-around of `current - last`, for the same reason.
- IntParse.ParseInt64: the error's text is left out (`NumError` carries the function name and the input). Only its cause is modelled, syntax or range.
- Text.Trim: Go trims UTF-8 bytes. Invalid UTF-8 sequences are not modelled, since text is a sequence of Unicode scalar values here.
- Schedule.NextRun: does not model time zones or daylight-saving changes. A day is exactly 24 hours, and the time of day is nanoseconds since local midnight.
