/** The per-row callback of `fetchGoldPrices`: which rows of the price table
    become records, and what each record holds. A table row is abstracted to
    whether it has a header cell and the texts of its data cells, in order. */
module Scrape {
  import opened Wrappers
  import opened Text
  import opened IntParse
  import opened FilterMap

  /** A moment in time, as an abstract count (the Go code reads the clock). */
  type Instant = int

  /** Go's zero `time.Time`. */
  const ZeroInstant: Instant := 0

  /** One `<tr>` of the price table: does it contain a `<th>`, and the text of
      each of its `<td>` cells. */
  datatype Row = Row(hasHeaderCell: bool, cells: seq<string>)

  /** `GoldPrice`: buy and sell are in thousands of đồng. */
  datatype GoldPrice = GoldPrice(instrument: string, buy: int, sell: int, converted: string, updatedAt: Instant)

  /** goquery's `cells.Eq(k).Text()`: the text of cell `k`, or the empty
      string when the row has no such cell. */
  function CellText(cells: seq<string>, k: nat): string {
    if k < |cells| then cells[k] else ""
  }

  /** A price cell `convertToInt64` accepts once trimmed. */
  predicate IsPriceCell(cell: string) {
    var t := Without(Trim(cell), ',');
    IsIntLiteral(t) && InInt64(LiteralValue(t))
  }

  function PriceCellValue(cell: string): int
    requires IsPriceCell(cell)
  {
    LiteralValue(Without(Trim(cell), ','))
  }

  /** `convertToInt64(strings.TrimSpace(cell))`. */
  function ParsePriceCell(cell: string): (r: Result<int, NumError>)
    ensures r.Ok? <==> IsPriceCell(cell)
    ensures r.Ok? ==> r.value == PriceCellValue(cell)
  {
    ConvertToInt64(Trim(cell))
  }

  /** The row callback of `fetchGoldPrices`: a header row or a row with fewer than
      three data cells is skipped; otherwise the trimmed buy (cell 1) and sell
      (cell 2) texts are parsed and the row is dropped if either fails; a kept
      row becomes a record of the trimmed cells 0 to 3, cell 3 being empty
      when absent, stamped with the clock reading `now`. */
  function ParseRow(row: Row, now: Instant): (r: Option<GoldPrice>)
    ensures r.Some? <==> && !row.hasHeaderCell
                         && |row.cells| >= 3
                         && IsPriceCell(row.cells[1])
                         && IsPriceCell(row.cells[2])
    ensures r.Some? ==> && r.value.instrument == Trim(row.cells[0])
                        && r.value.buy == PriceCellValue(row.cells[1])
                        && r.value.sell == PriceCellValue(row.cells[2])
                        && r.value.converted == (if |row.cells| > 3 then Trim(row.cells[3]) else "")
                        && r.value.updatedAt == now
  {
    if row.hasHeaderCell then None
    else if |row.cells| < 3 then None
    else
      assert CellText(row.cells, 1) == row.cells[1] && CellText(row.cells, 2) == row.cells[2];
      match ParsePriceCell(CellText(row.cells, 1))
      case Err(_) => None
      case Ok(buy) =>
        match ParsePriceCell(CellText(row.cells, 2))
        case Err(_) => None
        case Ok(sell) =>
          Some(GoldPrice(Trim(CellText(row.cells, 0)), buy, sell,
                         Trim(CellText(row.cells, 3)), now))
  }

  /** The row callback as a partial function of the row. */
  function RowParser(now: Instant): Row -> Option<GoldPrice> {
    row => ParseRow(row, now)
  }

  /** The `Each` loop of `fetchGoldPrices` over the table rows in document
      order, appending each kept row's record: the result is the records of
      the kept rows, in row order. */
  method FetchGoldPrices(rows: seq<Row>, now: Instant) returns (prices: seq<GoldPrice>)
    ensures prices == Kept(RowParser(now), rows)
  {
    prices := [];
    var i := 0;
    while i < |rows|
      invariant 0 <= i <= |rows|
      invariant prices == Kept(RowParser(now), rows[..i])
    {
      TakeSucc(rows, i);
      KeptSnoc(RowParser(now), rows[..i], rows[i]);
      match ParseRow(rows[i], now) {
        case Some(p) => prices := prices + [p];
        case None =>
      }
      i := i + 1;
    }
    assert rows[..i] == rows;
  }

  /** A kept row's record appears in the snapshot after exactly the records of
      the kept rows before it, and a later kept row's record comes later. */
  lemma SnapshotKeepsRows(rows: seq<Row>, i: nat, j: nat, now: Instant)
    requires i < j <= |rows|
    requires ParseRow(rows[i], now).Some?
    ensures var pos := |Kept(RowParser(now), rows[..i])|;
      && pos < |Kept(RowParser(now), rows[..j])|
      && pos < |Kept(RowParser(now), rows)|
      && Kept(RowParser(now), rows)[pos] == ParseRow(rows[i], now).value
  {
    KeptPosition(RowParser(now), rows, i);
    KeptInOrder(RowParser(now), rows, i, j);
  }

  /** Every record of the snapshot is the record of some kept row. */
  lemma SnapshotRecordSource(rows: seq<Row>, k: nat, now: Instant)
    ensures k < |Kept(RowParser(now), rows)| ==>
      exists i :: 0 <= i < |rows| && ParseRow(rows[i], now) == Some(Kept(RowParser(now), rows)[k])
  {
    if k < |Kept(RowParser(now), rows)| {
      KeptSource(RowParser(now), rows, k);
    }
  }
}
