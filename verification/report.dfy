/** The notification text (`formatMessage`): the tracked instrument's prices
    now, and how its buy and sell prices moved since the previous snapshot. */
module Report {
  import opened Wrappers
  import opened Text
  import opened Currency
  import opened Scrape
  import opened Decimal

  /** The instrument the report follows. */
  const TrackedInstrument: string := "Vàng nhẫn khâu 9999"

  /** Go's zero `GoldPrice`, used when a snapshot lacks the tracked instrument. */
  const ZeroPrice: GoldPrice := GoldPrice("", 0, 0, "", ZeroInstant)

  /** The selection loop of `formatMessage`, resumed with `found` as the record
      chosen so far: every record of the tracked instrument replaces it. */
  function PickTracked(ps: seq<GoldPrice>, found: GoldPrice): (r: GoldPrice)
    ensures r == found || (r in ps && r.instrument == TrackedInstrument)
    ensures (exists i :: 0 <= i < |ps| && ps[i].instrument == TrackedInstrument) ==> r.instrument == TrackedInstrument
    ensures (forall i :: 0 <= i < |ps| ==> ps[i].instrument != TrackedInstrument) ==> r == found
    ensures forall i :: 0 <= i < |ps| && ps[i].instrument == TrackedInstrument
                        && (forall j :: i < j < |ps| ==> ps[j].instrument != TrackedInstrument)
                        ==> r == ps[i]
  {
    if ps == [] then found
    else PickTracked(ps[1..], if ps[0].instrument == TrackedInstrument then ps[0] else found)
  }

  /** The tracked record of a snapshot: its last record of the tracked
      instrument, or the zero record when it has none. */
  function Tracked(ps: seq<GoldPrice>): (r: GoldPrice)
    ensures r == ZeroPrice <==> forall i :: 0 <= i < |ps| ==> ps[i].instrument != TrackedInstrument
    ensures r != ZeroPrice ==> r.instrument == TrackedInstrument
  {
    PickTracked(ps, ZeroPrice)
  }

  /** Which price a commentary line is about. */
  datatype Side = Buying | Selling {
    function Word(): string {
      match this
      case Buying => "mua"
      case Selling => "bán"
    }
  }

  /** How a price moved, with the size of the move in thousands of đồng. */
  datatype Movement = Rose(amount: nat) | Fell(amount: nat) | Unchanged

  /** The movement from `last` to `current`, by the sign of the difference. */
  function MovementOf(current: int, last: int): Movement {
    if current > last then Rose(current - last)
    else if current < last then Fell(last - current)
    else Unchanged
  }

  function Lead(side: Side): string {
    "> Hôm nay giá " + side.Word() + " "
  }

  const RoseWord: string := "tăng "
  const FellWord: string := "giảm "
  const Comparison: string := "/chỉ so với trước đó\n"
  const UnchangedText: string := "không đổi so với trước đó\n"

  /** One commentary line of `formatMessage`: increase, decrease or unchanged by
      the sign of `current - last`; the amount is `FormatVND` of the
      difference itself, negative for a decrease. */
  function DeltaLine(side: Side, current: int, last: int): (line: string) {
    if current - last > 0 then Lead(side) + RoseWord + FormatVND(current - last) + Comparison
    else if current - last < 0 then Lead(side) + FellWord + FormatVND(current - last) + Comparison
    else Lead(side) + UnchangedText
  }

  /** The amount of a commentary line: a rendered price followed by the
      comparison phrase. */
  function ReadAmount(t: string): Option<nat> {
    if |t| >= |Comparison| && t[|t| - |Comparison|..] == Comparison
    then DecodeVND(t[..|t| - |Comparison|])
    else None
  }

  /** Reads what follows the lead of a commentary line. */
  function ReadVerdict(rest: string): Option<Movement> {
    if |rest| >= |RoseWord| && rest[..|RoseWord|] == RoseWord then
      match ReadAmount(rest[|RoseWord|..])
      case Some(a) => Some(Rose(a))
      case None => None
    else if |rest| >= |FellWord| && rest[..|FellWord|] == FellWord then
      match ReadAmount(rest[|FellWord|..])
      case Some(a) => Some(Fell(a))
      case None => None
    else if rest == UnchangedText then Some(Unchanged)
    else None
  }

  /** Reads a commentary line back into the movement it reports. */
  function ReadDeltaLine(side: Side, line: string): Option<Movement> {
    var lead := Lead(side);
    if |line| < |lead| || line[..|lead|] != lead then None
    else ReadVerdict(line[|lead|..])
  }

  lemma ReadAfterLead(side: Side, rest: string)
    ensures ReadDeltaLine(side, Lead(side) + rest) == ReadVerdict(rest)
  {
    var line := Lead(side) + rest;
    assert line[..|Lead(side)|] == Lead(side);
    assert line[|Lead(side)|..] == rest;
  }

  lemma ReadAmountOf(n: int)
    ensures ReadAmount(FormatVND(n) + Comparison) == Some(Abs(n))
  {
    var t := FormatVND(n) + Comparison;
    assert t[|t| - |Comparison|..] == Comparison;
    assert t[..|t| - |Comparison|] == FormatVND(n);
    DecodeFormatVND(n);
  }

  /** Reading a line made of the lead, a movement word and an amount. */
  lemma ReadWordedLine(side: Side, word: string, d: int)
    requires word == RoseWord || word == FellWord
    ensures var line := Lead(side) + word + FormatVND(d) + Comparison;
      ReadDeltaLine(side, line)
        == Some(if word == RoseWord then Rose(Abs(d)) else Fell(Abs(d)))
  {
    var tail := FormatVND(d) + Comparison;
    var rest := word + tail;
    assert Lead(side) + word + FormatVND(d) + Comparison == Lead(side) + rest;
    ReadAfterLead(side, rest);
    assert rest[..|word|] == word;
    assert rest[|word|..] == tail;
    ReadAmountOf(d);
    if word == FellWord {
      assert rest[..|RoseWord|] != RoseWord by {
        assert rest[0] == 'g';
      }
    }
  }

  lemma ReadUnchangedLine(side: Side)
    ensures ReadDeltaLine(side, Lead(side) + UnchangedText) == Some(Unchanged)
  {
    ReadAfterLead(side, UnchangedText);
    var rest := UnchangedText;
    assert rest[0] == 'k';
    assert rest[..|RoseWord|] != RoseWord by {
      assert RoseWord[0] == 't';
    }
    assert rest[..|FellWord|] != FellWord by {
      assert FellWord[0] == 'g';
    }
  }

  /** A commentary line says exactly one of increased, decreased or unchanged,
      chosen by the sign of `current - last`, and the amount it shows is the
      size of the difference: reading the line back gives the movement. */
  lemma DeltaLineRoundTrip(side: Side, current: int, last: int)
    ensures ReadDeltaLine(side, DeltaLine(side, current, last)) == Some(MovementOf(current, last))
  {
    var d := current - last;
    if d > 0 {
      ReadWordedLine(side, RoseWord, d);
    } else if d < 0 {
      ReadWordedLine(side, FellWord, d);
    } else {
      ReadUnchangedLine(side);
    }
  }

  /** The first line: the caller's rendering of the current time. */
  function HeaderLine(stamp: string): (line: string) {
    "Giá vàng hôm nay - " + stamp + " 💰\n"
  }

  const Bullet: string := "• "
  const BuyLabel: string := ": Mua "
  const SellLabel: string := "/chỉ - Bán "
  const PerChi: string := "/chỉ\n"

  /** The second line: the tracked record's name, buy and sell prices. */
  function PriceLine(p: GoldPrice): (line: string) {
    Bullet + p.instrument + BuyLabel + FormatVND(p.buy) + SellLabel + FormatVND(p.sell) + PerChi
  }

  /** `s` without the prefix `pre`, when it starts with it. */
  function DropPrefix(s: string, pre: string): Option<string> {
    if |s| >= |pre| && s[..|pre|] == pre then Some(s[|pre|..]) else None
  }

  /** `s` without the suffix `suf`, when it ends with it. */
  function DropSuffix(s: string, suf: string): Option<string> {
    if |s| >= |suf| && s[|s| - |suf|..] == suf then Some(s[..|s| - |suf|]) else None
  }

  lemma DropPrefixOf(pre: string, s: string)
    ensures DropPrefix(pre + s, pre) == Some(s)
  {
    assert (pre + s)[..|pre|] == pre;
    assert (pre + s)[|pre|..] == s;
  }

  lemma DropSuffixOf(s: string, suf: string)
    ensures DropSuffix(s + suf, suf) == Some(s)
  {
    assert (s + suf)[|s|..] == suf;
    assert (s + suf)[..|s|] == s;
  }

  /** A character a grouped amount is made of. */
  predicate IsAmountChar(c: char) {
    c == '.' || IsDigit(c)
  }

  /** Where the trailing run of amount characters of `s` begins. */
  function AmountStart(s: string): (k: nat)
    ensures k <= |s|
  {
    if |s| == 0 || !IsAmountChar(s[|s| - 1]) then |s| else AmountStart(s[..|s| - 1])
  }

  /** The run found is exactly the amount appended to a text that does not
      end in an amount character. */
  lemma {:induction false} AmountStartAfter(a: string, g: string)
    requires a == [] || !IsAmountChar(a[|a| - 1])
    requires forall k :: 0 <= k < |g| ==> IsAmountChar(g[k])
    ensures AmountStart(a + g) == |a|
  {
    if g != [] {
      var s := a + g;
      assert s[|s| - 1] == g[|g| - 1];
      assert s[..|s| - 1] == a + g[..|g| - 1];
      AmountStartAfter(a, g[..|g| - 1]);
    } else {
      assert a + g == a;
    }
  }

  /** Splits a text ending in a rendered amount into what precedes the
      amount and the amount's value. */
  function ReadAmountAtEnd(s: string): Option<(string, nat)> {
    match DropSuffix(s, DongSuffix)
    case None => None
    case Some(t) =>
      var k := AmountStart(t);
      match DecodeVND(t[k..] + DongSuffix)
      case None => None
      case Some(v) => Some((t[..k], v))
  }

  /** A grouped amount is made of amount characters only. */
  lemma GroupedAmountChars(g: string)
    requires Grouped(g)
    ensures forall k :: 0 <= k < |g| ==> IsAmountChar(g[k])
  {
  }

  /** The amount at the end of `a + g + " ₫"` is `g + " ₫"`, when `g` is made
      of amount characters and `a` does not end in one. */
  lemma ReadAmountAtEndSplit(a: string, g: string)
    requires a == [] || !IsAmountChar(a[|a| - 1])
    requires forall k :: 0 <= k < |g| ==> IsAmountChar(g[k])
    ensures ReadAmountAtEnd((a + g) + DongSuffix)
      == (match DecodeVND(g + DongSuffix) case None => None case Some(v) => Some((a, v)))
  {
    DropSuffixOf(a + g, DongSuffix);
    AmountStartAfter(a, g);
    assert (a + g)[|a|..] == g && (a + g)[..|a|] == a;
  }

  lemma ReadAmountAtEndOf(a: string, n: int)
    requires a == [] || !IsAmountChar(a[|a| - 1])
    ensures ReadAmountAtEnd(a + FormatVND(n)) == Some((a, Abs(n)))
  {
    var g := GroupThousands(Digits(Abs(n * 1000)));
    GroupThousandsShape(Digits(Abs(n * 1000)));
    GroupedAmountChars(g);
    assert FormatVND(n) == g + DongSuffix;
    assert a + FormatVND(n) == (a + g) + DongSuffix;
    ReadAmountAtEndSplit(a, g);
    DecodeFormatVND(n);
  }

  /** Reads a price line back into the instrument's name and the magnitudes
      of its buy and sell prices. The name may hold any text: the amounts are
      read from the right. */
  function ReadPriceLine(line: string): Option<(string, nat, nat)> {
    match DropPrefix(line, Bullet)
    case None => None
    case Some(l1) =>
      match DropSuffix(l1, PerChi)
      case None => None
      case Some(body) =>
        match ReadAmountAtEnd(body)
        case None => None
        case Some((r1, sell)) =>
          match DropSuffix(r1, SellLabel)
          case None => None
          case Some(r2) =>
            match ReadAmountAtEnd(r2)
            case None => None
            case Some((r3, buy)) =>
              match DropSuffix(r3, BuyLabel)
              case None => None
              case Some(name) => Some((name, buy, sell))
  }

  /** Reading a price line back gives the record's name and the magnitudes of
      its buy and sell prices: the sign of a negative price is not shown. */
  lemma PriceLineRoundTrip(p: GoldPrice)
    ensures ReadPriceLine(PriceLine(p)) == Some((p.instrument, Abs(p.buy), Abs(p.sell)))
  {
    var nameBuy := p.instrument + BuyLabel;
    var r1 := nameBuy + FormatVND(p.buy) + SellLabel;
    var body := r1 + FormatVND(p.sell);
    assert PriceLine(p) == Bullet + (body + PerChi);
    DropPrefixOf(Bullet, body + PerChi);
    DropSuffixOf(body, PerChi);
    assert SellLabel[|SellLabel| - 1] == ' ';
    ReadAmountAtEndOf(r1, p.sell);
    DropSuffixOf(nameBuy + FormatVND(p.buy), SellLabel);
    assert BuyLabel[|BuyLabel| - 1] == ' ';
    ReadAmountAtEndOf(nameBuy, p.buy);
    DropSuffixOf(p.instrument, BuyLabel);
  }

  /** `formatMessage`: the header, the tracked record of the current snapshot,
      and the buy and sell commentary against the tracked record of the
      previous snapshot. It never reports an error. */
  function FormatMessage(stamp: string, prices: seq<GoldPrice>, lastPrices: seq<GoldPrice>): (r: Result<string, string>)
    ensures r.Ok?
    ensures |r.value| > 0 && r.value[|r.value| - 1] == '\n'
  {
    var current := Tracked(prices);
    var last := Tracked(lastPrices);
    Ok(HeaderLine(stamp) + PriceLine(current)
       + DeltaLine(Buying, current.buy, last.buy)
       + DeltaLine(Selling, current.sell, last.sell))
  }

  /** Where the line holding position `j` starts: just after the closest
      line break before `j`, or at the start of the text. */
  function LineStart(s: string, j: nat): (k: nat)
    requires j <= |s|
    ensures k <= j
    ensures k == 0 || s[k - 1] == '\n'
    ensures forall m :: k <= m < j ==> s[m] != '\n'
  {
    if j == 0 then 0 else if s[j - 1] == '\n' then j else LineStart(s, j - 1)
  }

  /** Splits off the last line (with its final line break) of a text that
      ends in a line break. */
  function SplitLastLine(s: string): (r: (string, string))
    requires |s| > 0
    ensures r.0 + r.1 == s
  {
    var k := LineStart(s, |s| - 1);
    (s[..k], s[k..])
  }

  /** Reads the buy and sell movements from the last two lines of a report. */
  function ReadMovements(msg: string): Option<(Movement, Movement)> {
    if |msg| == 0 then None
    else
      var (rest, sellLine) := SplitLastLine(msg);
      if |rest| == 0 then None
      else
        var (_, buyLine) := SplitLastLine(rest);
        match (ReadDeltaLine(Buying, buyLine), ReadDeltaLine(Selling, sellLine))
        case (Some(b), Some(s)) => Some((b, s))
        case _ => None
  }

  /** The fixed texts of a commentary line hold no line break before the end. */
  lemma PhrasesAreOneLine(side: Side)
    ensures Lacks(Lead(side), '\n')
    ensures Lacks(RoseWord, '\n') && Lacks(FellWord, '\n')
    ensures Comparison == Comparison[..|Comparison| - 1] + "\n" && Lacks(Comparison[..|Comparison| - 1], '\n')
    ensures UnchangedText == UnchangedText[..|UnchangedText| - 1] + "\n" && Lacks(UnchangedText[..|UnchangedText| - 1], '\n')
  {
    LacksConcat("> Hôm nay giá " + side.Word(), " ", '\n');
    LacksConcat("> Hôm nay giá ", side.Word(), '\n');
  }

  /** A commentary line ends in its only line break. */
  lemma DeltaLineIsOneLine(side: Side, current: int, last: int)
    ensures var line := DeltaLine(side, current, last);
      |line| > 0 && line[|line| - 1] == '\n' && Lacks(line[..|line| - 1], '\n')
  {
    PhrasesAreOneLine(side);
    var line := DeltaLine(side, current, last);
    var d := current - last;
    if d != 0 {
      var word := if d > 0 then RoseWord else FellWord;
      FormatVNDIgnoresSign(d);
      var phrase := Comparison[..|Comparison| - 1];
      LacksConcat(Lead(side), word, '\n');
      LacksConcat(Lead(side) + word, FormatVND(d), '\n');
      var body := Lead(side) + word + FormatVND(d) + phrase;
      LacksConcat(Lead(side) + word + FormatVND(d), phrase, '\n');
      assert line == body + "\n";
      assert line[..|line| - 1] == body;
    } else {
      var phrase := UnchangedText[..|UnchangedText| - 1];
      LacksConcat(Lead(side), phrase, '\n');
      assert line == Lead(side) + phrase + "\n";
      assert line[..|line| - 1] == Lead(side) + phrase;
    }
  }

  /** Splitting `a + line` where `a` is empty or ends a line, and `line` is a
      single line, gives back `a` and `line`. */
  lemma SplitAfterLine(a: string, line: string)
    requires |line| > 0 && line[|line| - 1] == '\n' && Lacks(line[..|line| - 1], '\n')
    requires a == [] || a[|a| - 1] == '\n'
    ensures SplitLastLine(a + line) == (a, line)
  {
    var s := a + line;
    var k := LineStart(s, |s| - 1);
    assert k >= |a| by {
      if |a| > 0 {
        assert s[|a| - 1] == '\n';
      }
    }
    assert k <= |a|;
    assert s[..k] == a && s[k..] == line;
  }

  /** The report's last two lines tell how the tracked instrument's buy and
      sell prices moved against the previous snapshot's tracked record (the
      zero record when the previous snapshot lacks the instrument). */
  lemma ReportStatesMovements(stamp: string, prices: seq<GoldPrice>, lastPrices: seq<GoldPrice>)
    ensures var current := Tracked(prices); var last := Tracked(lastPrices);
      ReadMovements(FormatMessage(stamp, prices, lastPrices).value)
        == Some((MovementOf(current.buy, last.buy), MovementOf(current.sell, last.sell)))
  {
    var current := Tracked(prices);
    var last := Tracked(lastPrices);
    var head := HeaderLine(stamp) + PriceLine(current);
    var buyLine := DeltaLine(Buying, current.buy, last.buy);
    var sellLine := DeltaLine(Selling, current.sell, last.sell);
    var msg := FormatMessage(stamp, prices, lastPrices).value;
    assert msg == (head + buyLine) + sellLine;
    DeltaLineIsOneLine(Buying, current.buy, last.buy);
    DeltaLineIsOneLine(Selling, current.sell, last.sell);
    SplitAfterLine(head + buyLine, sellLine);
    SplitAfterLine(head, buyLine);
    DeltaLineRoundTrip(Buying, current.buy, last.buy);
    DeltaLineRoundTrip(Selling, current.sell, last.sell);
  }

  /** The price line shows no sign: negating both prices of a record leaves
      its line unchanged. */
  lemma PriceLineHidesSign(p: GoldPrice)
    ensures PriceLine(p.(buy := -p.buy, sell := -p.sell)) == PriceLine(p)
  {
    FormatVNDIgnoresSign(p.buy);
    FormatVNDIgnoresSign(p.sell);
  }

  /** Reads the header and the price line of a report: the price line is the
      third line from the end, and the header is everything before it. */
  function ReadHeadAndPrices(msg: string): Option<(string, (string, nat, nat))> {
    if |msg| == 0 then None
    else
      var (r1, _) := SplitLastLine(msg);
      if |r1| == 0 then None
      else
        var (r2, _) := SplitLastLine(r1);
        if |r2| == 0 then None
        else
          var (head, priceLine) := SplitLastLine(r2);
          match ReadPriceLine(priceLine)
          case Some(x) => Some((head, x))
          case None => None
  }

  /** The tracked record's name holds no line break: it is the tracked
      instrument's name or the zero record's empty name. */
  lemma TrackedNameIsOneLine(ps: seq<GoldPrice>)
    ensures Lacks(Tracked(ps).instrument, '\n')
  {
    var name := TrackedInstrument;
    assert forall k :: 0 <= k < |name| ==> name[k] != '\n';
  }

  /** A price line of a record whose name holds no line break ends in its
      only line break. */
  lemma PriceLineIsOneLine(p: GoldPrice)
    requires Lacks(p.instrument, '\n')
    ensures var line := PriceLine(p);
      |line| > 0 && line[|line| - 1] == '\n' && Lacks(line[..|line| - 1], '\n')
  {
    FormatVNDIgnoresSign(p.buy);
    FormatVNDIgnoresSign(p.sell);
    var line := PriceLine(p);
    var tail := PerChi[..|PerChi| - 1];
    assert Lacks(Bullet, '\n') && Lacks(BuyLabel, '\n') && Lacks(SellLabel, '\n') && Lacks(tail, '\n');
    LacksConcat(Bullet, p.instrument, '\n');
    LacksConcat(Bullet + p.instrument, BuyLabel, '\n');
    LacksConcat(Bullet + p.instrument + BuyLabel, FormatVND(p.buy), '\n');
    LacksConcat(Bullet + p.instrument + BuyLabel + FormatVND(p.buy), SellLabel, '\n');
    var front := Bullet + p.instrument + BuyLabel + FormatVND(p.buy) + SellLabel;
    LacksConcat(front, FormatVND(p.sell), '\n');
    LacksConcat(front + FormatVND(p.sell), tail, '\n');
    assert PerChi == tail + "\n";
    assert line == front + FormatVND(p.sell) + tail + "\n";
    assert line[..|line| - 1] == front + FormatVND(p.sell) + tail;
  }

  /** Splitting a text made of a head ending a line and three single lines
      peels the three lines off from the end, one by one. */
  lemma SplitThreeLines(head: string, l1: string, l2: string, l3: string)
    requires head == [] || head[|head| - 1] == '\n'
    requires |l1| > 0 && l1[|l1| - 1] == '\n' && Lacks(l1[..|l1| - 1], '\n')
    requires |l2| > 0 && l2[|l2| - 1] == '\n' && Lacks(l2[..|l2| - 1], '\n')
    requires |l3| > 0 && l3[|l3| - 1] == '\n' && Lacks(l3[..|l3| - 1], '\n')
    ensures SplitLastLine(head + l1 + l2 + l3) == (head + l1 + l2, l3)
    ensures SplitLastLine(head + l1 + l2) == (head + l1, l2)
    ensures SplitLastLine(head + l1) == (head, l1)
  {
    SplitAfterLine(head + l1 + l2, l3);
    SplitAfterLine(head + l1, l2);
    SplitAfterLine(head, l1);
  }

  /** The header and the price line are read off a report built from them. */
  lemma ReadHeadAndPricesOf(head: string, priceLine: string, l2: string, l3: string)
    requires |head| > 0 && head[|head| - 1] == '\n'
    requires |priceLine| > 0 && priceLine[|priceLine| - 1] == '\n' && Lacks(priceLine[..|priceLine| - 1], '\n')
    requires |l2| > 0 && l2[|l2| - 1] == '\n' && Lacks(l2[..|l2| - 1], '\n')
    requires |l3| > 0 && l3[|l3| - 1] == '\n' && Lacks(l3[..|l3| - 1], '\n')
    requires ReadPriceLine(priceLine).Some?
    ensures ReadHeadAndPrices(head + priceLine + l2 + l3) == Some((head, ReadPriceLine(priceLine).value))
  {
    SplitThreeLines(head, priceLine, l2, l3);
  }

  /** The report opens with the header line, and its next line names the
      current snapshot's tracked record and shows the magnitudes of its buy
      and sell prices (the zero record's empty name and zero prices when the
      snapshot lacks the instrument). */
  lemma ReportStatesPrices(stamp: string, prices: seq<GoldPrice>, lastPrices: seq<GoldPrice>)
    ensures var current := Tracked(prices);
      ReadHeadAndPrices(FormatMessage(stamp, prices, lastPrices).value)
        == Some((HeaderLine(stamp), (current.instrument, Abs(current.buy), Abs(current.sell))))
  {
    var current := Tracked(prices);
    var last := Tracked(lastPrices);
    var head := HeaderLine(stamp);
    var buyLine := DeltaLine(Buying, current.buy, last.buy);
    var sellLine := DeltaLine(Selling, current.sell, last.sell);
    assert head[|head| - 1] == '\n';
    TrackedNameIsOneLine(prices);
    PriceLineIsOneLine(current);
    DeltaLineIsOneLine(Buying, current.buy, last.buy);
    DeltaLineIsOneLine(Selling, current.sell, last.sell);
    PriceLineRoundTrip(current);
    ReadHeadAndPricesOf(head, PriceLine(current), buyLine, sellLine);
  }

  /** Two consecutive snapshots of the tracked instrument, buy 100 then 105 and
      sell 102 both times: the report says buy rose by 5 and sell is unchanged. */
  lemma ConsecutiveSnapshotsExample(stamp: string)
    ensures var previous := [GoldPrice(TrackedInstrument, 100, 102, "", 1)];
      var current := [GoldPrice(TrackedInstrument, 105, 102, "", 2)];
      ReadMovements(FormatMessage(stamp, current, previous).value) == Some((Rose(5), Unchanged))
  {
    var previous := [GoldPrice(TrackedInstrument, 100, 102, "", 1)];
    var current := [GoldPrice(TrackedInstrument, 105, 102, "", 2)];
    assert Tracked(previous) == previous[0];
    assert Tracked(current) == current[0];
    ReportStatesMovements(stamp, current, previous);
  }

  /** When the previous snapshot lacks the tracked instrument, the baseline is
      zero: a positive current buy price is reported as a rise by all of it. */
  lemma MissingHistoryIsZeroBaseline(stamp: string, prices: seq<GoldPrice>, lastPrices: seq<GoldPrice>)
    ensures Tracked(prices).buy > 0
            && (forall i :: 0 <= i < |lastPrices| ==> lastPrices[i].instrument != TrackedInstrument) ==>
      var m := ReadMovements(FormatMessage(stamp, prices, lastPrices).value);
      m.Some? && m.value.0 == Rose(Tracked(prices).buy)
  {
    ReportStatesMovements(stamp, prices, lastPrices);
  }
}
