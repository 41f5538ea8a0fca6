/** A report in figures: of two bitcoins bought before the period one is sold for dollars and a half is given
for another currency, and a payment comes in. */
module ReportRun {
  import opened Wrappers
  import opened Trxs
  import opened LotMatching
  import opened LotGains
  import opened LotDiscipline
  import opened TaxRows
  import opened PeriodSplit
  import opened LookUpTrades
  import opened LookUpLoops
  import opened TaxReport

  const FIFO := Report(true, true, {"USD"})

  const BUY := Trx(1, "tBTCUSD", "BTC", "USD", 1, Some(2.0), Some(10.0), Some(10.0), Some(1.0), None,
                   Some(-2.0), "USD", false, false, Exchange)
  const SALE := Trx(2, "tBTCUSD", "BTC", "USD", 3, Some(-1.0), Some(40.0), Some(40.0), Some(1.0), None,
                    Some(-4.0), "USD", false, false, Exchange)
  const SWAP := Trx(3, "tETHBTC", "ETH", "BTC", 4, Some(5.0), Some(0.1), Some(5.0), Some(50.0), None,
                    Some(0.0), "ETH", false, false, Exchange)
  const PAYMENT := Trx(4, "tBTCUSD", "BTC", "USD", 5, Some(0.5), Some(60.0), Some(60.0), Some(1.0), None,
                       Some(0.0), "BTC", true, true, StakingPayment)

  const PAYMENT_ROW := TaxRow("BTC", Some(0.5), Some(5), None, Some(30.0), None, Some(30.0), StakingPayment)
  const SWAP_ROW := TaxRow("BTC", Some(0.5), Some(1), Some(4), Some(25.0), Some(5.0), Some(19.0), Exchange)
  const SALE_ROW := TaxRow("BTC", Some(1.0), Some(1), Some(3), Some(40.0), Some(10.0), Some(25.0), Exchange)

  /** A sale that finds all it needs in the oldest buy. */
  lemma TakesFromOldest(l: Lot, mid: seq<Lot>, buy: Lot, o: Opts, after: Step)
    requires o.isBackIterativeBuyLookUp && IsPricedSale(l.trx, o) && IsUntouched(l)
    requires CanBeMatched(l.trx, buy.trx, o) && !buy.buy.isFilled
    requires after == Fill(OrderOf(l.trx, o), Opened(l, o), buy.trx, buy.buy.(isBuyTrx := true), o)
    requires after.sale.isFilled && after.error.None?
    ensures SaleStep(l, mid + [buy], o)
         == Turn(Classified(l, o).(sale := SaleClosed(OrderOf(l.trx, o), after.sale)),
                 mid + [buy.(buy := after.buy)], None)
  {
    var d, s, older := OrderOf(l.trx, o), Opened(l, o), mid + [buy];
    assert BuyStep(d, s, buy, o) == after;
    hide Fill, FeeUsd, SaleAmount, BuyAmount, IsUsable, HasPair, IsSale, SaleAsset, BuyAsset, BuyStep, SaleClosed;
    assert older[|mid|] == buy && older[..|mid|] == mid;
    ScanOfFilled(d, after.sale, mid, o);
    assert ScanBuys(d, s, older, o) == Scan(after.sale, mid + [buy.(buy := after.buy)], None);
  }

  lemma FirstLookUp()
    ensures PrevPass([BUY], FIFO).error.None?
    ensures Leftovers(PrevPass([BUY], FIFO).lots) == [Kept()]
  {
    var lots := FreshAll([BUY]);
    assert lots == [Fresh(BUY)] && lots[1..] == [];
    assert SalesPass([], PrevOpts(FIFO)) == Pass([], None);
    var r := PrevPass([BUY], FIFO).lots;
    assert r == [Classified(Fresh(BUY), PrevOpts(FIFO))];
    assert r[..0] == [] && Leftovers([]) == [];
  }

  function Kept(): Lot { Fresh(BUY).(isFromPrevPeriod := true, buy := NO_BUY.(isBuyTrx := true)) }

  /** The buy after the sale and after the swap. */
  function Given(filled: real, proceeds: real): Lot { Kept().(buy := BuySide(true, false, filled, proceeds, None)) }

  function Sold(): Lot
  {
    Lot(SALE, false,
        SaleSide(true, false, true, 1.0, 10.0, -5.0, [Match(1, 1, 1.0, Some(10.0), -1.0)],
                 Some(SaleOutcome("BTC", 1.0, Some(1), 3, 40.0, 25.0))),
        NO_BUY)
  }

  function Swapped(): Lot
  {
    Lot(SWAP, false,
        SaleSide(true, false, true, 0.5, 5.0, -1.0, [Match(1, 1, 0.5, Some(10.0), -1.0)],
                 Some(SaleOutcome("BTC", 0.5, Some(1), 4, 25.0, 19.0))),
        NO_BUY.(isBuyTrx := true))
  }

  function Paid(): Lot { Fresh(PAYMENT).(buy := NO_BUY.(isBuyTrx := true)) }

  lemma OfBuy()
    ensures var o := CurrOpts(FIFO);
            && IsPricedBuy(BUY, o) && BuyAsset(BUY) == "BTC" && BuyAmount(BUY) == 2.0
            && BuyPrice(BUY, o) == Some(10.0) && FeeUsd(BUY, o, false) == -2.0
  {
  }

  lemma OfSale()
    ensures var o := CurrOpts(FIFO);
            && IsPricedSale(SALE, o) && SaleAsset(SALE) == "BTC" && OrderOf(SALE, o) == Order("BTC", 1.0, 40.0, 3)
            && Classified(Fresh(SALE), o) == Lot(SALE, false, NO_SALE.(isSaleTrx := true), NO_BUY)
            && FeeUsd(SALE, o, false) == -4.0
  {
  }

  lemma OfSwap()
    ensures var o := CurrOpts(FIFO);
            && IsPricedSale(SWAP, o) && SaleAsset(SWAP) == "BTC" && OrderOf(SWAP, o) == Order("BTC", 0.5, 50.0, 4)
            && Classified(Fresh(SWAP), o)
               == Lot(SWAP, false, NO_SALE.(isSaleTrx := true), NO_BUY.(isBuyTrx := true))
            && FeeUsd(SWAP, o, false) == 0.0
  {
  }

  /** What a sale takes that needs less than the buy has left, and what its row will say. */
  lemma PartOfBuy(d: Order, s: SaleSide, filled: real, proceeds: real, rest: real)
    requires s.filled == 0.0 && s.matches == [] && s.cost == 0.0
    requires rest == 2.0 - filled && 0.0 < d.amount < rest
    ensures var r := Fill(d, s, BUY, BuySide(true, false, filled, proceeds, None), CurrOpts(FIFO));
            var fee, worth := Times(-2.0, Div(d.amount, rest)), Times(d.amount, d.priceUsd);
            && r.error.None? && r.buy == BuySide(true, false, filled + d.amount, proceeds + worth, None)
            && r.sale == s.(isFilled := true, filled := d.amount, cost := Times(d.amount, 10.0), fees := s.fees + fee,
                            matches := [Match(1, 1, d.amount, Some(10.0), fee)])
            && SaleClosed(d, r.sale)
               == r.sale.(outcome := Some(SaleOutcome(d.asset, d.amount, Some(1), d.mtsCreate, worth,
                                                      worth - Times(d.amount, 10.0) + (s.fees + fee))))
  {
    OfBuy();
    hide Times, Div, FeeUsd, BuyAmount, BuyPrice, Closed;
    assert [] + [Match(1, 1, d.amount, Some(10.0), Times(-2.0, Div(d.amount, rest)))]
        == [Match(1, 1, d.amount, Some(10.0), Times(-2.0, Div(d.amount, rest)))];
  }

  lemma SaleTurn()
    ensures SaleStep(Fresh(SALE), [Kept()], CurrOpts(FIFO)) == Turn(Sold(), [Given(1.0, 40.0)], None)
  {
    var d, s := Order("BTC", 1.0, 40.0, 3), Opened(Fresh(SALE), CurrOpts(FIFO));
    OfBuy();
    OfSale();
    assert Times(-2.0, Div(1.0, 2.0)) == -1.0 && Times(1.0, 40.0) == 40.0 && Times(1.0, 10.0) == 10.0;
    hide Times, Div, FeeUsd, BuyAmount, BuyPrice, Closed, IsPricedSale, IsPricedBuy, OrderOf, SaleAsset, BuyAsset,
         Fill, SaleClosed, SaleStep;
    PartOfBuy(d, s, 0.0, 0.0, 2.0);
    var after := Fill(d, s, BUY, BuySide(true, false, 0.0, 0.0, None), CurrOpts(FIFO));
    TakesFromOldest(Fresh(SALE), [], Kept(), CurrOpts(FIFO), after);
    assert [] + [Kept()] == [Kept()] && [] + [Given(1.0, 40.0)] == [Given(1.0, 40.0)];
  }

  lemma SwapTurn()
    ensures SaleStep(Fresh(SWAP), [Sold(), Given(1.0, 40.0)], CurrOpts(FIFO))
         == Turn(Swapped(), [Sold(), Given(1.5, 65.0)], None)
  {
    var d, s := Order("BTC", 0.5, 50.0, 4), Opened(Fresh(SWAP), CurrOpts(FIFO));
    OfBuy();
    OfSwap();
    assert Times(-2.0, Div(0.5, 1.0)) == -1.0 && Times(0.5, 50.0) == 25.0 && Times(0.5, 10.0) == 5.0;
    hide Times, Div, FeeUsd, BuyAmount, BuyPrice, Closed, IsPricedSale, IsPricedBuy, OrderOf, SaleAsset, BuyAsset,
         Fill, SaleClosed, SaleStep, Sold;
    PartOfBuy(d, s, 1.0, 40.0, 1.0);
    var after := Fill(d, s, BUY, BuySide(true, false, 1.0, 40.0, None), CurrOpts(FIFO));
    TakesFromOldest(Fresh(SWAP), [Sold()], Given(1.0, 40.0), CurrOpts(FIFO), after);
    assert [Sold()] + [Given(1.0, 40.0)] == [Sold(), Given(1.0, 40.0)];
    assert [Sold()] + [Given(1.5, 65.0)] == [Sold(), Given(1.5, 65.0)];
  }

  lemma PaymentTurn(older: seq<Lot>)
    ensures SaleStep(Fresh(PAYMENT), older, CurrOpts(FIFO)) == Turn(Paid(), older, None)
    ensures SaleStep(Kept(), older, CurrOpts(FIFO)) == Turn(Kept(), older, None)
  {
  }

  lemma SecondLookUp()
    ensures SalesPass([Fresh(PAYMENT), Fresh(SWAP), Fresh(SALE), Kept()], CurrOpts(FIFO))
         == Pass([Paid(), Swapped(), Sold(), Given(1.5, 65.0)], None)
  {
    hide SaleStep, Sold, Swapped, Paid, Given, Kept, Fresh;
    var o, kept := CurrOpts(FIFO), Kept();
    PaymentTurn([]);
    assert SalesPass([], o) == Pass([], None);
    assert SalesPass([kept], o) == Pass([kept], None);
    SaleTurn();
    assert [Fresh(SALE), kept][1..] == [kept];
    assert SalesPass([Fresh(SALE), kept], o) == Pass([Sold(), Given(1.0, 40.0)], None);
    SwapTurn();
    assert [Fresh(SWAP), Fresh(SALE), kept][1..] == [Fresh(SALE), kept];
    assert SalesPass([Fresh(SWAP), Fresh(SALE), kept], o) == Pass([Swapped(), Sold(), Given(1.5, 65.0)], None);
    PaymentTurn([Swapped(), Sold(), Given(1.5, 65.0)]);
    assert [Fresh(PAYMENT), Fresh(SWAP), Fresh(SALE), kept][1..] == [Fresh(SWAP), Fresh(SALE), kept];
  }

  lemma RowsOfRun()
    ensures Rows([Paid(), Swapped(), Sold(), Given(1.5, 65.0)], CurrOpts(FIFO)) == [PAYMENT_ROW, SWAP_ROW, SALE_ROW]
  {
    var o := CurrOpts(FIFO);
    assert HasRow(Paid(), o) && RowOf(Paid(), o) == PAYMENT_ROW;
    assert HasRow(Swapped(), o) && RowOf(Swapped(), o) == SWAP_ROW;
    assert HasRow(Sold(), o) && RowOf(Sold(), o) == SALE_ROW;
    assert !HasRow(Given(1.5, 65.0), o);
    hide HasRow, RowOf;
    var lots := [Paid(), Swapped(), Sold(), Given(1.5, 65.0)];
    assert lots[..3][..2][..1][..0] == [] && Rows([], o) == [];
    assert lots[..3][..2][..1][0] == Paid();
    assert Rows(lots[..3][..2][..1], o) == [PAYMENT_ROW];
    assert lots[..3][..2][1] == Swapped();
    assert Rows(lots[..3][..2], o) == [PAYMENT_ROW, SWAP_ROW];
    assert lots[..3][2] == Sold();
    assert Rows(lots[..3], o) == [PAYMENT_ROW, SWAP_ROW, SALE_ROW];
  }

  lemma RunInFigures(quote: Trx -> Trx)
    ensures TwoLookUps([PAYMENT, SWAP, SALE], [BUY], quote, FIFO) == Taxes([PAYMENT_ROW, SWAP_ROW, SALE_ROW])
  {
    FirstLookUp();
    hide PrevPass, Leftovers, Rows;
    assert FreshAll([PAYMENT, SWAP, SALE]) == [Fresh(PAYMENT), Fresh(SWAP), Fresh(SALE)];
    assert SecondInput([PAYMENT, SWAP, SALE], [BUY], quote, FIFO)
        == [Fresh(PAYMENT), Fresh(SWAP), Fresh(SALE), Kept()];
    SecondLookUp();
    RowsOfRun();
    hide SalesPass;
  }

  /** Remapped database records. */
  method Records(ts: seq<Trx>) returns (rs: seq<TrxRecord>)
    ensures fresh(rs) && AreDistinct(rs) && Facts(rs) == ts && Lots(rs) == FreshAll(ts)
  {
    rs := [];
    for k := 0 to |ts|
      invariant fresh(rs) && AreDistinct(rs) && |rs| == k
      invariant forall m :: 0 <= m < k ==> rs[m].View() == Fresh(ts[m])
    {
      var r := new TrxRecord(ts[k]);
      rs := rs + [r];
    }
  }

  /** The report on these transactions. The swap sells half a bitcoin at the dollar price of its last
      currency; both it and the sale take of the fee of the buy what they take of what the buy has left. */
  method Run(quote: Trx -> Trx) returns (taxes: Taxes)
    ensures taxes == Taxes([
                       TaxRow("BTC", Some(0.5), Some(5), None, Some(30.0), None, Some(30.0), StakingPayment),
                       TaxRow("BTC", Some(0.5), Some(1), Some(4), Some(25.0), Some(5.0), Some(19.0), Exchange),
                       TaxRow("BTC", Some(1.0), Some(1), Some(3), Some(40.0), Some(10.0), Some(25.0), Exchange)])
  {
    hide TwoLookUps, Facts, Lots, FreshAll;
    RunInFigures(quote);
    var curr := Records([PAYMENT, SWAP, SALE]);
    var prev := Records([BUY]);
    taxes := GetTransactionTaxReport(curr, prev, quote, FIFO);
  }
}
