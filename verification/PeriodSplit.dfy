/** The report is made in two look-ups: one on the history before the period, whose left-over buys
join the period, and one on the period. In FIFO this is the same as one look-up on everything. */
module PeriodSplit {
  import opened Trxs
  import opened LotMatching
  import opened LotGains
  import opened TaxRows

  /** The strategy and the options that both look-ups share. */
  datatype Report = Report(isFIFO: bool, shouldFeesBeDeducted: bool, forex: set<string>)

  function PrevOpts(p: Report): Opts { Opts(p.isFIFO, p.isFIFO, true, true, p.shouldFeesBeDeducted, p.forex) }

  function CurrOpts(p: Report): Opts { Opts(p.isFIFO, p.isFIFO, false, false, p.shouldFeesBeDeducted, p.forex) }

  predicate LacksPrice(t: Trx) { t.firstSymbPriceUsd.None? || t.lastSymbPriceUsd.None? }

  /** The conversion to USD asks the market for the transactions that lack a price. What the market
      answers is given by `quote`. */
  function Priced(t: Trx, quote: Trx -> Trx): Trx { if LacksPrice(t) then quote(t) else t }

  function PricedLots(ls: seq<Lot>, quote: Trx -> Trx): (r: seq<Lot>)
    ensures |r| == |ls| && forall k :: 0 <= k < |ls| ==> r[k] == ls[k].(trx := Priced(ls[k].trx, quote))
  {
    seq(|ls|, k requires 0 <= k < |ls| => ls[k].(trx := Priced(ls[k].trx, quote)))
  }

  function PricedAll(ts: seq<Trx>, quote: Trx -> Trx): (r: seq<Trx>)
    ensures |r| == |ts| && forall k :: 0 <= k < |ts| ==> r[k] == Priced(ts[k], quote)
  {
    seq(|ts|, k requires 0 <= k < |ts| => Priced(ts[k], quote))
  }

  function PrevPass(prev: seq<Trx>, p: Report): Pass { SalesPass(FreshAll(prev), PrevOpts(p)) }

  /** The transactions of the period followed by the left-over buys, all priced. */
  function SecondInput(curr: seq<Trx>, prev: seq<Trx>, quote: Trx -> Trx, p: Report): seq<Lot>
  {
    PricedLots(FreshAll(curr) + Leftovers(PrevPass(prev, p).lots), quote)
  }

  /** The rows of the report, or the error of the look-up that failed. */
  datatype Taxes = Taxes(rows: seq<TaxRow>) | Failed(error: TrxError)

  function TwoLookUps(curr: seq<Trx>, prev: seq<Trx>, quote: Trx -> Trx, p: Report): Taxes
  {
    var first := PrevPass(prev, p);
    if curr == [] then Taxes([])
    else if first.error.Some? then Failed(first.error.value)
    else
      var second := SalesPass(SecondInput(curr, prev, quote, p), CurrOpts(p));
      if second.error.Some? then Failed(second.error.value) else Taxes(Rows(second.lots, CurrOpts(p)))
  }

  /** One look-up on the whole history, newest first, with every price known from the start. */
  function OneLookUp(curr: seq<Trx>, prev: seq<Trx>, quote: Trx -> Trx, p: Report): Pass
  {
    SalesPass(FreshAll(PricedAll(curr + prev, quote)), CurrOpts(p))
  }

  /** A transaction that takes part in the look-ups at all. */
  predicate Counts(t: Trx)
  {
    t.symbol != "" && t.execPrice.Some? && t.execAmount.Some? && t.execAmount.value != 0.0
  }

  /** All a look-up needs to know. */
  predicate IsKnown(t: Trx)
  {
    Counts(t) ==> HasPair(t) && !LacksPrice(t) && t.execPrice.value != 0.0
  }

  /** Pricing changes nothing but prices, and the execution price only of a movement, whose quote
      currency is fiat. */
  predicate Reprices(t: Trx, u: Trx, forex: set<string>)
  {
    && u == t.(firstSymbPriceUsd := u.firstSymbPriceUsd, lastSymbPriceUsd := u.lastSymbPriceUsd,
               execPrice := u.execPrice, exactUsdValue := u.exactUsdValue)
    && (u.execPrice == t.execPrice
        || (t.isAdditionalTrxMovements && t.lastSymb in forex && t.execPrice.Some? && u.execPrice.Some?))
  }

  predicate IsPricedRight(t: Trx, quote: Trx -> Trx, forex: set<string>)
  {
    Reprices(t, Priced(t, quote), forex) && IsKnown(Priced(t, quote))
  }

  // ----- The first look-up fills exactly what a priced look-up would fill

  /** The same progress on a transaction before (`y`) and after (`x`) pricing. */
  predicate TwinSales(x: SaleSide, y: SaleSide)
  {
    && x.noPriceUsd == y.noPriceUsd && x.isFilled == y.isFilled && x.filled == y.filled
    && TwinMatches(x.matches, y.matches)
  }

  /** The same quantities from the same buys. */
  predicate TwinMatches(xs: seq<Match>, ys: seq<Match>)
  {
    |xs| == |ys| && forall k :: 0 <= k < |xs| ==> xs[k].(priceUsd := ys[k].priceUsd, feeUsd := ys[k].feeUsd) == ys[k]
  }

  predicate TwinBuys(x: BuySide, y: BuySide)
  {
    x.isBuyTrx == y.isBuyTrx && x.isFilled == y.isFilled && x.filled == y.filled
  }

  predicate Twins(x: Lot, y: Lot, p: Report)
  {
    && Reprices(y.trx, x.trx, p.forex) && IsKnown(x.trx)
    && TwinSales(x.sale, y.sale) && TwinBuys(x.buy, y.buy)
    && !x.isFromPrevPeriod && !y.isFromPrevPeriod
  }

  predicate TwinOrders(d: Order, e: Order) { d.asset == e.asset && d.amount == e.amount }

  lemma TwinAmounts(x: Trx, y: Trx, p: Report)
    requires Reprices(y, x, p.forex) && IsKnown(x)
    ensures IsUsable(x, CurrOpts(p)) <==> IsUsable(y, PrevOpts(p))
    ensures IsUsable(x, CurrOpts(p)) ==> HasPair(x) && HasPair(y)
    ensures IsUsable(x, CurrOpts(p)) ==> SalePrice(x, CurrOpts(p)).Some? && BuyPrice(x, CurrOpts(p)).Some?
    ensures IsSale(x, CurrOpts(p)) ==> SaleAmount(x) == SaleAmount(y)
    ensures IsBuy(x, CurrOpts(p)) ==> BuyAmount(x) == BuyAmount(y)
  {
    hide Times;
  }

  lemma TwinBuyFacts(x: Trx, y: Trx, p: Report)
    requires Reprices(y, x, p.forex) && IsKnown(x)
    ensures IsBuy(x, CurrOpts(p)) <==> IsBuy(y, PrevOpts(p))
    ensures BuyAsset(x) == BuyAsset(y) && BuyPrice(y, PrevOpts(p)).Some? && x.id == y.id && x.mtsCreate == y.mtsCreate
  {
    hide Times;
  }

  lemma FillTwins(d: Order, e: Order, s: SaleSide, u: SaleSide, t: Trx, v: Trx, b: BuySide, c: BuySide,
                  o: Opts, q: Opts)
    requires TwinOrders(d, e) && TwinSales(s, u) && TwinBuys(b, c)
    requires BuyAmount(t) == BuyAmount(v) && t.id == v.id && t.mtsCreate == v.mtsCreate
    ensures var x, y := Fill(d, s, t, b, o), Fill(e, u, v, c, q);
            TwinSales(x.sale, y.sale) && TwinBuys(x.buy, y.buy) && x.error.None? && y.error.None?
  {
    var x, y := Fill(d, s, t, b, o), Fill(e, u, v, c, q);
    FillKeeps(d, s, t, b, o);
    FillKeeps(e, u, v, c, q);
    hide Fill, BuyAmount, TwinMatches;
    OneMoreTwin(s.matches, u.matches, x.sale.matches[|s.matches|], y.sale.matches[|u.matches|]);
  }

  /** What a fill does but for prices. */
  lemma FillKeeps(d: Order, s: SaleSide, t: Trx, b: BuySide, o: Opts)
    ensures var r := Fill(d, s, t, b, o);
            var buyRest, saleRest := BuyAmount(t) - b.filled, d.amount - s.filled;
            && r.error.None? && r.sale.noPriceUsd == s.noPriceUsd && r.buy.isBuyTrx == b.isBuyTrx
            && r.sale.isFilled == (if buyRest < saleRest then s.isFilled else true)
            && r.sale.filled == (if buyRest < saleRest then s.filled + buyRest else d.amount)
            && r.buy.isFilled == (if buyRest > saleRest then b.isFilled else true)
            && r.buy.filled == (if buyRest > saleRest then b.filled + saleRest else BuyAmount(t))
            && |r.sale.matches| == |s.matches| + 1
            && (var m := r.sale.matches[|s.matches|];
                && r.sale.matches == s.matches + [m] && m.buyId == t.id && m.mtsCreate == t.mtsCreate
                && m.quantity == (if buyRest > saleRest then saleRest else buyRest))
  {
    hide Times, Div, BuyAsset, BuyPrice, BuyAmount, FeeUsd;
  }

  lemma OneMoreTwin(xs: seq<Match>, ys: seq<Match>, x: Match, y: Match)
    requires TwinMatches(xs, ys) && x.(priceUsd := y.priceUsd, feeUsd := y.feeUsd) == y
    ensures TwinMatches(xs + [x], ys + [y])
  {
  }

  lemma StepTwins(d: Order, e: Order, s: SaleSide, u: SaleSide, x: Lot, y: Lot, p: Report)
    requires TwinOrders(d, e) && TwinSales(s, u) && Twins(x, y, p)
    ensures var a, b := BuyStep(d, s, x, CurrOpts(p)), BuyStep(e, u, y, PrevOpts(p));
            && TwinSales(a.sale, b.sale) && TwinBuys(a.buy, b.buy)
            && a.error.None? && b.error.None?
  {
    hide Fill, IsUsable, IsBuy, BuyAsset, BuyPrice, BuyAmount, HasPair, Counts, Reprices, IsKnown;
    TwinAmounts(x.trx, y.trx, p);
    TwinBuyFacts(x.trx, y.trx, p);
    if IsBuy(x.trx, CurrOpts(p)) {
      FillTwins(d, e, s, u, x.trx, y.trx, x.buy.(isBuyTrx := true), y.buy.(isBuyTrx := true),
                CurrOpts(p), PrevOpts(p));
    }
  }

  predicate AllTwins(xs: seq<Lot>, ys: seq<Lot>, p: Report)
  {
    |xs| == |ys| && forall k :: 0 <= k < |xs| ==> Twins(xs[k], ys[k], p)
  }

  lemma {:induction false} ScanTwins(d: Order, e: Order, s: SaleSide, u: SaleSide, xs: seq<Lot>, ys: seq<Lot>,
                                     p: Report)
    requires TwinOrders(d, e) && TwinSales(s, u) && AllTwins(xs, ys, p)
    ensures var a, b := ScanBuys(d, s, xs, CurrOpts(p)), ScanBuys(e, u, ys, PrevOpts(p));
            && TwinSales(a.sale, b.sale) && AllTwins(a.older, b.older, p)
            && a.error.None? && b.error.None?
    decreases |xs|
  {
    hide BuyStep, Reprices, IsKnown, TwinMatches;
    if xs != [] && !s.isFilled {
      var k := if p.isFIFO then |xs| - 1 else 0;
      StepTwins(d, e, s, u, xs[k], ys[k], p);
      var a, b := BuyStep(d, s, xs[k], CurrOpts(p)), BuyStep(e, u, ys[k], PrevOpts(p));
      if p.isFIFO {
        ScanTwins(d, e, a.sale, b.sale, xs[..k], ys[..k], p);
      } else {
        ScanTwins(d, e, a.sale, b.sale, xs[1..], ys[1..], p);
      }
    }
  }

  lemma TurnTwins(x: Lot, y: Lot, xs: seq<Lot>, ys: seq<Lot>, p: Report)
    requires Twins(x, y, p) && AllTwins(xs, ys, p)
    ensures var a, b := SaleStep(x, xs, CurrOpts(p)), SaleStep(y, ys, PrevOpts(p));
            && Twins(a.lot, b.lot, p) && AllTwins(a.older, b.older, p)
            && a.error.None? && b.error.None?
  {
    hide Times, IsUsable, SaleAmount, BuyAmount, HasPair, Counts, ScanBuys, FeeUsd;
    TwinAmounts(x.trx, y.trx, p);
    if IsUsable(x.trx, CurrOpts(p)) && IsSale(x.trx, CurrOpts(p)) {
      ScanTwins(OrderOf(x.trx, CurrOpts(p)), OrderOf(y.trx, PrevOpts(p)),
                Opened(x, CurrOpts(p)), Opened(y, PrevOpts(p)), xs, ys, p);
    }
  }

  /** A look-up that values everything at zero, on transactions not yet priced, fills what a look-up
      on the priced transactions fills. */
  lemma {:induction false} PassTwins(xs: seq<Lot>, ys: seq<Lot>, p: Report)
    requires AllTwins(xs, ys, p)
    ensures var a, b := SalesPass(xs, CurrOpts(p)), SalesPass(ys, PrevOpts(p));
            AllTwins(a.lots, b.lots, p) && a.error.None? && b.error.None?
    decreases |xs|
  {
    hide SaleStep, Twins;
    if xs != [] {
      if p.isFIFO {
        PassTwins(xs[1..], ys[1..], p);
        TurnTwins(xs[0], ys[0], SalesPass(xs[1..], CurrOpts(p)).lots, SalesPass(ys[1..], PrevOpts(p)).lots, p);
      } else {
        TurnTwins(xs[0], ys[0], xs[1..], ys[1..], p);
        PassTwins(SaleStep(xs[0], xs[1..], CurrOpts(p)).older, SaleStep(ys[0], ys[1..], PrevOpts(p)).older, p);
      }
    }
  }
}
