/** Every match of a look-up moves something, unless the buy has no price. */
module LotMoves {
  import opened Trxs
  import opened LotMatching
  import opened LotProgress

  /** What the remapping guarantees: only what is traded for fiat can be without an execution price. */
  predicate HasAmounts(t: Trx, o: Opts) { IsUsable(t, o) ==> t.execPrice.value != 0.0 || t.lastSymb in o.forex }

  lemma AbsOfProduct(x: real, y: real)
    requires x != 0.0 && y != 0.0
    ensures 0.0 < Abs(Times(x, y))
  {
  }

  lemma AmountsArePositive(t: Trx, o: Opts)
    requires HasAmounts(t, o) && IsUsable(t, o)
    ensures IsSale(t, o) ==> 0.0 < SaleAmount(t)
    ensures IsBuy(t, o) ==> 0.0 < BuyAmount(t)
  {
    if t.execPrice.value != 0.0 { AbsOfProduct(Amount(t), t.execPrice.value); }
    hide Times;
  }

  /** A match moves something exactly when its buy had a price, and a sale that met a buy without a price
      is marked. */
  predicate SaleMoves(s: SaleSide)
  {
    && (forall m <- s.matches :: m.priceUsd.Some? <==> 0.0 < m.quantity)
    && (!s.noPriceUsd ==> forall m <- s.matches :: m.priceUsd.Some?)
  }

  predicate IsAllPriced(s: SaleSide) { forall m <- s.matches :: m.priceUsd.Some? }

  predicate AreAllPriced(ls: seq<Lot>) { forall k :: 0 <= k < |ls| ==> IsAllPriced(ls[k].sale) }

  predicate LotsMove(ls: seq<Lot>) { forall k :: 0 <= k < |ls| ==> SaleMoves(ls[k].sale) }

  predicate LotsHaveAmounts(ls: seq<Lot>, o: Opts) { forall k :: 0 <= k < |ls| ==> HasAmounts(ls[k].trx, o) }

  lemma StepMatches(d: Order, s: SaleSide, l: Lot, o: Opts)
    requires SaleFilled(d.amount, s) && !s.isFilled && BuyFilled(l) && 0.0 < d.amount
    requires HasAmounts(l.trx, o) && SaleMoves(s)
    ensures SaleMoves(BuyStep(d, s, l, o).sale)
    ensures o.isNotGainOrLossRequired && IsAllPriced(s) ==> IsAllPriced(BuyStep(d, s, l, o).sale)
  {
    if IsUsable(l.trx, o) { AmountsArePositive(l.trx, o); }
    hide Times, BuyAmount, HasAmounts, Quantity;
    if Meets(d, l, o) { MatchMovesTheSmallerRest(d, s, l, o); }
  }

  lemma {:induction false} ScanMatches(d: Order, s: SaleSide, older: seq<Lot>, o: Opts)
    requires SaleFilled(d.amount, s) && AllBuysFilled(older) && (s.isFilled || 0.0 < d.amount)
    requires LotsHaveAmounts(older, o) && SaleMoves(s)
    ensures SaleMoves(ScanBuys(d, s, older, o).sale)
    ensures o.isNotGainOrLossRequired && IsAllPriced(s) ==> IsAllPriced(ScanBuys(d, s, older, o).sale)
    decreases |older|
  {
    hide BuyStep, BuyAmount, Quantity, SaleMoves, IsAllPriced, HasAmounts;
    if older != [] && !s.isFilled {
      var k := if o.isBackIterativeBuyLookUp then |older| - 1 else 0;
      StepFilled(d, s, older[k], o);
      StepMatches(d, s, older[k], o);
      var step := BuyStep(d, s, older[k], o);
      if step.error.None? {
        ScanMatches(d, step.sale, if o.isBackIterativeBuyLookUp then older[..k] else older[1..], o);
      }
    }
  }

  lemma SaleMatches(l: Lot, older: seq<Lot>, o: Opts)
    requires WellFilled(l) && AllWellFilled(older) && SaleMoves(l.sale)
    requires HasAmounts(l.trx, o) && LotsHaveAmounts(older, o)
    ensures SaleMoves(SaleStep(l, older, o).lot.sale)
    ensures o.isNotGainOrLossRequired && IsAllPriced(l.sale) ==> IsAllPriced(SaleStep(l, older, o).lot.sale)
  {
    if IsUsable(l.trx, o) && IsSale(l.trx, o) {
      AmountsArePositive(l.trx, o);
      OpenedMatches(l, older, o);
    }
    hide ScanBuys, IsUsable, IsSale, IsBuy, FeeUsd, BuyAmount, SaleAmount, Quantity, OrderOf, WellFilled, HasAmounts,
         HasPair, SalePrice;
  }

  lemma OpenedMatches(l: Lot, older: seq<Lot>, o: Opts)
    requires WellFilled(l) && AllWellFilled(older) && SaleMoves(l.sale)
    requires 0.0 < SaleAmount(l.trx) && LotsHaveAmounts(older, o)
    ensures var r := ScanBuys(OrderOf(l.trx, o), Opened(l, o), older, o).sale;
            SaleMoves(r) && (o.isNotGainOrLossRequired && IsAllPriced(l.sale) ==> IsAllPriced(r))
  {
    hide ScanBuys, BuyAmount, SaleAmount, Quantity, FeeUsd, HasAmounts;
    assert forall k :: 0 <= k < |older| ==> WellFilled(older[k]);
    ScanMatches(OrderOf(l.trx, o), Opened(l, o), older, o);
  }

  /** Over any pass, in any direction and also when it ends with an error, every match moves a strictly
      positive quantity exactly when its buy has a price, which it always has when all is valued at zero. */
  lemma {:induction false} PassMatches(lots: seq<Lot>, o: Opts)
    requires AllWellFilled(lots) && LotsHaveAmounts(lots, o) && LotsMove(lots)
    ensures LotsMove(SalesPass(lots, o).lots)
    ensures o.isNotGainOrLossRequired && AreAllPriced(lots) ==> AreAllPriced(SalesPass(lots, o).lots)
    ensures forall k :: 0 <= k < |lots| ==> SalesPass(lots, o).lots[k].trx == lots[k].trx
    decreases |lots|
  {
    hide SaleStep, WellFilled, HasAmounts, SaleMoves, IsAllPriced;
    if lots != [] {
      if o.isBackIterativeSaleLookUp {
        var rest := SalesPass(lots[1..], o).lots;
        PassMatches(lots[1..], o);
        PassFilled(lots[1..], o);
        SaleMatches(lots[0], rest, o);
        TurnKeepsSales(lots[0], rest, o);
      } else {
        var turn := SaleStep(lots[0], lots[1..], o);
        SaleMatches(lots[0], lots[1..], o);
        TurnKeepsSales(lots[0], lots[1..], o);
        TurnFilled(lots[0], lots[1..], o);
        PassMatches(turn.older, o);
      }
    }
  }
}
