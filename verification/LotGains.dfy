/** Gains and losses: once every sale and every buy is matched in full, what the sales gained is
what the buys gained. */
module LotGains {
  import opened Wrappers
  import opened Trxs
  import opened LotMatching
  import opened LotProgress
  import opened LotBooks

  predicate IsUntouched(l: Lot) { l.sale == NO_SALE && !l.isFromPrevPeriod }

  function FreshAll(ts: seq<Trx>): (r: seq<Lot>)
    ensures |r| == |ts| && forall k :: 0 <= k < |ts| ==> r[k] == Fresh(ts[k])
  {
    seq(|ts|, k requires 0 <= k < |ts| => Fresh(ts[k]))
  }

  /** A filled buy says what was bought and when, and has its gain: what it brought less what it cost. */
  predicate HasBuyGain(l: Lot, o: Opts)
  {
    && (l.buy.isFilled ==>
          && l.buy.outcome.Some?
          && l.buy.outcome.value.asset == (if Amount(l.trx) > 0.0 then l.trx.firstSymb else l.trx.lastSymb)
          && l.buy.outcome.value.amount == BuyAmount(l.trx) && l.buy.outcome.value.mtsAcquired == l.trx.mtsCreate
          && l.buy.outcome.value.cost == Times(BuyAmount(l.trx), BuyPrice(l.trx, o).GetOr(0.0))
          && l.buy.outcome.value.gainOrLoss == l.buy.proceeds - l.buy.outcome.value.cost)
    && (l.buy.outcome.Some? ==> l.buy.isFilled)
  }

  /** A buy without price or pair has nothing. */
  predicate IsIdleUnlessPriced(l: Lot, o: Opts)
  {
    !IsPricedBuy(l.trx, o) ==> !l.buy.isFilled && l.buy.filled == 0.0 && l.buy.proceeds == 0.0
  }

  predicate BuySettled(l: Lot, o: Opts) { HasBuyGain(l, o) && IsIdleUnlessPriced(l, o) }

  /** A priced sale has its gain: what it is worth less what it cost, plus the fees. Any other
      transaction has nothing on the sale side. */
  predicate SaleSettled(l: Lot, o: Opts)
  {
    if IsPricedSale(l.trx, o) then
      && l.sale.outcome.Some?
      && l.sale.outcome.value.proceeds == Times(SaleAmount(l.trx), SalePrice(l.trx, o).value)
      && l.sale.outcome.value.gainOrLoss == l.sale.outcome.value.proceeds - l.sale.cost + l.sale.fees
      && (!o.shouldFeesBeDeducted ==> l.sale.fees == 0.0)
    else l.sale.filled == 0.0 && l.sale.cost == 0.0 && l.sale.outcome.None?
  }

  /** Lots kept from the period before are not sold again. */
  predicate HasGains(l: Lot, o: Opts) { HasBuyGain(l, o) && (!l.isFromPrevPeriod ==> SaleSettled(l, o)) }

  predicate IsToBeSold(l: Lot) { l.isFromPrevPeriod || IsUntouched(l) }

  lemma StepSettles(d: Order, s: SaleSide, l: Lot, o: Opts)
    requires HasBuyGain(l, o)
    ensures var r := BuyStep(d, s, l, o);
            && HasBuyGain(l.(buy := r.buy), o)
            && (IsIdleUnlessPriced(l, o) ==> IsIdleUnlessPriced(l.(buy := r.buy), o))
            && (!o.shouldFeesBeDeducted ==> r.sale.fees == s.fees)
  {
    hide Times, IsUsable, IsBuy, BuyAmount, HasPair, Div;
    var q := Div(d.amount - s.filled, BuyAmount(l.trx) - l.buy.filled);
    TimesDistributes(0.0, 0.0, q);
  }

  lemma {:induction false} ScanSettles(d: Order, s: SaleSide, older: seq<Lot>, o: Opts)
    requires forall k :: 0 <= k < |older| ==> HasBuyGain(older[k], o)
    ensures var r := ScanBuys(d, s, older, o);
            && (forall k :: 0 <= k < |older| ==> HasBuyGain(r.older[k], o))
            && (forall k :: 0 <= k < |older| ==>
                  (IsIdleUnlessPriced(older[k], o) ==> IsIdleUnlessPriced(r.older[k], o)))
            && (!o.shouldFeesBeDeducted ==> r.sale.fees == s.fees)
    decreases |older|
  {
    hide BuyStep, HasBuyGain, IsIdleUnlessPriced;
    if older != [] && !s.isFilled {
      var k := if o.isBackIterativeBuyLookUp then |older| - 1 else 0;
      var step := BuyStep(d, s, older[k], o);
      StepSettles(d, s, older[k], o);
      if step.error.None? {
        var rest := if o.isBackIterativeBuyLookUp then older[..k] else older[1..];
        ScanSettles(d, step.sale, rest, o);
        var done, met := ScanBuys(d, step.sale, rest, o).older, older[k].(buy := step.buy);
        var all := ScanBuys(d, s, older, o).older;
        assert all == if o.isBackIterativeBuyLookUp then done + [met] else [met] + done;
        forall j | 0 <= j < |all|
          ensures HasBuyGain(all[j], o) && (IsIdleUnlessPriced(older[j], o) ==> IsIdleUnlessPriced(all[j], o))
        {
          var n := if o.isBackIterativeBuyLookUp then j else j - 1;
          assert j != k ==> all[j] == done[n] && older[j] == rest[n];
        }
      }
    }
  }

  lemma SaleOfTurnSettles(l: Lot, older: seq<Lot>, o: Opts)
    requires !l.isFromPrevPeriod && IsUntouched(l) && SaleStep(l, older, o).error.None?
    requires !o.shouldFeesBeDeducted ==>
               ScanBuys(OrderOf(l.trx, o), Opened(l, o), older, o).sale.fees == Opened(l, o).fees
    ensures SaleSettled(SaleStep(l, older, o).lot, o)
  {
    hide Times, ScanBuys, BuyAmount, BuyAsset, SaleAmount, IsUsable, IsBuy, IsSale, HasPair, BuyPrice, SalePrice;
  }

  lemma SameBuyGain(a: Lot, b: Lot, o: Opts)
    requires a.trx == b.trx && a.buy.(isBuyTrx := false) == b.buy.(isBuyTrx := false)
    ensures HasBuyGain(a, o) ==> HasBuyGain(b, o)
    ensures IsIdleUnlessPriced(a, o) ==> IsIdleUnlessPriced(b, o)
  {
    hide Times, IsUsable, IsBuy, HasPair, BuyPrice, BuyAmount, IsPricedBuy;
  }

  lemma TurnSettles(l: Lot, older: seq<Lot>, o: Opts)
    requires IsToBeSold(l) && HasBuyGain(l, o) && forall k :: 0 <= k < |older| ==> HasBuyGain(older[k], o)
    requires SaleStep(l, older, o).error.None?
    ensures var r := SaleStep(l, older, o);
            && HasGains(r.lot, o) && (IsIdleUnlessPriced(l, o) ==> IsIdleUnlessPriced(r.lot, o))
            && r.lot.isFromPrevPeriod == l.isFromPrevPeriod
            && (forall k :: 0 <= k < |older| ==> HasBuyGain(r.older[k], o) && SameSale(older[k], r.older[k]))
            && (forall k :: 0 <= k < |older| ==>
                  (IsIdleUnlessPriced(older[k], o) ==> IsIdleUnlessPriced(r.older[k], o)))
  {
    hide ScanBuys, IsUsable, IsSale, IsBuy, HasPair, SalePrice, HasBuyGain, IsIdleUnlessPriced, SaleSettled, FeeUsd,
         OrderOf, SaleClosed;
    TurnKeepsSales(l, older, o);
    ScanSettles(OrderOf(l.trx, o), Opened(l, o), older, o);
    var r := SaleStep(l, older, o);
    SameBuyGain(l, r.lot, o);
    if !l.isFromPrevPeriod { SaleOfTurnSettles(l, older, o); }
    if r.older != older {
      assert r.older == ScanBuys(OrderOf(l.trx, o), Opened(l, o), older, o).older;
    }
  }

  lemma GainsBySale(a: Lot, b: Lot, o: Opts)
    requires HasGains(a, o) && HasBuyGain(b, o) && SameSale(a, b)
    ensures HasGains(b, o)
  {
    hide HasBuyGain;
  }

  /** After a pass in any direction every filled buy has its gain, and so has every priced sale that is
      not kept from the period before. */
  lemma {:induction false} PassSettles(lots: seq<Lot>, o: Opts)
    requires forall k :: 0 <= k < |lots| ==> IsToBeSold(lots[k]) && HasBuyGain(lots[k], o)
    requires SalesPass(lots, o).error.None?
    ensures forall k :: 0 <= k < |lots| ==> HasGains(SalesPass(lots, o).lots[k], o)
    ensures forall k :: 0 <= k < |lots| ==>
              && SalesPass(lots, o).lots[k].isFromPrevPeriod == lots[k].isFromPrevPeriod
              && (IsIdleUnlessPriced(lots[k], o) ==> IsIdleUnlessPriced(SalesPass(lots, o).lots[k], o))
    decreases |lots|
  {
    hide SaleStep, HasBuyGain, HasGains, SaleSettled, IsIdleUnlessPriced, IsToBeSold;
    if lots != [] {
      if o.isBackIterativeSaleLookUp {
        var rest := SalesPass(lots[1..], o);
        PassSettles(lots[1..], o);
        HaveBuyGains(rest.lots, o);
        TurnSettles(lots[0], rest.lots, o);
        var turn := SaleStep(lots[0], rest.lots, o);
        forall k | 0 <= k < |turn.older| ensures HasGains(turn.older[k], o) {
          GainsBySale(rest.lots[k], turn.older[k], o);
        }
      } else {
        var turn := SaleStep(lots[0], lots[1..], o);
        TurnSettles(lots[0], lots[1..], o);
        forall k | 0 <= k < |turn.older| ensures IsToBeSold(turn.older[k]) {
          ToBeSoldBySale(lots[k + 1], turn.older[k]);
        }
        PassSettles(turn.older, o);
      }
    }
  }

  lemma HaveBuyGains(ls: seq<Lot>, o: Opts)
    requires forall k :: 0 <= k < |ls| ==> HasGains(ls[k], o)
    ensures forall k :: 0 <= k < |ls| ==> HasBuyGain(ls[k], o)
  {
  }

  lemma ToBeSoldBySale(a: Lot, b: Lot)
    requires IsToBeSold(a) && SameSale(a, b)
    ensures IsToBeSold(b)
  {
  }

  predicate Settled(l: Lot, o: Opts) { SaleSettled(l, o) && BuySettled(l, o) }

  function SaleGains(ls: seq<Lot>): real
  {
    if ls == [] then 0.0
    else (if ls[0].sale.outcome.Some? then ls[0].sale.outcome.value.gainOrLoss else 0.0) + SaleGains(ls[1..])
  }

  function BuyGains(ls: seq<Lot>): real
  {
    if ls == [] then 0.0
    else (if ls[0].buy.outcome.Some? then ls[0].buy.outcome.value.gainOrLoss else 0.0) + BuyGains(ls[1..])
  }

  /** Both sides of a lot that has them are matched in full. */
  predicate IsFullyMatched(l: Lot, o: Opts)
  {
    && (IsPricedSale(l.trx, o) ==> l.sale.isFilled)
    && (IsPricedBuy(l.trx, o) ==> l.buy.isFilled)
  }

  lemma GainsOfLot(l: Lot, o: Opts)
    requires WellFilled(l) && Settled(l, o) && IsFullyMatched(l, o) && !o.shouldFeesBeDeducted
    ensures var s, b := SaleBooks(OrderOf(l.trx, o), l.sale, None), BuyBooks(l, None, o);
            && (if l.sale.outcome.Some? then l.sale.outcome.value.gainOrLoss else 0.0) == s.proceeds - s.cost
            && (if l.buy.outcome.Some? then l.buy.outcome.value.gainOrLoss else 0.0) == b.proceeds - b.cost
  {
    hide Times, BuyAmount, SaleAmount, IsUsable, IsBuy, IsSale, HasPair;
    TimesDistributes(0.0, 0.0, SalePrice(l.trx, o).GetOr(0.0));
    TimesDistributes(0.0, 0.0, BuyPrice(l.trx, o).GetOr(0.0));
  }

  lemma {:induction false} GainsFromBooks(ls: seq<Lot>, o: Opts)
    requires forall k :: 0 <= k < |ls| ==> WellFilled(ls[k]) && Settled(ls[k], o) && IsFullyMatched(ls[k], o)
    requires !o.shouldFeesBeDeducted
    ensures SaleGains(ls) == Sold(ls, None, o).proceeds - Sold(ls, None, o).cost
    ensures BuyGains(ls) == Bought(ls, None, o).proceeds - Bought(ls, None, o).cost
  {
    hide SaleBooks, BuyBooks, OrderOf, WellFilled, Settled, IsFullyMatched;
    if ls != [] {
      GainsOfLot(ls[0], o);
      GainsFromBooks(ls[1..], o);
    }
  }

  lemma {:induction false} NothingOnFresh(ls: seq<Lot>, asset: Option<string>, o: Opts)
    requires forall k :: 0 <= k < |ls| ==> ls[k].sale == NO_SALE && ls[k].buy == NO_BUY
    ensures Sold(ls, asset, o) == NIL && Bought(ls, asset, o) == NIL
  {
    if ls != [] {
      TimesDistributes(0.0, 0.0, OrderOf(ls[0].trx, o).priceUsd);
      TimesDistributes(0.0, 0.0, BuyPrice(ls[0].trx, o).GetOr(0.0));
      hide Times, BuyAsset, OrderOf, BuyPrice;
      NothingOnFresh(ls[1..], asset, o);
    }
  }

  /** On transactions that no look-up has seen, the totals of both sides agree for each asset: the
      quantities, the worth at the price of the sales and the cost at the price of the buys. */
  lemma DoubleEntry(ts: seq<Trx>, o: Opts, asset: Option<string>)
    ensures var r := SalesPass(FreshAll(ts), o).lots; Sold(r, asset, o) == Bought(r, asset, o)
  {
    hide Sold, Bought, SalesPass;
    PassBalances(FreshAll(ts), o, asset);
    NothingOnFresh(FreshAll(ts), asset, o);
  }

  /** With fees left out, if every sale and every buy ends matched in full then the gains of the sales
      add up to the gains of the buys. */
  lemma GainsAgree(ts: seq<Trx>, o: Opts)
    requires !o.shouldFeesBeDeducted && SalesPass(FreshAll(ts), o).error.None?
    requires forall k :: 0 <= k < |ts| ==> IsFullyMatched(SalesPass(FreshAll(ts), o).lots[k], o)
    ensures SaleGains(SalesPass(FreshAll(ts), o).lots) == BuyGains(SalesPass(FreshAll(ts), o).lots)
  {
    hide Sold, Bought, SalesPass, SaleGains, BuyGains, IsFullyMatched, SaleSettled;
    var lots := FreshAll(ts);
    forall k | 0 <= k < |lots| ensures BuySettled(lots[k], o) && IsUntouched(lots[k]) && WellFilled(lots[k]) {
      FreshIsWellFilled(ts[k]);
    }
    PassFilled(lots, o);
    PassSettles(lots, o);
    assert forall k :: 0 <= k < |ts| ==> Settled(SalesPass(lots, o).lots[k], o);
    GainsFromBooks(SalesPass(lots, o).lots, o);
    DoubleEntry(ts, o, None);
  }
}
