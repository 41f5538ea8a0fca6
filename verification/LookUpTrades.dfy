/** The look-up as the program runs it: loops over shared transaction objects that it fills in place. */
module LookUpTrades {
  import opened Wrappers
  import opened Trxs
  import opened LotMatching

  class TrxRecord {
    var trx: Trx
    var isBuyTradesWithUnrealizedProfitForPrevPeriod: bool

    var isSaleTrx: bool
    var noPriceUsd: bool
    var isSaleTrxHistFilled: bool
    var saleFilledAmount: real
    var costForSaleTrxUsd: real
    var cumulativeTrxFeesUsd: real
    var buyTrxsForRealizedProfit: seq<Match>
    var saleOutcome: Option<SaleOutcome>

    var isBuyTrx: bool
    var isBuyTrxHistFilled: bool
    var buyFilledAmount: real
    var proceedsForBuyTrxUsd: real
    var buyOutcome: Option<BuyOutcome>

    /** A remapped transaction, before any look-up. */
    constructor (t: Trx)
      ensures View() == Fresh(t)
    {
      trx, isBuyTradesWithUnrealizedProfitForPrevPeriod := t, false;
      isSaleTrx, noPriceUsd, isSaleTrxHistFilled := false, false, false;
      saleFilledAmount, costForSaleTrxUsd, cumulativeTrxFeesUsd := 0.0, 0.0, 0.0;
      buyTrxsForRealizedProfit, saleOutcome := [], None;
      isBuyTrx, isBuyTrxHistFilled, buyFilledAmount, proceedsForBuyTrxUsd, buyOutcome := false, false, 0.0, 0.0, None;
    }

    function Sale(): SaleSide
      reads this
    {
      SaleSide(isSaleTrx, noPriceUsd, isSaleTrxHistFilled, saleFilledAmount, costForSaleTrxUsd,
               cumulativeTrxFeesUsd, buyTrxsForRealizedProfit, saleOutcome)
    }

    function Buy(): BuySide
      reads this
    {
      BuySide(isBuyTrx, isBuyTrxHistFilled, buyFilledAmount, proceedsForBuyTrxUsd, buyOutcome)
    }

    function View(): Lot
      reads this
    {
      Lot(trx, isBuyTradesWithUnrealizedProfitForPrevPeriod, Sale(), Buy())
    }

    /** This sale takes a quantity from the buy `t` at its price. */
    method Take(t: Trx, quantity: real, filled: real, isFilled: bool, price: real, fee: real)
      modifies this
      ensures View() == old(View()).(sale := Taken(old(Sale()), t, quantity, filled, isFilled, price, fee))
    {
      buyTrxsForRealizedProfit := buyTrxsForRealizedProfit + [Match(t.id, t.mtsCreate, quantity, Some(price), fee)];
      saleFilledAmount := filled;
      costForSaleTrxUsd := costForSaleTrxUsd + Times(quantity, price);
      cumulativeTrxFeesUsd := cumulativeTrxFeesUsd + fee;
      isSaleTrxHistFilled := isFilled;
    }

    /** This buy gives all it has left. */
    method GiveAll(d: Order, o: Opts, usd: real)
      modifies this
      ensures var b := old(Buy()).(filled := BuyAmount(old(trx)), isFilled := true,
                                   proceeds := old(Buy()).proceeds + usd);
              View() == old(View()).(buy := Closed(d, old(trx), o, b))
    {
      hide Times, BuyAmount, BuyAsset, BuyPrice;
      buyFilledAmount := BuyAmount(trx);
      proceedsForBuyTrxUsd := proceedsForBuyTrxUsd + usd;
      isBuyTrxHistFilled := true;
      var cost := Times(BuyAmount(trx), BuyPrice(trx, o).GetOr(0.0));
      buyOutcome := Some(BuyOutcome(BuyAsset(trx), BuyAmount(trx), trx.mtsCreate, d.mtsCreate,
                                    cost, proceedsForBuyTrxUsd - cost));
    }

    /** This buy gives a part of what it has left. */
    method GivePart(quantity: real, usd: real)
      modifies this
      ensures View() == old(View()).(buy := old(Buy()).(filled := old(Buy()).filled + quantity,
                                                        proceeds := old(Buy()).proceeds + usd))
    {
      buyFilledAmount := buyFilledAmount + quantity;
      proceedsForBuyTrxUsd := proceedsForBuyTrxUsd + usd;
    }

    /** The three fill branches, on both transactions in place. */
    method Fill(other: TrxRecord, d: Order, o: Opts)
      requires other != this && !other.isBuyTrxHistFilled
      modifies this, other
      ensures var step := LotMatching.Fill(d, old(Sale()), old(other.trx), old(other.Buy()), o);
              && View() == old(View()).(sale := step.sale)
              && other.View() == old(other.View()).(buy := step.buy)
              && step.error.None?
    {
      hide Times, Div, FeeUsd, BuyAmount, BuyAsset, BuyPrice, Closed, Taken;
      var t := other.trx;
      var buyPriceUsd, fee := BuyPrice(t, o).GetOr(0.0), FeeUsd(t, o, false);
      var buyRestAmount, saleRestAmount := BuyAmount(t) - other.buyFilledAmount, d.amount - saleFilledAmount;
      if buyRestAmount < saleRestAmount {
        Take(t, buyRestAmount, saleFilledAmount + buyRestAmount, isSaleTrxHistFilled, buyPriceUsd, fee);
        other.GiveAll(d, o, Times(buyRestAmount, d.priceUsd));
      } else if buyRestAmount > saleRestAmount {
        Take(t, saleRestAmount, d.amount, true, buyPriceUsd, Times(fee, Div(saleRestAmount, buyRestAmount)));
        other.GivePart(saleRestAmount, Times(saleRestAmount, d.priceUsd));
      } else {
        Take(t, buyRestAmount, d.amount, true, buyPriceUsd, fee);
        other.GiveAll(d, o, Times(buyRestAmount, d.priceUsd));
      }
    }

    /** What the outer loop writes on a sale once its buys are found. */
    method CloseSale(d: Order)
      modifies this
      ensures View() == old(View()).(sale := SaleClosed(d, old(Sale())))
    {
      hide MtsAcquired, Times;
      var proceeds := Times(d.amount, d.priceUsd);
      saleOutcome := Some(SaleOutcome(d.asset, d.amount, MtsAcquired(buyTrxsForRealizedProfit), d.mtsCreate,
                                      proceeds, proceeds - costForSaleTrxUsd + cumulativeTrxFeesUsd));
    }

    /** One turn of the inner loop on this sale and one older transaction. */
    method MeetBuy(other: TrxRecord, d: Order, o: Opts) returns (error: Option<TrxError>)
      requires other != this
      modifies this, other
      ensures var step := BuyStep(d, old(Sale()), old(other.View()), o);
              && View() == old(View()).(sale := step.sale)
              && other.View() == old(other.View()).(buy := step.buy)
              && error == step.error
    {
      hide Times, Div, FeeUsd, IsUsable, IsBuy, HasPair, BuyAmount, BuyAsset, LotMatching.Fill;
      var t := other.trx;
      error := None;
      if other.isBuyTrxHistFilled || !IsUsable(t, o) { return; }
      if !HasPair(t) {
        error := Some(CurrencyPairSeparationError(t.symbol));
        return;
      }
      if !IsBuy(t, o) { return; }
      other.isBuyTrx := true;
      if d.asset != BuyAsset(t) { return; }
      if BuyPrice(t, o).None? {
        buyTrxsForRealizedProfit := buyTrxsForRealizedProfit + [Match(t.id, t.mtsCreate, 0.0, None, 0.0)];
        noPriceUsd := true;
        return;
      }
      Fill(other, d, o);
    }
  }
}
