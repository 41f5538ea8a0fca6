/** A transaction as the tax report sees it, and what makes it a sale or a buy.

The array handed to the look-up is newest first. A trade between two crypto currencies is
a sale of one of them and a buy of the other at the same time; which one depends on the sign
of `execAmount`. */
module Trxs {
  import opened Wrappers

  datatype TaxType = Exchange | AirdropOnWallet | MarginFundingPayment | AffiliateRebate | StakingPayment

  /** The facts of a remapped transaction. `None` stands for a value that is not a finite number,
      an empty symbol for one that could not be separated from the pair. */
  datatype Trx = Trx(
    id: int,
    symbol: string,
    firstSymb: string,
    lastSymb: string,
    mtsCreate: int,
    execAmount: Option<real>,
    execPrice: Option<real>,
    firstSymbPriceUsd: Option<real>,
    lastSymbPriceUsd: Option<real>,
    exactUsdValue: Option<real>,
    trxFee: Option<real>,
    trxFeeCcy: string,
    isAdditionalTrxMovements: bool,
    isTaxablePayment: bool,
    taxType: TaxType
  )

  /** The options of one look-up. `forex` is the list of fiat symbols of a library that is not part
      of this model. */
  datatype Opts = Opts(
    isBackIterativeSaleLookUp: bool,
    isBackIterativeBuyLookUp: bool,
    isBuyTradesWithUnrealizedProfitRequired: bool,
    isNotGainOrLossRequired: bool,
    shouldFeesBeDeducted: bool,
    forex: set<string>
  )

  /** Every product of the model; the proofs hide it and use its laws. */
  function Times(x: real, y: real): real { x * y }

  lemma TimesDistributes(x: real, y: real, z: real)
    ensures Times(x + y, z) == Times(x, z) + Times(y, z)
    ensures Times(0.0, z) == 0.0
  {
  }

  /** Division by zero, which has no finite value, is given one here; no look-up divides by zero. */
  function Div(x: real, y: real): real { if y == 0.0 then 0.0 else x / y }

  function Abs(x: real): real { if x < 0.0 then -x else x }

  /** Both loops skip a transaction without a symbol, amount or price; a zero price only counts when
      unrealised buys are being collected, because movements are priced after that. */
  predicate IsUsable(t: Trx, o: Opts)
  {
    && t.symbol != ""
    && t.execPrice.Some? && (o.isBuyTradesWithUnrealizedProfitRequired || t.execPrice.value != 0.0)
    && t.execAmount.Some? && t.execAmount.value != 0.0
  }

  predicate HasPair(t: Trx) { t.firstSymb != "" && t.lastSymb != "" }

  function Amount(t: Trx): real { t.execAmount.GetOr(0.0) }

  /** What the other side of the pair amounts to. */
  function QuoteAmount(t: Trx): real { Abs(Times(Amount(t), t.execPrice.GetOr(0.0))) }

  predicate IsSale(t: Trx, o: Opts)
  {
    Amount(t) < 0.0 || (Amount(t) > 0.0 && t.lastSymb !in o.forex)
  }

  predicate IsBuy(t: Trx, o: Opts)
  {
    && (Amount(t) > 0.0 || t.lastSymb !in o.forex)
    && (!t.isTaxablePayment || t.firstSymb !in o.forex)
  }

  function SaleAsset(t: Trx): string { if Amount(t) < 0.0 then t.firstSymb else t.lastSymb }

  function SaleAmount(t: Trx): real { if Amount(t) < 0.0 then Abs(Amount(t)) else QuoteAmount(t) }

  function SalePrice(t: Trx, o: Opts): Option<real>
  {
    if o.isNotGainOrLossRequired then Some(0.0)
    else if Amount(t) < 0.0 then t.firstSymbPriceUsd else t.lastSymbPriceUsd
  }

  function BuyAsset(t: Trx): string { if Amount(t) > 0.0 then t.firstSymb else t.lastSymb }

  function BuyAmount(t: Trx): real { if Amount(t) > 0.0 then Abs(Amount(t)) else QuoteAmount(t) }

  function BuyPrice(t: Trx, o: Opts): Option<real>
  {
    if o.isNotGainOrLossRequired then Some(0.0)
    else if Amount(t) > 0.0 then t.firstSymbPriceUsd else t.lastSymbPriceUsd
  }

  /** The fee of a transaction in USD, zero unless fees are to be deducted. */
  function FeeUsd(t: Trx, o: Opts, shouldTaxablePaymentFlagBeSkipped: bool): real
  {
    if || o.isNotGainOrLossRequired
       || !o.shouldFeesBeDeducted
       || (!shouldTaxablePaymentFlagBeSkipped && t.isTaxablePayment)
       || t.trxFee.None?
    then 0.0
    else if t.trxFeeCcy == t.firstSymb && t.firstSymbPriceUsd.Some? then
      Times(t.trxFee.value, t.firstSymbPriceUsd.value)
    else if t.trxFeeCcy == t.lastSymb && t.lastSymbPriceUsd.Some? then
      Times(t.trxFee.value, t.lastSymbPriceUsd.value)
    else 0.0
  }

  /** A sale the look-up goes through with: it has a pair and a price. */
  predicate IsPricedSale(t: Trx, o: Opts)
  {
    IsUsable(t, o) && HasPair(t) && IsSale(t, o) && SalePrice(t, o).Some?
  }

  /** A buy some sale of its asset can be matched with. */
  predicate IsPricedBuy(t: Trx, o: Opts)
  {
    IsUsable(t, o) && HasPair(t) && IsBuy(t, o) && BuyPrice(t, o).Some?
  }

  predicate CanBeMatched(sale: Trx, buy: Trx, o: Opts)
  {
    IsPricedBuy(buy, o) && SaleAsset(sale) == BuyAsset(buy)
  }
}
