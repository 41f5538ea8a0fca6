/** The tax-lot look-up as functions on values.

A pass walks the sales in one direction, and for each sale walks the older transactions in one
direction, moving quantity from the older buys to the sale. FIFO walks both from the oldest,
LIFO both from the newest. */
module LotMatching {
  import opened Wrappers
  import opened Trxs

  /** One reference a sale keeps to a buy it was compared with: the quantity it took, the price it took it
      at, if the buy had one, and what it took of the fee of the buy. */
  datatype Match = Match(buyId: int, mtsCreate: int, quantity: real, priceUsd: Option<real>, feeUsd: real)

  datatype SaleOutcome = SaleOutcome(
    asset: string, amount: real, mtsAcquired: Option<int>, mtsSold: int, proceeds: real, gainOrLoss: real)

  datatype BuyOutcome = BuyOutcome(
    asset: string, amount: real, mtsAcquired: int, mtsSold: int, cost: real, gainOrLoss: real)

  /** The progress of a transaction as a sale: `filled` is `saleFilledAmount`, `cost` is
      `costForSaleTrxUsd`, `fees` is `cumulativeTrxFeesUsd`. */
  datatype SaleSide = SaleSide(
    isSaleTrx: bool, noPriceUsd: bool, isFilled: bool, filled: real, cost: real, fees: real,
    matches: seq<Match>, outcome: Option<SaleOutcome>)

  /** The progress of a transaction as a buy: `filled` is `buyFilledAmount`, `proceeds` is
      `proceedsForBuyTrxUsd`. */
  datatype BuySide = BuySide(
    isBuyTrx: bool, isFilled: bool, filled: real, proceeds: real, outcome: Option<BuyOutcome>)

  /** A transaction with the progress made on both of its sides. */
  datatype Lot = Lot(trx: Trx, isFromPrevPeriod: bool, sale: SaleSide, buy: BuySide)

  datatype TrxError = CurrencyPairSeparationError(symbol: string)

  const NO_SALE := SaleSide(false, false, false, 0.0, 0.0, 0.0, [], None)
  const NO_BUY := BuySide(false, false, 0.0, 0.0, None)

  /** A lot no look-up has seen yet. */
  function Fresh(t: Trx): Lot { Lot(t, false, NO_SALE, NO_BUY) }

  /** What the inner loop knows of the sale. */
  datatype Order = Order(asset: string, amount: real, priceUsd: real, mtsCreate: int)

  function OrderOf(t: Trx, o: Opts): Order
  {
    Order(SaleAsset(t), SaleAmount(t), SalePrice(t, o).GetOr(0.0), t.mtsCreate)
  }

  datatype Step = Step(sale: SaleSide, buy: BuySide, error: Option<TrxError>)

  function Taken(s: SaleSide, t: Trx, q: real, filled: real, isFilled: bool, price: real, fee: real): SaleSide
  {
    s.(filled := filled, isFilled := isFilled, cost := s.cost + Times(q, price), fees := s.fees + fee,
       matches := s.matches + [Match(t.id, t.mtsCreate, q, Some(price), fee)])
  }

  /** The arithmetic of one match, with its three branches. */
  function Fill(d: Order, s: SaleSide, t: Trx, b: BuySide, o: Opts): (r: Step)
  {
    var buyPrice := BuyPrice(t, o).GetOr(0.0);
    var buyAmount := BuyAmount(t);
    var buyRest := buyAmount - b.filled;
    var saleRest := d.amount - s.filled;
    var fee := FeeUsd(t, o, false);
    if buyRest < saleRest then
      Step(Taken(s, t, buyRest, s.filled + buyRest, s.isFilled, buyPrice, fee),
           Closed(d, t, o, b.(filled := buyAmount, isFilled := true,
                              proceeds := b.proceeds + Times(buyRest, d.priceUsd))),
           None)
    else if buyRest > saleRest then
      Step(Taken(s, t, saleRest, d.amount, true, buyPrice, Times(fee, Div(saleRest, buyRest))),
           b.(filled := b.filled + saleRest, proceeds := b.proceeds + Times(saleRest, d.priceUsd)),
           None)
    else
      Step(Taken(s, t, buyRest, d.amount, true, buyPrice, fee),
           Closed(d, t, o, b.(filled := buyAmount, isFilled := true,
                              proceeds := b.proceeds + Times(buyRest, d.priceUsd))),
           None)
  }

  /** A buy that has just been filled gets its own gain or loss. */
  function Closed(d: Order, t: Trx, o: Opts, b: BuySide): BuySide
  {
    var cost := Times(BuyAmount(t), BuyPrice(t, o).GetOr(0.0));
    b.(outcome := Some(BuyOutcome(BuyAsset(t), BuyAmount(t), t.mtsCreate, d.mtsCreate, cost, b.proceeds - cost)))
  }

  /** One turn of the inner loop: a sale that still lacks quantity meets an older transaction. */
  function BuyStep(d: Order, s: SaleSide, l: Lot, o: Opts): (r: Step)
  {
    var t, b := l.trx, l.buy;
    if b.isFilled || !IsUsable(t, o) then Step(s, b, None)
    else if !HasPair(t) then Step(s, b, Some(CurrencyPairSeparationError(t.symbol)))
    else if !IsBuy(t, o) then Step(s, b, None)
    else if d.asset != BuyAsset(t) then Step(s, b.(isBuyTrx := true), None)
    else if BuyPrice(t, o).None? then
      Step(s.(noPriceUsd := true, matches := s.matches + [Match(t.id, t.mtsCreate, 0.0, None, 0.0)]),
           b.(isBuyTrx := true), None)
    else Fill(d, s, t, b.(isBuyTrx := true), o)
  }

  datatype Scan = Scan(sale: SaleSide, older: seq<Lot>, error: Option<TrxError>)

  /** The inner loop over the older transactions: from the oldest when looking back, from the
      newest otherwise; it ends when the sale is filled. */
  function ScanBuys(d: Order, s: SaleSide, older: seq<Lot>, o: Opts): (r: Scan)
    ensures |r.older| == |older|
    decreases |older|
  {
    if older == [] || s.isFilled then Scan(s, older, None)
    else
      var k := if o.isBackIterativeBuyLookUp then |older| - 1 else 0;
      var step := BuyStep(d, s, older[k], o);
      var met := older[k].(buy := step.buy);
      if step.error.Some? then Scan(step.sale, older[k := met], step.error)
      else if o.isBackIterativeBuyLookUp then
        var rest := ScanBuys(d, step.sale, older[..k], o);
        Scan(rest.sale, rest.older + [met], rest.error)
      else
        var rest := ScanBuys(d, step.sale, older[1..], o);
        Scan(rest.sale, [met] + rest.older, rest.error)
  }

  /** The earlier end of the matches of a sale: they were collected in one direction of time. */
  function MtsAcquired(ms: seq<Match>): Option<int>
  {
    if ms == [] then None
    else if ms[0].mtsCreate > ms[|ms| - 1].mtsCreate then Some(ms[|ms| - 1].mtsCreate)
    else Some(ms[0].mtsCreate)
  }

  function SaleClosed(d: Order, s: SaleSide): SaleSide
  {
    var proceeds := Times(d.amount, d.priceUsd);
    s.(outcome := Some(SaleOutcome(d.asset, d.amount, MtsAcquired(s.matches), d.mtsCreate,
                                   proceeds, proceeds - s.cost + s.fees)))
  }

  /** The flags the outer loop writes before it looks for buys. */
  function Classified(l: Lot, o: Opts): Lot
  {
    l.(sale := l.sale.(isSaleTrx := IsSale(l.trx, o)), buy := l.buy.(isBuyTrx := IsBuy(l.trx, o)))
  }

  /** The sale side with which the inner loop starts. */
  function Opened(l: Lot, o: Opts): SaleSide { Classified(l, o).sale.(fees := FeeUsd(l.trx, o, false)) }

  datatype Turn = Turn(lot: Lot, older: seq<Lot>, error: Option<TrxError>)

  /** One turn of the outer loop: a transaction and everything older than it. */
  function SaleStep(l: Lot, older: seq<Lot>, o: Opts): (r: Turn)
    ensures |r.older| == |older|
  {
    if !IsUsable(l.trx, o) then Turn(l, older, None)
    else
      var c := Classified(l, o);
      if !IsSale(l.trx, o) || l.isFromPrevPeriod then Turn(c, older, None)
      else if !HasPair(l.trx) then Turn(c, older, Some(CurrencyPairSeparationError(l.trx.symbol)))
      else if SalePrice(l.trx, o).None? then Turn(c.(sale := c.sale.(noPriceUsd := true)), older, None)
      else
        var d := OrderOf(l.trx, o);
        var scan := ScanBuys(d, Opened(l, o), older, o);
        Turn(c.(sale := if scan.error.Some? then scan.sale else SaleClosed(d, scan.sale)), scan.older, scan.error)
  }

  datatype Pass = Pass(lots: seq<Lot>, error: Option<TrxError>)

  /** The outer loop: from the oldest transaction when looking back, from the newest otherwise. */
  function SalesPass(lots: seq<Lot>, o: Opts): (r: Pass)
    ensures |r.lots| == |lots|
    decreases |lots|
  {
    if lots == [] then Pass([], None)
    else if o.isBackIterativeSaleLookUp then
      var rest := SalesPass(lots[1..], o);
      if rest.error.Some? then Pass([lots[0]] + rest.lots, rest.error)
      else
        var turn := SaleStep(lots[0], rest.lots, o);
        Pass([turn.lot] + turn.older, turn.error)
    else
      var turn := SaleStep(lots[0], lots[1..], o);
      if turn.error.Some? then Pass([turn.lot] + turn.older, turn.error)
      else
        var rest := SalesPass(turn.older, o);
        Pass([turn.lot] + rest.lots, rest.error)
  }
}
