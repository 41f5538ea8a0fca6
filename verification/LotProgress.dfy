/** What every lot satisfies at every moment of a look-up: no side is over-filled, a side is marked
as filled exactly when it is, and a sale has taken what its matches add up to. */
module LotProgress {
  import opened Trxs
  import opened LotMatching

  function Quantity(ms: seq<Match>): real
  {
    if ms == [] then 0.0 else Quantity(ms[..|ms| - 1]) + ms[|ms| - 1].quantity
  }

  /** A side is never over-filled, and it is marked as filled exactly when it is. */
  predicate Progress(amount: real, filled: real, isFilled: bool)
  {
    && 0.0 <= filled <= amount
    && (isFilled ==> filled == amount)
    && (0.0 < amount == filled ==> isFilled)
  }

  /** A sale has taken exactly what its matches add up to. */
  predicate SaleFilled(amount: real, s: SaleSide)
  {
    && Progress(amount, s.filled, s.isFilled)
    && Quantity(s.matches) == s.filled
    && forall m <- s.matches :: 0.0 <= m.quantity
  }

  predicate BuyFilled(l: Lot) { Progress(BuyAmount(l.trx), l.buy.filled, l.buy.isFilled) }

  predicate WellFilled(l: Lot) { SaleFilled(SaleAmount(l.trx), l.sale) && BuyFilled(l) }

  predicate AllBuysFilled(ls: seq<Lot>) { forall k :: 0 <= k < |ls| ==> BuyFilled(ls[k]) }

  predicate AllWellFilled(ls: seq<Lot>) { forall k :: 0 <= k < |ls| ==> WellFilled(ls[k]) }

  lemma FreshIsWellFilled(t: Trx)
    ensures WellFilled(Fresh(t))
  {
  }

  /** The quantity one step moves from the buy to the sale. */
  function Moved(d: Order, s: SaleSide, l: Lot, o: Opts): real { BuyStep(d, s, l, o).sale.filled - s.filled }

  predicate Meets(d: Order, l: Lot, o: Opts)
  {
    IsPricedBuy(l.trx, o) && d.asset == BuyAsset(l.trx) && !l.buy.isFilled
  }

  /** A match moves the smaller of what the sale still lacks and what the buy still has, so it ends
      with one of them filled; it is positive unless an amount is zero, and the fee share is never
      divided by zero. */
  lemma MatchMovesTheSmallerRest(d: Order, s: SaleSide, l: Lot, o: Opts)
    requires Progress(d.amount, s.filled, s.isFilled) && !s.isFilled && BuyFilled(l) && Meets(d, l, o)
    ensures var r, q := BuyStep(d, s, l, o), Moved(d, s, l, o);
            var buyRest, saleRest := BuyAmount(l.trx) - l.buy.filled, d.amount - s.filled;
            && q == (if buyRest < saleRest then buyRest else saleRest)
            && (0.0 < d.amount && 0.0 < BuyAmount(l.trx) ==> 0.0 < q)
            && (saleRest < buyRest ==> buyRest != 0.0)
            && (r.sale.isFilled || r.buy.isFilled)
            && (r.buy.isFilled ==> r.buy.outcome.Some? && r.buy.outcome.value.mtsSold == d.mtsCreate)
            && r.sale.matches == s.matches + [Match(l.trx.id, l.trx.mtsCreate, q, BuyPrice(l.trx, o),
                                                    r.sale.fees - s.fees)]
  {
    hide Times;
  }

  /** What a match takes of the fee of the buy is to the fee as the quantity is to what the buy had left. */
  lemma MatchTakesItsShareOfTheFee(d: Order, s: SaleSide, l: Lot, o: Opts)
    requires Progress(d.amount, s.filled, s.isFilled) && !s.isFilled && BuyFilled(l) && Meets(d, l, o)
    ensures Times(BuyStep(d, s, l, o).sale.fees - s.fees, BuyAmount(l.trx) - l.buy.filled)
         == Times(FeeUsd(l.trx, o, false), Moved(d, s, l, o))
  {
    MatchMovesTheSmallerRest(d, s, l, o);
    var fee, buyRest, saleRest := FeeUsd(l.trx, o, false), BuyAmount(l.trx) - l.buy.filled, d.amount - s.filled;
    if saleRest < buyRest { ShareOf(fee, saleRest, buyRest); }
    hide Times, Div, FeeUsd, BuyAmount;
  }

  lemma ShareOf(x: real, a: real, b: real)
    requires b != 0.0
    ensures Times(Times(x, Div(a, b)), b) == Times(x, a)
  {
    var p := a / b;
    assert p * b == a;
    assert x * p * b == x * (p * b);
  }

  /** What a buy has left shrinks but its fee does not: when two sales use a buy up, the second one takes
      the whole fee, so together they take the fee exactly if it is zero or the first one takes nothing. */
  lemma FeeIsTakenAgain(d: Order, s: SaleSide, e: Order, u: SaleSide, l: Lot, o: Opts)
    requires Progress(d.amount, s.filled, s.isFilled) && !s.isFilled && BuyFilled(l) && Meets(d, l, o)
    requires var half := l.(buy := BuyStep(d, s, l, o).buy);
             && Progress(e.amount, u.filled, u.isFilled) && !u.isFilled && Meets(e, half, o)
             && BuyStep(e, u, half, o).buy.isFilled
    ensures var half := l.(buy := BuyStep(d, s, l, o).buy);
            var fee, first, second := FeeUsd(l.trx, o, false), BuyStep(d, s, l, o).sale, BuyStep(e, u, half, o).sale;
            && second.fees - u.fees == fee
            && ((first.fees - s.fees) + (second.fees - u.fees) == fee <==> fee == 0.0 || d.amount == s.filled)
  {
    MatchTakesItsShareOfTheFee(d, s, l, o);
    MatchMovesTheSmallerRest(d, s, l, o);
    var fee, share := FeeUsd(l.trx, o, false), BuyStep(d, s, l, o).sale.fees - s.fees;
    NoProduct(fee, Moved(d, s, l, o));
    NoProduct(share, BuyAmount(l.trx) - l.buy.filled);
    hide Times, Div, FeeUsd, BuyAmount;
  }

  lemma NoProduct(x: real, y: real)
    ensures Times(x, y) == 0.0 <==> x == 0.0 || y == 0.0
  {
  }

  lemma StepMoves(d: Order, s: SaleSide, l: Lot, o: Opts)
    requires Progress(d.amount, s.filled, s.isFilled) && !s.isFilled && BuyFilled(l)
    ensures var r, q := BuyStep(d, s, l, o), Moved(d, s, l, o);
            && 0.0 <= q
            && (r.sale.matches == s.matches ==> q == 0.0)
            && (r.sale.matches != s.matches ==>
                  r.sale.matches == s.matches + [Match(l.trx.id, l.trx.mtsCreate, q, BuyPrice(l.trx, o),
                                                       r.sale.fees - s.fees)])
            && Progress(d.amount, r.sale.filled, r.sale.isFilled)
            && BuyFilled(l.(buy := r.buy))
  {
    hide Times;
  }

  lemma StepFilled(d: Order, s: SaleSide, l: Lot, o: Opts)
    requires SaleFilled(d.amount, s) && !s.isFilled && BuyFilled(l)
    ensures var r := BuyStep(d, s, l, o); SaleFilled(d.amount, r.sale) && BuyFilled(l.(buy := r.buy))
  {
    StepMoves(d, s, l, o);
    hide BuyStep;
    var r := BuyStep(d, s, l, o);
    if r.sale.matches != s.matches {
      assert r.sale.matches[..|r.sale.matches| - 1] == s.matches;
    }
  }

  lemma {:induction false} ScanFilled(d: Order, s: SaleSide, older: seq<Lot>, o: Opts)
    requires SaleFilled(d.amount, s) && AllBuysFilled(older)
    ensures var r := ScanBuys(d, s, older, o); SaleFilled(d.amount, r.sale) && AllBuysFilled(r.older)
    decreases |older|
  {
    hide BuyStep, BuyAmount, Quantity;
    if older != [] && !s.isFilled {
      var k := if o.isBackIterativeBuyLookUp then |older| - 1 else 0;
      StepFilled(d, s, older[k], o);
      var step := BuyStep(d, s, older[k], o);
      if step.error.None? {
        ScanFilled(d, step.sale, if o.isBackIterativeBuyLookUp then older[..k] else older[1..], o);
      }
    }
  }

  /** Only the buy side of a lot differs. */
  predicate SameSale(a: Lot, b: Lot) { a == b.(buy := a.buy) }

  /** The inner loop writes nothing but the buy side of the older transactions. */
  lemma {:induction false} ScanKeepsSales(d: Order, s: SaleSide, older: seq<Lot>, o: Opts)
    ensures var r := ScanBuys(d, s, older, o); forall k :: 0 <= k < |older| ==> SameSale(older[k], r.older[k])
    decreases |older|
  {
    hide BuyStep;
    if older != [] && !s.isFilled {
      var k := if o.isBackIterativeBuyLookUp then |older| - 1 else 0;
      var step := BuyStep(d, s, older[k], o);
      if step.error.None? {
        ScanKeepsSales(d, step.sale, if o.isBackIterativeBuyLookUp then older[..k] else older[1..], o);
      }
    }
  }

  lemma TurnKeepsSales(l: Lot, older: seq<Lot>, o: Opts)
    ensures var r := SaleStep(l, older, o);
            && (forall k :: 0 <= k < |older| ==> SameSale(older[k], r.older[k]))
            && r.lot.trx == l.trx && r.lot.isFromPrevPeriod == l.isFromPrevPeriod
            && r.lot.buy.(isBuyTrx := false) == l.buy.(isBuyTrx := false)
  {
    ScanKeepsSales(OrderOf(l.trx, o), Opened(l, o), older, o);
    hide ScanBuys, IsUsable, IsSale, IsBuy, FeeUsd, OrderOf;
  }

  lemma TurnFilled(l: Lot, older: seq<Lot>, o: Opts)
    requires WellFilled(l) && AllWellFilled(older)
    ensures var r := SaleStep(l, older, o); WellFilled(r.lot) && AllWellFilled(r.older)
  {
    TurnKeepsSales(l, older, o);
    ScanFilled(OrderOf(l.trx, o), Opened(l, o), older, o);
    hide ScanBuys, IsUsable, IsSale, IsBuy, FeeUsd, BuyAmount, SaleAmount, Quantity;
    var r := SaleStep(l, older, o);
    forall k | 0 <= k < |older| ensures WellFilled(r.older[k]) {
      assert WellFilled(older[k]) && SameSale(older[k], r.older[k]);
    }
  }

  /** Every pass, in any direction and also when it ends with an error, keeps all lots well filled. */
  lemma {:induction false} PassFilled(lots: seq<Lot>, o: Opts)
    requires AllWellFilled(lots)
    ensures AllWellFilled(SalesPass(lots, o).lots)
    decreases |lots|
  {
    hide SaleStep, WellFilled;
    if lots != [] {
      if o.isBackIterativeSaleLookUp {
        PassFilled(lots[1..], o);
        TurnFilled(lots[0], SalesPass(lots[1..], o).lots, o);
      } else {
        TurnFilled(lots[0], lots[1..], o);
        PassFilled(SaleStep(lots[0], lots[1..], o).older, o);
      }
    }
  }
}
