/** Which buys a sale takes: as many as it can, in the order of the strategy. */
module LotDiscipline {
  import opened Wrappers
  import opened Trxs
  import opened LotMatching
  import opened LotProgress

  predicate Wanted(d: Order, t: Trx, o: Opts) { IsPricedBuy(t, o) && d.asset == BuyAsset(t) }

  /** Facts stay, a filled side stays filled, and fills only grow. */
  predicate BuyGrows(a: Lot, b: Lot)
  {
    && a.trx == b.trx && a.isFromPrevPeriod == b.isFromPrevPeriod
    && (a.buy.isFilled ==> b.buy.isFilled)
    && a.buy.filled <= b.buy.filled
  }

  /** In the visiting order of the inner loop, `j` comes before `k`. */
  predicate VisitedBefore(j: int, k: int, o: Opts) { if o.isBackIterativeBuyLookUp then k < j else j < k }

  lemma StepInOrder(d: Order, s: SaleSide, l: Lot, o: Opts)
    requires Progress(d.amount, s.filled, s.isFilled) && !s.isFilled && BuyFilled(l)
    ensures var r := BuyStep(d, s, l, o);
            && BuyGrows(l, l.(buy := r.buy))
            && (r.error.None? && !r.sale.isFilled && Wanted(d, l.trx, o) ==> r.buy.isFilled)
  {
    hide Times;
  }

  lemma {:induction false} ScanGrows(d: Order, s: SaleSide, older: seq<Lot>, o: Opts)
    requires SaleFilled(d.amount, s) && AllBuysFilled(older)
    ensures var r := ScanBuys(d, s, older, o); forall k :: 0 <= k < |older| ==> BuyGrows(older[k], r.older[k])
    decreases |older|
  {
    hide BuyStep, BuyAmount, Quantity, Times;
    if older != [] && !s.isFilled {
      var k := if o.isBackIterativeBuyLookUp then |older| - 1 else 0;
      StepInOrder(d, s, older[k], o);
      StepFilled(d, s, older[k], o);
      var step := BuyStep(d, s, older[k], o);
      if step.error.None? {
        ScanGrows(d, step.sale, if o.isBackIterativeBuyLookUp then older[..k] else older[1..], o);
      }
    }
  }

  /** A sale that ends unfilled leaves no buy it wanted unfilled. */
  lemma {:induction false} ScanExhausts(d: Order, s: SaleSide, older: seq<Lot>, o: Opts, j: int)
    requires SaleFilled(d.amount, s) && AllBuysFilled(older) && ScanBuys(d, s, older, o).error.None?
    requires 0 <= j < |older| && Wanted(d, older[j].trx, o) && !ScanBuys(d, s, older, o).sale.isFilled
    ensures ScanBuys(d, s, older, o).older[j].buy.isFilled
    decreases |older|
  {
    hide BuyStep, BuyAmount, Quantity, Times, Wanted;
    var k := if o.isBackIterativeBuyLookUp then |older| - 1 else 0;
    StepInOrder(d, s, older[k], o);
    StepFilled(d, s, older[k], o);
    var step := BuyStep(d, s, older[k], o);
    var next := if o.isBackIterativeBuyLookUp then older[..k] else older[1..];
    if j != k {
      ScanExhausts(d, step.sale, next, o, if o.isBackIterativeBuyLookUp then j else j - 1);
    } else {
      ScanOfFilled(d, step.sale, next, o);
    }
  }

  /** A buy is only reached when every wanted buy visited before it has been filled. */
  lemma {:induction false} ScanTakesInOrder(d: Order, s: SaleSide, older: seq<Lot>, o: Opts, j: int, k: int)
    requires SaleFilled(d.amount, s) && AllBuysFilled(older) && ScanBuys(d, s, older, o).error.None?
    requires 0 <= j < |older| && 0 <= k < |older| && VisitedBefore(j, k, o)
    requires Wanted(d, older[j].trx, o) && ScanBuys(d, s, older, o).older[k].buy.filled != older[k].buy.filled
    ensures ScanBuys(d, s, older, o).older[j].buy.isFilled
    decreases |older|
  {
    hide BuyStep, BuyAmount, Quantity, Times, Wanted;
    var first := if o.isBackIterativeBuyLookUp then |older| - 1 else 0;
    StepInOrder(d, s, older[first], o);
    StepFilled(d, s, older[first], o);
    var step := BuyStep(d, s, older[first], o);
    var next := if o.isBackIterativeBuyLookUp then older[..first] else older[1..];
    if j != first {
      var shift := if o.isBackIterativeBuyLookUp then 0 else 1;
      ScanTakesInOrder(d, step.sale, next, o, j - shift, k - shift);
    } else {
      ScanOfFilled(d, step.sale, next, o);
    }
  }

  /** A filled sale takes nothing more. */
  lemma ScanOfFilled(d: Order, s: SaleSide, older: seq<Lot>, o: Opts)
    ensures s.isFilled ==> ScanBuys(d, s, older, o) == Scan(s, older, None)
  {
  }

  lemma TurnGrows(l: Lot, older: seq<Lot>, o: Opts)
    requires WellFilled(l) && AllWellFilled(older)
    ensures var r := SaleStep(l, older, o);
            && BuyGrows(l, r.lot)
            && forall k :: 0 <= k < |older| ==> BuyGrows(older[k], r.older[k]) && SameSale(older[k], r.older[k])
  {
    hide ScanBuys, IsUsable, IsSale, IsBuy, FeeUsd, BuyAmount, SaleAmount, Quantity, Times, HasPair, SalePrice;
    TurnKeepsSales(l, older, o);
    assert AllBuysFilled(older) by {
      forall k | 0 <= k < |older| ensures BuyFilled(older[k]) { assert WellFilled(older[k]); }
    }
    ScanGrows(OrderOf(l.trx, o), Opened(l, o), older, o);
  }

  lemma {:induction false} PassGrows(lots: seq<Lot>, o: Opts)
    requires AllWellFilled(lots)
    ensures forall k :: 0 <= k < |lots| ==> BuyGrows(lots[k], SalesPass(lots, o).lots[k])
    decreases |lots|
  {
    hide SaleStep, WellFilled;
    if lots != [] {
      if o.isBackIterativeSaleLookUp {
        var rest := SalesPass(lots[1..], o);
        PassFilled(lots[1..], o);
        PassGrows(lots[1..], o);
        TurnGrows(lots[0], rest.lots, o);
      } else {
        var turn := SaleStep(lots[0], lots[1..], o);
        TurnGrows(lots[0], lots[1..], o);
        TurnFilled(lots[0], lots[1..], o);
        PassGrows(turn.older, o);
      }
    }
  }

  /** A sale the pass goes through with. */
  predicate IsMatchedSale(l: Lot, o: Opts) { IsPricedSale(l.trx, o) && !l.isFromPrevPeriod }

  /** Once the sale at `i` stays unfilled, no buy at `j` it wanted has anything left. */
  predicate Exhausted(lots: seq<Lot>, i: int, j: int, o: Opts)
    requires 0 <= i < j < |lots|
  {
    IsMatchedSale(lots[i], o) && !lots[i].sale.isFilled && CanBeMatched(lots[i].trx, lots[j].trx, o)
    ==> lots[j].buy.isFilled
  }

  lemma TurnExhausts(l: Lot, older: seq<Lot>, o: Opts, j: int)
    requires WellFilled(l) && AllWellFilled(older) && 0 <= j < |older| && SaleStep(l, older, o).error.None?
    ensures var r := SaleStep(l, older, o); Exhausted([r.lot] + r.older, 0, j + 1, o)
  {
    hide ScanBuys, IsBuy, FeeUsd, BuyAmount, SaleAmount, Quantity, Times;
    var r := SaleStep(l, older, o);
    TurnKeepsSales(l, older, o);
    if IsMatchedSale(l, o) && !r.lot.sale.isFilled && CanBeMatched(l.trx, older[j].trx, o) {
      forall k | 0 <= k < |older| ensures BuyFilled(older[k]) { assert WellFilled(older[k]); }
      ScanExhausts(OrderOf(l.trx, o), Opened(l, o), older, o, j);
    }
  }

  /** Maximality of a whole pass in any direction: a priced sale that ends unfilled leaves no older
      buy of its asset with anything left. */
  lemma {:induction false} PassExhausts(lots: seq<Lot>, o: Opts, i: int, j: int)
    requires AllWellFilled(lots) && 0 <= i < j < |lots| && SalesPass(lots, o).error.None?
    ensures Exhausted(SalesPass(lots, o).lots, i, j, o)
    decreases |lots|
  {
    hide SaleStep, WellFilled, IsPricedSale, CanBeMatched;
    var r := SalesPass(lots, o).lots;
    if o.isBackIterativeSaleLookUp {
      var rest := SalesPass(lots[1..], o);
      var turn := SaleStep(lots[0], rest.lots, o);
      PassFilled(lots[1..], o);
      TurnGrows(lots[0], rest.lots, o);
      if i == 0 {
        TurnExhausts(lots[0], rest.lots, o, j - 1);
      } else {
        PassExhausts(lots[1..], o, i - 1, j - 1);
        assert Exhausted(rest.lots, i - 1, j - 1, o);
      }
    } else {
      var turn := SaleStep(lots[0], lots[1..], o);
      TurnFilled(lots[0], lots[1..], o);
      if i == 0 {
        TurnExhausts(lots[0], lots[1..], o, j - 1);
        assert Exhausted([turn.lot] + turn.older, 0, j, o);
        PassGrows(turn.older, o);
      } else {
        PassExhausts(turn.older, o, i - 1, j - 1);
      }
    }
  }

  /** In FIFO, as soon as anything is taken from the buy at `j`, the older buy of the same asset at
      `k` has nothing left. */
  predicate OldestFirst(lots: seq<Lot>, j: int, k: int, o: Opts)
    requires 0 <= j < k < |lots|
  {
    IsPricedBuy(lots[k].trx, o) && BuyAsset(lots[j].trx) == BuyAsset(lots[k].trx) && 0.0 < lots[j].buy.filled
    ==> lots[k].buy.isFilled
  }

  /** A buy whose fill changes has the asset of the sale. */
  lemma {:induction false} ScanTakesItsAsset(d: Order, s: SaleSide, older: seq<Lot>, o: Opts, k: int)
    requires 0 <= k < |older| && ScanBuys(d, s, older, o).older[k].buy.filled != older[k].buy.filled
    ensures d.asset == BuyAsset(older[k].trx)
    decreases |older|
  {
    hide Fill, BuyAsset, Times, IsUsable, IsBuy, HasPair;
    var first := if o.isBackIterativeBuyLookUp then |older| - 1 else 0;
    var step := BuyStep(d, s, older[first], o);
    if k != first && step.error.None? {
      if o.isBackIterativeBuyLookUp {
        ScanTakesItsAsset(d, step.sale, older[..first], o, k);
      } else {
        ScanTakesItsAsset(d, step.sale, older[1..], o, k - 1);
      }
    }
  }

  lemma TurnTakesOldestFirst(l: Lot, older: seq<Lot>, o: Opts, j: int, k: int)
    requires WellFilled(l) && AllWellFilled(older) && SaleStep(l, older, o).error.None? && o.isBackIterativeBuyLookUp
    requires 0 <= j < k < |older| && OldestFirst(older, j, k, o)
    ensures OldestFirst(SaleStep(l, older, o).older, j, k, o)
  {
    hide ScanBuys, IsUsable, HasPair, IsSale, IsBuy, FeeUsd, BuyAmount, SaleAmount, Quantity, Times;
    var r := SaleStep(l, older, o);
    TurnGrows(l, older, o);
    if r.older[j].buy.filled != older[j].buy.filled
       && IsPricedBuy(older[k].trx, o) && BuyAsset(older[j].trx) == BuyAsset(older[k].trx) {
      forall n | 0 <= n < |older| ensures BuyFilled(older[n]) { assert WellFilled(older[n]); }
      var d := OrderOf(l.trx, o);
      assert r.older == ScanBuys(d, Opened(l, o), older, o).older;
      ScanTakesItsAsset(d, Opened(l, o), older, o, j);
      ScanTakesInOrder(d, Opened(l, o), older, o, k, j);
    }
  }

  /** FIFO on transactions no look-up has seen: the buys of an asset are consumed oldest first. */
  lemma {:induction false} FifoTakesOldestFirst(lots: seq<Lot>, o: Opts, j: int, k: int)
    requires AllWellFilled(lots) && (forall n :: 0 <= n < |lots| ==> lots[n].buy.filled == 0.0)
    requires o.isBackIterativeSaleLookUp && o.isBackIterativeBuyLookUp && SalesPass(lots, o).error.None?
    requires 0 <= j < k < |lots|
    ensures OldestFirst(SalesPass(lots, o).lots, j, k, o)
    decreases |lots|
  {
    hide SaleStep, WellFilled, IsPricedBuy;
    var rest := SalesPass(lots[1..], o);
    PassFilled(lots[1..], o);
    TurnKeepsSales(lots[0], rest.lots, o);
    if j > 0 {
      FifoTakesOldestFirst(lots[1..], o, j - 1, k - 1);
      TurnTakesOldestFirst(lots[0], rest.lots, o, j - 1, k - 1);
    }
  }

  predicate IsPartlyFilled(l: Lot) { 0.0 < l.buy.filled && !l.buy.isFilled }

  /** So in FIFO at most one buy of an asset is partly filled. */
  lemma FifoLeavesOnePartlyFilled(lots: seq<Lot>, o: Opts, j: int, k: int)
    requires AllWellFilled(lots) && (forall n :: 0 <= n < |lots| ==> lots[n].buy.filled == 0.0)
    requires o.isBackIterativeSaleLookUp && o.isBackIterativeBuyLookUp && SalesPass(lots, o).error.None?
    requires 0 <= j < |lots| && 0 <= k < |lots|
    requires var r := SalesPass(lots, o).lots;
             && IsPricedBuy(r[j].trx, o) && IsPricedBuy(r[k].trx, o) && BuyAsset(r[j].trx) == BuyAsset(r[k].trx)
             && IsPartlyFilled(r[j]) && IsPartlyFilled(r[k])
    ensures j == k
  {
    hide SalesPass, WellFilled;
    if j < k { FifoTakesOldestFirst(lots, o, j, k); }
    if k < j { FifoTakesOldestFirst(lots, o, k, j); }
  }
}
