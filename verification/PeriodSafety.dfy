/** Both look-ups of the report, in FIFO and in LIFO, keep every lot well filled: the second one starts from
buys that the first one has partly used and that have been priced since. */
module PeriodSafety {
  import opened Trxs
  import opened LotMatching
  import opened LotProgress
  import opened LotMoves
  import opened LotGains
  import opened LotDiscipline
  import opened TaxRows
  import opened PeriodSplit

  /** A side that a transaction cannot have is untouched. */
  predicate IsOfItsKind(l: Lot, o: Opts)
  {
    && (!IsSale(l.trx, o) ==> l.sale.filled == 0.0 && !l.sale.isFilled && l.sale.matches == [])
    && (!IsBuy(l.trx, o) ==> l.buy.filled == 0.0 && !l.buy.isFilled)
  }

  predicate AreOfTheirKind(ls: seq<Lot>, o: Opts) { forall k :: 0 <= k < |ls| ==> IsOfItsKind(ls[k], o) }

  lemma StepKeepsKind(d: Order, s: SaleSide, l: Lot, o: Opts)
    requires IsOfItsKind(l, o)
    ensures IsOfItsKind(l.(buy := BuyStep(d, s, l, o).buy), o)
  {
    hide Fill, IsUsable, IsSale, HasPair, BuyAsset, BuyPrice;
  }

  lemma {:induction false} ScanKeepsKinds(d: Order, s: SaleSide, older: seq<Lot>, o: Opts)
    requires AreOfTheirKind(older, o)
    ensures AreOfTheirKind(ScanBuys(d, s, older, o).older, o)
    decreases |older|
  {
    hide BuyStep, IsOfItsKind;
    if older != [] && !s.isFilled {
      var k := if o.isBackIterativeBuyLookUp then |older| - 1 else 0;
      StepKeepsKind(d, s, older[k], o);
      var step := BuyStep(d, s, older[k], o);
      if step.error.None? {
        ScanKeepsKinds(d, step.sale, if o.isBackIterativeBuyLookUp then older[..k] else older[1..], o);
      }
    }
  }

  lemma TurnKeepsKinds(l: Lot, older: seq<Lot>, o: Opts)
    requires IsOfItsKind(l, o) && AreOfTheirKind(older, o)
    ensures var r := SaleStep(l, older, o); IsOfItsKind(r.lot, o) && AreOfTheirKind(r.older, o)
  {
    ScanKeepsKinds(OrderOf(l.trx, o), Opened(l, o), older, o);
    hide ScanBuys, IsUsable, IsSale, IsBuy, HasPair, SalePrice, OrderOf, FeeUsd, AreOfTheirKind;
  }

  lemma {:induction false} PassKeepsKinds(lots: seq<Lot>, o: Opts)
    requires AreOfTheirKind(lots, o)
    ensures AreOfTheirKind(SalesPass(lots, o).lots, o)
    decreases |lots|
  {
    hide SaleStep, IsOfItsKind;
    if lots != [] {
      if o.isBackIterativeSaleLookUp {
        PassKeepsKinds(lots[1..], o);
        TurnKeepsKinds(lots[0], SalesPass(lots[1..], o).lots, o);
      } else {
        TurnKeepsKinds(lots[0], lots[1..], o);
        PassKeepsKinds(SaleStep(lots[0], lots[1..], o).older, o);
      }
    }
  }

  // ----- What the second look-up starts from

  /** Pricing changes no amount of a side that the transaction has. */
  lemma PricedIsFilled(l: Lot, u: Trx, p: Report)
    requires WellFilled(l) && IsOfItsKind(l, PrevOpts(p)) && Reprices(l.trx, u, p.forex) && !l.buy.isFilled
    ensures WellFilled(l.(trx := u))
  {
    SameAmounts(l.trx, u, p);
    hide Times, SaleAmount, BuyAmount, IsSale, IsBuy, Reprices;
    AmountsAreNotNegative(u);
  }

  lemma SameAmounts(t: Trx, u: Trx, p: Report)
    requires Reprices(t, u, p.forex)
    ensures IsSale(t, PrevOpts(p)) ==> SaleAmount(u) == SaleAmount(t)
    ensures IsBuy(t, PrevOpts(p)) ==> BuyAmount(u) == BuyAmount(t)
  {
    hide Times;
  }

  lemma AmountsAreNotNegative(t: Trx)
    ensures 0.0 <= SaleAmount(t) && 0.0 <= BuyAmount(t)
  {
    hide Times;
  }

  lemma {:induction false} LeftoversAreLots(ls: seq<Lot>, n: nat) returns (k: nat)
    requires n < |Leftovers(ls)|
    ensures k < |ls| && IsLeftover(ls[k]) && Leftovers(ls)[n] == ls[k].(isFromPrevPeriod := true)
    decreases |ls|
  {
    var last := |ls| - 1;
    if n < |Leftovers(ls[..last])| { k := LeftoversAreLots(ls[..last], n); } else { k := last; }
  }

  /** Pricing adds prices, and an execution price only to a movement. */
  predicate AllRepriced(ts: seq<Trx>, quote: Trx -> Trx, p: Report)
  {
    forall k :: 0 <= k < |ts| ==> Reprices(ts[k], Priced(ts[k], quote), p.forex)
  }

  lemma FreshIsFine(ts: seq<Trx>, o: Opts)
    ensures AllWellFilled(FreshAll(ts)) && AreOfTheirKind(FreshAll(ts), o)
  {
    forall k | 0 <= k < |ts| ensures WellFilled(FreshAll(ts)[k]) { FreshIsWellFilled(ts[k]); }
  }

  /** A left-over buy as the second look-up gets it. */
  lemma LeftoverIsFilled(prev: seq<Trx>, quote: Trx -> Trx, p: Report, n: nat)
    requires AllRepriced(prev, quote, p) && n < |Leftovers(PrevPass(prev, p).lots)|
    ensures var l := Leftovers(PrevPass(prev, p).lots)[n];
            WellFilled(l.(trx := Priced(l.trx, quote))) && l.trx in prev
  {
    hide SalesPass, Leftovers, WellFilled, IsOfItsKind, Reprices, Priced;
    FreshIsFine(prev, PrevOpts(p));
    PassFilled(FreshAll(prev), PrevOpts(p));
    PassKeepsKinds(FreshAll(prev), PrevOpts(p));
    PassGrows(FreshAll(prev), PrevOpts(p));
    var ls := PrevPass(prev, p).lots;
    var k := LeftoversAreLots(ls, n);
    assert ls[k].trx == prev[k];
    SamePeriodFlag(ls[k], PrevOpts(p));
    PricedIsFilled(Leftovers(ls)[n], Priced(prev[k], quote), p);
  }

  lemma SamePeriodFlag(l: Lot, o: Opts)
    ensures WellFilled(l) ==> WellFilled(l.(isFromPrevPeriod := true))
    ensures IsOfItsKind(l, o) ==> IsOfItsKind(l.(isFromPrevPeriod := true), o)
  {
    hide SaleAmount, BuyAmount, Quantity, IsSale, IsBuy;
  }

  /** Whatever the strategy, the second look-up starts from well filled lots. */
  lemma SecondInputIsFilled(curr: seq<Trx>, prev: seq<Trx>, quote: Trx -> Trx, p: Report)
    requires AllRepriced(prev, quote, p)
    ensures AllWellFilled(SecondInput(curr, prev, quote, p))
  {
    hide Leftovers, WellFilled, PrevPass, Priced, AllRepriced;
    var left := Leftovers(PrevPass(prev, p).lots);
    var lots := SecondInput(curr, prev, quote, p);
    forall k | 0 <= k < |lots| ensures WellFilled(lots[k]) {
      if k < |curr| {
        assert lots[k] == Fresh(Priced(curr[k], quote));
        FreshIsWellFilled(Priced(curr[k], quote));
      } else {
        LeftoverIsFilled(prev, quote, p, k - |curr|);
        assert lots[k] == left[k - |curr|].(trx := Priced(left[k - |curr|].trx, quote));
      }
    }
  }

  // ----- What the second look-up keeps

  function SecondPass(curr: seq<Trx>, prev: seq<Trx>, quote: Trx -> Trx, p: Report): Pass
  {
    SalesPass(SecondInput(curr, prev, quote, p), CurrOpts(p))
  }

  /** In the report, in FIFO and in LIFO: every fill stays between zero and the amount, fills never go
      back, and a flag is set exactly when all is filled. */
  lemma ReportFills(curr: seq<Trx>, prev: seq<Trx>, quote: Trx -> Trx, p: Report)
    requires AllRepriced(prev, quote, p)
    ensures AllWellFilled(PrevPass(prev, p).lots) && AllWellFilled(SecondPass(curr, prev, quote, p).lots)
    ensures forall k :: 0 <= k < |SecondInput(curr, prev, quote, p)| ==>
              BuyGrows(SecondInput(curr, prev, quote, p)[k], SecondPass(curr, prev, quote, p).lots[k])
  {
    hide SalesPass, SecondInput, AllWellFilled, AllRepriced, AreOfTheirKind;
    FreshIsFine(prev, PrevOpts(p));
    PassFilled(FreshAll(prev), PrevOpts(p));
    SecondInputIsFilled(curr, prev, quote, p);
    PassFilled(SecondInput(curr, prev, quote, p), CurrOpts(p));
    PassGrows(SecondInput(curr, prev, quote, p), CurrOpts(p));
  }

  /** In the report, in FIFO and in LIFO: a priced sale of the period that is not filled leaves no older
      buy of its asset with anything left, be it of the period or left over. */
  lemma ReportExhausts(curr: seq<Trx>, prev: seq<Trx>, quote: Trx -> Trx, p: Report, i: int, j: int)
    requires AllRepriced(prev, quote, p) && SecondPass(curr, prev, quote, p).error.None?
    requires 0 <= i < j < |SecondInput(curr, prev, quote, p)|
    ensures Exhausted(SecondPass(curr, prev, quote, p).lots, i, j, CurrOpts(p))
  {
    hide SalesPass, SecondInput, AllWellFilled, AllRepriced, Exhausted;
    SecondInputIsFilled(curr, prev, quote, p);
    PassExhausts(SecondInput(curr, prev, quote, p), CurrOpts(p), i, j);
  }

  // ----- Gains

  lemma LeftoverHasGain(prev: seq<Trx>, quote: Trx -> Trx, p: Report, n: nat)
    requires PrevPass(prev, p).error.None? && n < |Leftovers(PrevPass(prev, p).lots)|
    ensures var l := Leftovers(PrevPass(prev, p).lots)[n];
            IsToBeSold(l) && HasBuyGain(l.(trx := Priced(l.trx, quote)), CurrOpts(p))
  {
    hide SalesPass, Leftovers, Priced, SaleSettled;
    PassSettles(FreshAll(prev), PrevOpts(p));
    var ls := PrevPass(prev, p).lots;
    var k := LeftoversAreLots(ls, n);
    assert HasGains(ls[k], PrevOpts(p));
  }

  /** In the report, in FIFO and in LIFO: every priced sale of the period gets its proceeds less its cost,
      plus the fees, as its gain, and every filled buy, left over or not, what it brought less its cost. */
  lemma ReportGains(curr: seq<Trx>, prev: seq<Trx>, quote: Trx -> Trx, p: Report)
    requires PrevPass(prev, p).error.None? && SecondPass(curr, prev, quote, p).error.None?
    ensures forall k :: 0 <= k < |SecondInput(curr, prev, quote, p)| ==>
              && HasGains(SecondPass(curr, prev, quote, p).lots[k], CurrOpts(p))
              && (k < |curr| ==> !SecondPass(curr, prev, quote, p).lots[k].isFromPrevPeriod)
  {
    hide PrevPass, Leftovers, SalesPass, Priced, HasBuyGain, HasGains;
    var left := Leftovers(PrevPass(prev, p).lots);
    var lots := SecondInput(curr, prev, quote, p);
    forall k | 0 <= k < |lots| ensures IsToBeSold(lots[k]) && HasBuyGain(lots[k], CurrOpts(p)) {
      if k < |curr| {
        assert lots[k] == Fresh(Priced(curr[k], quote));
        FreshHasGain(Priced(curr[k], quote), CurrOpts(p));
      } else {
        LeftoverHasGain(prev, quote, p, k - |curr|);
        assert lots[k] == left[k - |curr|].(trx := Priced(left[k - |curr|].trx, quote));
      }
    }
    PassSettles(lots, CurrOpts(p));
  }

  lemma FreshHasGain(t: Trx, o: Opts)
    ensures IsToBeSold(Fresh(t)) && HasBuyGain(Fresh(t), o)
  {
  }

  // ----- What moves

  predicate AllHaveAmounts(ts: seq<Trx>, o: Opts) { forall k :: 0 <= k < |ts| ==> HasAmounts(ts[k], o) }

  lemma FreshMoves(ts: seq<Trx>, o: Opts)
    requires AllHaveAmounts(ts, o)
    ensures LotsMove(FreshAll(ts)) && AreAllPriced(FreshAll(ts)) && LotsHaveAmounts(FreshAll(ts), o)
  {
    hide HasAmounts;
  }

  /** A transaction the second look-up uses has an execution price. */
  lemma SecondHasAmounts(lots: seq<Lot>, p: Report)
    ensures LotsHaveAmounts(lots, CurrOpts(p))
  {
  }

  /** The first look-up values everything at zero, so no buy is without a price. */
  lemma FirstMatchesMove(prev: seq<Trx>, p: Report)
    requires AllHaveAmounts(prev, PrevOpts(p))
    ensures LotsMove(PrevPass(prev, p).lots) && AreAllPriced(PrevPass(prev, p).lots)
  {
    hide SalesPass, AllHaveAmounts, AllWellFilled, AreOfTheirKind, LotsMove, AreAllPriced, LotsHaveAmounts;
    FreshIsFine(prev, PrevOpts(p));
    FreshMoves(prev, PrevOpts(p));
    PassMatches(FreshAll(prev), PrevOpts(p));
  }

  /** So every match of the first look-up moves a strictly positive quantity. */
  lemma FirstMatchesAreReal(prev: seq<Trx>, p: Report)
    requires AllHaveAmounts(prev, PrevOpts(p))
    ensures forall k :: 0 <= k < |prev| ==> forall m <- PrevPass(prev, p).lots[k].sale.matches :: 0.0 < m.quantity
  {
    hide SalesPass, AllHaveAmounts;
    FirstMatchesMove(prev, p);
    var ls := PrevPass(prev, p).lots;
    forall k, m | 0 <= k < |ls| && m in ls[k].sale.matches ensures 0.0 < m.quantity {
      assert SaleMoves(ls[k].sale) && IsAllPriced(ls[k].sale);
    }
  }

  lemma SecondInputMoves(curr: seq<Trx>, prev: seq<Trx>, quote: Trx -> Trx, p: Report)
    requires AllHaveAmounts(prev, PrevOpts(p))
    ensures LotsMove(SecondInput(curr, prev, quote, p))
  {
    hide Leftovers, SalesPass, Priced, AllHaveAmounts, SaleMoves;
    var lots, ls := SecondInput(curr, prev, quote, p), PrevPass(prev, p).lots;
    FirstMatchesMove(prev, p);
    forall k | 0 <= k < |lots| ensures SaleMoves(lots[k].sale) {
      if k < |curr| {
        NothingMoves();
        assert lots[k].sale == NO_SALE;
      } else {
        var n := LeftoversAreLots(ls, k - |curr|);
        assert lots[k].sale == ls[n].sale;
      }
    }
  }

  lemma NothingMoves()
    ensures SaleMoves(NO_SALE)
  {
  }

  /** In the report, in FIFO and in LIFO, every match of both look-ups moves a strictly positive quantity
      exactly when its buy had a price, and a sale that met a buy without one is marked. */
  lemma ReportMatchesMove(curr: seq<Trx>, prev: seq<Trx>, quote: Trx -> Trx, p: Report)
    requires AllRepriced(prev, quote, p) && AllHaveAmounts(prev, PrevOpts(p))
    ensures LotsMove(PrevPass(prev, p).lots) && LotsMove(SecondPass(curr, prev, quote, p).lots)
  {
    hide SalesPass, SecondInput, AllWellFilled, AllRepriced, AllHaveAmounts, LotsMove, LotsHaveAmounts;
    FirstMatchesMove(prev, p);
    SecondInputIsFilled(curr, prev, quote, p);
    SecondInputMoves(curr, prev, quote, p);
    SecondHasAmounts(SecondInput(curr, prev, quote, p), p);
    PassMatches(SecondInput(curr, prev, quote, p), CurrOpts(p));
  }
}
