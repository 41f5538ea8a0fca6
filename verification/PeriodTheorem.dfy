/** The two-look-up report in FIFO is the one-look-up report, and in LIFO it need not be. */
module PeriodTheorem {
  import opened Wrappers
  import opened Trxs
  import opened LotMatching
  import opened LotProgress
  import opened LotGains
  import opened LotDiscipline
  import opened TaxRows
  import opened PeriodSplit
  import opened PeriodMerge

  lemma {:induction false} ScanFindsPrices(d: Order, s: SaleSide, older: seq<Lot>, o: Opts)
    requires o.isNotGainOrLossRequired
    ensures ScanBuys(d, s, older, o).sale.noPriceUsd == s.noPriceUsd
    decreases |older|
  {
    hide Times, IsUsable, IsBuy, BuyAmount, FeeUsd, HasPair, Div;
    if older != [] && !s.isFilled {
      var k := if o.isBackIterativeBuyLookUp then |older| - 1 else 0;
      var step := BuyStep(d, s, older[k], o);
      if step.error.None? {
        ScanFindsPrices(d, step.sale, if o.isBackIterativeBuyLookUp then older[..k] else older[1..], o);
      }
    }
  }

  /** The first look-up values everything at zero, so no price is ever missing. */
  lemma {:induction false} PassFindsPrices(lots: seq<Lot>, o: Opts)
    requires o.isNotGainOrLossRequired && o.isBackIterativeSaleLookUp
    requires forall k :: 0 <= k < |lots| ==> !lots[k].sale.noPriceUsd
    ensures forall k :: 0 <= k < |lots| ==> !SalesPass(lots, o).lots[k].sale.noPriceUsd
    decreases |lots|
  {
    hide IsUsable, IsSale, IsBuy, ScanBuys, FeeUsd, SaleAmount;
    if lots != [] {
      PassFindsPrices(lots[1..], o);
      var rest := SalesPass(lots[1..], o).lots;
      TurnKeepsSales(lots[0], rest, o);
      ScanFindsPrices(OrderOf(lots[0].trx, o), Opened(lots[0], o), rest, o);
    }
  }

  lemma PassKeepsTrxs(ts: seq<Trx>, o: Opts)
    ensures forall k :: 0 <= k < |ts| ==> SalesPass(FreshAll(ts), o).lots[k].trx == ts[k]
  {
    hide SalesPass;
    forall k | 0 <= k < |ts| ensures WellFilled(FreshAll(ts)[k]) { FreshIsWellFilled(ts[k]); }
    PassGrows(FreshAll(ts), o);
  }

  lemma FreshTwins(prev: seq<Trx>, quote: Trx -> Trx, p: Report)
    requires forall k :: 0 <= k < |prev| ==> IsPricedRight(prev[k], quote, p.forex)
    ensures AllTwins(FreshAll(PricedAll(prev, quote)), FreshAll(prev), p)
  {
    hide Reprices, IsKnown;
    forall k | 0 <= k < |prev|
      ensures Twins(FreshAll(PricedAll(prev, quote))[k], FreshAll(prev)[k], p)
    {
      assert IsPricedRight(prev[k], quote, p.forex);
    }
  }

  /** What the first look-up keeps is what remains of the priced history. */
  lemma FirstLookUpKeeps(prev: seq<Trx>, quote: Trx -> Trx, p: Report)
    requires p.isFIFO
    requires forall k :: 0 <= k < |prev| ==> IsPricedRight(prev[k], quote, p.forex)
    ensures var first := PrevPass(prev, p);
            var whole := SalesPass(FreshAll(PricedAll(prev, quote)), CurrOpts(p));
            && first.error.None? && whole.error.None? && HaveKnown(whole.lots)
            && Covers(whole.lots, PricedLots(Leftovers(first.lots), quote), CurrOpts(p))
            && forall k :: 0 <= k < |Leftovers(first.lots)| ==> Leftovers(first.lots)[k].isFromPrevPeriod
  {
    hide SalesPass, Reprices, IsKnown, Covers, IsFlagged, Leftovers;
    var xs, ys := FreshAll(PricedAll(prev, quote)), FreshAll(prev);
    FreshTwins(prev, quote, p);
    PassTwins(xs, ys, p);
    PassFlags(ys, PrevOpts(p));
    PassFindsPrices(ys, PrevOpts(p));
    PassKeepsTrxs(prev, PrevOpts(p));
    PassKeepsTrxs(PricedAll(prev, quote), CurrOpts(p));
    var whole, first := SalesPass(xs, CurrOpts(p)).lots, PrevPass(prev, p).lots;
    forall k | 0 <= k < |whole| ensures IsKnown(whole[k].trx) { assert Twins(whole[k], first[k], p); }
    LeftoversCover(whole, first, quote, p);
  }

  lemma SplitInputs(curr: seq<Trx>, prev: seq<Trx>, quote: Trx -> Trx, p: Report)
    ensures SecondInput(curr, prev, quote, p)
         == FreshAll(PricedAll(curr, quote)) + PricedLots(Leftovers(PrevPass(prev, p).lots), quote)
    ensures FreshAll(PricedAll(curr + prev, quote))
         == FreshAll(PricedAll(curr, quote)) + FreshAll(PricedAll(prev, quote))
  {
    hide SalesPass, Leftovers, Priced;
  }

  /** The main result. In FIFO, if pricing only adds prices and every transaction that takes part gets
      them, then running the look-up on the history before the period, keeping its left-over buys and
      running it on the period with them gives each transaction of the period exactly what one run on
      the whole history gives it: matches, quantities, cost, fees, acquisition time and gain. */
  lemma FifoSplitIsExact(curr: seq<Trx>, prev: seq<Trx>, quote: Trx -> Trx, p: Report)
    requires p.isFIFO
    requires forall k :: 0 <= k < |curr| ==> IsPricedRight(curr[k], quote, p.forex)
    requires forall k :: 0 <= k < |prev| ==> IsPricedRight(prev[k], quote, p.forex)
    ensures var one := OneLookUp(curr, prev, quote, p);
            var two := SalesPass(SecondInput(curr, prev, quote, p), CurrOpts(p));
            && one.error.None? && two.error.None?
            && |one.lots| == |curr| + |prev| && |curr| <= |two.lots|
            && two.lots[..|curr|] == one.lots[..|curr|]
            && TwoLookUps(curr, prev, quote, p) == Taxes(Rows(one.lots[..|curr|], CurrOpts(p)))
  {
    hide SalesPass, Reprices, IsKnown, Covers, Leftovers;
    var o := CurrOpts(p);
    var c := FreshAll(PricedAll(curr, quote));
    var older, kept := FreshAll(PricedAll(prev, quote)), PricedLots(Leftovers(PrevPass(prev, p).lots), quote);
    forall k | 0 <= k < |c| ensures IsKnown(c[k].trx) { assert IsPricedRight(curr[k], quote, p.forex); }
    FirstLookUpKeeps(prev, quote, p);
    PassOnLeftovers(SalesPass(older, o).lots, kept, o);
    var c', xs', left' := PassAgrees(c, older, kept, o);
    SplitInputs(curr, prev, quote, p);
    assert (c' + xs')[..|curr|] == c' && (c' + left')[..|curr|] == c';
    KeptStaysKept(c, kept, o);
    forall k | 0 <= k < |left'| ensures left'[k].isFromPrevPeriod {
      assert left'[k] == (c' + left')[|c| + k];
    }
    RowsOfCurrentOnly(c', left', o);
  }

  /** A pass never forgets that a buy was kept from the period before. */
  lemma {:induction false} KeptStaysKept(c: seq<Lot>, kept: seq<Lot>, o: Opts)
    requires o.isBackIterativeSaleLookUp && forall k :: 0 <= k < |kept| ==> kept[k].isFromPrevPeriod
    ensures forall k :: |c| <= k < |c| + |kept| ==> SalesPass(c + kept, o).lots[k].isFromPrevPeriod
    decreases |c|
  {
    if c == [] {
      assert c + kept == kept;
      PassOnKept(kept, o);
    } else {
      var tail := c[1..] + kept;
      assert (c + kept)[1..] == tail && (c + kept)[0] == c[0];
      KeptStaysKept(c[1..], kept, o);
      var rest := SalesPass(tail, o).lots;
      TurnKeepsSales(c[0], rest, o);
      hide SaleStep;
      var r := SalesPass(c + kept, o).lots;
      forall k | |c| <= k < |c| + |kept| ensures r[k].isFromPrevPeriod {
        assert SameSale(rest[k - 1], SaleStep(c[0], rest, o).older[k - 1]);
      }
    }
  }

  // ----- LIFO

  function Deal(id: int, mts: int, amount: real, price: real): Trx
  {
    Trx(id, "tBTCUSD", "BTC", "USD", mts, Some(amount), Some(price), Some(price), Some(1.0), None,
        None, "", false, false, Exchange)
  }

  const LIFO := Report(false, false, {"USD"})
  const BUY_CHEAP := Deal(1, 1, 1.0, 10.0)
  const BUY_DEAR := Deal(2, 2, 1.0, 20.0)
  const SELL_BEFORE := Deal(3, 3, -1.0, 30.0)
  const SELL_NOW := Deal(4, 4, -1.0, 40.0)

  /** A sale of one unit that meets a buy of one unit first takes it whole. */
  lemma TakesWhole(sale: Trx, buy: Trx, rest: seq<Lot>, o: Opts)
    requires !o.isBackIterativeBuyLookUp && o.forex == {"USD"}
    requires sale == Deal(sale.id, sale.mtsCreate, -1.0, sale.execPrice.GetOr(0.0)) && sale.execPrice.value != 0.0
    requires buy == Deal(buy.id, buy.mtsCreate, 1.0, buy.execPrice.GetOr(0.0)) && buy.execPrice.value != 0.0
    ensures var r := SaleStep(Fresh(sale), [Fresh(buy)] + rest, o);
            && r.error.None? && r.older[1..] == rest
            && r.lot.sale.cost == BuyPrice(buy, o).value && !r.lot.buy.isBuyTrx && !r.lot.sale.noPriceUsd
            && r.older[0].trx == buy && r.older[0].buy.isFilled && !r.older[0].isFromPrevPeriod
  {
    var older := [Fresh(buy)] + rest;
    assert older[1..] == rest;
    ScanOfFilled(OrderOf(sale, o), BuyStep(OrderOf(sale, o), Opened(Fresh(sale), o), Fresh(buy), o).sale, rest, o);
  }

  /** Buys for fiat are only classified, and what is behind them stays. */
  lemma {:induction false} PassOverBuys(ls: seq<Lot>, o: Opts)
    requires !o.isBackIterativeSaleLookUp && o.forex == {"USD"}
    requires forall k :: 0 <= k < |ls| ==>
               ls[k].trx == Deal(ls[k].trx.id, ls[k].trx.mtsCreate, 1.0, ls[k].trx.execPrice.GetOr(0.0))
               && ls[k].trx.execPrice.value != 0.0
    ensures SalesPass(ls, o).error.None?
    ensures forall k :: 0 <= k < |ls| ==> SalesPass(ls, o).lots[k] == Classified(ls[k], o)
    decreases |ls|
  {
    if ls != [] {
      assert SaleStep(ls[0], ls[1..], o) == Turn(Classified(ls[0], o), ls[1..], None);
      PassOverBuys(ls[1..], o);
    }
  }

  function Same(): Trx -> Trx { (t: Trx) => t }

  lemma LastIsKept(a: Lot, b: Lot, c: Lot)
    requires !IsLeftover(a) && !IsLeftover(b) && IsLeftover(c)
    ensures Leftovers([a, b, c]) == [c.(isFromPrevPeriod := true)]
  {
    var lots := [a, b, c];
    assert lots[..2] == [a, b] && lots[..2][..1] == [a] && [a][..0] == [];
    assert Leftovers([]) == [] && Leftovers([a]) == [] && Leftovers([a, b]) == [];
  }

  /** The first look-up matches the earlier sale with the dear buy and keeps the cheap one. */
  lemma LifoFirstLookUp()
    ensures Leftovers(PrevPass([SELL_BEFORE, BUY_DEAR, BUY_CHEAP], LIFO).lots)
         == [Classified(Fresh(BUY_CHEAP), PrevOpts(LIFO)).(isFromPrevPeriod := true)]
  {
    var o := PrevOpts(LIFO);
    var sale, dear, cheap := Fresh(SELL_BEFORE), Fresh(BUY_DEAR), Fresh(BUY_CHEAP);
    TakesWhole(SELL_BEFORE, BUY_DEAR, [cheap], o);
    assert [dear] + [cheap] == [dear, cheap];
    var turn := SaleStep(sale, [dear, cheap], o);
    assert turn.older == [turn.older[0], cheap];
    PassOverBuys(turn.older, o);
    var rest := SalesPass(turn.older, o).lots;
    hide SaleStep;
    var input := FreshAll([SELL_BEFORE, BUY_DEAR, BUY_CHEAP]);
    assert input[0] == sale && input[1..] == [dear, cheap];
    var lots := PrevPass([SELL_BEFORE, BUY_DEAR, BUY_CHEAP], LIFO).lots;
    assert lots == [turn.lot, rest[0], rest[1]];
    hide SalesPass;
    LastIsKept(turn.lot, rest[0], rest[1]);
  }

  /** One look-up on everything gives the dear buy to the sale of the period. */
  lemma LifoOneLookUp()
    ensures OneLookUp([SELL_NOW], [SELL_BEFORE, BUY_DEAR, BUY_CHEAP], Same(), LIFO).lots[0].sale.cost == 20.0
  {
    var o := CurrOpts(LIFO);
    var before, dear, cheap := Fresh(SELL_BEFORE), Fresh(BUY_DEAR), Fresh(BUY_CHEAP);
    var ts := [SELL_NOW] + [SELL_BEFORE, BUY_DEAR, BUY_CHEAP];
    assert PricedAll(ts, Same()) == ts;
    assert FreshAll(ts) == [Fresh(SELL_NOW), before, dear, cheap];
    var d, s := OrderOf(SELL_NOW, o), Opened(Fresh(SELL_NOW), o);
    assert BuyStep(d, s, before, o) == Step(s, before.buy, None);
    TakesWhole(SELL_NOW, BUY_DEAR, [cheap], o);
    assert [dear] + [cheap] == [before, dear, cheap][1..];
    assert ScanBuys(d, s, [before, dear, cheap], o).sale == ScanBuys(d, s, [dear, cheap], o).sale;
    assert [dear] + [cheap] == [dear, cheap];
  }

  /** In LIFO the two differ: the earlier sale is matched first in the first look-up and last in the
      one look-up, so the sale of the period costs 10 in the one and 20 in the other. */
  lemma LifoSplitDiffers()
    ensures var prev := [SELL_BEFORE, BUY_DEAR, BUY_CHEAP];
            && (forall k :: 0 <= k < |prev| ==> IsPricedRight(prev[k], Same(), LIFO.forex))
            && IsPricedRight(SELL_NOW, Same(), LIFO.forex)
            && OneLookUp([SELL_NOW], prev, Same(), LIFO).lots[0].sale.cost == 20.0
            && SalesPass(SecondInput([SELL_NOW], prev, Same(), LIFO), CurrOpts(LIFO)).lots[0].sale.cost == 10.0
  {
    var o := CurrOpts(LIFO);
    LifoFirstLookUp();
    LifoOneLookUp();
    hide Leftovers, PrevPass, OneLookUp;
    var kept := Classified(Fresh(BUY_CHEAP), PrevOpts(LIFO)).(isFromPrevPeriod := true);
    var second := SecondInput([SELL_NOW], [SELL_BEFORE, BUY_DEAR, BUY_CHEAP], Same(), LIFO);
    assert FreshAll([SELL_NOW]) + [kept] == [Fresh(SELL_NOW), kept];
    assert second == [Fresh(SELL_NOW), kept];
    var d, s := OrderOf(SELL_NOW, o), Opened(Fresh(SELL_NOW), o);
    var step := BuyStep(d, s, kept, o);
    assert step.sale.cost == 10.0 && step.sale.isFilled;
    ScanOfFilled(d, step.sale, [kept][1..], o);
    assert second[1..] == [kept];
  }
}
