/** In FIFO the look-up on the period and the left-over buys matches every sale of the period exactly
as one look-up on the whole history does. */
module PeriodMerge {
  import opened Wrappers
  import opened Trxs
  import opened LotMatching
  import opened LotProgress
  import opened TaxRows
  import opened PeriodSplit

  /** A transaction no sale can take from. */
  predicate IsInert(l: Lot, o: Opts) { l.buy.isFilled || !IsUsable(l.trx, o) || !IsBuy(l.trx, o) }

  /** All that a sale sees of a buy. */
  predicate IsAlike(x: Lot, l: Lot)
  {
    x.trx == l.trx && x.buy.isFilled == l.buy.isFilled && x.buy.filled == l.buy.filled
  }

  /** `left` is what remains of `xs` when only inert transactions are dropped. */
  predicate Covers(xs: seq<Lot>, left: seq<Lot>, o: Opts)
  {
    if xs == [] then left == []
    else
      var x, init := xs[|xs| - 1], xs[..|xs| - 1];
      || (IsInert(x, o) && Covers(init, left, o))
      || (left != [] && IsAlike(x, left[|left| - 1]) && Covers(init, left[..|left| - 1], o))
  }

  predicate HaveKnown(ls: seq<Lot>) { forall k :: 0 <= k < |ls| ==> IsKnown(ls[k].trx) }

  predicate IsFifo(o: Opts)
  {
    && o.isBackIterativeSaleLookUp && o.isBackIterativeBuyLookUp
    && !o.isBuyTradesWithUnrealizedProfitRequired
  }

  lemma StepOnInert(d: Order, s: SaleSide, x: Lot, o: Opts)
    requires IsInert(x, o) && IsKnown(x.trx)
    ensures BuyStep(d, s, x, o) == Step(s, x.buy, None)
  {
    hide Times, Fill, BuyPrice, BuyAsset;
  }

  lemma StepOnAlike(d: Order, s: SaleSide, x: Lot, l: Lot, o: Opts)
    requires IsAlike(x, l) && IsKnown(x.trx)
    ensures var a, b := BuyStep(d, s, x, o), BuyStep(d, s, l, o);
            && a.sale == b.sale && a.error.None? && b.error.None?
            && IsAlike(x.(buy := a.buy), l.(buy := b.buy))
  {
    assert IsUsable(x.trx, o) ==> HasPair(x.trx) by { assert IsUsable(x.trx, o) ==> Counts(x.trx); }
    hide Times, FeeUsd, BuyAmount, IsUsable, IsBuy, Div, HasPair;
  }

  lemma {:induction false} ScanOnCovered(d: Order, s: SaleSide, xs: seq<Lot>, left: seq<Lot>, o: Opts)
    requires IsFifo(o) && Covers(xs, left, o) && HaveKnown(xs)
    ensures var a, b := ScanBuys(d, s, xs, o), ScanBuys(d, s, left, o);
            && a.sale == b.sale && a.error.None? && b.error.None?
            && Covers(a.older, b.older, o) && HaveKnown(a.older)
    decreases |xs|
  {
    hide BuyStep, IsKnown, IsInert, IsAlike;
    if xs != [] && !s.isFilled {
      var x, init := xs[|xs| - 1], xs[..|xs| - 1];
      if IsInert(x, o) && Covers(init, left, o) {
        StepOnInert(d, s, x, o);
        ScanOnCovered(d, s, init, left, o);
        var a := ScanBuys(d, s, init, o);
        assert (a.older + [x])[..|xs| - 1] == a.older;
        assert x.(buy := x.buy) == x;
      } else {
        var l := left[|left| - 1];
        StepOnAlike(d, s, x, l, o);
        var step, step' := BuyStep(d, s, x, o), BuyStep(d, s, l, o);
        ScanOnCovered(d, step.sale, init, left[..|left| - 1], o);
        var a, b := ScanBuys(d, step.sale, init, o), ScanBuys(d, step.sale, left[..|left| - 1], o);
        assert (a.older + [x.(buy := step.buy)])[..|xs| - 1] == a.older;
        assert (b.older + [l.(buy := step'.buy)])[..|left| - 1] == b.older;
      }
    }
  }

  /** The inner loop of FIFO goes through the older part first. */
  lemma {:induction false} ScanAppend(d: Order, s: SaleSide, a: seq<Lot>, b: seq<Lot>, o: Opts)
    requires o.isBackIterativeBuyLookUp && ScanBuys(d, s, b, o).error.None?
    ensures var first := ScanBuys(d, s, b, o);
            var second := ScanBuys(d, first.sale, a, o);
            ScanBuys(d, s, a + b, o) == Scan(second.sale, second.older + first.older, second.error)
    decreases |b|
  {
    hide BuyStep;
    if s.isFilled {
    } else if b == [] {
      assert a + b == a;
      var second := ScanBuys(d, s, a, o);
      assert second.older + b == second.older;
    } else {
      var k := |b| - 1;
      var step := BuyStep(d, s, b[k], o);
      var met := b[k].(buy := step.buy);
      assert (a + b)[..|a| + k] == a + b[..k] && (a + b)[|a| + k] == b[k];
      ScanAppend(d, step.sale, a, b[..k], o);
      var first := ScanBuys(d, step.sale, b[..k], o);
      var second := ScanBuys(d, first.sale, a, o);
      assert (second.older + first.older) + [met] == second.older + (first.older + [met]);
    }
  }

  /** The same transactions of the period, followed by the same history up to inert transactions. */
  predicate Agree(c: seq<Lot>, xs: seq<Lot>, left: seq<Lot>, o: Opts)
  {
    Covers(xs, left, o) && HaveKnown(c) && HaveKnown(xs)
  }

  lemma ScanAgrees(d: Order, s: SaleSide, c: seq<Lot>, xs: seq<Lot>, left: seq<Lot>, o: Opts) returns
      (c': seq<Lot>, xs': seq<Lot>, left': seq<Lot>)
    requires IsFifo(o) && Agree(c, xs, left, o)
    ensures var a, b := ScanBuys(d, s, c + xs, o), ScanBuys(d, s, c + left, o);
            && a == Scan(a.sale, c' + xs', None) && b == Scan(a.sale, c' + left', None)
            && |c'| == |c| && Agree(c', xs', left', o)
  {
    hide BuyStep, IsKnown, Covers, ScanBuys;
    ScanOnCovered(d, s, xs, left, o);
    var a, b := ScanBuys(d, s, xs, o), ScanBuys(d, s, left, o);
    ScanAppend(d, s, c, xs, o);
    ScanAppend(d, s, c, left, o);
    ScanKeepsSales(d, a.sale, c, o);
    NoErrorOnKnown(d, a.sale, c, o);
    c', xs', left' := ScanBuys(d, a.sale, c, o).older, a.older, b.older;
    forall k | 0 <= k < |c'| ensures IsKnown(c'[k].trx) { assert SameSale(c[k], c'[k]); }
  }

  lemma {:induction false} NoErrorOnKnown(d: Order, s: SaleSide, ls: seq<Lot>, o: Opts)
    requires IsFifo(o) && HaveKnown(ls)
    ensures ScanBuys(d, s, ls, o).error.None?
    decreases |ls|
  {
    hide BuyStep, IsKnown;
    if ls != [] && !s.isFilled {
      var k := |ls| - 1;
      StepOnAlike(d, s, ls[k], ls[k], o);
      NoErrorOnKnown(d, BuyStep(d, s, ls[k], o).sale, ls[..k], o);
    }
  }

  lemma TurnAgrees(l: Lot, c: seq<Lot>, xs: seq<Lot>, left: seq<Lot>, o: Opts) returns
      (c': seq<Lot>, xs': seq<Lot>, left': seq<Lot>)
    requires IsFifo(o) && Agree(c, xs, left, o) && IsKnown(l.trx)
    ensures var a, b := SaleStep(l, c + xs, o), SaleStep(l, c + left, o);
            && a == Turn(a.lot, c' + xs', None) && b == Turn(a.lot, c' + left', None)
            && |c'| == |c| && Agree(c', xs', left', o) && IsKnown(a.lot.trx)
  {
    assert IsUsable(l.trx, o) ==> HasPair(l.trx) by { assert IsUsable(l.trx, o) ==> Counts(l.trx); }
    hide ScanBuys, Agree, FeeUsd, IsUsable, IsSale, IsBuy, HasPair, SaleAmount, IsKnown;
    if IsPricedSale(l.trx, o) && !l.isFromPrevPeriod {
      c', xs', left' := ScanAgrees(OrderOf(l.trx, o), Opened(l, o), c, xs, left, o);
    } else {
      c', xs', left' := c, xs, left;
    }
  }

  /** Whatever the outer loop does on the period, it does with the left-over buys alone as with the
      whole history. */
  lemma {:induction false} PassAgrees(c: seq<Lot>, older: seq<Lot>, kept: seq<Lot>, o: Opts) returns
      (c': seq<Lot>, xs': seq<Lot>, left': seq<Lot>)
    requires IsFifo(o) && HaveKnown(c)
    requires var a, b := SalesPass(older, o), SalesPass(kept, o);
             a.error.None? && b.error.None? && Agree([], a.lots, b.lots, o)
    ensures SalesPass(c + older, o) == Pass(c' + xs', None)
    ensures SalesPass(c + kept, o) == Pass(c' + left', None)
    ensures |c'| == |c| && |xs'| == |older| && |left'| == |kept| && Agree(c', xs', left', o)
    decreases |c|
  {
    hide SaleStep, Covers, IsKnown;
    if c == [] {
      assert c + older == older && c + kept == kept;
      c', xs', left' := [], SalesPass(older, o).lots, SalesPass(kept, o).lots;
      assert c' + xs' == xs' && c' + left' == left';
    } else {
      assert (c + older)[1..] == c[1..] + older && (c + kept)[1..] == c[1..] + kept;
      var c1, xs1, left1 := PassAgrees(c[1..], older, kept, o);
      var c2, xs2, left2 := TurnAgrees(c[0], c1, xs1, left1, o);
      var lot := SaleStep(c[0], c1 + xs1, o).lot;
      c', xs', left' := [lot] + c2, xs2, left2;
      assert [lot] + (c2 + xs2) == c' + xs' && [lot] + (c2 + left2) == c' + left';
      TurnLengths(c[0], c1 + xs1, o);
      TurnLengths(c[0], c1 + left1, o);
    }
  }

  lemma TurnLengths(l: Lot, older: seq<Lot>, o: Opts)
    ensures |SaleStep(l, older, o).older| == |older|
  {
  }

  // ----- What the first look-up hands over

  /** The buy flag says what it should. */
  predicate IsFlagged(l: Lot, o: Opts) { l.buy.isBuyTrx <==> (IsUsable(l.trx, o) && IsBuy(l.trx, o)) }

  lemma {:induction false} ScanKeepsFlags(d: Order, s: SaleSide, older: seq<Lot>, o: Opts)
    requires forall k :: 0 <= k < |older| ==> IsFlagged(older[k], o)
    ensures forall k :: 0 <= k < |older| ==> IsFlagged(ScanBuys(d, s, older, o).older[k], o)
    decreases |older|
  {
    hide Times, IsUsable, IsBuy, BuyAmount, FeeUsd, HasPair, Div, BuyAsset, BuyPrice;
    if older != [] && !s.isFilled {
      var k := if o.isBackIterativeBuyLookUp then |older| - 1 else 0;
      var step := BuyStep(d, s, older[k], o);
      assert IsFlagged(older[k].(buy := step.buy), o);
      hide BuyStep;
      if step.error.None? {
        ScanKeepsFlags(d, step.sale, if o.isBackIterativeBuyLookUp then older[..k] else older[1..], o);
      }
    }
  }

  lemma {:induction false} PassFlags(lots: seq<Lot>, o: Opts)
    requires o.isBackIterativeSaleLookUp && SalesPass(lots, o).error.None?
    requires forall k :: 0 <= k < |lots| ==> lots[k].buy == NO_BUY
    ensures forall k :: 0 <= k < |lots| ==> IsFlagged(SalesPass(lots, o).lots[k], o)
    decreases |lots|
  {
    hide IsUsable, IsBuy, ScanBuys, IsSale, HasPair, FeeUsd, SaleAmount;
    if lots != [] {
      PassFlags(lots[1..], o);
      var rest := SalesPass(lots[1..], o).lots;
      ScanKeepsFlags(OrderOf(lots[0].trx, o), Opened(lots[0], o), rest, o);
      var turn := SaleStep(lots[0], rest, o);
      if turn.older != rest {
        assert turn.older == ScanBuys(OrderOf(lots[0].trx, o), Opened(lots[0], o), rest, o).older;
      }
    }
  }

  /** The left-over buys, priced, are what remains of the priced history. */
  lemma {:induction false} LeftoversCover(xs: seq<Lot>, ys: seq<Lot>, quote: Trx -> Trx, p: Report)
    requires AllTwins(xs, ys, p)
    requires forall k :: 0 <= k < |ys| ==> IsFlagged(ys[k], PrevOpts(p)) && !ys[k].sale.noPriceUsd
    requires forall k :: 0 <= k < |ys| ==> xs[k].trx == Priced(ys[k].trx, quote)
    ensures Covers(xs, PricedLots(Leftovers(ys), quote), CurrOpts(p))
    ensures forall k :: 0 <= k < |Leftovers(ys)| ==> Leftovers(ys)[k].isFromPrevPeriod
    decreases |xs|
  {
    if xs != [] {
      var k := |xs| - 1;
      var x, y := xs[k], ys[k];
      LeftoversCover(xs[..k], ys[..k], quote, p);
      TwinAmounts(x.trx, y.trx, p);
      hide Reprices, IsUsable, IsKnown, Priced;
      var left := PricedLots(Leftovers(ys), quote);
      var init := PricedLots(Leftovers(ys[..k]), quote);
      assert Twins(x, y, p);
      if IsLeftover(y) {
        assert left[..|left| - 1] == init;
        assert IsAlike(x, left[|left| - 1]);
      } else {
        assert left == init;
        assert IsFlagged(y, PrevOpts(p));
        assert IsBuy(x.trx, CurrOpts(p)) == IsBuy(y.trx, PrevOpts(p)) by { TwinBuyKind(x.trx, y.trx, p); }
        assert IsInert(x, CurrOpts(p));
      }
    }
  }

  lemma TwinBuyKind(x: Trx, y: Trx, p: Report)
    requires Reprices(y, x, p.forex)
    ensures IsBuy(x, CurrOpts(p)) == IsBuy(y, PrevOpts(p))
  {
  }

  /** A kept buy is not looked at as a sale again. */
  lemma {:induction false} PassOnLeftovers(xs: seq<Lot>, left: seq<Lot>, o: Opts)
    requires IsFifo(o) && Covers(xs, left, o) && forall k :: 0 <= k < |left| ==> left[k].isFromPrevPeriod
    ensures var r := SalesPass(left, o);
            && r.error.None? && Covers(xs, r.lots, o)
            && forall k :: 0 <= k < |left| ==> r.lots[k].isFromPrevPeriod
    decreases |left|, |xs|
  {
    PassOnKept(left, o);
    hide SalesPass, IsInert, IsUsable;
    if xs != [] {
      var x, init := xs[|xs| - 1], xs[..|xs| - 1];
      if IsInert(x, o) && Covers(init, left, o) {
        PassOnLeftovers(init, left, o);
      } else {
        PassOnLeftovers(init, left[..|left| - 1], o);
        PassOnKept(left[..|left| - 1], o);
        var r := SalesPass(left, o).lots;
        assert r[..|r| - 1] == SalesPass(left[..|left| - 1], o).lots;
      }
    }
  }

  function Reclassified(l: Lot, o: Opts): Lot { if IsUsable(l.trx, o) then Classified(l, o) else l }

  lemma {:induction false} PassOnKept(left: seq<Lot>, o: Opts)
    requires o.isBackIterativeSaleLookUp && forall k :: 0 <= k < |left| ==> left[k].isFromPrevPeriod
    ensures var r := SalesPass(left, o);
            r.error.None? && forall k :: 0 <= k < |left| ==> r.lots[k] == Reclassified(left[k], o)
    decreases |left|
  {
    hide IsUsable, IsSale, IsBuy;
    if left != [] {
      PassOnKept(left[1..], o);
    }
  }
}
