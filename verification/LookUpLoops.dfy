/** The two nested loops of the look-up over an array of shared transaction objects, and the report
built from two look-ups. */
module LookUpLoops {
  import opened Wrappers
  import opened Trxs
  import opened LotMatching
  import opened LookUpTrades

  predicate AreDistinct(ts: seq<TrxRecord>) { forall j, k :: 0 <= j < k < |ts| ==> ts[j] != ts[k] }

  function Lots(ts: seq<TrxRecord>): (r: seq<Lot>)
    reads ts
    ensures |r| == |ts| && forall k :: 0 <= k < |ts| ==> r[k] == ts[k].View()
  {
    seq(|ts|, k requires 0 <= k < |ts| reads ts => ts[k].View())
  }

  // ----- The inner loop

  /** What the inner loop still has to do when only the transactions from `lo` to `hi` are left. */
  function Resume(d: Order, s: SaleSide, older: seq<Lot>, o: Opts, lo: nat, hi: nat): (r: Scan)
    requires lo <= hi <= |older|
  {
    var rest := ScanBuys(d, s, older[lo..hi], o);
    Scan(rest.sale, older[..lo] + rest.older + older[hi..], rest.error)
  }

  lemma ResumeStep(d: Order, s: SaleSide, older: seq<Lot>, o: Opts, lo: nat, hi: nat)
    requires lo < hi <= |older| && !s.isFilled
    ensures var k := if o.isBackIterativeBuyLookUp then hi - 1 else lo;
            var step := BuyStep(d, s, older[k], o);
            var met := older[k := older[k].(buy := step.buy)];
            Resume(d, s, older, o, lo, hi)
            == if step.error.Some? then Scan(step.sale, met, step.error)
               else if o.isBackIterativeBuyLookUp then Resume(d, step.sale, met, o, lo, hi - 1)
               else Resume(d, step.sale, met, o, lo + 1, hi)
  {
    hide BuyStep;
    var k := if o.isBackIterativeBuyLookUp then hi - 1 else lo;
    var step := BuyStep(d, s, older[k], o);
    var lot := older[k].(buy := step.buy);
    var met := older[k := lot];
    var part := older[lo..hi];
    if step.error.Some? {
      assert older[..lo] + part[k - lo := lot] + older[hi..] == met;
    } else if o.isBackIterativeBuyLookUp {
      assert part[..|part| - 1] == met[lo..hi - 1];
      var rest := ScanBuys(d, step.sale, met[lo..hi - 1], o);
      assert older[..lo] + (rest.older + [lot]) + older[hi..] == met[..lo] + rest.older + met[hi - 1..];
    } else {
      assert part[1..] == met[lo + 1..hi];
      var rest := ScanBuys(d, step.sale, met[lo + 1..hi], o);
      assert older[..lo] + ([lot] + rest.older) + older[hi..] == met[..lo + 1] + rest.older + met[hi..];
    }
  }

  lemma ResumeEnds(d: Order, s: SaleSide, older: seq<Lot>, o: Opts, lo: nat, hi: nat)
    requires lo <= hi <= |older| && (s.isFilled || lo == hi)
    ensures Resume(d, s, older, o, lo, hi) == Scan(s, older, None)
  {
    assert older[..lo] + older[lo..hi] + older[hi..] == older;
  }

  lemma ResumeStarts(d: Order, s: SaleSide, older: seq<Lot>, o: Opts)
    ensures Resume(d, s, older, o, 0, |older|) == ScanBuys(d, s, older, o)
  {
    assert older[0..|older|] == older;
    var r := ScanBuys(d, s, older, o);
    assert [] + r.older + [] == r.older;
  }

  /** What holds between two turns of the inner loop of the sale at `i`: `cur` is what has become of
      `lots`, and the transactions from `lo` to `hi` behind `i` are still to be visited. */
  predicate InnerInv(d: Order, lots: seq<Lot>, cur: seq<Lot>, i: nat, o: Opts, lo: nat, hi: nat)
    requires i < |lots| == |cur| && lo <= hi <= |lots| - i - 1
  {
    && cur[..i] == lots[..i]
    && cur[i] == lots[i].(sale := cur[i].sale)
    && Resume(d, cur[i].sale, cur[i + 1..], o, lo, hi) == ScanBuys(d, lots[i].sale, lots[i + 1..], o)
  }

  function MetAt(d: Order, cur: seq<Lot>, i: nat, j: nat, o: Opts): seq<Lot>
    requires i < j < |cur|
  {
    var step := BuyStep(d, cur[i].sale, cur[j], o);
    cur[i := cur[i].(sale := step.sale)][j := cur[j].(buy := step.buy)]
  }

  lemma InnerStep(d: Order, lots: seq<Lot>, cur: seq<Lot>, i: nat, o: Opts, lo: nat, hi: nat)
    requires i < |lots| == |cur| && lo < hi <= |lots| - i - 1
    requires InnerInv(d, lots, cur, i, o, lo, hi) && !cur[i].sale.isFilled
    ensures var j := i + 1 + if o.isBackIterativeBuyLookUp then hi - 1 else lo;
            var step := BuyStep(d, cur[i].sale, cur[j], o);
            var next := MetAt(d, cur, i, j, o);
            if step.error.Some? then Looked(d, lots, next, i, o, step.error)
            else if o.isBackIterativeBuyLookUp then InnerInv(d, lots, next, i, o, lo, hi - 1)
            else InnerInv(d, lots, next, i, o, lo + 1, hi)
  {
    hide BuyStep, ScanBuys, Resume;
    var j := i + 1 + if o.isBackIterativeBuyLookUp then hi - 1 else lo;
    ResumeStep(d, cur[i].sale, cur[i + 1..], o, lo, hi);
    var step := BuyStep(d, cur[i].sale, cur[j], o);
    var next := MetAt(d, cur, i, j, o);
    assert next[i + 1..] == cur[i + 1..][j - i - 1 := cur[j].(buy := step.buy)];
    assert next[..i] == cur[..i];
  }

  /** The outcome of the inner loop of the sale at `i`. */
  predicate Looked(d: Order, lots: seq<Lot>, after: seq<Lot>, i: nat, o: Opts, error: Option<TrxError>)
    requires i < |lots| == |after|
  {
    var scan := ScanBuys(d, lots[i].sale, lots[i + 1..], o);
    && after[..i] == lots[..i] && after[i] == lots[i].(sale := scan.sale)
    && after[i + 1..] == scan.older && error == scan.error
  }

  /** Two of the shared objects change, and nothing else. */
  method MeetAt(trades: seq<TrxRecord>, i: int, j: int, d: Order, o: Opts) returns (error: Option<TrxError>)
    requires AreDistinct(trades) && 0 <= i < j < |trades|
    modifies trades[i], trades[j]
    ensures Lots(trades) == MetAt(d, old(Lots(trades)), i, j, o)
    ensures error == BuyStep(d, old(trades[i].Sale()), old(trades[j].View()), o).error
  {
    hide BuyStep;
    error := trades[i].MeetBuy(trades[j], d, o);
  }

  /** The inner loop, for the sale at `i`. */
  method LookUpBuys(trades: seq<TrxRecord>, i: int, d: Order, o: Opts) returns (error: Option<TrxError>)
    requires AreDistinct(trades) && 0 <= i < |trades|
    modifies trades
    ensures Looked(d, old(Lots(trades)), Lots(trades), i, o, error)
  {
    hide ScanBuys, BuyStep, Resume, MetAt;
    var n := |trades|;
    error := None;
    var j := if o.isBackIterativeBuyLookUp then n - 1 else i + 1;
    ghost var lo: nat, hi: nat := 0, n - i - 1;
    ghost var lots := Lots(trades);
    ResumeStarts(d, lots[i].sale, lots[i + 1..], o);
    while (if o.isBackIterativeBuyLookUp then i < j else j < n)
      invariant 0 <= lo <= hi <= n - i - 1
      invariant if o.isBackIterativeBuyLookUp then lo == 0 && j == i + hi else j == i + 1 + lo && hi == n - i - 1
      invariant InnerInv(d, lots, Lots(trades), i, o, lo, hi) && error.None?
      decreases hi - lo
    {
      if trades[i].isSaleTrxHistFilled { break; }
      InnerStep(d, lots, Lots(trades), i, o, lo, hi);
      error := MeetAt(trades, i, j, d, o);
      if error.Some? { return; }
      if o.isBackIterativeBuyLookUp {
        j, hi := j - 1, hi - 1;
      } else {
        j, lo := j + 1, lo + 1;
      }
    }
    ResumeEnds(d, Lots(trades)[i].sale, Lots(trades)[i + 1..], o, lo, hi);
  }

  // ----- The outer loop

  /** The outcome of one turn of the outer loop, for the transaction at `i`. */
  function TurnedAt(lots: seq<Lot>, i: nat, o: Opts): Pass
    requires i < |lots|
  {
    var turn := SaleStep(lots[i], lots[i + 1..], o);
    Pass(lots[..i] + [turn.lot] + turn.older, turn.error)
  }

  lemma UpdateAt(lots: seq<Lot>, i: nat, l: Lot)
    requires i < |lots|
    ensures lots[i := l] == lots[..i] + [l] + lots[i + 1..]
    ensures lots[i := l][..i] == lots[..i] && lots[i := l][i + 1..] == lots[i + 1..]
  {
  }

  method ClassifyAt(trades: seq<TrxRecord>, i: int, o: Opts)
    requires AreDistinct(trades) && 0 <= i < |trades|
    modifies trades[i]
    ensures Lots(trades) == old(Lots(trades))[i := Classified(old(trades[i].View()), o)]
  {
    hide IsSale, IsBuy;
    trades[i].isSaleTrx, trades[i].isBuyTrx := IsSale(trades[i].trx, o), IsBuy(trades[i].trx, o);
  }

  method MarkWithoutPrice(trades: seq<TrxRecord>, i: int)
    requires AreDistinct(trades) && 0 <= i < |trades|
    modifies trades[i]
    ensures var l := old(trades[i].View());
            Lots(trades) == old(Lots(trades))[i := l.(sale := l.sale.(noPriceUsd := true))]
  {
    trades[i].noPriceUsd := true;
  }

  /** One turn of the outer loop. */
  method LookUpSale(trades: seq<TrxRecord>, i: int, o: Opts) returns (error: Option<TrxError>)
    requires AreDistinct(trades) && 0 <= i < |trades|
    modifies trades
    ensures Pass(Lots(trades), error) == TurnedAt(old(Lots(trades)), i, o)
  {
    hide ScanBuys, IsUsable, IsSale, IsBuy, HasPair, SaleAsset, SaleAmount, SalePrice, FeeUsd, MtsAcquired, Times,
         SaleClosed, OrderOf, AreDistinct;
    ghost var lots := Lots(trades);
    var trade := trades[i];
    var t := trade.trx;
    error := None;
    UpdateAt(lots, i, lots[i]);
    if !IsUsable(t, o) { return; }
    ClassifyAt(trades, i, o);
    ghost var classified := Classified(lots[i], o);
    UpdateAt(lots, i, classified);
    assert trades[i].View() == Lots(trades)[i] == classified;
    if !trade.isSaleTrx || trade.isBuyTradesWithUnrealizedProfitForPrevPeriod { return; }
    if !HasPair(t) {
      error := Some(CurrencyPairSeparationError(t.symbol));
      return;
    }
    if SalePrice(t, o).None? {
      UpdateAt(lots, i, classified.(sale := classified.sale.(noPriceUsd := true)));
      MarkWithoutPrice(trades, i);
      return;
    }
    error := PricedSale(trades, i, o);
  }

  /** The part of the turn that is reached with a price. */
  method PricedSale(trades: seq<TrxRecord>, i: int, o: Opts) returns (error: Option<TrxError>)
    requires AreDistinct(trades) && 0 <= i < |trades|
    modifies trades
    ensures var lots := old(Lots(trades));
            var d := OrderOf(lots[i].trx, o);
            var scan := ScanBuys(d, lots[i].sale.(fees := FeeUsd(lots[i].trx, o, false)), lots[i + 1..], o);
            var lot := lots[i].(sale := if scan.error.Some? then scan.sale else SaleClosed(d, scan.sale));
            Lots(trades) == lots[..i] + [lot] + scan.older && error == scan.error
  {
    hide ScanBuys, OrderOf, FeeUsd, MtsAcquired, Times, AreDistinct, SaleClosed;
    ghost var lots := Lots(trades);
    var d := OrderOf(trades[i].trx, o);
    WriteFee(trades, i, o);
    UpdateAt(lots, i, lots[i].(sale := lots[i].sale.(fees := FeeUsd(lots[i].trx, o, false))));
    error := LookUpBuys(trades, i, d, o);
    ghost var looked := Lots(trades);
    if error.None? { CloseSaleAt(trades, i, d); }
    UpdateAt(Lots(trades), i, Lots(trades)[i]);
    assert Lots(trades) == Lots(trades)[..i] + [Lots(trades)[i]] + Lots(trades)[i + 1..];
    assert Lots(trades)[..i] == looked[..i] && Lots(trades)[i + 1..] == looked[i + 1..];
    assert Lots(trades)[i] == trades[i].View();
  }

  method WriteFee(trades: seq<TrxRecord>, i: int, o: Opts)
    requires AreDistinct(trades) && 0 <= i < |trades|
    modifies trades[i]
    ensures var l := old(trades[i].View());
            Lots(trades) == old(Lots(trades))[i := l.(sale := l.sale.(fees := FeeUsd(l.trx, o, false)))]
  {
    hide FeeUsd;
    trades[i].cumulativeTrxFeesUsd := FeeUsd(trades[i].trx, o, false);
  }

  method CloseSaleAt(trades: seq<TrxRecord>, i: int, d: Order)
    requires AreDistinct(trades) && 0 <= i < |trades|
    modifies trades[i]
    ensures Lots(trades)[..i] == old(Lots(trades))[..i] && Lots(trades)[i + 1..] == old(Lots(trades))[i + 1..]
    ensures trades[i].View() == old(trades[i].View()).(sale := SaleClosed(d, old(trades[i].Sale())))
  {
    hide SaleClosed;
    trades[i].CloseSale(d);
  }

  /** An error leaves the transactions that were not reached as they were. */
  lemma {:induction false} ErrorStops(head: seq<Lot>, tail: seq<Lot>, o: Opts)
    requires o.isBackIterativeSaleLookUp && SalesPass(tail, o).error.Some?
    ensures SalesPass(head + tail, o) == Pass(head + SalesPass(tail, o).lots, SalesPass(tail, o).error)
    decreases |head|
  {
    hide SalesPass;
    var r := SalesPass(tail, o);
    if head == [] {
      assert head + tail == tail && head + r.lots == r.lots;
    } else {
      ErrorStops(head[1..], tail, o);
      ErrorGoesUp(head[0], head[1..] + tail, o);
      assert [head[0]] + (head[1..] + tail) == head + tail;
      assert [head[0]] + (head[1..] + r.lots) == head + r.lots;
    }
  }

  lemma ErrorGoesUp(l: Lot, lots: seq<Lot>, o: Opts)
    requires o.isBackIterativeSaleLookUp && SalesPass(lots, o).error.Some?
    ensures SalesPass([l] + lots, o) == Pass([l] + SalesPass(lots, o).lots, SalesPass(lots, o).error)
  {
    hide SaleStep;
    assert ([l] + lots)[1..] == lots;
  }

  /** Between two turns of the backward loop: everything from `i` on is done. */
  predicate BackInv(lots: seq<Lot>, cur: seq<Lot>, i: nat, o: Opts)
    requires i <= |lots| == |cur|
  {
    cur[..i] == lots[..i] && SalesPass(lots[i..], o) == Pass(cur[i..], None)
  }

  lemma BackStep(lots: seq<Lot>, cur: seq<Lot>, i: nat, o: Opts)
    requires 0 < i <= |lots| == |cur| && o.isBackIterativeSaleLookUp && BackInv(lots, cur, i, o)
    ensures var next := TurnedAt(cur, i - 1, o);
            && |next.lots| == |lots|
            && (next.error.None? ==> BackInv(lots, next.lots, i - 1, o))
            && (next.error.Some? ==> SalesPass(lots, o) == next)
  {
    hide SaleStep;
    var k := i - 1;
    var next := TurnedAt(cur, k, o);
    var turn := SaleStep(cur[k], cur[i..], o);
    assert lots[k..][1..] == lots[i..] && lots[k..][0] == cur[..i][k];
    assert next.lots[k..] == [turn.lot] + turn.older && next.lots[..k] == cur[..i][..k] == lots[..k];
    if next.error.Some? {
      ErrorStops(lots[..k], lots[k..], o);
      assert lots[..k] + lots[k..] == lots;
      assert lots[..k] + ([turn.lot] + turn.older) == next.lots;
    }
  }

  lemma BackStarts(lots: seq<Lot>, o: Opts)
    ensures BackInv(lots, lots, |lots|, o)
  {
  }

  lemma BackEnds(lots: seq<Lot>, cur: seq<Lot>, o: Opts)
    requires |cur| == |lots| && BackInv(lots, cur, 0, o)
    ensures SalesPass(lots, o) == Pass(cur, None)
  {
    assert lots[0..] == lots && cur[0..] == cur;
  }

  /** Between two turns of the forward loop: everything before `i` is done. */
  predicate ForwardInv(lots: seq<Lot>, cur: seq<Lot>, i: nat, o: Opts)
    requires i <= |lots| == |cur|
  {
    var rest := SalesPass(cur[i..], o);
    SalesPass(lots, o) == Pass(cur[..i] + rest.lots, rest.error)
  }

  lemma ForwardStep(lots: seq<Lot>, cur: seq<Lot>, i: nat, o: Opts)
    requires i < |lots| == |cur| && !o.isBackIterativeSaleLookUp && ForwardInv(lots, cur, i, o)
    ensures var next := TurnedAt(cur, i, o);
            && |next.lots| == |lots|
            && (next.error.None? ==> ForwardInv(lots, next.lots, i + 1, o))
            && (next.error.Some? ==> SalesPass(lots, o) == next)
  {
    hide SaleStep;
    var next := TurnedAt(cur, i, o);
    var turn := SaleStep(cur[i], cur[i + 1..], o);
    assert cur[i..][0] == cur[i] && cur[i..][1..] == cur[i + 1..];
    assert next.lots[i + 1..] == turn.older && next.lots[..i + 1] == cur[..i] + [turn.lot];
    if next.error.None? {
      var rest := SalesPass(turn.older, o).lots;
      assert cur[..i] + ([turn.lot] + rest) == (cur[..i] + [turn.lot]) + rest;
    } else {
      assert cur[..i] + ([turn.lot] + turn.older) == next.lots;
    }
  }

  /** The outer loop, in either direction, computes the pass in place. */
  method LookUpSales(trades: seq<TrxRecord>, o: Opts) returns (error: Option<TrxError>)
    requires AreDistinct(trades)
    modifies trades
    ensures Pass(Lots(trades), error) == SalesPass(old(Lots(trades)), o)
  {
    if o.isBackIterativeSaleLookUp {
      error := LookUpSalesBack(trades, o);
    } else {
      error := LookUpSalesForward(trades, o);
    }
  }

  method LookUpSalesBack(trades: seq<TrxRecord>, o: Opts) returns (error: Option<TrxError>)
    requires AreDistinct(trades) && o.isBackIterativeSaleLookUp
    modifies trades
    ensures Pass(Lots(trades), error) == SalesPass(old(Lots(trades)), o)
  {
    hide TurnedAt, BackInv, SalesPass;
    ghost var lots := Lots(trades);
    var i := |trades|;
    error := None;
    BackStarts(lots, o);
    while 0 < i
      invariant 0 <= i <= |trades| && error.None?
      invariant BackInv(lots, Lots(trades), i, o)
    {
      i := i - 1;
      BackStep(lots, Lots(trades), i + 1, o);
      error := LookUpSale(trades, i, o);
      if error.Some? { return; }
    }
    BackEnds(lots, Lots(trades), o);
  }

  method LookUpSalesForward(trades: seq<TrxRecord>, o: Opts) returns (error: Option<TrxError>)
    requires AreDistinct(trades) && !o.isBackIterativeSaleLookUp
    modifies trades
    ensures Pass(Lots(trades), error) == SalesPass(old(Lots(trades)), o)
  {
    hide TurnedAt;
    ghost var lots := Lots(trades);
    var i := 0;
    error := None;
    assert lots[0..] == lots;
    while i < |trades|
      invariant 0 <= i <= |trades| && error.None?
      invariant ForwardInv(lots, Lots(trades), i, o)
    {
      ForwardStep(lots, Lots(trades), i, o);
      error := LookUpSale(trades, i, o);
      if error.Some? { return; }
      i := i + 1;
    }
    assert Lots(trades)[..i] == Lots(trades) && Lots(trades) + [] == Lots(trades);
  }
}
