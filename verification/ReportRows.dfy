/** The rows of the report say of each transaction of the period what it sold, for how much, and what the
buys it was matched with had cost. */
module ReportRows {
  import opened Trxs
  import opened LotMatching
  import opened LotProgress
  import opened LotGains
  import opened LotDiscipline
  import opened TaxRows
  import opened TaxFigures
  import opened PeriodSplit
  import opened PeriodSafety

  /** The transactions are newest first. */
  predicate AreNewestFirst(ts: seq<Trx>) { forall j, k :: 0 <= j < k < |ts| ==> ts[k].mtsCreate <= ts[j].mtsCreate }

  predicate PricingKeepsMoments(ts: seq<Trx>, quote: Trx -> Trx)
  {
    forall k :: 0 <= k < |ts| ==> Priced(ts[k], quote).mtsCreate == ts[k].mtsCreate
  }

  lemma {:induction false} LeftoversAreNewestFirst(ls: seq<Lot>)
    requires IsNewestFirst(ls)
    ensures IsNewestFirst(Leftovers(ls))
    ensures forall n :: 0 <= n < |Leftovers(ls)| ==>
              exists k :: 0 <= k < |ls| && Leftovers(ls)[n] == ls[k].(isFromPrevPeriod := true)
    decreases |ls|
  {
    if ls != [] {
      var last := |ls| - 1;
      LeftoversAreNewestFirst(ls[..last]);
      var before, all := Leftovers(ls[..last]), Leftovers(ls);
      hide Leftovers, IsLeftover;
      forall n | 0 <= n < |all|
        ensures exists k :: 0 <= k < |ls| && all[n] == ls[k].(isFromPrevPeriod := true)
        ensures n < |before| ==> ls[last].trx.mtsCreate <= all[n].trx.mtsCreate
      {
        if n < |before| {
          var k :| 0 <= k < last && before[n] == ls[..last][k].(isFromPrevPeriod := true);
          assert all[n] == ls[k].(isFromPrevPeriod := true);
        } else {
          assert all[n] == ls[last].(isFromPrevPeriod := true);
        }
      }
    }
  }

  /** What the second look-up starts from is newest first, because the report is given its transactions so. */
  lemma SecondInputIsNewestFirst(curr: seq<Trx>, prev: seq<Trx>, quote: Trx -> Trx, p: Report)
    requires AreNewestFirst(curr + prev)
    requires PricingKeepsMoments(curr, quote) && PricingKeepsMoments(prev, quote)
    ensures IsNewestFirst(SecondInput(curr, prev, quote, p))
  {
    hide SalesPass, Leftovers, Priced, WellFilled;
    var first, lots := PrevPass(prev, p).lots, SecondInput(curr, prev, quote, p);
    FreshIsFine(prev, PrevOpts(p));
    PassGrows(FreshAll(prev), PrevOpts(p));
    assert forall k :: 0 <= k < |prev| ==> (curr + prev)[|curr| + k] == prev[k];
    assert forall k :: 0 <= k < |curr| ==> (curr + prev)[k] == curr[k];
    LeftoversAreNewestFirst(first);
    forall k | |curr| <= k < |lots|
      ensures lots[k].trx.mtsCreate == Leftovers(first)[k - |curr|].trx.mtsCreate
      ensures exists n :: 0 <= n < |prev| && lots[k].trx.mtsCreate == prev[n].mtsCreate
    {
      var n :| 0 <= n < |first| && Leftovers(first)[k - |curr|] == first[n].(isFromPrevPeriod := true);
      assert first[n].trx == prev[n];
    }
  }

  lemma SecondInputIsToBeSold(curr: seq<Trx>, prev: seq<Trx>, quote: Trx -> Trx, p: Report)
    ensures forall k :: 0 <= k < |SecondInput(curr, prev, quote, p)| ==>
              && IsToBeSold(SecondInput(curr, prev, quote, p)[k])
              && (SecondInput(curr, prev, quote, p)[k].isFromPrevPeriod <==> |curr| <= k)
              && (k < |curr| ==> SecondInput(curr, prev, quote, p)[k].trx == Priced(curr[k], quote))
  {
    hide PrevPass, Leftovers, Priced;
    var ls, lots := PrevPass(prev, p).lots, SecondInput(curr, prev, quote, p);
    forall k | |curr| <= k < |lots| ensures lots[k].isFromPrevPeriod {
      var n := LeftoversAreLots(ls, k - |curr|);
    }
  }

  /** The transactions of the period after the second look-up. */
  function PeriodLots(curr: seq<Trx>, prev: seq<Trx>, quote: Trx -> Trx, p: Report): seq<Lot>
  {
    if |curr| <= |SecondPass(curr, prev, quote, p).lots| then SecondPass(curr, prev, quote, p).lots[..|curr|] else []
  }

  /** In FIFO and in LIFO, the report has exactly one row, in order, for each transaction of the period that
      is a payment or sells something and is not marked as being without a price, and each row tells what it
      has to. All matches of these transactions are with older ones of those that the second look-up has. */
  lemma ReportTells(curr: seq<Trx>, prev: seq<Trx>, quote: Trx -> Trx, p: Report) returns (places: seq<nat>)
    requires AreNewestFirst(curr + prev)
    requires PricingKeepsMoments(curr, quote) && PricingKeepsMoments(prev, quote)
    requires curr != [] && TwoLookUps(curr, prev, quote, p).Taxes?
    ensures TellAll(TwoLookUps(curr, prev, quote, p).rows, PeriodLots(curr, prev, quote, p), CurrOpts(p), places)
    ensures |PeriodLots(curr, prev, quote, p)| == |curr|
    ensures SameTrxs(SecondInput(curr, prev, quote, p), SecondPass(curr, prev, quote, p).lots)
    ensures forall k :: 0 <= k < |curr| ==>
              && PeriodLots(curr, prev, quote, p)[k].trx == Priced(curr[k], quote)
              && IsMarkedRight(PeriodLots(curr, prev, quote, p)[k], CurrOpts(p))
              && MatchesOlder(SecondPass(curr, prev, quote, p).lots, k, p.forex)
  {
    hide SalesPass, Leftovers, Rows, Priced, IsToBeSold, TellAll, IsMarkedRight, TellsSale, AreMatchedWith,
         AreNewestFirst, PricingKeepsMoments, IsNewestFirst, SecondInput, PrevPass, Sells;
    var lots := SecondPass(curr, prev, quote, p).lots;
    SecondInputIsNewestFirst(curr, prev, quote, p);
    SecondInputIsToBeSold(curr, prev, quote, p);
    PassTells(SecondInput(curr, prev, quote, p), CurrOpts(p));
    InputIsLonger(curr, prev, quote, p);
    forall k | 0 <= k < |curr|
      ensures SaleTold(lots[k], CurrOpts(p)) && !lots[k].isFromPrevPeriod
      ensures IsMarkedRight(lots[k], CurrOpts(p)) && MatchesOlder(lots, k, p.forex)
    {
      assert IsToldAt(lots, CurrOpts(p), k);
    }
    places := RowsTell(lots[..|curr|], CurrOpts(p));
    RowsOfCurrentOnly(lots[..|curr|], lots[|curr|..], CurrOpts(p));
    assert lots[..|curr|] + lots[|curr|..] == lots;
  }

  /** In short: when the report succeeds its rows tell the period. */
  lemma ReportIsTold(curr: seq<Trx>, prev: seq<Trx>, quote: Trx -> Trx, p: Report)
    requires AreNewestFirst(curr + prev)
    requires PricingKeepsMoments(curr, quote) && PricingKeepsMoments(prev, quote)
    requires TwoLookUps(curr, prev, quote, p).Taxes?
    ensures exists places ::
              TellAll(TwoLookUps(curr, prev, quote, p).rows, PeriodLots(curr, prev, quote, p), CurrOpts(p), places)
  {
    hide TellAll, SecondPass, SalesPass, SecondInput, PrevPass;
    if curr == [] {
      assert PeriodLots(curr, prev, quote, p) == [];
      NothingTold(CurrOpts(p));
    } else {
      var places := ReportTells(curr, prev, quote, p);
    }
  }

  lemma InputIsLonger(curr: seq<Trx>, prev: seq<Trx>, quote: Trx -> Trx, p: Report)
    ensures |curr| <= |SecondInput(curr, prev, quote, p)|
  {
  }

  /** The sale gives the currency that the buy brings, and both have a price for it. */
  predicate CanTake(s: Trx, b: Trx, o: Opts)
  {
    && Sells(s, o) && HasPair(s) && Buys(b, o.forex) && HasPair(b)
    && (if s.execAmount.value < 0.0 then s.firstSymbPriceUsd else s.lastSymbPriceUsd).Some?
    && (if b.execAmount.value > 0.0 then b.firstSymbPriceUsd else b.lastSymbPriceUsd).Some?
    && (if s.execAmount.value < 0.0 then s.firstSymb else s.lastSymb)
       == (if b.execAmount.value > 0.0 then b.firstSymb else b.lastSymb)
  }

  /** If the matches of the sale do not make up what it gives, the buy has given all that it brought. */
  predicate HasTakenAll(sale: Lot, buy: Lot, o: Opts)
  {
    var s, b := sale.trx, buy.trx;
    CanTake(s, b, o) && Quantity(sale.sale.matches) < (if s.execAmount.value < 0.0 then -s.execAmount.value
                                                       else Abs(Times(s.execAmount.value, s.execPrice.value)))
    ==> buy.buy.filled == (if b.execAmount.value > 0.0 then b.execAmount.value
                           else Abs(Times(b.execAmount.value, b.execPrice.value)))
  }

  /** In FIFO and in LIFO, a sale of the period has taken all it can from all older transactions. */
  lemma ReportTakesAllItCan(curr: seq<Trx>, prev: seq<Trx>, quote: Trx -> Trx, p: Report, i: nat, j: nat)
    requires AllRepriced(prev, quote, p) && SecondPass(curr, prev, quote, p).error.None?
    requires i < |curr| && i < j < |SecondPass(curr, prev, quote, p).lots|
    ensures var lots := SecondPass(curr, prev, quote, p).lots; HasTakenAll(lots[i], lots[j], CurrOpts(p))
  {
    hide SecondInput, AllRepriced, SalesPass, Times, Quantity, IsToBeSold, PrevPass, Leftovers, HasTakenAll;
    ReportFills(curr, prev, quote, p);
    ReportExhausts(curr, prev, quote, p, i, j);
    SecondInputIsToBeSold(curr, prev, quote, p);
    var lots := SecondPass(curr, prev, quote, p).lots;
    assert WellFilled(lots[i]) && WellFilled(lots[j]);
    assert BuyGrows(SecondInput(curr, prev, quote, p)[i], lots[i]);
    hide BuyGrows, WellFilled, Exhausted;
    ExhaustedIsTaken(lots, i, j, CurrOpts(p));
  }

  lemma ExhaustedIsTaken(lots: seq<Lot>, i: nat, j: nat, o: Opts)
    requires i < j < |lots| && IsReportLookUp(o) && !lots[i].isFromPrevPeriod
    requires WellFilled(lots[i]) && WellFilled(lots[j]) && Exhausted(lots, i, j, o)
    ensures HasTakenAll(lots[i], lots[j], o)
  {
    hide Times, Quantity;
  }
}
