/** The transaction tax report: a look-up on the history, the conversion to USD of what is still
without a price, and a look-up on the period together with what the first one kept. */
module TaxReport {
  import opened Wrappers
  import opened Trxs
  import opened LotMatching
  import opened TaxRows
  import opened TaxFigures
  import opened LotGains
  import opened PeriodSplit
  import opened ReportRows
  import opened LookUpTrades
  import opened LookUpLoops

  function Facts(ts: seq<TrxRecord>): (r: seq<Trx>)
    reads ts
    ensures |r| == |ts| && forall k :: 0 <= k < |ts| ==> r[k] == ts[k].trx
  {
    seq(|ts|, k requires 0 <= k < |ts| reads ts => ts[k].trx)
  }

  predicate Within(kept: seq<TrxRecord>, trades: seq<TrxRecord>) { forall k :: 0 <= k < |kept| ==> kept[k] in trades }

  /** The last loop of the look-up: it marks and collects the buys that are left over and the rows. */
  method Collect(trades: seq<TrxRecord>, o: Opts) returns (rows: seq<TaxRow>, kept: seq<TrxRecord>)
    requires AreDistinct(trades)
    modifies trades
    ensures rows == Rows(old(Lots(trades)), o)
    ensures Lots(kept) == if o.isBuyTradesWithUnrealizedProfitRequired then Leftovers(old(Lots(trades))) else []
    ensures AreDistinct(kept) && Within(kept, trades)
    ensures !o.isBuyTradesWithUnrealizedProfitRequired ==> Lots(trades) == old(Lots(trades))
  {
    hide HasRow, RowOf, Rows, Leftovers, IsLeftover;
    NothingCollected(o);
    ghost var lots := Lots(trades);
    rows, kept := [], [];
    for k := 0 to |trades|
      invariant forall m :: k <= m < |trades| ==> trades[m].View() == lots[m]
      invariant !o.isBuyTradesWithUnrealizedProfitRequired ==> forall m :: 0 <= m < k ==> trades[m].View() == lots[m]
      invariant rows == Rows(lots[..k], o)
      invariant Lots(kept) == if o.isBuyTradesWithUnrealizedProfitRequired then Leftovers(lots[..k]) else []
      invariant AreDistinct(kept) && Within(kept, trades[..k])
    {
      var trade := trades[k];
      CollectedNext(lots, k, o);
      if HasRow(trade.View(), o) { rows := rows + [RowOf(trade.View(), o)]; }
      if IsLeftover(trade.View()) && o.isBuyTradesWithUnrealizedProfitRequired {
        ghost var before := Lots(kept);
        trade.isBuyTradesWithUnrealizedProfitForPrevPeriod := true;
        assert Lots(kept) == before;
        kept := kept + [trade];
        assert Lots(kept) == before + [lots[k].(isFromPrevPeriod := true)];
      }
    }
    assert lots[..|trades|] == lots;
  }

  lemma NothingCollected(o: Opts)
    ensures Rows([], o) == [] && Leftovers([]) == []
  {
  }

  lemma CollectedNext(lots: seq<Lot>, k: nat, o: Opts)
    requires k < |lots|
    ensures Rows(lots[..k + 1], o) == Rows(lots[..k], o) + (if HasRow(lots[k], o) then [RowOf(lots[k], o)] else [])
    ensures Leftovers(lots[..k + 1])
            == Leftovers(lots[..k]) + (if IsLeftover(lots[k]) then [lots[k].(isFromPrevPeriod := true)] else [])
  {
    assert lots[..k + 1][..k] == lots[..k];
  }

  /** The whole look-up. */
  method LookUp(trades: seq<TrxRecord>, o: Opts)
      returns (rows: seq<TaxRow>, kept: seq<TrxRecord>, error: Option<TrxError>)
    requires AreDistinct(trades)
    modifies trades
    ensures var pass := SalesPass(old(Lots(trades)), o);
            && error == pass.error
            && (error.None? ==>
                  && rows == Rows(pass.lots, o)
                  && (!o.isBuyTradesWithUnrealizedProfitRequired ==> Lots(trades) == pass.lots)
                  && Lots(kept) == if o.isBuyTradesWithUnrealizedProfitRequired then Leftovers(pass.lots) else [])
    ensures AreDistinct(kept) && Within(kept, trades)
  {
    hide SalesPass, Leftovers, Rows;
    rows, kept := [], [];
    error := LookUpSales(trades, o);
    if error.None? { rows, kept := Collect(trades, o); }
  }

  /** The conversion to USD prices, in place, every transaction that lacks a price. */
  method ConvertCurrencies(trades: seq<TrxRecord>, quote: Trx -> Trx)
    requires AreDistinct(trades)
    modifies trades
    ensures Lots(trades) == PricedLots(old(Lots(trades)), quote)
  {
    ghost var lots := Lots(trades);
    for k := 0 to |trades|
      invariant forall m :: 0 <= m < k ==> trades[m].View() == lots[m].(trx := Priced(lots[m].trx, quote))
      invariant forall m :: k <= m < |trades| ==> trades[m].View() == lots[m]
    {
      if LacksPrice(trades[k].trx) { trades[k].trx := quote(trades[k].trx); }
    }
  }

  /** The look-up on the period, behind which are the buys that the first look-up has kept. */
  method LookUpPeriod(curr: seq<TrxRecord>, kept: seq<TrxRecord>, quote: Trx -> Trx, p: Report)
      returns (taxes: Taxes)
    requires AreDistinct(curr + kept)
    modifies curr, kept
    ensures var second := SalesPass(PricedLots(old(Lots(curr)) + old(Lots(kept)), quote), CurrOpts(p));
            && taxes == (if second.error.Some? then Failed(second.error.value)
                         else Taxes(Rows(second.lots, CurrOpts(p))))
            && (taxes.Taxes? ==> |curr| <= |second.lots| && Lots(curr) == second.lots[..|curr|])
  {
    hide SalesPass, Leftovers, Rows, AreDistinct;
    var trades := curr + kept;
    assert Lots(trades) == Lots(curr) + Lots(kept);
    ConvertCurrencies(trades, quote);
    var rows, again, error := LookUp(trades, CurrOpts(p));
    assert Lots(curr) == Lots(trades)[..|curr|];
    taxes := if error.Some? then Failed(error.value) else Taxes(rows);
  }

  /** The report. The transactions of the period and those before it are remapped database records,
      newest first, which pricing leaves at their moments; its rows tell the transactions of the period. */
  method GetTransactionTaxReport(curr: seq<TrxRecord>, prev: seq<TrxRecord>, quote: Trx -> Trx, p: Report)
      returns (taxes: Taxes)
    requires AreDistinct(curr + prev)
    requires Lots(curr) == FreshAll(Facts(curr)) && Lots(prev) == FreshAll(Facts(prev))
    modifies curr, prev
    ensures taxes == TwoLookUps(old(Facts(curr)), old(Facts(prev)), quote, p)
    ensures taxes.Taxes? ==> Lots(curr) == PeriodLots(old(Facts(curr)), old(Facts(prev)), quote, p)
    ensures && taxes.Taxes? && AreNewestFirst(old(Facts(curr)) + old(Facts(prev)))
            && PricingKeepsMoments(old(Facts(curr)), quote) && PricingKeepsMoments(old(Facts(prev)), quote)
            ==> exists places :: TellAll(taxes.rows, Lots(curr), CurrOpts(p), places)
  {
    hide SalesPass, Leftovers, Rows, AreDistinct, AreNewestFirst, PricingKeepsMoments, TellAll, PricedLots, FreshAll;
    ghost var currFacts, prevFacts := Facts(curr), Facts(prev);
    ghost var isOrdered := && AreNewestFirst(currFacts + prevFacts)
                           && PricingKeepsMoments(currFacts, quote) && PricingKeepsMoments(prevFacts, quote);
    if TwoLookUps(currFacts, prevFacts, quote, p).Taxes? && isOrdered {
      ReportIsTold(currFacts, prevFacts, quote, p);
    }
    if |curr| == 0 { return Taxes([]); }
    ghost var currLots := Lots(curr);
    SplitDistinct(curr, prev);
    var rows, kept, error := LookUp(prev, PrevOpts(p));
    assert Lots(curr) == currLots;
    if error.Some? { return Failed(error.value); }
    JoinDistinct(curr, prev, kept);
    taxes := LookUpPeriod(curr, kept, quote, p);
  }

  lemma SplitDistinct(curr: seq<TrxRecord>, prev: seq<TrxRecord>)
    requires AreDistinct(curr + prev)
    ensures AreDistinct(curr) && AreDistinct(prev)
    ensures forall k :: 0 <= k < |curr| ==> curr[k] !in prev
  {
    var all := curr + prev;
    assert forall k :: 0 <= k < |curr| ==> all[k] == curr[k];
    assert forall k :: 0 <= k < |prev| ==> all[|curr| + k] == prev[k];
  }

  lemma JoinDistinct(curr: seq<TrxRecord>, prev: seq<TrxRecord>, kept: seq<TrxRecord>)
    requires AreDistinct(curr + prev) && AreDistinct(kept) && Within(kept, prev)
    ensures AreDistinct(curr + kept)
  {
    var all := curr + kept;
    forall j, k | 0 <= j < k < |all| ensures all[j] != all[k] {
      if j < |curr| <= k {
        var m :| 0 <= m < |prev| && prev[m] == kept[k - |curr|];
        assert (curr + prev)[j] != (curr + prev)[|curr| + m];
      } else if k < |curr| {
        assert (curr + prev)[j] != (curr + prev)[k];
      }
    }
  }
}
