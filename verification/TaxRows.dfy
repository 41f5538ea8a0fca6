/** What a look-up returns: the realised sales as report rows, and the buys that are left over. */
module TaxRows {
  import opened Wrappers
  import opened Trxs
  import opened LotMatching

  /** A row of the report; `None` stands for a missing or non-finite value. */
  datatype TaxRow = TaxRow(
    asset: string, amount: Option<real>, mtsAcquired: Option<int>, mtsSold: Option<int>,
    proceeds: Option<real>, cost: Option<real>, gainOrLoss: Option<real>, taxType: TaxType)

  /** A buy with something left is kept for the next period. */
  predicate IsLeftover(l: Lot) { !l.sale.noPriceUsd && l.buy.isBuyTrx && !l.buy.isFilled }

  function Leftovers(ls: seq<Lot>): seq<Lot>
  {
    if ls == [] then []
    else
      var last := ls[|ls| - 1];
      Leftovers(ls[..|ls| - 1]) + (if IsLeftover(last) then [last.(isFromPrevPeriod := true)] else [])
  }

  /** The kept buys are those at `places`, in order, marked as kept; they are all whose price is known, that
      have been seen to buy something and have something left. */
  predicate AreKept(kept: seq<Lot>, ls: seq<Lot>, places: seq<nat>)
  {
    && |kept| == |places|
    && (forall m, n :: 0 <= m < n < |places| ==> places[m] < places[n])
    && (forall k :: 0 <= k < |ls| ==>
          (k in places <==> !ls[k].sale.noPriceUsd && ls[k].buy.isBuyTrx && !ls[k].buy.isFilled))
    && (forall n :: 0 <= n < |places| ==> places[n] < |ls| && kept[n] == ls[places[n]].(isFromPrevPeriod := true))
  }

  lemma OneMoreKept(kept: seq<Lot>, ls: seq<Lot>, places: seq<nat>, l: Lot)
    requires AreKept(kept, ls, places)
    ensures !IsLeftover(l) ==> AreKept(kept + [], ls + [l], places)
    ensures IsLeftover(l) ==> AreKept(kept + [l.(isFromPrevPeriod := true)], ls + [l], places + [|ls|])
  {
    assert kept + [] == kept;
    assert forall n :: 0 <= n < |places| ==> places[n] in places;
    assert forall k :: k in places ==> k < |ls|;
    assert forall k :: k in places + [|ls|] <==> k in places || k == |ls|;
  }

  lemma {:induction false} LeftoversAreKept(ls: seq<Lot>) returns (places: seq<nat>)
    ensures AreKept(Leftovers(ls), ls, places)
    decreases |ls|
  {
    places := [];
    if ls != [] {
      var k := |ls| - 1;
      places := LeftoversAreKept(ls[..k]);
      OneMoreKept(Leftovers(ls[..k]), ls[..k], places, ls[k]);
      assert ls[..k] + [ls[k]] == ls;
      hide AreKept;
      if IsLeftover(ls[k]) { places := places + [k]; }
    }
  }

  predicate HasRow(l: Lot, o: Opts)
  {
    && !l.sale.noPriceUsd && !o.isBuyTradesWithUnrealizedProfitRequired && !l.isFromPrevPeriod
    && (l.trx.isTaxablePayment || (l.sale.isSaleTrx && !l.trx.isAdditionalTrxMovements))
  }

  function PaymentProceeds(t: Trx, o: Opts): Option<real>
  {
    if t.execAmount.None? || t.firstSymbPriceUsd.None? then None
    else Some(Times(t.execAmount.value, t.firstSymbPriceUsd.value) + FeeUsd(t, o, true))
  }

  function RowOf(l: Lot, o: Opts): TaxRow
  {
    var t := l.trx;
    if t.isTaxablePayment then
      TaxRow(t.firstSymb, t.execAmount, Some(t.mtsCreate), None,
             PaymentProceeds(t, o), None, PaymentProceeds(t, o), t.taxType)
    else
      match l.sale.outcome
      case Some(s) => TaxRow(s.asset, Some(s.amount), s.mtsAcquired, Some(s.mtsSold),
                             Some(s.proceeds), Some(l.sale.cost), Some(s.gainOrLoss), t.taxType)
      case None => TaxRow("", Some(0.0), None, None, Some(0.0), Some(l.sale.cost), Some(0.0), t.taxType)
  }

  function Rows(ls: seq<Lot>, o: Opts): seq<TaxRow>
  {
    if ls == [] then []
    else Rows(ls[..|ls| - 1], o) + (if HasRow(ls[|ls| - 1], o) then [RowOf(ls[|ls| - 1], o)] else [])
  }

  lemma {:induction false} RowsOfCurrentOnly(curr: seq<Lot>, left: seq<Lot>, o: Opts)
    requires forall k :: 0 <= k < |left| ==> left[k].isFromPrevPeriod
    ensures Rows(curr + left, o) == Rows(curr, o)
  {
    if left == [] {
      assert curr + left == curr;
    } else {
      assert (curr + left)[..|curr + left| - 1] == curr + left[..|left| - 1];
      RowsOfCurrentOnly(curr, left[..|left| - 1], o);
    }
  }
}
