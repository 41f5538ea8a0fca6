/** Where the USD prices come from: a public trade, or the USD value cached by an earlier report. */
module TrxPrices {
  import opened Wrappers
  import opened Trxs
  import opened LotMatching
  import opened LotMoves
  import opened PeriodSplit
  import opened LookUpTrades
  import opened LookUpLoops
  import opened TaxReport

  /** The side of the pair that the market quotes; the other side is calculated. */
  datatype Side = FirstSymb | LastSymb

  datatype Triangulation = NoTriangulation | CryptoCcyForTriangulation | ForexCcyForTriangulation

  function WithPrice(t: Trx, side: Side, price: real): Trx
  {
    if side == FirstSymb then t.(firstSymbPriceUsd := Some(price)) else t.(lastSymbPriceUsd := Some(price))
  }

  function UsdValue(t: Trx, price: real): Option<real>
  {
    if t.execAmount.None? then None else Some(Times(t.execAmount.value, price))
  }

  /** The transaction once the quoted side has a price: a movement takes it as its execution price,
      and a transaction with an execution price gets the other side and its USD value. */
  function Converted(t: Trx, side: Side, price: real): Trx
  {
    var quoted := WithPrice(t, side, price);
    var u := if t.isAdditionalTrxMovements then quoted.(execPrice := Some(price)) else quoted;
    if u.execPrice.None? || u.execPrice.value == 0.0 then u
    else if side == LastSymb then
      var first := Times(price, u.execPrice.value);
      u.(firstSymbPriceUsd := Some(first), exactUsdValue := UsdValue(u, first))
    else
      u.(lastSymbPriceUsd := Some(Div(price, u.execPrice.value)), exactUsdValue := UsdValue(u, price))
  }

  class TrxPriceCalculator {
    const trx: TrxRecord
    const side: Side
    const kindOfCcyForTriangulation: Triangulation
    const triangulationCcyCalculator: TrxPriceCalculator?
    var pubTradePrice: Option<real>

    constructor (trx: TrxRecord, side: Side, kind: Triangulation, other: TrxPriceCalculator?)
      ensures this.trx == trx && this.side == side && kindOfCcyForTriangulation == kind
      ensures triangulationCcyCalculator == other && pubTradePrice == None
    {
      this.trx, this.side, kindOfCcyForTriangulation, triangulationCcyCalculator := trx, side, kind, other;
      pubTradePrice := None;
    }

    /** Writes the prices of the transaction, or throws (`isOk` is false) without touching it. */
    method CalcPrice(price: Option<real>) returns (isOk: bool)
      requires triangulationCcyCalculator != this
      modifies this, trx`trx
      ensures var isQuote := price.Some? && price.value != 0.0;
              var other := if triangulationCcyCalculator == null then None
                           else old(triangulationCcyCalculator.pubTradePrice);
              var canDivide := other.Some? && other.value != 0.0;
              && (isOk <==> isQuote && (kindOfCcyForTriangulation == ForexCcyForTriangulation ==> canDivide))
              && pubTradePrice == (if isQuote then price else old(pubTradePrice))
              && trx.trx == if !isOk || kindOfCcyForTriangulation == CryptoCcyForTriangulation then old(trx.trx)
                            else if kindOfCcyForTriangulation == ForexCcyForTriangulation then
                              Converted(old(trx.trx), side, Div(other.value, price.value))
                            else Converted(old(trx.trx), side, price.value)
    {
      hide Times, Div;
      if price.None? || price.value == 0.0 { return false; }
      pubTradePrice := price;
      if kindOfCcyForTriangulation == CryptoCcyForTriangulation { return true; }
      var convPrice := price.value;
      if kindOfCcyForTriangulation == ForexCcyForTriangulation {
        if triangulationCcyCalculator == null { return false; }
        var other := triangulationCcyCalculator.pubTradePrice;
        if other.None? || other.value == 0.0 { return false; }
        convPrice := Div(other.value, price.value);
      }
      trx.trx := WithPrice(trx.trx, side, convPrice);
      if trx.trx.isAdditionalTrxMovements {
        trx.trx := trx.trx.(execPrice := Some(convPrice));
      }
      if trx.trx.execPrice.None? || trx.trx.execPrice.value == 0.0 { return true; }
      if side == LastSymb {
        var priceUsd := Times(convPrice, trx.trx.execPrice.value);
        trx.trx := trx.trx.(firstSymbPriceUsd := Some(priceUsd));
        trx.trx := trx.trx.(exactUsdValue := UsdValue(trx.trx, priceUsd));
        return true;
      }
      trx.trx := trx.trx.(lastSymbPriceUsd := Some(Div(convPrice, trx.trx.execPrice.value)));
      trx.trx := trx.trx.(exactUsdValue := UsdValue(trx.trx, convPrice));
      return true;
    }
  }

  /** A trade is remapped when it has a symbol, an amount and a price. */
  predicate IsRemapped(t: Trx)
  {
    && t.symbol != "" && t.execAmount.Some? && t.execAmount.value != 0.0
    && t.execPrice.Some? && t.execPrice.value != 0.0
  }

  /** A trade taken from the database: both prices are forgotten and derived anew from a USD quote or
      from the cached USD value, if there is one. `t` holds the fee of the record, which is zero when it
      is missing, and its currency. */
  function RemappedTrade(t: Trx): Trx
    requires IsRemapped(t)
  {
    var u := t.(firstSymbPriceUsd := None, lastSymbPriceUsd := None, isAdditionalTrxMovements := false,
                isTaxablePayment := false, taxType := Exchange, trxFee := Some(t.trxFee.GetOr(0.0)));
    if t.lastSymb == "USD" then u.(firstSymbPriceUsd := t.execPrice, lastSymbPriceUsd := Some(1.0))
    else if t.exactUsdValue.Some? && t.exactUsdValue.value != 0.0 then
      u.(firstSymbPriceUsd := Some(Abs(Div(t.exactUsdValue.value, t.execAmount.value))),
         lastSymbPriceUsd := Some(Abs(Div(t.exactUsdValue.value, Times(t.execAmount.value, t.execPrice.value)))))
    else u
  }

  function Chosen(ts: seq<TrxRecord>, facts: seq<Trx>, isChosen: Trx -> bool): seq<TrxRecord>
    requires |facts| == |ts|
  {
    if ts == [] then []
    else
      var k := |ts| - 1;
      Chosen(ts[..k], facts[..k], isChosen) + (if isChosen(facts[k]) then [ts[k]] else [])
  }

  lemma ChosenNext(ts: seq<TrxRecord>, facts: seq<Trx>, isChosen: Trx -> bool, k: nat, next: nat)
    requires |facts| == |ts| && k < |ts| && next == k + 1
    ensures Chosen(ts[..next], facts[..next], isChosen)
         == Chosen(ts[..k], facts[..k], isChosen) + (if isChosen(facts[k]) then [ts[k]] else [])
  {
    assert ts[..next][..k] == ts[..k] && facts[..next][..k] == facts[..k];
  }

  predicate IsLeftForMarket(t: Trx) { IsRemapped(t) && LacksPrice(RemappedTrade(t)) }

  /** A value cached by an earlier report. */
  predicate HasCachedValue(value: Option<real>) { value.Some? && value.value != 0.0 }

  /** `u` is `t` priced anew. Against USD its execution price is its price; with a cached value its amount
      at its price makes that value, and its price is what it was traded for at the price of that;
      otherwise it has no prices. */
  predicate IsPricedAnew(t: Trx, u: Trx)
  {
    && u == t.(firstSymbPriceUsd := u.firstSymbPriceUsd, lastSymbPriceUsd := u.lastSymbPriceUsd, trxFee := u.trxFee,
               isAdditionalTrxMovements := false, isTaxablePayment := false, taxType := Exchange)
    && u.trxFee == (if t.trxFee.Some? then t.trxFee else Some(0.0))
    && t.execAmount.Some? && t.execPrice.Some?
    && (t.lastSymb == "USD" ==> u.firstSymbPriceUsd == t.execPrice && u.lastSymbPriceUsd == Some(1.0))
    && (t.lastSymb != "USD" && HasCachedValue(t.exactUsdValue) ==>
          && u.firstSymbPriceUsd.Some? && u.lastSymbPriceUsd.Some?
          && Times(u.firstSymbPriceUsd.value, Abs(t.execAmount.value)) == Abs(t.exactUsdValue.value)
          && u.firstSymbPriceUsd.value == Abs(Times(u.lastSymbPriceUsd.value, t.execPrice.value)))
    && (t.lastSymb != "USD" && !HasCachedValue(t.exactUsdValue) ==>
          u.firstSymbPriceUsd == None && u.lastSymbPriceUsd == None)
  }

  lemma RemappedIsPricedAnew(t: Trx)
    requires IsRemapped(t)
    ensures IsPricedAnew(t, RemappedTrade(t))
  {
    if HasCachedValue(t.exactUsdValue) {
      SharesOfValue(t.exactUsdValue.value, t.execAmount.value, t.execPrice.value);
    }
    hide Times, Div, Abs;
  }

  lemma SharesOfValue(v: real, a: real, e: real)
    requires a != 0.0 && e != 0.0
    ensures Times(Abs(Div(v, a)), Abs(a)) == Abs(v)
    ensures Abs(Div(v, a)) == Abs(Times(Abs(Div(v, Times(a, e))), e))
  {
    Signs(a, e);
    var whole, share := Div(v, Times(a, e)), Div(v, a);
    DivUndoesTimes(a, v);
    DivUndoesTimes(Times(a, e), v);
    assert share * a == v && whole * (a * e) == v;
    assert (whole * e) * a == v;
    DivUndoesTimes(a, whole * e);
    assert share == Div(Times(whole * e, a), a) == whole * e;
    AbsOfTimes(share, a);
    AbsOfTimes(Abs(whole), e);
    AbsOfTimes(whole, e);
    hide Times, Div;
  }

  lemma AbsOfTimes(x: real, y: real)
    ensures Abs(Times(x, y)) == Times(Abs(x), Abs(y))
  {
  }

  /** The chosen objects are those at `places`, in order, and these are all. */
  predicate IsChoice(chosen: seq<TrxRecord>, ts: seq<TrxRecord>, facts: seq<Trx>, isChosen: Trx -> bool,
                     places: seq<nat>)
    requires |facts| == |ts|
  {
    && |chosen| == |places|
    && (forall m, n :: 0 <= m < n < |places| ==> places[m] < places[n])
    && (forall n :: 0 <= n < |places| ==> places[n] < |ts| && chosen[n] == ts[places[n]])
    && (forall k :: 0 <= k < |ts| ==> (isChosen(facts[k]) <==> k in places))
  }

  lemma {:induction false} ChosenAt(ts: seq<TrxRecord>, facts: seq<Trx>, isChosen: Trx -> bool)
      returns (places: seq<nat>)
    requires |facts| == |ts|
    ensures IsChoice(Chosen(ts, facts, isChosen), ts, facts, isChosen, places)
    decreases |ts|
  {
    hide IsChoice;
    places := [];
    if ts == [] {
      NothingChosen(isChosen);
    } else {
      var k := |ts| - 1;
      places := ChosenAt(ts[..k], facts[..k], isChosen);
      OneMoreChosen(Chosen(ts[..k], facts[..k], isChosen), ts[..k], facts[..k], isChosen, places, ts[k], facts[k]);
      assert ts[..k] + [ts[k]] == ts && facts[..k] + [facts[k]] == facts;
      if isChosen(facts[k]) { places := places + [k]; }
    }
  }

  lemma NothingChosenYet(isChosen: Trx -> bool)
    ensures Chosen([], [], isChosen) == []
  {
  }

  lemma NothingChosen(isChosen: Trx -> bool)
    ensures IsChoice([], [], [], isChosen, [])
  {
  }

  lemma OneMoreChosen(chosen: seq<TrxRecord>, ts: seq<TrxRecord>, facts: seq<Trx>, isChosen: Trx -> bool,
                      places: seq<nat>, t: TrxRecord, fact: Trx)
    requires |facts| == |ts| && IsChoice(chosen, ts, facts, isChosen, places)
    ensures isChosen(fact) ==> IsChoice(chosen + [t], ts + [t], facts + [fact], isChosen, places + [|ts|])
    ensures !isChosen(fact) ==> IsChoice(chosen + [], ts + [t], facts + [fact], isChosen, places)
  {
    assert forall n :: 0 <= n < |places| ==> places[n] in places;
    assert forall k :: k in places ==> k < |ts|;
    assert forall k :: k in places + [|ts|] <==> k in places || k == |ts|;
    assert chosen + [] == chosen;
  }

  /** Every trade that is handed over has been priced anew, and those left for the market have no prices. */
  predicate AreRight(trades: seq<TrxRecord>, before: seq<Trx>, after: seq<Trx>, remapped: seq<TrxRecord>,
                     forConvToUsd: seq<TrxRecord>)
    requires |trades| == |before| == |after|
  {
    forall k :: 0 <= k < |trades| ==>
      && (trades[k] in remapped <==> IsRemapped(before[k]))
      && (trades[k] in remapped ==> IsPricedAnew(before[k], after[k]))
      && (trades[k] !in remapped ==> after[k] == before[k])
      && (trades[k] in forConvToUsd <==>
            trades[k] in remapped && before[k].lastSymb != "USD" && !HasCachedValue(before[k].exactUsdValue))
  }

  lemma RemappedAreRight(trades: seq<TrxRecord>, before: seq<Trx>)
    requires AreDistinct(trades) && |trades| == |before|
    ensures AreRight(trades, before, RemappedTrades(before), Chosen(trades, before, IsRemapped),
                     Chosen(trades, before, IsLeftForMarket))
  {
    hide IsRemapped, RemappedTrade, IsPricedAnew, Chosen;
    var chosen := ChosenAt(trades, before, IsRemapped);
    var left := ChosenAt(trades, before, IsLeftForMarket);
    forall k | 0 <= k < |trades|
      ensures trades[k] in Chosen(trades, before, IsRemapped) <==> IsRemapped(before[k])
      ensures trades[k] in Chosen(trades, before, IsLeftForMarket) <==> IsLeftForMarket(before[k])
      ensures IsRemapped(before[k]) ==>
                && IsPricedAnew(before[k], RemappedTrades(before)[k])
                && (IsLeftForMarket(before[k])
                    <==> before[k].lastSymb != "USD" && !HasCachedValue(before[k].exactUsdValue))
    {
      if IsRemapped(before[k]) { LeftAreUnpriced(before[k]); }
    }
  }

  lemma LeftAreUnpriced(t: Trx)
    requires IsRemapped(t)
    ensures IsPricedAnew(t, RemappedTrade(t))
    ensures IsLeftForMarket(t) <==> t.lastSymb != "USD" && !HasCachedValue(t.exactUsdValue)
  {
    RemappedIsPricedAnew(t);
    hide RemappedTrade, Times, Abs, IsRemapped;
  }

  /** So a sale for dollars brings its amount at its execution price. */
  lemma UsdSaleBringsItsPrice(t: Trx, u: Trx, older: seq<Lot>, o: Opts)
    requires IsRemapped(t) && IsPricedAnew(t, u) && t.lastSymb == "USD" && t.firstSymb != ""
    requires t.execAmount.value < 0.0 && !o.isNotGainOrLossRequired && SaleStep(Fresh(u), older, o).error.None?
    ensures var sale := SaleStep(Fresh(u), older, o).lot.sale;
            && sale.outcome.Some? && sale.outcome.value.asset == t.firstSymb
            && sale.outcome.value.proceeds == Times(-t.execAmount.value, t.execPrice.value)
  {
    hide Times, ScanBuys, FeeUsd, MtsAcquired;
  }

  /** The loop over the trades writes the prices in place and collects the remapped trades, and among
      them those the market must be asked for. */
  method RemapTrades(trades: seq<TrxRecord>) returns (remapped: seq<TrxRecord>, forConvToUsd: seq<TrxRecord>)
    requires AreDistinct(trades)
    modifies trades
    ensures Facts(trades) == RemappedTrades(old(Facts(trades)))
    ensures remapped == Chosen(trades, old(Facts(trades)), IsRemapped)
    ensures forConvToUsd == Chosen(trades, old(Facts(trades)), IsLeftForMarket)
    ensures AreRight(trades, old(Facts(trades)), Facts(trades), remapped, forConvToUsd)
  {
    hide Times, Div, Abs, AreRight, Chosen;
    NothingChosenYet(IsRemapped);
    NothingChosenYet(IsLeftForMarket);
    ghost var facts := Facts(trades);
    RemappedAreRight(trades, facts);
    remapped, forConvToUsd := [], [];
    for k := 0 to |trades|
      invariant forall m :: 0 <= m < k ==> trades[m].trx == RemappedIfUsable(facts[m])
      invariant forall m :: k <= m < |trades| ==> trades[m].trx == facts[m]
      invariant remapped == Chosen(trades[..k], facts[..k], IsRemapped)
      invariant forConvToUsd == Chosen(trades[..k], facts[..k], IsLeftForMarket)
    {
      var t := trades[k].trx;
      ChosenNext(trades, facts, IsRemapped, k, k + 1);
      ChosenNext(trades, facts, IsLeftForMarket, k, k + 1);
      if !IsRemapped(t) { continue; }
      var u := t.(firstSymbPriceUsd := None, lastSymbPriceUsd := None, isAdditionalTrxMovements := false,
                  isTaxablePayment := false, taxType := Exchange, trxFee := Some(t.trxFee.GetOr(0.0)));
      trades[k].trx := u;
      remapped := remapped + [trades[k]];
      if t.lastSymb == "USD" {
        trades[k].trx := u.(firstSymbPriceUsd := t.execPrice, lastSymbPriceUsd := Some(1.0));
        continue;
      }
      if t.exactUsdValue.Some? && t.exactUsdValue.value != 0.0 {
        trades[k].trx := u.(
                         firstSymbPriceUsd := Some(Abs(Div(t.exactUsdValue.value, t.execAmount.value))),
                         lastSymbPriceUsd := Some(Abs(Div(t.exactUsdValue.value,
                                                          Times(t.execAmount.value, t.execPrice.value)))));
        continue;
      }
      forConvToUsd := forConvToUsd + [trades[k]];
    }
    assert trades[..|trades|] == trades && facts[..|trades|] == facts;
  }

  function RemappedIfUsable(t: Trx): Trx { if IsRemapped(t) then RemappedTrade(t) else t }

  function RemappedTrades(ts: seq<Trx>): seq<Trx> { seq(|ts|, k requires 0 <= k < |ts| => RemappedIfUsable(ts[k])) }

  /** What is remapped can only be without an execution price when it is traded for fiat. */
  lemma RemappedHaveAmounts(t: Trx, m: Movement, o: Opts)
    requires "USD" in o.forex
    ensures IsRemapped(t) ==> HasAmounts(RemappedTrade(t), o)
    ensures IsRemappedMovement(m, o.forex) ==> HasAmounts(RemappedMovement(m, o.forex), o)
  {
    hide Times, Div, Abs;
  }

  // ----- Movements

  /** A deposit, a withdrawal or an extra payment; `amount` is `None` when it is not finite. */
  datatype Movement = Movement(
    id: int, currency: string, amount: Option<real>, mtsUpdated: Option<int>, fees: Option<real>,
    exactUsdValue: Option<real>, taxType: TaxType)

  predicate IsTaxablePayment(m: Movement) { m.taxType != Exchange }

  predicate IsRemappedMovement(m: Movement, forex: set<string>)
  {
    && m.currency != "" && (IsTaxablePayment(m) || m.currency !in forex)
    && m.amount.Some? && m.amount.value != 0.0 && m.mtsUpdated.Some?
  }

  function PairWithUsd(currency: string): string
  {
    "t" + currency + (if |currency| > 3 then ":" else "") + "USD"
  }

  /** A movement becomes a trade against USD whose execution price is its USD price, derived from the
      cached USD value, and zero as long as there is none. */
  function RemappedMovement(m: Movement, forex: set<string>): Trx
    requires IsRemappedMovement(m, forex)
  {
    var t := Trx(m.id, PairWithUsd(m.currency), m.currency, "USD", m.mtsUpdated.value, m.amount, Some(0.0),
                 None, Some(1.0), m.exactUsdValue, Some(m.fees.GetOr(0.0)), m.currency,
                 true, IsTaxablePayment(m), m.taxType);
    if IsTaxablePayment(m) && m.currency == "USD" then
      t.(firstSymbPriceUsd := Some(1.0), execPrice := Some(1.0))
    else if m.exactUsdValue.Some? && m.exactUsdValue.value != 0.0 then
      var price := Abs(Div(m.exactUsdValue.value, m.amount.value));
      t.(firstSymbPriceUsd := Some(price), execPrice := Some(price))
    else t
  }

  function RemappedMovements(ms: seq<Movement>, forex: set<string>): seq<Trx>
  {
    if ms == [] then []
    else
      var last := ms[|ms| - 1];
      RemappedMovements(ms[..|ms| - 1], forex)
      + (if IsRemappedMovement(last, forex) then [RemappedMovement(last, forex)] else [])
  }

  function NeedMarket(ts: seq<Trx>): seq<Trx>
  {
    if ts == [] then []
    else NeedMarket(ts[..|ts| - 1]) + (if LacksPrice(ts[|ts| - 1]) then [ts[|ts| - 1]] else [])
  }

  /** The loop over the movements builds the remapped trades and collects those without a price. */
  method RemapMovements(ms: seq<Movement>, forex: set<string>) returns (remapped: seq<Trx>, forConvToUsd: seq<Trx>)
    ensures remapped == RemappedMovements(ms, forex)
    ensures forConvToUsd == NeedMarket(remapped)
  {
    remapped, forConvToUsd := [], [];
    for k := 0 to |ms|
      invariant remapped == RemappedMovements(ms[..k], forex)
      invariant forConvToUsd == NeedMarket(remapped)
    {
      var m := ms[k];
      assert ms[..k + 1][..k] == ms[..k];
      if !IsRemappedMovement(m, forex) { continue; }
      var t := RemappedMovement(m, forex);
      assert (remapped + [t])[..|remapped|] == remapped;
      remapped := remapped + [t];
      if LacksPrice(t) { forConvToUsd := forConvToUsd + [t]; }
    }
    assert ms[..|ms|] == ms;
  }

  /** A movement is an amount of its currency against USD. Its price, which is its execution price too, is
      what makes the cached value of the amount, or one for a payment in USD; or it waits for the market. */
  lemma MovementIsPriced(m: Movement, forex: set<string>)
    requires IsRemappedMovement(m, forex)
    ensures var t := RemappedMovement(m, forex);
            && t.firstSymb == m.currency && t.lastSymb == "USD" && t.lastSymbPriceUsd == Some(1.0)
            && t.execAmount == m.amount && Some(t.mtsCreate) == m.mtsUpdated && t.trxFeeCcy == m.currency
            && t.isAdditionalTrxMovements && (t.isTaxablePayment <==> m.taxType != Exchange)
            && (LacksPrice(t) <==> !HasCachedValue(m.exactUsdValue) && (m.taxType == Exchange || m.currency != "USD"))
            && t.execPrice == (if LacksPrice(t) then Some(0.0) else t.firstSymbPriceUsd)
            && (!LacksPrice(t) ==>
                  if m.taxType != Exchange && m.currency == "USD" then t.firstSymbPriceUsd == Some(1.0)
                  else Times(t.firstSymbPriceUsd.value, Abs(m.amount.value)) == Abs(m.exactUsdValue.value))
  {
    if HasCachedValue(m.exactUsdValue) { SharesOfValue(m.exactUsdValue.value, m.amount.value, 1.0); }
    hide Times, Div, Abs, PairWithUsd;
  }

  // ----- The round trip through the cached USD value

  lemma DivUndoesTimes(a: real, c: real)
    requires a != 0.0
    ensures Div(Times(a, c), a) == c && Div(Times(c, a), a) == c && Times(Div(c, a), a) == c
  {
    var p := a * c;
    assert p / a == c;
  }

  lemma CommonFactor(a: real, e: real, c: real)
    requires a != 0.0 && e != 0.0
    ensures Times(a, e) != 0.0 && Div(Times(a, c), Times(a, e)) == Div(c, e)
  {
    var q := Div(c, e);
    DivUndoesTimes(e, c);
    assert Times(a, c) == Times(q, Times(a, e));
    Signs(a, e);
    DivUndoesTimes(Times(a, e), q);
  }

  lemma Signs(x: real, y: real)
    ensures x != 0.0 && y != 0.0 ==> Times(x, y) != 0.0
    ensures y > 0.0 ==> (Times(x, y) > 0.0 <==> x > 0.0)
    ensures y < 0.0 ==> (Times(x, y) > 0.0 <==> x < 0.0)
  {
  }

  /** Whichever side was quoted, it has the quote as its price, the price of the first currency is the price
      of the last one times the execution price, and pricing changes nothing the look-up counts quantities with. */
  lemma PricesAreConsistent(t: Trx, side: Side, price: real, forex: set<string>)
    requires Counts(t) && price != 0.0
    requires t.isAdditionalTrxMovements ==> t.lastSymb in forex && side == FirstSymb
    requires !t.isAdditionalTrxMovements ==> t.execPrice.value != 0.0
    ensures var u := Converted(t, side, price);
            && u.firstSymbPriceUsd.Some? && u.lastSymbPriceUsd.Some? && u.execPrice.Some?
            && (if side == FirstSymb then u.firstSymbPriceUsd else u.lastSymbPriceUsd) == Some(price)
            && u.execPrice == (if t.isAdditionalTrxMovements then Some(price) else t.execPrice)
            && u.firstSymbPriceUsd.value == Times(u.lastSymbPriceUsd.value, u.execPrice.value)
            && u.execPrice.value != 0.0 && u.lastSymbPriceUsd.value != 0.0
            && u.exactUsdValue == Some(Times(t.execAmount.value, u.firstSymbPriceUsd.value))
            && Reprices(t, u, forex) && (HasPair(t) ==> IsKnown(u))
  {
    var e := if t.isAdditionalTrxMovements then price else t.execPrice.value;
    DivUndoesTimes(e, price);
    Signs(Div(price, e), e);
    TimesDistributes(0.0, 0.0, e);
    hide Times, Div;
  }

  /** A fee counts as much in one currency of the pair as what it is worth in the other one, at the price of
      the currency it was paid in, and not at all in a third currency. */
  lemma FeeIsItsWorth(t: Trx, fee: real, o: Opts, isFlagSkipped: bool, third: string)
    requires t.firstSymb != t.lastSymb && third !in {t.firstSymb, t.lastSymb}
    requires t.execPrice.Some? && t.firstSymbPriceUsd.Some? && t.lastSymbPriceUsd.Some?
    requires t.firstSymbPriceUsd.value == Times(t.lastSymbPriceUsd.value, t.execPrice.value)
    ensures var inFirst := FeeUsd(t.(trxFee := Some(fee), trxFeeCcy := t.firstSymb), o, isFlagSkipped);
            var inLast := FeeUsd(t.(trxFee := Some(Times(fee, t.execPrice.value)), trxFeeCcy := t.lastSymb),
                                 o, isFlagSkipped);
            && inFirst == inLast
            && inFirst == (if && o.shouldFeesBeDeducted && !o.isNotGainOrLossRequired
                              && (isFlagSkipped || !t.isTaxablePayment)
                           then Times(fee, t.firstSymbPriceUsd.value) else 0.0)
            && FeeUsd(t.(trxFee := Some(fee), trxFeeCcy := third), o, isFlagSkipped) == 0.0
  {
    var last, exec := t.lastSymbPriceUsd.value, t.execPrice.value;
    assert Times(fee, Times(last, exec)) == Times(Times(fee, exec), last);
    hide Times;
  }

  /** Deriving the prices of a trade again from the cached value gives their absolute values; so it
      gives the same prices exactly when the market price and the execution price are positive. */
  lemma TradeRoundTrip(t: Trx, side: Side, price: real)
    requires IsRemapped(t) && !t.isAdditionalTrxMovements && t.lastSymb != "USD" && price != 0.0
    ensures var u := Converted(t, side, price);
            && IsRemapped(u)
            && RemappedTrade(u).firstSymbPriceUsd == Some(Abs(u.firstSymbPriceUsd.value))
            && RemappedTrade(u).lastSymbPriceUsd == Some(Abs(u.lastSymbPriceUsd.value))
            && ((RemappedTrade(u).firstSymbPriceUsd == u.firstSymbPriceUsd
                 && RemappedTrade(u).lastSymbPriceUsd == u.lastSymbPriceUsd)
                <==> price > 0.0 && t.execPrice.value > 0.0)
  {
    PricesAreConsistent(t, side, price, {});
    var u := Converted(t, side, price);
    var a, e, first, last := t.execAmount.value, t.execPrice.value, u.firstSymbPriceUsd.value, u.lastSymbPriceUsd.value;
    Signs(last, e);
    Signs(a, first);
    DivUndoesTimes(a, first);
    CommonFactor(a, e, first);
    DivUndoesTimes(e, last);
    hide Times, Div;
  }

  /** The same for a movement: its price comes back exactly when the market price is positive. */
  lemma MovementRoundTrip(m: Movement, price: real, forex: set<string>)
    requires IsRemappedMovement(m, forex) && "USD" in forex && price != 0.0
    requires LacksPrice(RemappedMovement(m, forex))
    ensures var u := Converted(RemappedMovement(m, forex), FirstSymb, price);
            var again := RemappedMovement(m.(exactUsdValue := u.exactUsdValue), forex);
            && again.firstSymbPriceUsd == again.execPrice == Some(Abs(price))
            && again.lastSymbPriceUsd == u.lastSymbPriceUsd == Some(1.0)
            && (again == u <==> price > 0.0)
  {
    PricesAreConsistent(RemappedMovement(m, forex), FirstSymb, price, forex);
    DivUndoesTimes(m.amount.value, price);
    Signs(m.amount.value, price);
    assert Div(price, price) == 1.0;
    hide Times, Div;
  }
}
