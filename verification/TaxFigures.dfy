/** What a row of the report says, in terms of the transaction it is about and of the buys that were
matched with it. */
module TaxFigures {
  import opened Wrappers
  import opened Trxs
  import opened LotMatching
  import opened LotProgress
  import opened LotGains
  import opened TaxRows

  /** What the matched quantities cost at the prices of their buys. */
  function CostOf(ms: seq<Match>): real
  {
    if ms == [] then 0.0
    else CostOf(ms[..|ms| - 1]) + Times(ms[|ms| - 1].quantity, ms[|ms| - 1].priceUsd.GetOr(0.0))
  }

  function FeesOf(ms: seq<Match>): real
  {
    if ms == [] then 0.0 else FeesOf(ms[..|ms| - 1]) + ms[|ms| - 1].feeUsd
  }

  /** The match is with `buy`, which bought the asset, at its price on the side that was bought. */
  predicate IsMatchWith(m: Match, asset: string, buy: Trx, forex: set<string>)
  {
    && Buys(buy, forex)
    && m.buyId == buy.id && m.mtsCreate == buy.mtsCreate
    && asset == (if Amount(buy) > 0.0 then buy.firstSymb else buy.lastSymb)
    && m.priceUsd == (if Amount(buy) > 0.0 then buy.firstSymbPriceUsd else buy.lastSymbPriceUsd)
  }

  /** The transaction buys something: what it is paid with is no fiat currency, or it is a buy outright and
      no payment in a fiat currency. */
  predicate Buys(t: Trx, forex: set<string>)
  {
    && t.symbol != "" && t.execPrice.Some? && t.execPrice.value != 0.0 && t.execAmount.Some?
    && (t.execAmount.value > 0.0 || (t.execAmount.value < 0.0 && t.lastSymb !in forex))
    && !(t.isTaxablePayment && t.firstSymb in forex)
  }

  /** The earliest of the matched moments, if there is one. */
  predicate IsEarliest(mts: Option<int>, ms: seq<Match>)
  {
    && (ms == [] ==> mts == None)
    && (ms != [] ==>
          && mts.Some? && (exists k :: 0 <= k < |ms| && ms[k].mtsCreate == mts.value)
          && forall k :: 0 <= k < |ms| ==> mts.value <= ms[k].mtsCreate)
  }

  /** The transaction sells something: what it gives for what it buys is no fiat currency, or it is a
      sale outright. */
  predicate Sells(t: Trx, o: Opts)
  {
    && t.symbol != "" && t.execPrice.Some? && t.execPrice.value != 0.0 && t.execAmount.Some?
    && (t.execAmount.value < 0.0 || (t.execAmount.value > 0.0 && t.lastSymb !in o.forex))
  }

  /** The row of a sale. */
  predicate TellsSale(row: TaxRow, t: Trx, ms: seq<Match>, fee: real)
  {
    && t.execAmount.Some? && t.execPrice.Some? && row.amount.Some?
    && (t.execAmount.value < 0.0 ==>
          && row.asset == t.firstSymb && row.amount.value == -t.execAmount.value
          && t.firstSymbPriceUsd.Some?
          && row.proceeds == Some(Times(row.amount.value, t.firstSymbPriceUsd.value)))
    && (t.execAmount.value > 0.0 ==>
          && row.asset == t.lastSymb && row.amount.value == Abs(Times(t.execAmount.value, t.execPrice.value))
          && t.lastSymbPriceUsd.Some?
          && row.proceeds == Some(Times(row.amount.value, t.lastSymbPriceUsd.value)))
    && row.proceeds.Some? && row.cost == Some(CostOf(ms))
    && row.gainOrLoss == Some(row.proceeds.value - CostOf(ms) + (fee + FeesOf(ms)))
    && row.mtsSold == Some(t.mtsCreate) && IsEarliest(row.mtsAcquired, ms)
    && row.taxType == t.taxType
  }

  /** The row of a payment, which cost nothing. */
  predicate TellsPayment(row: TaxRow, t: Trx, fee: real)
  {
    && row.asset == t.firstSymb && row.amount == t.execAmount
    && row.mtsAcquired == Some(t.mtsCreate) && row.mtsSold == None && row.cost == None
    && (t.execAmount.Some? && t.firstSymbPriceUsd.Some? ==>
          row.proceeds == Some(Times(t.execAmount.value, t.firstSymbPriceUsd.value) + fee))
    && (row.proceeds.Some? ==> t.execAmount.Some? && t.firstSymbPriceUsd.Some?)
    && row.gainOrLoss == row.proceeds && row.taxType == t.taxType
  }

  predicate Tells(row: TaxRow, l: Lot, o: Opts)
  {
    if l.trx.isTaxablePayment then TellsPayment(row, l.trx, FeeUsd(l.trx, o, true))
    else TellsSale(row, l.trx, l.sale.matches, FeeUsd(l.trx, o, false))
  }

  /** The transaction has a row. */
  predicate IsReported(l: Lot, o: Opts)
  {
    !l.sale.noPriceUsd && (l.trx.isTaxablePayment || (Sells(l.trx, o) && !l.trx.isAdditionalTrxMovements))
  }

  /** A transaction is marked as being without a price when it sells something that has none, or has met a
      buy that has none. */
  predicate IsMarkedRight(l: Lot, o: Opts)
  {
    l.sale.noPriceUsd
    <==> || (exists k :: 0 <= k < |l.sale.matches| && l.sale.matches[k].priceUsd == None)
         || (&& Sells(l.trx, o)
             && (if l.trx.execAmount.value < 0.0 then l.trx.firstSymbPriceUsd else l.trx.lastSymbPriceUsd) == None)
  }

  predicate IsMatched(m: Match, asset: string, older: seq<Lot>, forex: set<string>)
  {
    exists j :: 0 <= j < |older| && IsMatchWith(m, asset, older[j].trx, forex)
  }

  /** The matches are with transactions among these. */
  predicate AreMatchedWith(ms: seq<Match>, asset: string, older: seq<Lot>, forex: set<string>)
  {
    forall m :: 0 <= m < |ms| ==> IsMatched(ms[m], asset, older, forex)
  }

  /** All matches of the lot at `i` are with older transactions. */
  predicate MatchesOlder(lots: seq<Lot>, i: nat, forex: set<string>)
    requires i < |lots|
  {
    var t := lots[i].trx;
    AreMatchedWith(lots[i].sale.matches, if Amount(t) < 0.0 then t.firstSymb else t.lastSymb, lots[i + 1..], forex)
  }

  /** The rows are those of the lots at `places`, in order, and these are all that have one. */
  predicate TellAll(rows: seq<TaxRow>, lots: seq<Lot>, o: Opts, places: seq<nat>)
  {
    && |rows| == |places|
    && (forall m, n :: 0 <= m < n < |places| ==> places[m] < places[n])
    && (forall k :: 0 <= k < |lots| ==> (IsReported(lots[k], o) <==> k in places))
    && (forall n :: 0 <= n < |rows| ==> places[n] < |lots| && Tells(rows[n], lots[places[n]], o))
  }

  /** The options of the second look-up. */
  predicate IsReportLookUp(o: Opts) { !o.isNotGainOrLossRequired && !o.isBuyTradesWithUnrealizedProfitRequired }

  // ----- The inner loop

  predicate IsByTime(ms: seq<Match>, isOldestFirst: bool)
  {
    forall j, k :: 0 <= j < k < |ms| ==>
      if isOldestFirst then ms[j].mtsCreate <= ms[k].mtsCreate else ms[k].mtsCreate <= ms[j].mtsCreate
  }

  predicate IsNewestFirst(ls: seq<Lot>)
  {
    forall j, k :: 0 <= j < k < |ls| ==> ls[k].trx.mtsCreate <= ls[j].trx.mtsCreate
  }

  /** What has been matched was visited before the rest. */
  predicate IsBehind(ms: seq<Match>, rest: seq<Lot>, isOldestFirst: bool)
  {
    forall j, k :: 0 <= j < |ms| && 0 <= k < |rest| ==>
      if isOldestFirst then ms[j].mtsCreate <= rest[k].trx.mtsCreate else rest[k].trx.mtsCreate <= ms[j].mtsCreate
  }

  /** The sums and the mark of a sale are what its matches make them. */
  predicate AddsUp(s: SaleSide, fee: real)
  {
    && s.cost == CostOf(s.matches) && s.fees == fee + FeesOf(s.matches)
    && (s.noPriceUsd <==> exists k :: 0 <= k < |s.matches| && s.matches[k].priceUsd == None)
  }

  /** One match more, and the sums with it. */
  predicate Records(s: SaleSide, r: SaleSide, m: Match)
  {
    && r.matches == s.matches + [m]
    && r.cost == s.cost + Times(m.quantity, m.priceUsd.GetOr(0.0)) && r.fees == s.fees + m.feeUsd
    && r.noPriceUsd == (s.noPriceUsd || m.priceUsd == None)
  }

  lemma FillRecords(d: Order, s: SaleSide, t: Trx, b: BuySide, o: Opts) returns (m: Match)
    requires IsReportLookUp(o) && IsUsable(t, o) && IsBuy(t, o) && BuyPrice(t, o).Some? && d.asset == BuyAsset(t)
    ensures IsMatchWith(m, d.asset, t, o.forex) && Records(s, Fill(d, s, t, b, o).sale, m)
  {
    hide Times, Div, FeeUsd, BuyAmount, Closed;
    var r := Fill(d, s, t, b, o).sale;
    m := r.matches[|s.matches|];
  }

  lemma StepRecords(d: Order, s: SaleSide, l: Lot, o: Opts) returns (m: Match)
    requires IsReportLookUp(o)
    ensures var r := BuyStep(d, s, l, o).sale;
            r == s || (IsMatchWith(m, d.asset, l.trx, o.forex) && Records(s, r, m))
  {
    TimesDistributes(0.0, 0.0, 0.0);
    hide Times, Fill, HasPair;
    m := Match(l.trx.id, l.trx.mtsCreate, 0.0, None, 0.0);
    if IsUsable(l.trx, o) && IsBuy(l.trx, o) && BuyPrice(l.trx, o).Some? && d.asset == BuyAsset(l.trx) {
      m := FillRecords(d, s, l.trx, l.buy.(isBuyTrx := true), o);
    }
  }

  lemma StepAddsUp(d: Order, s: SaleSide, l: Lot, o: Opts, fee: real)
    requires IsReportLookUp(o) && AddsUp(s, fee)
    ensures AddsUp(BuyStep(d, s, l, o).sale, fee)
  {
    var m := StepRecords(d, s, l, o);
    hide BuyStep, Times, IsMatchWith;
    if BuyStep(d, s, l, o).sale != s { MoreAddsUp(s, BuyStep(d, s, l, o).sale, m, fee); }
  }

  lemma MoreAddsUp(s: SaleSide, r: SaleSide, m: Match, fee: real)
    requires AddsUp(s, fee) && Records(s, r, m)
    ensures AddsUp(r, fee)
  {
    hide Times;
    var n := |s.matches|;
    assert r.matches[..n] == s.matches && r.matches[n] == m;
    assert forall k :: 0 <= k < n ==> r.matches[k] == s.matches[k];
  }

  lemma {:induction false} ScanAddsUp(d: Order, s: SaleSide, older: seq<Lot>, o: Opts, fee: real)
    requires IsReportLookUp(o) && AddsUp(s, fee)
    ensures AddsUp(ScanBuys(d, s, older, o).sale, fee)
    decreases |older|
  {
    hide BuyStep, AddsUp;
    if older != [] && !s.isFilled {
      var k := if o.isBackIterativeBuyLookUp then |older| - 1 else 0;
      StepAddsUp(d, s, older[k], o, fee);
      var step := BuyStep(d, s, older[k], o);
      if step.error.None? {
        ScanAddsUp(d, step.sale, if o.isBackIterativeBuyLookUp then older[..k] else older[1..], o, fee);
      }
    }
  }

  lemma {:induction false} ScanMatchesOlder(d: Order, s: SaleSide, older: seq<Lot>, o: Opts, all: seq<Lot>)
    requires IsReportLookUp(o) && AreMatchedWith(s.matches, d.asset, all, o.forex)
    requires forall k :: 0 <= k < |older| ==> older[k] in all
    ensures AreMatchedWith(ScanBuys(d, s, older, o).sale.matches, d.asset, all, o.forex)
    decreases |older|
  {
    hide BuyStep, IsMatchWith, AreMatchedWith;
    if older != [] && !s.isFilled {
      var k := if o.isBackIterativeBuyLookUp then |older| - 1 else 0;
      StepMatchesOlder(d, s, older[k], o, all);
      var step := BuyStep(d, s, older[k], o);
      if step.error.None? {
        ScanMatchesOlder(d, step.sale, if o.isBackIterativeBuyLookUp then older[..k] else older[1..], o, all);
      }
    }
  }

  lemma StepMatchesOlder(d: Order, s: SaleSide, l: Lot, o: Opts, all: seq<Lot>)
    requires IsReportLookUp(o) && AreMatchedWith(s.matches, d.asset, all, o.forex) && l in all
    ensures AreMatchedWith(BuyStep(d, s, l, o).sale.matches, d.asset, all, o.forex)
  {
    var m := StepRecords(d, s, l, o);
    hide BuyStep, IsMatchWith;
    var j :| 0 <= j < |all| && all[j] == l;
    var ms := BuyStep(d, s, l, o).sale.matches;
    forall n | 0 <= n < |ms| ensures IsMatched(ms[n], d.asset, all, o.forex) {
      if n == |s.matches| { assert ms[n] == m && IsMatchWith(ms[n], d.asset, all[j].trx, o.forex); }
    }
  }

  lemma {:induction false} ScanGoesByTime(d: Order, s: SaleSide, older: seq<Lot>, o: Opts)
    requires IsReportLookUp(o) && IsNewestFirst(older)
    requires IsByTime(s.matches, o.isBackIterativeBuyLookUp) && IsBehind(s.matches, older, o.isBackIterativeBuyLookUp)
    ensures IsByTime(ScanBuys(d, s, older, o).sale.matches, o.isBackIterativeBuyLookUp)
    decreases |older|
  {
    hide BuyStep, IsByTime, IsBehind, IsNewestFirst;
    if older != [] && !s.isFilled {
      var k := if o.isBackIterativeBuyLookUp then |older| - 1 else 0;
      var step := BuyStep(d, s, older[k], o);
      StepGoesByTime(d, s, older, o);
      if step.error.None? {
        ScanGoesByTime(d, step.sale, if o.isBackIterativeBuyLookUp then older[..k] else older[1..], o);
      }
    }
  }

  lemma StepGoesByTime(d: Order, s: SaleSide, older: seq<Lot>, o: Opts)
    requires IsReportLookUp(o) && older != [] && IsNewestFirst(older)
    requires IsByTime(s.matches, o.isBackIterativeBuyLookUp) && IsBehind(s.matches, older, o.isBackIterativeBuyLookUp)
    ensures var back := o.isBackIterativeBuyLookUp;
            var k := if back then |older| - 1 else 0;
            var ms, rest := BuyStep(d, s, older[k], o).sale.matches, if back then older[..k] else older[1..];
            IsByTime(ms, back) && IsBehind(ms, rest, back) && IsNewestFirst(rest)
  {
    var m := StepRecords(d, s, older[if o.isBackIterativeBuyLookUp then |older| - 1 else 0], o);
    hide BuyStep, HasPair, Times;
  }

  /** Matches that were collected in one direction of time have the earliest at one of their ends. */
  lemma EndIsEarliest(ms: seq<Match>, isOldestFirst: bool)
    requires IsByTime(ms, isOldestFirst)
    ensures IsEarliest(MtsAcquired(ms), ms)
  {
  }

  // ----- The outer loop

  /** What a look-up leaves on the sale side of a transaction that is not kept from the period before. */
  predicate SaleTold(l: Lot, o: Opts)
  {
    && IsMarkedRight(l, o)
    && (l.sale.isSaleTrx <==> Sells(l.trx, o))
    && (Sells(l.trx, o) && !l.sale.noPriceUsd ==>
          && l.sale.outcome.Some?
          && TellsSale(SoldRow(l), l.trx, l.sale.matches, FeeUsd(l.trx, o, false)))
  }

  function SoldRow(l: Lot): TaxRow
    requires l.sale.outcome.Some?
  {
    var s := l.sale.outcome.value;
    TaxRow(s.asset, Some(s.amount), s.mtsAcquired, Some(s.mtsSold), Some(s.proceeds), Some(l.sale.cost),
           Some(s.gainOrLoss), l.trx.taxType)
  }

  lemma ClosedTells(l: Lot, s: SaleSide, o: Opts)
    requires IsReportLookUp(o) && IsPricedSale(l.trx, o) && l.sale == SaleClosed(OrderOf(l.trx, o), s)
    requires AddsUp(s, FeeUsd(l.trx, o, false)) && s.isSaleTrx && IsByTime(s.matches, o.isBackIterativeBuyLookUp)
    ensures SaleTold(l, o)
  {
    EndIsEarliest(s.matches, o.isBackIterativeBuyLookUp);
    hide Times, FeeUsd, IsEarliest, MtsAcquired, CostOf, FeesOf, HasPair;
  }

  lemma PricedTurnTells(l: Lot, older: seq<Lot>, o: Opts)
    requires IsReportLookUp(o) && IsUntouched(l) && IsPricedSale(l.trx, o) && IsNewestFirst(older)
    requires SaleStep(l, older, o).error.None?
    ensures var r := SaleStep(l, older, o).lot;
            SaleTold(r, o) && AreMatchedWith(r.sale.matches, SaleAsset(l.trx), older, o.forex)
  {
    var d, s := OrderOf(l.trx, o), Opened(l, o);
    ScanAddsUp(d, s, older, o, FeeUsd(l.trx, o, false));
    ScanMatchesOlder(d, s, older, o, older);
    ScanGoesByTime(d, s, older, o);
    ScanKeepsFlag(d, s, older, o);
    hide IsMatchWith, Times, FeeUsd, SaleAmount, SaleAsset, SaleTold, ScanBuys, AddsUp, IsByTime;
    ClosedTells(SaleStep(l, older, o).lot, ScanBuys(d, s, older, o).sale, o);
  }

  lemma {:induction false} ScanKeepsFlag(d: Order, s: SaleSide, older: seq<Lot>, o: Opts)
    ensures ScanBuys(d, s, older, o).sale.isSaleTrx == s.isSaleTrx
    decreases |older|
  {
    hide Times, Div, FeeUsd, IsUsable, HasPair, IsBuy, BuyAmount, BuyAsset, BuyPrice, Closed;
    if older != [] && !s.isFilled {
      var k := if o.isBackIterativeBuyLookUp then |older| - 1 else 0;
      var step := BuyStep(d, s, older[k], o);
      if step.error.None? {
        ScanKeepsFlag(d, step.sale, if o.isBackIterativeBuyLookUp then older[..k] else older[1..], o);
      }
    }
  }

  lemma TurnTells(l: Lot, older: seq<Lot>, o: Opts)
    requires IsReportLookUp(o) && IsToBeSold(l) && IsNewestFirst(older) && SaleStep(l, older, o).error.None?
    ensures var r := SaleStep(l, older, o);
            && r.lot.trx == l.trx && r.lot.isFromPrevPeriod == l.isFromPrevPeriod
            && (!l.isFromPrevPeriod ==>
                  SaleTold(r.lot, o) && AreMatchedWith(r.lot.sale.matches, SaleAsset(l.trx), older, o.forex))
            && forall k :: 0 <= k < |older| ==> SameSale(older[k], r.older[k])
  {
    TurnKeepsSales(l, older, o);
    if !l.isFromPrevPeriod && IsPricedSale(l.trx, o) {
      PricedTurnTells(l, older, o);
    } else {
      hide Times, FeeUsd, ScanBuys, TellsSale, IsMatchWith;
    }
  }

  lemma TellsBySale(a: Lot, b: Lot, o: Opts)
    requires SameSale(a, b)
    ensures SaleTold(a, o) ==> SaleTold(b, o)
  {
    hide TellsSale, Sells, FeeUsd;
  }

  lemma MatchedWithSame(ms: seq<Match>, asset: string, a: seq<Lot>, b: seq<Lot>, forex: set<string>)
    requires |a| == |b| && (forall k :: 0 <= k < |a| ==> a[k].trx == b[k].trx) && AreMatchedWith(ms, asset, a, forex)
    ensures AreMatchedWith(ms, asset, b, forex)
  {
    hide IsMatchWith;
    forall m | 0 <= m < |ms| ensures IsMatched(ms[m], asset, b, forex) {
      var j :| 0 <= j < |a| && IsMatchWith(ms[m], asset, a[j].trx, forex);
      assert IsMatchWith(ms[m], asset, b[j].trx, forex);
    }
  }

  /** The lot at `i` is told, unless it is kept, and its matches are with older ones. */
  predicate IsToldAt(lots: seq<Lot>, o: Opts, i: nat)
    requires i < |lots|
  {
    !lots[i].isFromPrevPeriod ==> SaleTold(lots[i], o) && MatchesOlder(lots, i, o.forex)
  }

  predicate SameTrxs(a: seq<Lot>, b: seq<Lot>)
  {
    |a| == |b|
    && forall k :: 0 <= k < |a| ==> a[k].trx == b[k].trx && a[k].isFromPrevPeriod == b[k].isFromPrevPeriod
  }

  lemma ToldBehind(l: Lot, a: seq<Lot>, b: seq<Lot>, o: Opts, i: nat)
    requires SameTrxs(a, b) && i < |a| && SameSale(a[i], b[i]) && IsToldAt(a, o, i)
    ensures IsToldAt([l] + b, o, i + 1)
  {
    TellsBySale(a[i], b[i], o);
    hide SaleTold, AreMatchedWith;
    assert ([l] + b)[i + 1] == b[i] && ([l] + b)[i + 2..] == b[i + 1..];
    if !a[i].isFromPrevPeriod {
      MatchedWithSame(a[i].sale.matches, SaleAsset(a[i].trx), a[i + 1..], b[i + 1..], o.forex);
    }
  }

  lemma ToldFirst(l: Lot, older: seq<Lot>, rest: seq<Lot>, o: Opts)
    requires SameTrxs(older, rest)
    requires !l.isFromPrevPeriod ==> SaleTold(l, o) && AreMatchedWith(l.sale.matches, SaleAsset(l.trx), older, o.forex)
    ensures IsToldAt([l] + rest, o, 0)
  {
    hide SaleTold, AreMatchedWith;
    assert ([l] + rest)[1..] == rest;
    if !l.isFromPrevPeriod { MatchedWithSame(l.sale.matches, SaleAsset(l.trx), older, rest, o.forex); }
  }

  lemma AllTold(l: Lot, older: seq<Lot>, told: seq<Lot>, rest: seq<Lot>, o: Opts)
    requires SameTrxs(older, rest) && SameTrxs(told, rest)
    requires !l.isFromPrevPeriod ==> SaleTold(l, o) && AreMatchedWith(l.sale.matches, SaleAsset(l.trx), older, o.forex)
    requires forall i :: 0 <= i < |told| ==> SameSale(told[i], rest[i]) && IsToldAt(told, o, i)
    ensures forall i :: 0 <= i < |rest| + 1 ==> IsToldAt([l] + rest, o, i)
  {
    hide SaleTold, AreMatchedWith, IsToldAt, SaleAsset;
    ToldFirst(l, older, rest, o);
    forall i | 0 < i < |rest| + 1 ensures IsToldAt([l] + rest, o, i) { ToldBehind(l, told, rest, o, i - 1); }
  }

  /** After a pass in any direction, whose transactions are newest first, the sale side of every transaction
      that is not kept says what it has to, and all its matches are with older transactions. */
  lemma {:induction false} PassTells(lots: seq<Lot>, o: Opts)
    requires IsReportLookUp(o) && IsNewestFirst(lots) && SalesPass(lots, o).error.None?
    requires forall k :: 0 <= k < |lots| ==> IsToBeSold(lots[k])
    ensures SameTrxs(lots, SalesPass(lots, o).lots)
    ensures forall i :: 0 <= i < |lots| ==> IsToldAt(SalesPass(lots, o).lots, o, i)
    decreases |lots|
  {
    hide SaleStep, SaleTold, IsToBeSold, IsToldAt, AreMatchedWith, SaleAsset;
    if lots != [] {
      if o.isBackIterativeSaleLookUp {
        var rest := SalesPass(lots[1..], o).lots;
        PassTells(lots[1..], o);
        TurnTells(lots[0], rest, o);
        var turn := SaleStep(lots[0], rest, o);
        AllTold(turn.lot, rest, rest, turn.older, o);
      } else {
        var turn := SaleStep(lots[0], lots[1..], o);
        TurnTells(lots[0], lots[1..], o);
        AreStillToBeSold(lots[1..], turn.older);
        PassTells(turn.older, o);
        var rest := SalesPass(turn.older, o).lots;
        AllTold(turn.lot, lots[1..], rest, rest, o);
      }
    }
  }

  lemma AreStillToBeSold(a: seq<Lot>, b: seq<Lot>)
    requires |a| == |b| && forall k :: 0 <= k < |a| ==> IsToBeSold(a[k]) && SameSale(a[k], b[k])
    ensures forall k :: 0 <= k < |b| ==> IsToBeSold(b[k])
  {
    hide IsToBeSold;
    forall k | 0 <= k < |b| ensures IsToBeSold(b[k]) { ToBeSoldBySale(a[k], b[k]); }
  }

  // ----- The rows

  lemma RowTells(l: Lot, o: Opts)
    requires IsReportLookUp(o) && !l.isFromPrevPeriod && SaleTold(l, o)
    ensures HasRow(l, o) <==> IsReported(l, o)
    ensures IsReported(l, o) ==> Tells(RowOf(l, o), l, o)
  {
    hide Times, FeeUsd, TellsSale, IsMarkedRight, Sells;
  }

  lemma OneMoreTold(rows: seq<TaxRow>, ls: seq<Lot>, o: Opts, places: seq<nat>, l: Lot, row: TaxRow)
    requires TellAll(rows, ls, o, places)
    ensures !IsReported(l, o) ==> TellAll(rows, ls + [l], o, places)
    ensures IsReported(l, o) && Tells(row, l, o) ==> TellAll(rows + [row], ls + [l], o, places + [|ls|])
  {
    hide IsReported, Tells;
    assert forall n :: 0 <= n < |places| ==> places[n] in places;
    assert forall k :: k in places ==> k < |ls|;
    assert forall k :: k in places + [|ls|] <==> k in places || k == |ls|;
  }

  /** The rows of lots that are told tell them, in their order. */
  lemma {:induction false} RowsTell(ls: seq<Lot>, o: Opts) returns (places: seq<nat>)
    requires IsReportLookUp(o) && forall k :: 0 <= k < |ls| ==> !ls[k].isFromPrevPeriod && SaleTold(ls[k], o)
    ensures TellAll(Rows(ls, o), ls, o, places)
    decreases |ls|
  {
    hide SaleTold, HasRow, RowOf, IsReported, Tells, TellAll;
    if ls == [] {
      NothingTold(o);
      places := [];
    } else {
      var k := |ls| - 1;
      places := RowsTell(ls[..k], o);
      RowTells(ls[k], o);
      OneMoreTold(Rows(ls[..k], o), ls[..k], o, places, ls[k], RowOf(ls[k], o));
      assert ls[..k] + [ls[k]] == ls;
      if HasRow(ls[k], o) { places := places + [k]; } else { assert Rows(ls[..k], o) + [] == Rows(ls[..k], o); }
    }
  }

  lemma NothingTold(o: Opts)
    ensures TellAll([], [], o, [])
  {
  }
}
