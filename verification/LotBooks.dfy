/** Double entry: whatever a look-up writes on the sale side it also writes on the buy side. */
module LotBooks {
  import opened Wrappers
  import opened Trxs
  import opened LotMatching
  import opened LotProgress

  /** A filled quantity, what it brought at the price of the sales and what it cost at the price of
      the buys. */
  datatype Books = Books(quantity: real, proceeds: real, cost: real)

  const NIL := Books(0.0, 0.0, 0.0)

  function Plus(a: Books, b: Books): Books
  {
    Books(a.quantity + b.quantity, a.proceeds + b.proceeds, a.cost + b.cost)
  }

  function Minus(a: Books, b: Books): Books
  {
    Books(a.quantity - b.quantity, a.proceeds - b.proceeds, a.cost - b.cost)
  }

  /** The sale side of one order; `None` stands for every asset. */
  function SaleBooks(d: Order, s: SaleSide, asset: Option<string>): Books
  {
    if asset == None || asset == Some(d.asset) then Books(s.filled, Times(s.filled, d.priceUsd), s.cost) else NIL
  }

  function BuyBooks(l: Lot, asset: Option<string>, o: Opts): Books
  {
    if asset == None || asset == Some(BuyAsset(l.trx)) then
      Books(l.buy.filled, l.buy.proceeds, Times(l.buy.filled, BuyPrice(l.trx, o).GetOr(0.0)))
    else NIL
  }

  function Sold(ls: seq<Lot>, asset: Option<string>, o: Opts): Books
  {
    if ls == [] then NIL
    else Plus(SaleBooks(OrderOf(ls[0].trx, o), ls[0].sale, asset), Sold(ls[1..], asset, o))
  }

  function Bought(ls: seq<Lot>, asset: Option<string>, o: Opts): Books
  {
    if ls == [] then NIL else Plus(BuyBooks(ls[0], asset, o), Bought(ls[1..], asset, o))
  }

  lemma BooksOfCons(l: Lot, ls: seq<Lot>, asset: Option<string>, o: Opts)
    ensures Sold([l] + ls, asset, o) == Plus(SaleBooks(OrderOf(l.trx, o), l.sale, asset), Sold(ls, asset, o))
    ensures Bought([l] + ls, asset, o) == Plus(BuyBooks(l, asset, o), Bought(ls, asset, o))
  {
    hide SaleBooks, BuyBooks, OrderOf;
    assert ([l] + ls)[1..] == ls;
  }

  lemma {:induction false} BoughtAppend(ls: seq<Lot>, l: Lot, asset: Option<string>, o: Opts)
    ensures Bought(ls + [l], asset, o) == Plus(Bought(ls, asset, o), BuyBooks(l, asset, o))
  {
    hide BuyBooks;
    if ls != [] {
      assert (ls + [l])[1..] == ls[1..] + [l];
      BoughtAppend(ls[1..], l, asset, o);
    }
  }

  lemma {:induction false} SoldBySameSales(a: seq<Lot>, b: seq<Lot>, asset: Option<string>, o: Opts)
    requires |a| == |b| && forall k :: 0 <= k < |a| ==> SameSale(a[k], b[k])
    ensures Sold(a, asset, o) == Sold(b, asset, o)
  {
    hide SaleBooks, OrderOf;
    if a != [] {
      assert SameSale(a[0], b[0]);
      SoldBySameSales(a[1..], b[1..], asset, o);
    }
  }

  lemma FillBalances(d: Order, s: SaleSide, l: Lot, o: Opts, asset: Option<string>)
    requires d.asset == BuyAsset(l.trx)
    ensures var r := Fill(d, s, l.trx, l.buy, o);
            Minus(SaleBooks(d, r.sale, asset), SaleBooks(d, s, asset))
            == Minus(BuyBooks(l.(buy := r.buy), asset, o), BuyBooks(l, asset, o))
  {
    hide Times, FeeUsd, BuyAmount, BuyPrice, BuyAsset, Div;
    var q := Fill(d, s, l.trx, l.buy, o).sale.filled - s.filled;
    TimesDistributes(s.filled, q, d.priceUsd);
    TimesDistributes(l.buy.filled, q, BuyPrice(l.trx, o).GetOr(0.0));
  }

  lemma StepBalances(d: Order, s: SaleSide, l: Lot, o: Opts, asset: Option<string>)
    ensures var r := BuyStep(d, s, l, o);
            Minus(SaleBooks(d, r.sale, asset), SaleBooks(d, s, asset))
            == Minus(BuyBooks(l.(buy := r.buy), asset, o), BuyBooks(l, asset, o))
  {
    hide Times, Fill, IsUsable, IsBuy, HasPair, BuyPrice, BuyAsset;
    if d.asset == BuyAsset(l.trx) { FillBalances(d, s, l.(buy := l.buy.(isBuyTrx := true)), o, asset); }
  }

  lemma {:induction false} ScanBalances(d: Order, s: SaleSide, older: seq<Lot>, o: Opts, asset: Option<string>)
    ensures var r := ScanBuys(d, s, older, o);
            Minus(SaleBooks(d, r.sale, asset), SaleBooks(d, s, asset))
            == Minus(Bought(r.older, asset, o), Bought(older, asset, o))
    decreases |older|
  {
    hide BuyBooks, SaleBooks, BuyStep, Bought, Sold, OrderOf, BuyPrice, BuyAsset;
    if older != [] && !s.isFilled {
      var k := if o.isBackIterativeBuyLookUp then |older| - 1 else 0;
      StepBalances(d, s, older[k], o, asset);
      var step := BuyStep(d, s, older[k], o);
      var met := older[k].(buy := step.buy);
      if o.isBackIterativeBuyLookUp {
        var rest := ScanBuys(d, step.sale, older[..k], o);
        ScanBalances(d, step.sale, older[..k], o, asset);
        assert older[..k] + [older[k]] == older;
        assert step.error.Some? ==> older[k := met] == older[..k] + [met];
        BoughtAppend(older[..k], older[k], asset, o);
        BoughtAppend(older[..k], met, asset, o);
        BoughtAppend(rest.older, met, asset, o);
      } else {
        var rest := ScanBuys(d, step.sale, older[1..], o);
        ScanBalances(d, step.sale, older[1..], o, asset);
        assert [older[0]] + older[1..] == older;
        assert step.error.Some? ==> older[k := met] == [met] + older[1..];
        BooksOfCons(older[0], older[1..], asset, o);
        BooksOfCons(met, older[1..], asset, o);
        BooksOfCons(met, rest.older, asset, o);
      }
    }
  }

  lemma TurnBalances(l: Lot, older: seq<Lot>, o: Opts, asset: Option<string>)
    ensures var r := SaleStep(l, older, o);
            var d := OrderOf(l.trx, o);
            && r.lot.trx == l.trx
            && Minus(SaleBooks(d, r.lot.sale, asset), SaleBooks(d, l.sale, asset))
               == Minus(Bought(r.older, asset, o), Bought(older, asset, o))
            && BuyBooks(r.lot, asset, o) == BuyBooks(l, asset, o)
            && Sold(r.older, asset, o) == Sold(older, asset, o)
  {
    hide Times, FeeUsd, IsUsable, IsSale, IsBuy, OrderOf, ScanBuys, Bought, Sold, SalePrice, HasPair,
         BuyAsset, BuyPrice, MtsAcquired;
    TurnKeepsSales(l, older, o);
    SoldBySameSales(older, SaleStep(l, older, o).older, asset, o);
    ScanBalances(OrderOf(l.trx, o), Opened(l, o), older, o, asset);
  }

  /** The books of a whole pass balance, per asset and over all assets, in every direction of the
      loops and even when the pass ends with an error: what the sales took is what the buys gave,
      valued at the price of the sales as at the price of the buys. */
  lemma {:induction false} PassBalances(lots: seq<Lot>, o: Opts, asset: Option<string>)
    ensures var r := SalesPass(lots, o).lots;
            Minus(Sold(r, asset, o), Sold(lots, asset, o)) == Minus(Bought(r, asset, o), Bought(lots, asset, o))
    decreases |lots|
  {
    hide SaleBooks, BuyBooks, OrderOf, SaleStep, Sold, Bought;
    if lots != [] {
      BooksOfCons(lots[0], lots[1..], asset, o);
      assert lots == [lots[0]] + lots[1..];
      if o.isBackIterativeSaleLookUp {
        var rest := SalesPass(lots[1..], o);
        PassBalances(lots[1..], o, asset);
        TurnBalances(lots[0], rest.lots, o, asset);
        var turn := SaleStep(lots[0], rest.lots, o);
        BooksOfCons(lots[0], rest.lots, asset, o);
        BooksOfCons(turn.lot, turn.older, asset, o);
      } else {
        TurnBalances(lots[0], lots[1..], o, asset);
        var turn := SaleStep(lots[0], lots[1..], o);
        PassBalances(turn.older, o, asset);
        BooksOfCons(turn.lot, turn.older, asset, o);
        BooksOfCons(turn.lot, SalesPass(turn.older, o).lots, asset, o);
      }
    }
  }
}
