/** Balances that are carried from frame to frame: a wallet that has no row in a frame keeps the balance
it had. */
module CarryForward {
  import opened Wrappers

  /** The balance is absent when it is not a finite number. */
  datatype Wallet = Wallet(kind: string, currency: string, balance: Option<real>)

  datatype Pair = Pair(kind: string, currency: string)

  function PairOf(w: Wallet): Pair { Pair(w.kind, w.currency) }

  predicate HasPair(wallets: seq<Wallet>, p: Pair) { exists k :: 0 <= k < |wallets| && PairOf(wallets[k]) == p }

  predicate IsDistinct(wallets: seq<Wallet>)
  {
    forall j, k :: 0 <= j < k < |wallets| ==> PairOf(wallets[j]) != PairOf(wallets[k])
  }

  function Missing(wallets: seq<Wallet>, data: seq<Wallet>): (r: seq<Wallet>)
    ensures forall w :: w in r <==> w in wallets && !HasPair(data, PairOf(w))
  {
    if wallets == [] then []
    else
      assert wallets == [wallets[0]] + wallets[1..];
      (if HasPair(data, PairOf(wallets[0])) then [] else [wallets[0]]) + Missing(wallets[1..], data)
  }

  /** What one frame makes of the wallets. */
  function Carried(wallets: seq<Wallet>, data: seq<Wallet>): seq<Wallet> { data + Missing(wallets, data) }

  /** The wallets after the first `n` frames, oldest first. */
  function After(first: seq<Wallet>, frames: seq<seq<Wallet>>, n: nat): seq<Wallet>
    requires n <= |frames|
  {
    if n == 0 then first else Carried(After(first, frames, n - 1), frames[n - 1])
  }

  /** The last row of a wallet in the first `n` frames, or else what it was before them. */
  function LastKnown(first: seq<Wallet>, frames: seq<seq<Wallet>>, n: nat, p: Pair): Option<Wallet>
    requires n <= |frames|
  {
    if n == 0 then Find(first, p)
    else if HasPair(frames[n - 1], p) then Find(frames[n - 1], p)
    else LastKnown(first, frames, n - 1, p)
  }

  function Find(wallets: seq<Wallet>, p: Pair): (r: Option<Wallet>)
    ensures r.Some? <==> HasPair(wallets, p)
    ensures r.Some? ==> r.value in wallets && PairOf(r.value) == p
  {
    if wallets == [] then None
    else if PairOf(wallets[0]) == p then Some(wallets[0])
    else
      assert wallets == [wallets[0]] + wallets[1..];
      Find(wallets[1..], p)
  }

  lemma FindDistinct(wallets: seq<Wallet>, p: Pair)
    requires IsDistinct(wallets)
    ensures forall w <- wallets :: PairOf(w) == p ==> Find(wallets, p) == Some(w)
  {
  }

  lemma {:induction false} MissingIsDistinct(wallets: seq<Wallet>, data: seq<Wallet>)
    requires IsDistinct(wallets)
    ensures IsDistinct(Missing(wallets, data))
  {
    if wallets != [] {
      MissingIsDistinct(wallets[1..], data);
      var rest := Missing(wallets[1..], data);
      forall k | 0 <= k < |rest| ensures PairOf(rest[k]) != PairOf(wallets[0]) {
        assert rest[k] in wallets[1..];
        var j :| 0 <= j < |wallets[1..]| && wallets[1..][j] == rest[k];
        assert wallets[j + 1] == rest[k];
      }
    }
  }

  /** There stays one entry for a wallet exactly as long as a frame has no more than one row for it. */
  lemma CarriedIsDistinct(wallets: seq<Wallet>, data: seq<Wallet>)
    requires IsDistinct(wallets)
    ensures IsDistinct(Carried(wallets, data)) <==> IsDistinct(data)
  {
    var missing := Missing(wallets, data);
    var all := data + missing;
    MissingIsDistinct(wallets, data);
    if IsDistinct(data) {
      forall j, k | 0 <= j < |data| && 0 <= k < |missing| ensures PairOf(data[j]) != PairOf(missing[k]) {
        assert missing[k] in missing;
      }
    } else {
      var j, k :| 0 <= j < k < |data| && PairOf(data[j]) == PairOf(data[k]);
      assert all[j] == data[j] && all[k] == data[k];
    }
  }

  lemma CarriedFinds(wallets: seq<Wallet>, data: seq<Wallet>, p: Pair)
    requires IsDistinct(wallets) && IsDistinct(data)
    ensures Find(Carried(wallets, data), p) == if HasPair(data, p) then Find(data, p) else Find(wallets, p)
  {
    hide Missing, IsDistinct;
    CarriedIsDistinct(wallets, data);
    var all := Carried(wallets, data);
    var found := if HasPair(data, p) then Find(data, p) else Find(wallets, p);
    FindDistinct(all, p);
    if found.Some? {
      assert found.value in all;
    } else {
      forall k | 0 <= k < |all| ensures PairOf(all[k]) != p {
        assert all[k] in all;
        HasItsPair(data, all[k]);
        HasItsPair(wallets, all[k]);
      }
    }
  }

  lemma HasItsPair(wallets: seq<Wallet>, w: Wallet)
    ensures w in wallets ==> HasPair(wallets, PairOf(w))
  {
  }

  predicate AreDistinct(frames: seq<seq<Wallet>>) { forall k :: 0 <= k < |frames| ==> IsDistinct(frames[k]) }

  /** After any frames the closure holds exactly one entry for every wallet seen so far, and that is its
      last row. */
  lemma {:induction false} HoldsLastKnown(first: seq<Wallet>, frames: seq<seq<Wallet>>, n: nat)
    requires n <= |frames| && IsDistinct(first) && AreDistinct(frames)
    ensures IsDistinct(After(first, frames, n))
    ensures forall p: Pair :: Find(After(first, frames, n), p) == LastKnown(first, frames, n, p)
    decreases n
  {
    hide Carried, IsDistinct, Find;
    if n > 0 {
      HoldsLastKnown(first, frames, n - 1);
      CarriedIsDistinct(After(first, frames, n - 1), frames[n - 1]);
      forall p: Pair ensures Find(After(first, frames, n), p) == LastKnown(first, frames, n, p) {
        CarriedFinds(After(first, frames, n - 1), frames[n - 1], p);
      }
    }
  }

  // ----- Sums per currency

  /** `_groupWalletsByCurrency` */
  function Grouped(wallets: seq<Wallet>): map<string, real>
  {
    if wallets == [] then map[]
    else
      var k := |wallets| - 1;
      var w := wallets[k];
      var accum := Grouped(wallets[..k]);
      if w.balance.None? then accum
      else accum[w.currency := (if w.currency in accum then accum[w.currency] else 0.0) + w.balance.value]
  }

  /** The wallets of a currency that have a balance. */
  ghost function Holders(wallets: seq<Wallet>, currency: string): set<Pair>
  {
    set w <- wallets | w.currency == currency && w.balance.Some? :: PairOf(w)
  }

  ghost function SumOver(pairs: set<Pair>, balance: Pair -> real): real
  {
    if pairs == {} then 0.0
    else
      var p :| p in pairs;
      balance(p) + SumOver(pairs - {p}, balance)
  }

  lemma {:induction false} SumWithout(pairs: set<Pair>, balance: Pair -> real, p: Pair)
    requires p in pairs
    ensures SumOver(pairs, balance) == balance(p) + SumOver(pairs - {p}, balance)
  {
    var q :| q in pairs && SumOver(pairs, balance) == balance(q) + SumOver(pairs - {q}, balance);
    if q != p {
      SumWithout(pairs - {q}, balance, p);
      SumWithout(pairs - {p}, balance, q);
      assert pairs - {q} - {p} == pairs - {p} - {q};
    }
  }

  function BalanceIn(wallets: seq<Wallet>): Pair -> real
  {
    p => var w := Find(wallets, p); if w.Some? && w.value.balance.Some? then w.value.balance.value else 0.0
  }

  lemma {:induction false} GroupedIsSum(wallets: seq<Wallet>, all: seq<Wallet>, currency: string)
    requires IsDistinct(all) && wallets <= all
    ensures currency in Grouped(wallets) <==> Holders(wallets, currency) != {}
    ensures currency in Grouped(wallets) ==>
              Grouped(wallets)[currency] == SumOver(Holders(wallets, currency), BalanceIn(all))
  {
    hide Find, IsDistinct, Holders, BalanceIn;
    if wallets == [] {
      NoHolders(currency);
    } else {
      var k := |wallets| - 1;
      var w, rest := wallets[k], wallets[..k];
      assert wallets == rest + [w] && w == all[k] && rest == all[..k];
      GroupedIsSum(rest, all, currency);
      HoldersWith(rest, w, currency);
      assert Holders(rest, currency) + {} == Holders(rest, currency);
      if w.currency == currency && w.balance.Some? {
        NotAmong(all, k, currency);
        BalanceOf(all, k);
        assert Holders(wallets, currency) - {PairOf(w)} == Holders(rest, currency);
        SumWithout(Holders(wallets, currency), BalanceIn(all), PairOf(w));
      }
    }
  }

  lemma NoHolders(currency: string)
    ensures Holders([], currency) == {}
  {
  }

  lemma HoldersWith(wallets: seq<Wallet>, w: Wallet, currency: string)
    ensures Holders(wallets + [w], currency)
            == Holders(wallets, currency) + (if w.currency == currency && w.balance.Some? then {PairOf(w)} else {})
  {
  }

  lemma BalanceOf(all: seq<Wallet>, k: nat)
    requires IsDistinct(all) && k < |all| && all[k].balance.Some?
    ensures BalanceIn(all)(PairOf(all[k])) == all[k].balance.value
  {
    FindDistinct(all, PairOf(all[k]));
  }

  lemma NotAmong(all: seq<Wallet>, k: nat, currency: string)
    requires IsDistinct(all) && k < |all|
    ensures PairOf(all[k]) !in Holders(all[..k], currency)
  {
    forall w | w in all[..k] ensures PairOf(w) != PairOf(all[k]) {
      var j :| 0 <= j < k && all[j] == w;
    }
  }

  // ----- What a frame's result is

  /** All wallets that have had a row. */
  ghost function Seen(first: seq<Wallet>, frames: seq<seq<Wallet>>, n: nat): set<Pair>
    requires n <= |frames|
  {
    if n == 0 then set w <- first :: PairOf(w)
    else Seen(first, frames, n - 1) + set w <- frames[n - 1] :: PairOf(w)
  }

  function LastBalance(first: seq<Wallet>, frames: seq<seq<Wallet>>, n: nat): Pair -> real
    requires n <= |frames|
  {
    p =>
      var w := LastKnown(first, frames, n, p);
      if w.Some? && w.value.balance.Some? then w.value.balance.value else 0.0
  }

  /** The wallets of a currency whose last row has a balance. */
  ghost function KnownHolders(first: seq<Wallet>, frames: seq<seq<Wallet>>, n: nat, currency: string): set<Pair>
    requires n <= |frames|
  {
    set p <- Seen(first, frames, n) |
      p.currency == currency
      && LastKnown(first, frames, n, p).Some? && LastKnown(first, frames, n, p).value.balance.Some?
  }

  lemma {:induction false} KnownAreSeen(first: seq<Wallet>, frames: seq<seq<Wallet>>, n: nat, p: Pair)
    requires n <= |frames|
    ensures LastKnown(first, frames, n, p).Some? <==> p in Seen(first, frames, n)
    decreases n
  {
    if n > 0 { KnownAreSeen(first, frames, n - 1, p); }
  }

  lemma {:induction false} SumSame(pairs: set<Pair>, f: Pair -> real, g: Pair -> real)
    requires forall p <- pairs :: f(p) == g(p)
    ensures SumOver(pairs, f) == SumOver(pairs, g)
  {
    if pairs != {} {
      var p :| p in pairs;
      SumWithout(pairs, f, p);
      SumWithout(pairs, g, p);
      SumSame(pairs - {p}, f, g);
    }
  }

  lemma HoldersAreFound(wallets: seq<Wallet>, currency: string, p: Pair)
    requires IsDistinct(wallets)
    ensures p in Holders(wallets, currency)
            <==> p.currency == currency && Find(wallets, p).Some? && Find(wallets, p).value.balance.Some?
  {
    hide Find;
    FindDistinct(wallets, p);
  }

  /** A frame's result is, per currency, the sum of the last known balances of all wallets seen so far. */
  lemma ResultIsSumOfLastKnown(first: seq<Wallet>, frames: seq<seq<Wallet>>, n: nat, currency: string)
    requires n <= |frames| && IsDistinct(first) && AreDistinct(frames)
    ensures var r := Grouped(After(first, frames, n));
            var holders := KnownHolders(first, frames, n, currency);
            && (currency in r <==> holders != {})
            && (currency in r ==> r[currency] == SumOver(holders, LastBalance(first, frames, n)))
  {
    hide After, Grouped, Holders, Find, LastKnown, SumOver, Seen, IsDistinct, AreDistinct;
    var wallets := After(first, frames, n);
    HoldsLastKnown(first, frames, n);
    GroupedIsSum(wallets, wallets, currency);
    forall p: Pair ensures p in Holders(wallets, currency) <==> p in KnownHolders(first, frames, n, currency) {
      HoldersAreFound(wallets, currency, p);
      KnownAreSeen(first, frames, n, p);
    }
    assert Holders(wallets, currency) == KnownHolders(first, frames, n, currency);
    SumSame(Holders(wallets, currency), BalanceIn(wallets), LastBalance(first, frames, n));
  }

  // ----- The closure

  class WalletsInTimeframe {
    var wallets: seq<Wallet>
    const first: seq<Wallet>
    /** The frames it has been called with. */
    ghost var frames: seq<seq<Wallet>>

    ghost predicate Valid()
      reads this
    {
      wallets == After(first, frames, |frames|)
    }

    constructor (firstWallets: seq<Wallet>)
      ensures Valid() && first == firstWallets && frames == []
    {
      wallets, first := firstWallets, firstWallets;
      frames := [];
    }

    method Calc(data: seq<Wallet>) returns (r: map<string, real>)
      requires Valid()
      modifies this
      ensures Valid() && frames == old(frames) + [data]
      ensures IsDistinct(first) && AreDistinct(frames) ==>
                forall currency: string ::
                  && (currency in r <==> KnownHolders(first, frames, |frames|, currency) != {})
                  && (currency in r ==>
                        r[currency] == SumOver(KnownHolders(first, frames, |frames|, currency),
                                               LastBalance(first, frames, |frames|)))
    {
      hide Grouped, IsDistinct, AreDistinct, KnownHolders, SumOver, LastBalance;
      var missingWallets := Missing(wallets, data);
      wallets := data + missingWallets;
      SameAfter(first, frames, [data], |frames|);
      frames := frames + [data];
      r := Grouped(wallets);
      if IsDistinct(first) && AreDistinct(frames) {
        forall currency: string
          ensures currency in r <==> KnownHolders(first, frames, |frames|, currency) != {}
          ensures currency in r ==>
                    r[currency] == SumOver(KnownHolders(first, frames, |frames|, currency),
                                           LastBalance(first, frames, |frames|))
        {
          ResultIsSumOfLastKnown(first, frames, |frames|, currency);
        }
      }
    }
  }

  lemma {:induction false} SameAfter(first: seq<Wallet>, frames: seq<seq<Wallet>>, more: seq<seq<Wallet>>, n: nat)
    requires n <= |frames|
    ensures After(first, frames + more, n) == After(first, frames, n)
  {
    hide Carried;
    if n > 0 { SameAfter(first, frames, more, n - 1); }
  }
}
