/** What the balance of a row adds up: over the sub-accounts of the user, what each had last. */
module LedgerSums {
  import opened Wrappers
  import opened LedgerRows

  /** The places of the sub-accounts of a user among the sessions. */
  function SubAccounts(auth: seq<Session>, userId: int): set<nat>
  {
    set k: nat | k < |auth| && auth[k].isSubAccount && auth[k].id == Some(userId) && auth[k].subUserId.Some?
  }

  predicate IsLatest(table: seq<Row>, item: Row, sub: Option<int>, r: Row)
  {
    && r in table && r.subUserId == sub && Precedes(r, item)
    && forall q <- table :: q.subUserId == sub && Precedes(q, item) ==> NotAfter(q, r)
  }

  /** `r` is of the item's user, wallet and currency and comes neither later nor after it. */
  predicate Precedes(r: Row, item: Row)
  {
    && r.wallet == item.wallet && r.currency == item.currency && r.userId == item.userId
    && r.mts <= item.mts && r.id <= item.id
  }

  /** `latest` holds the latest row of each sub-account that has one up to the item. */
  predicate AreLatest(auth: seq<Session>, table: seq<Row>, item: Row, latest: map<nat, Row>)
  {
    && (forall k <- latest ::
          k in SubAccounts(auth, item.userId) && IsLatest(table, item, auth[k].subUserId, latest[k]))
    && (forall k <- SubAccounts(auth, item.userId) :: k !in latest ==>
          forall q <- table :: !(q.subUserId == auth[k].subUserId && Precedes(q, item)))
  }

  function Balances(latest: map<nat, Row>): map<nat, real>
  {
    map k | k in latest && latest[k].nativeBalance.Some? :: latest[k].nativeBalance.value
  }

  function BalancesUsd(latest: map<nat, Row>): map<nat, real>
  {
    map k | k in latest && latest[k].nativeBalanceUsd.Some? :: latest[k].nativeBalanceUsd.value
  }

  ghost function Total(values: map<nat, real>): real
  {
    if values == map[] then 0.0 else var k :| k in values; values[k] + Total(values - {k})
  }

  /** Each column is the sum of what there is of it, and the row's own value where there is nothing. */
  ghost predicate AddsUp(b: Balance, item: Row, latest: map<nat, Row>)
  {
    && b.balance == (if Balances(latest) == map[] then item.nativeBalance else Some(Total(Balances(latest))))
    && b.balanceUsd
       == (if BalancesUsd(latest) == map[] then item.nativeBalanceUsd else Some(Total(BalancesUsd(latest))))
  }

  /** The balance adds up the latest rows of the sub-accounts, and is marked when there are any. */
  ghost predicate IsSumOfLatest(b: Balance, auth: seq<Session>, table: seq<Row>, item: Row)
  {
    && (b.isRecalced <==> SubAccounts(auth, item.userId) != {})
    && exists latest :: AreLatest(auth, table, item, latest) && AddsUp(b, item, latest)
  }

  lemma {:induction false} TotalWithout(values: map<nat, real>, k: nat)
    requires k in values
    ensures Total(values) == values[k] + Total(values - {k})
  {
    var j :| j in values && Total(values) == values[j] + Total(values - {j});
    if j != k {
      TotalWithout(values - {j}, k);
      TotalWithout(values - {k}, j);
      assert values - {j} - {k} == values - {k} - {j};
    }
  }

  lemma TotalWith(values: map<nat, real>, k: nat, x: real)
    requires k !in values
    ensures Total(values[k := x]) == Total(values) + x
  {
    TotalWithout(values[k := x], k);
    assert values[k := x] - {k} == values;
  }

  // ----- The sum over the sessions is the sum over a set

  /** The rows a look-up finds for the sub-accounts among the first `n` sessions. */
  function Found(auth: seq<Session>, userId: int, find: int -> Option<Row>, n: nat): (latest: map<nat, Row>)
    requires n <= |auth|
  {
    map k: nat | k < n && k in SubAccounts(auth, userId) && find(auth[k].subUserId.value).Some?
               :: find(auth[k].subUserId.value).value
  }

  function FoundSeq(subs: seq<int>, find: int -> Option<Row>): (r: seq<Option<Row>>)
    ensures |r| == |subs| && forall k :: 0 <= k < |subs| ==> r[k] == find(subs[k])
  {
    seq(|subs|, k requires 0 <= k < |subs| => find(subs[k]))
  }

  /** The sum of values, if there are any. */
  ghost function SumOfSet(values: map<nat, real>): Option<real>
  {
    if values == map[] then None else Some(Total(values))
  }

  lemma SumWith(values: map<nat, real>, k: nat, x: real)
    requires k !in values
    ensures SumOfSet(values[k := x]) == Some(SumOfSet(values).GetOr(0.0) + x)
  {
    TotalWith(values, k, x);
  }

  lemma SumAppended(rows: seq<Option<Row>>, r: Option<Row>, isUsd: bool)
    ensures var x := if r.None? then None else if isUsd then r.value.nativeBalanceUsd else r.value.nativeBalance;
            SumOf(Natives(rows + [r], isUsd))
            == if x.None? then SumOf(Natives(rows, isUsd)) else Some(SumOf(Natives(rows, isUsd)).GetOr(0.0) + x.value)
  {
    var vals := Natives(rows + [r], isUsd);
    assert vals[..|rows|] == Natives(rows, isUsd);
  }

  lemma SumOfTwo(a: Option<Row>, b: Option<Row>, isUsd: bool)
    ensures var x := if a.None? then None else if isUsd then a.value.nativeBalanceUsd else a.value.nativeBalance;
            var y := if b.None? then None else if isUsd then b.value.nativeBalanceUsd else b.value.nativeBalance;
            SumOf(Natives([a, b], isUsd))
            == if y.Some? then Some((if x.Some? then x.value else 0.0) + y.value) else x
  {
    var vals := Natives([a, b], isUsd);
    assert vals[..1] == [vals[0]] && vals[..1][..0] == [];
    assert SumOf(vals[..1][..0]) == None;
    assert SumOf(vals[..1]) == vals[0];
  }

  lemma SubsAppended(auth: seq<Session>, userId: int, k: nat, n: nat)
    requires n == k + 1 <= |auth|
    ensures SubUsersIds(auth[..n], userId)
         == SubUsersIds(auth[..k], userId)
            + (if k in SubAccounts(auth, userId) then [auth[k].subUserId.value] else [])
  {
    assert auth[..n][..k] == auth[..k] && auth[..n][k] == auth[k];
  }

  lemma FoundAppended(subs: seq<int>, find: int -> Option<Row>, sub: int)
    ensures FoundSeq(subs + [sub], find) == FoundSeq(subs, find) + [find(sub)]
    ensures FoundSeq(subs + [], find) == FoundSeq(subs, find)
  {
    assert subs + [] == subs;
  }

  lemma {:induction false} SumsOverSessions(auth: seq<Session>, userId: int, find: int -> Option<Row>, n: nat)
    requires n <= |auth|
    ensures var rows, latest := FoundSeq(SubUsersIds(auth[..n], userId), find), Found(auth, userId, find, n);
            && SumOf(Natives(rows, false)) == SumOfSet(Balances(latest))
            && SumOf(Natives(rows, true)) == SumOfSet(BalancesUsd(latest))
  {
    hide SumOf, Natives, SumOfSet, SubUsersIds, SubAccounts, Found, Balances, BalancesUsd;
    if n == 0 {
      NothingFound(auth, userId, find);
    } else {
      var k := n - 1;
      SumsOverSessions(auth, userId, find, k);
      SubsAppended(auth, userId, k, n);
      if k in SubAccounts(auth, userId) {
        SubHasId(auth, userId, k);
        var sub, subs := auth[k].subUserId.value, SubUsersIds(auth[..k], userId);
        FoundAppended(subs, find, sub);
        SumAppended(FoundSeq(subs, find), find(sub), false);
        SumAppended(FoundSeq(subs, find), find(sub), true);
        MoreIsFound(auth, userId, find, k, n);
      } else {
        FoundAppended(SubUsersIds(auth[..k], userId), find, 0);
        NoMoreIsFound(auth, userId, find, k, n);
      }
    }
  }

  lemma NothingFound(auth: seq<Session>, userId: int, find: int -> Option<Row>)
    ensures var rows, latest := FoundSeq(SubUsersIds(auth[..0], userId), find), Found(auth, userId, find, 0);
            && SumOf(Natives(rows, false)) == SumOfSet(Balances(latest))
            && SumOf(Natives(rows, true)) == SumOfSet(BalancesUsd(latest))
  {
    assert Found(auth, userId, find, 0) == map[];
    assert Balances(map[]) == map[] && BalancesUsd(map[]) == map[];
  }

  lemma SubHasId(auth: seq<Session>, userId: int, k: nat)
    requires k in SubAccounts(auth, userId)
    ensures k < |auth| && auth[k].subUserId.Some?
  {
  }

  lemma NoMoreIsFound(auth: seq<Session>, userId: int, find: int -> Option<Row>, k: nat, n: nat)
    requires n == k + 1 <= |auth| && k !in SubAccounts(auth, userId)
    ensures Found(auth, userId, find, n) == Found(auth, userId, find, k)
  {
  }

  lemma {:induction false} NoSubsIfEmpty(auth: seq<Session>, userId: int, n: nat)
    requires n <= |auth|
    ensures SubUsersIds(auth[..n], userId) == [] <==> forall k <- SubAccounts(auth, userId) :: n <= k
  {
    if n > 0 {
      NoSubsIfEmpty(auth, userId, n - 1);
      SubsAppended(auth, userId, n - 1, n);
    }
  }

  lemma MoreIsFound(auth: seq<Session>, userId: int, find: int -> Option<Row>, k: nat, n: nat)
    requires n == k + 1 <= |auth| && k in SubAccounts(auth, userId)
    ensures var r := find(auth[k].subUserId.value);
            var before, after := Found(auth, userId, find, k), Found(auth, userId, find, n);
            && SumOfSet(Balances(after))
               == (if r.None? || r.value.nativeBalance.None? then SumOfSet(Balances(before))
                   else Some(SumOfSet(Balances(before)).GetOr(0.0) + r.value.nativeBalance.value))
            && SumOfSet(BalancesUsd(after))
               == (if r.None? || r.value.nativeBalanceUsd.None? then SumOfSet(BalancesUsd(before))
                   else Some(SumOfSet(BalancesUsd(before)).GetOr(0.0) + r.value.nativeBalanceUsd.value))
  {
    hide SumOfSet;
    var r := find(auth[k].subUserId.value);
    var before, after := Found(auth, userId, find, k), Found(auth, userId, find, n);
    assert k !in before;
    assert after == if r.Some? then before[k := r.value] else before;
    if r.Some? {
      assert Balances(after) == if r.value.nativeBalance.Some? then Balances(before)[k := r.value.nativeBalance.value]
                                else Balances(before);
      assert BalancesUsd(after)
          == if r.value.nativeBalanceUsd.Some? then BalancesUsd(before)[k := r.value.nativeBalanceUsd.value]
             else BalancesUsd(before);
      if r.value.nativeBalance.Some? { SumWith(Balances(before), k, r.value.nativeBalance.value); }
      if r.value.nativeBalanceUsd.Some? { SumWith(BalancesUsd(before), k, r.value.nativeBalanceUsd.value); }
    }
  }

  /** The balance computed from the rows that a look-up finds adds those rows up. */
  lemma BalanceAddsUp(auth: seq<Session>, item: Row, find: int -> Option<Row>)
    ensures var b := BalanceFrom(item, FoundSeq(SubUsersIds(auth, item.userId), find));
            && AddsUp(b, item, Found(auth, item.userId, find, |auth|))
            && (b.isRecalced <==> SubAccounts(auth, item.userId) != {})
  {
    hide Natives, SumOf, SubUsersIds, Total;
    var subs, latest := SubUsersIds(auth, item.userId), Found(auth, item.userId, find, |auth|);
    SumsOverSessions(auth, item.userId, find, |auth|);
    NoSubsIfEmpty(auth, item.userId, |auth|);
    assert auth[..|auth|] == auth;
    if subs == [] {
      assert SubAccounts(auth, item.userId) == {};
      assert latest == map[];
      assert Balances(map[]) == map[] && BalancesUsd(map[]) == map[];
    } else {
      assert SubAccounts(auth, item.userId) != {};
      assert FoundSeq(subs, find) != [];
    }
  }

  /** The balance of the whole table adds up, over the sub-accounts of the user, their latest rows. */
  lemma WholeTableBalanceIsSum(auth: seq<Session>, table: seq<Row>, item: Row)
    requires IsOldestFirst(table)
    ensures IsSumOfLatest(WholeTableBalance(auth, table, item), auth, table, item)
  {
    hide LastFeeding, BalanceFrom, AddsUp, IsOldestFirst;
    var find := (sub: int) => LastFeeding(table, item, sub);
    var subs := SubUsersIds(auth, item.userId);
    var latest := Found(auth, item.userId, find, |auth|);
    assert FoundSeq(subs, find) == seq(|subs|, k requires 0 <= k < |subs| => LastFeeding(table, item, subs[k]));
    BalanceAddsUp(auth, item, find);
    forall k | k in SubAccounts(auth, item.userId)
      ensures k in latest ==> IsLatest(table, item, auth[k].subUserId, latest[k])
      ensures k !in latest ==> forall q <- table :: !(q.subUserId == auth[k].subUserId && Precedes(q, item))
    {
      LastIsNewest(table, item, auth[k].subUserId.value);
    }
    assert AreLatest(auth, table, item, latest);
  }

  /** So does the balance computed on a page, over the rows that are among its records. */
  lemma RecalcBalanceIsSum(auth: seq<Session>, records: seq<Row>, item: Row)
    requires IsNewestFirst(records)
    ensures IsSumOfLatest(RecalcBalance(auth, records, item), auth, records, item)
  {
    hide FindFeeding, BalanceFrom, AddsUp, IsNewestFirst;
    var find := (sub: int) => FindFeeding(records, item, sub);
    var subs := SubUsersIds(auth, item.userId);
    var latest := Found(auth, item.userId, find, |auth|);
    assert FoundSeq(subs, find) == seq(|subs|, k requires 0 <= k < |subs| => FindFeeding(records, item, subs[k]));
    BalanceAddsUp(auth, item, find);
    forall k | k in SubAccounts(auth, item.userId)
      ensures k in latest ==> IsLatest(records, item, auth[k].subUserId, latest[k])
      ensures k !in latest ==> forall q <- records :: !(q.subUserId == auth[k].subUserId && Precedes(q, item))
    {
      FindIsNewest(records, item, auth[k].subUserId.value);
    }
    assert AreLatest(auth, records, item, latest);
  }
}
