/** One page of the recalculation: which rows it holds, which rows it fetches besides, and why its
balances are those of the whole table wherever the page begins and ends. */
module LedgerPages {
  import opened Wrappers
  import opened LedgerRows

  /** The ledgers table listed by time and entry number. Entry numbers are unique per user, and within
      a wallet and currency of a user they grow with time. */
  predicate IsLedger(table: seq<Row>)
  {
    && IsOldestFirst(table)
    && (forall j, k :: 0 <= j < k < |table| ==> table[j].rowId != table[k].rowId)
    && (forall a, b :: a in table && b in table && a.userId == b.userId && a.id == b.id ==> a == b)
    && (forall a, b :: a in table && b in table && SameGroup(a, b) && a.mts < b.mts ==> a.id < b.id)
  }

  /** `r` is a row of the sub-account at the moment of the item, behind it in the order of the entries. */
  predicate IsLaterTwin(r: Row, item: Row, subUserId: int)
  {
    r.subUserId == Some(subUserId) && SameGroup(r, item) && r.mts == item.mts && item.id < r.id
  }

  /** Another sub-account has a row that feeds the item, and one at the same moment that comes too late
      to feed it. */
  predicate IsTied(table: seq<Row>, item: Row, subUserId: int)
  {
    && item.subUserId != Some(subUserId)
    && (exists q <- table :: Feeds(q, item, subUserId))
    && (exists r <- table :: IsLaterTwin(r, item, subUserId))
  }

  /** No sub-account of its user is tied with the item. */
  predicate IsUntied(auth: seq<Session>, table: seq<Row>, item: Row)
  {
    forall s <- SubUsersIds(auth, item.userId) :: !IsTied(table, item, s)
  }

  /** The rows of sub-accounts of the users in question. */
  predicate IsEligible(r: Row, users: set<int>) { r.subUserId.Some? && r.userId in users }

  predicate IsOnPage(r: Row, users: set<int>, mts: int, skipped: set<int>)
  {
    IsEligible(r, users) && mts <= r.mts && r.rowId !in skipped
  }

  function Filtered(table: seq<Row>, users: set<int>, mts: int, skipped: set<int>): (r: seq<Row>)
    ensures forall q :: q in r <==> q in table && IsOnPage(q, users, mts, skipped)
  {
    if table == [] then []
    else
      assert table == [table[0]] + table[1..];
      (if IsOnPage(table[0], users, mts, skipped) then [table[0]] else [])
      + Filtered(table[1..], users, mts, skipped)
  }

  function Take(rows: seq<Row>, limit: nat): seq<Row> { if |rows| <= limit then rows else rows[..limit] }

  /** The query for the next page. */
  function Page(table: seq<Row>, users: set<int>, mts: int, skipped: set<int>, limit: nat): seq<Row>
  {
    Take(Filtered(table, users, mts, skipped), limit)
  }

  predicate SameSubGroup(a: Row, b: Row) { SameGroup(a, b) && a.subUserId == b.subUserId }

  predicate HasGroup(rows: seq<Row>, r: Row) { exists k :: 0 <= k < |rows| && SameSubGroup(rows[k], r) }

  /** The first row of each wallet, currency, user and sub-account. */
  function FirstGrouped(elems: seq<Row>): seq<Row>
  {
    if elems == [] then []
    else
      var k := |elems| - 1;
      var rest := FirstGrouped(elems[..k]);
      if HasGroup(rest, elems[k]) then rest else rest + [elems[k]]
  }

  /** The latest row of another sub-account up to the time of `first`. */
  function LastUpTo(table: seq<Row>, first: Row, subUserId: int): Option<Row>
  {
    if table == [] then None
    else
      var k := |table| - 1;
      var r := table[k];
      if r.subUserId == Some(subUserId) && SameGroup(r, first) && r.mts <= first.mts then Some(r)
      else LastUpTo(table[..k], first, subUserId)
  }

  function Fetched(table: seq<Row>, first: Row, subs: seq<int>): seq<Row>
  {
    if subs == [] then []
    else
      var k := |subs| - 1;
      Fetched(table, first, subs[..k])
      + (if first.subUserId == Some(subs[k]) then []
         else match LastUpTo(table, first, subs[k]) case Some(r) => [r] case None => [])
  }

  /** For each first row, the latest rows of the other sub-accounts. A sub-account without a row yet is
      represented in the program by a record without an entry number, which no item ever matches. */
  function InitialElems(auth: seq<Session>, table: seq<Row>, firsts: seq<Row>): seq<Row>
  {
    if firsts == [] then []
    else
      var k := |firsts| - 1;
      InitialElems(auth, table, firsts[..k]) + Fetched(table, firsts[k], SubUsersIds(auth, firsts[k].userId))
  }

  function Records(auth: seq<Session>, table: seq<Row>, elems: seq<Row>): seq<Row>
  {
    OrderByTime(InitialElems(auth, table, FirstGrouped(elems)) + elems)
  }

  // ----- What the pieces hold

  lemma {:induction false} GroupHasFirst(elems: seq<Row>, n: nat) returns (f: Row)
    requires n < |elems|
    requires IsOldestFirst(elems)
    ensures f in FirstGrouped(elems) && f in elems && SameSubGroup(f, elems[n]) && f.mts <= elems[n].mts
    decreases |elems|
  {
    var k := |elems| - 1;
    assert elems == elems[..k] + [elems[k]];
    if n < k {
      f := GroupHasFirst(elems[..k], n);
    } else if HasGroup(FirstGrouped(elems[..k]), elems[k]) {
      var j :| 0 <= j < |FirstGrouped(elems[..k])| && SameSubGroup(FirstGrouped(elems[..k])[j], elems[k]);
      f := FirstGrouped(elems[..k])[j];
      FirstsAreElems(elems[..k]);
      assert f in FirstGrouped(elems[..k]);
      var i :| 0 <= i < k && elems[..k][i] == f;
    } else {
      f := elems[k];
    }
  }

  lemma {:induction false} FirstsAreElems(elems: seq<Row>)
    ensures forall f :: f in FirstGrouped(elems) ==> f in elems
    decreases |elems|
  {
    if elems != [] {
      assert elems == elems[..|elems| - 1] + [elems[|elems| - 1]];
      FirstsAreElems(elems[..|elems| - 1]);
    }
  }

  lemma {:induction false} LastUpToIsNewest(table: seq<Row>, first: Row, sub: int)
    requires IsOldestFirst(table)
    ensures var r := LastUpTo(table, first, sub);
            && (r.None? ==> forall q <- table ::
                              !(q.subUserId == Some(sub) && SameGroup(q, first) && q.mts <= first.mts))
            && (r.Some? ==>
                  && r.value in table && r.value.subUserId == Some(sub)
                  && SameGroup(r.value, first) && r.value.mts <= first.mts
                  && forall q <- table :: q.subUserId == Some(sub) && SameGroup(q, first) && q.mts <= first.mts
                                          ==> NotAfter(q, r.value))
    decreases |table|
  {
    if table != [] {
      var k := |table| - 1;
      assert table == table[..k] + [table[k]];
      LastUpToIsNewest(table[..k], first, sub);
      forall q <- table ensures NotAfter(q, table[k]) {
        var j :| 0 <= j < |table| && table[j] == q;
      }
    }
  }

  lemma {:induction false} FetchedHolds(table: seq<Row>, first: Row, subs: seq<int>)
    requires IsOldestFirst(table)
    ensures forall q <- Fetched(table, first, subs) :: q in table
    ensures forall s <- subs :: first.subUserId != Some(s) && LastUpTo(table, first, s).Some?
                                ==> LastUpTo(table, first, s).value in Fetched(table, first, subs)
    decreases |subs|
  {
    if subs != [] {
      var k := |subs| - 1;
      assert subs == subs[..k] + [subs[k]];
      FetchedHolds(table, first, subs[..k]);
      LastUpToIsNewest(table, first, subs[k]);
    }
  }

  /** What has been fetched was fetched for a first row and another sub-account. */
  ghost predicate IsFetchedFor(table: seq<Row>, firsts: seq<Row>, q: Row)
  {
    exists f, s :: f in firsts && IsUpTo(table, f, s, q)
  }

  predicate IsUpTo(table: seq<Row>, first: Row, subUserId: int, q: Row) { LastUpTo(table, first, subUserId) == Some(q) }

  lemma {:induction false} FetchedFrom(table: seq<Row>, first: Row, subs: seq<int>)
    ensures forall q <- Fetched(table, first, subs) :: exists s :: IsUpTo(table, first, s, q)
    decreases |subs|
  {
    if subs != [] {
      var k := |subs| - 1;
      FetchedFrom(table, first, subs[..k]);
      forall q <- Fetched(table, first, subs) ensures exists s :: IsUpTo(table, first, s, q) {
        if q !in Fetched(table, first, subs[..k]) { assert IsUpTo(table, first, subs[k], q); }
      }
    }
  }

  lemma {:induction false} InitialElemsFrom(auth: seq<Session>, table: seq<Row>, firsts: seq<Row>)
    ensures forall q <- InitialElems(auth, table, firsts) :: IsFetchedFor(table, firsts, q)
    decreases |firsts|
  {
    if firsts != [] {
      var k := |firsts| - 1;
      assert firsts == firsts[..k] + [firsts[k]];
      InitialElemsFrom(auth, table, firsts[..k]);
      FetchedFrom(table, firsts[k], SubUsersIds(auth, firsts[k].userId));
      forall q <- InitialElems(auth, table, firsts) ensures IsFetchedFor(table, firsts, q) {
        if q in InitialElems(auth, table, firsts[..k]) {
          assert IsFetchedFor(table, firsts[..k], q);
        } else {
          assert firsts[k] in firsts;
        }
      }
    }
  }

  lemma {:induction false} InitialElemsHold(auth: seq<Session>, table: seq<Row>, firsts: seq<Row>)
    requires IsOldestFirst(table)
    ensures forall q <- InitialElems(auth, table, firsts) :: q in table
    ensures forall f, s :: f in firsts && s in SubUsersIds(auth, f.userId) && f.subUserId != Some(s)
                           && LastUpTo(table, f, s).Some?
                           ==> LastUpTo(table, f, s).value in InitialElems(auth, table, firsts)
    decreases |firsts|
  {
    if firsts != [] {
      var k := |firsts| - 1;
      assert firsts == firsts[..k] + [firsts[k]];
      InitialElemsHold(auth, table, firsts[..k]);
      FetchedHolds(table, firsts[k], SubUsersIds(auth, firsts[k].userId));
    }
  }

  // ----- Page independence

  /** What a page may leave out: besides rows that are later than all of their group on the page, only
      rows up to the time at which it begins. */
  predicate IsFairPage(table: seq<Row>, users: set<int>, elems: seq<Row>)
  {
    && IsOldestFirst(elems)
    && (forall e <- elems :: e in table && IsEligible(e, users))
    && (forall e, f, r ::
          e in elems && f in elems && r in table && IsEligible(r, users) && r !in elems
          && SameGroup(r, e) && NotAfter(r, e)
          ==> r.mts <= f.mts)
  }

  /** Among what feeds an item, the newest row is the same in the records of a fair page and in the
      whole table. */
  lemma FoundIsLast(auth: seq<Session>, table: seq<Row>, users: set<int>, elems: seq<Row>, n: nat, sub: int)
    requires IsLedger(table) && IsFairPage(table, users, elems) && n < |elems|
    requires sub in SubUsersIds(auth, elems[n].userId) && !IsTied(table, elems[n], sub)
    ensures FindFeeding(Records(auth, table, elems), elems[n], sub) == LastFeeding(table, elems[n], sub)
  {
    var e := elems[n];
    var firsts := FirstGrouped(elems);
    var initial := InitialElems(auth, table, firsts);
    var records := Records(auth, table, elems);
    OrderIsRight(initial + elems);
    InitialElemsHold(auth, table, firsts);
    FindIsNewest(records, e, sub);
    LastIsNewest(table, e, sub);
    var whole := LastFeeding(table, e, sub);
    if whole.Some? && whole.value !in records {
      var r := whole.value;
      var f := GroupHasFirst(elems, n);
      LatestIsFetched(auth, table, users, elems, e, f, r, sub);
    }
    if whole.Some? {
      SameNewest(table, FindFeeding(records, e, sub).value, whole.value);
    }
  }

  lemma SameNewest(table: seq<Row>, a: Row, b: Row)
    requires IsLedger(table) && a in table && b in table && a.userId == b.userId
    requires NotAfter(a, b) && NotAfter(b, a)
    ensures a == b
  {
  }

  /** What another sub-account has up to the moment of an untied item feeds it, if anything does. */
  lemma EarlierFeeds(table: seq<Row>, g: Row, e: Row, r: Row, sub: int)
    requires IsLedger(table) && g in table && e in table && r in table && !IsTied(table, e, sub)
    requires e.subUserId != Some(sub) && Feeds(r, e, sub)
    requires g.subUserId == Some(sub) && SameGroup(g, e) && g.mts <= e.mts
    ensures Feeds(g, e, sub)
  {
    if g.mts == e.mts { assert !IsLaterTwin(g, e, sub); }
  }

  /** The newest row that feeds an item is on the page or has been fetched. */
  lemma LatestIsFetched(auth: seq<Session>, table: seq<Row>, users: set<int>, elems: seq<Row>,
                        e: Row, f: Row, r: Row, sub: int)
    requires IsLedger(table) && IsFairPage(table, users, elems)
    requires e in elems && f in elems && f in FirstGrouped(elems) && SameSubGroup(f, e) && f.mts <= e.mts
    requires sub in SubUsersIds(auth, e.userId) && LastFeeding(table, e, sub) == Some(r) && !IsTied(table, e, sub)
    ensures r in elems || r in InitialElems(auth, table, FirstGrouped(elems))
  {
    LastIsNewest(table, e, sub);
    if e.subUserId == Some(sub) {
      assert Feeds(e, e, sub);
      SameNewest(table, e, r);
    } else if r !in elems {
      assert IsEligible(r, users) && NotAfter(r, e);
      assert r.mts <= f.mts;
      hide IsFairPage;
      LastUpToIsNewest(table, f, sub);
      var g := LastUpTo(table, f, sub).value;
      EarlierFeeds(table, g, e, r, sub);
      SameNewest(table, g, r);
      hide IsLedger;
      assert IsOldestFirst(table);
      InitialElemsHold(auth, table, FirstGrouped(elems));
    }
  }

  /** Page independence: on a fair page the balance computed from its records is the balance of the
      whole table, unless the item is tied. */
  lemma FairPageIsRight(auth: seq<Session>, table: seq<Row>, users: set<int>, elems: seq<Row>, n: nat)
    requires IsLedger(table) && IsFairPage(table, users, elems) && n < |elems|
    requires IsUntied(auth, table, elems[n])
    ensures RecalcBalance(auth, Records(auth, table, elems), elems[n]) == WholeTableBalance(auth, table, elems[n])
  {
    hide IsLedger, IsFairPage, Records, BalanceFrom, IsTied;
    var subs := SubUsersIds(auth, elems[n].userId);
    forall k | 0 <= k < |subs|
      ensures FindFeeding(Records(auth, table, elems), elems[n], subs[k]) == LastFeeding(table, elems[n], subs[k])
    {
      FoundIsLast(auth, table, users, elems, n, subs[k]);
    }
    var found := seq(|subs|, k requires 0 <= k < |subs| => FindFeeding(Records(auth, table, elems), elems[n], subs[k]));
    var last := seq(|subs|, k requires 0 <= k < |subs| => LastFeeding(table, elems[n], subs[k]));
    assert found == last;
  }

  /** Every page the query can return is fair, as long as what it skips was at its first moment. */
  lemma PageIsFair(table: seq<Row>, users: set<int>, mts: int, skipped: set<int>, limit: nat)
    requires IsLedger(table)
    requires forall r <- table :: r.rowId in skipped ==> r.mts <= mts
    ensures IsFairPage(table, users, Page(table, users, mts, skipped, limit))
  {
    var rows := Filtered(table, users, mts, skipped);
    FilteredIsOrdered(table, users, mts, skipped);
    var elems := Page(table, users, mts, skipped, limit);
    assert forall q :: q in elems ==> q in rows;
    forall e, f, r | e in elems && f in elems && r in table && IsEligible(r, users) && r !in elems
                     && SameGroup(r, e) && NotAfter(r, e)
      ensures r.mts <= f.mts
    {
      assert IsOnPage(f, users, mts, skipped);
      if IsOnPage(r, users, mts, skipped) { LaterRowsAreLater(rows, limit, e, r); }
      if NotAfter(e, r) { SameNewest(table, r, e); }
    }
  }

  lemma LaterRowsAreLater(rows: seq<Row>, limit: nat, e: Row, r: Row)
    requires IsOldestFirst(rows) && e in Take(rows, limit) && r in rows && r !in Take(rows, limit)
    ensures NotAfter(e, r)
  {
    var j, k :| 0 <= j < |Take(rows, limit)| && rows[j] == e && 0 <= k < |rows| && rows[k] == r;
    assert forall i :: 0 <= i < |Take(rows, limit)| ==> rows[i] == Take(rows, limit)[i];
  }

  lemma {:induction false} FilteredIsOrdered(table: seq<Row>, users: set<int>, mts: int, skipped: set<int>)
    requires IsOldestFirst(table)
    ensures IsOldestFirst(Filtered(table, users, mts, skipped))
  {
    if table != [] {
      FilteredIsOrdered(table[1..], users, mts, skipped);
      forall q <- table[1..] ensures NotAfter(table[0], q) {
        var k :| 0 <= k < |table[1..]| && table[1..][k] == q;
        assert table[k + 1] == q;
      }
    }
  }
}
