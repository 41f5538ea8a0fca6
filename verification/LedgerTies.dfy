/** Which items a page can get wrong: exactly those that are tied with another sub-account. */
module LedgerTies {
  import opened Wrappers
  import opened LedgerRows
  import opened LedgerSums
  import opened LedgerPages
  import opened LedgerPaging
  import opened LedgerRecalc

  /** For an item and a sub-account the page finds what the whole table has. */
  predicate Finds(auth: seq<Session>, table: seq<Row>, elems: seq<Row>, item: Row, sub: int)
  {
    FindFeeding(Records(auth, table, elems), item, sub) == LastFeeding(table, item, sub)
  }

  /** A query may skip rows of its first moment and earlier ones. */
  predicate IsQuery(table: seq<Row>, mts: int, skipped: set<int>)
  {
    forall r <- table :: r.rowId in skipped ==> r.mts <= mts
  }

  lemma FindsIfUntied(auth: seq<Session>, table: seq<Row>, users: set<int>, elems: seq<Row>, item: Row, sub: int)
    requires IsLedger(table) && IsFairPage(table, users, elems) && item in elems
    requires sub in SubUsersIds(auth, item.userId) && !IsTied(table, item, sub)
    ensures Finds(auth, table, elems, item, sub)
  {
    hide IsLedger, IsFairPage, IsTied, Records;
    var n :| 0 <= n < |elems| && elems[n] == item;
    FoundIsLast(auth, table, users, elems, n, sub);
  }

  // ----- What a tie hides

  /** What is fetched from a moment on is no earlier than the later twin, so it does not feed the item. */
  lemma FetchedIsNoUse(table: seq<Row>, f: Row, s: int, item: Row, sub: int, twin: Row)
    requires IsOldestFirst(table) && twin in table && IsLaterTwin(twin, item, sub) && item.mts <= f.mts
    requires LastUpTo(table, f, s).Some?
    ensures !Feeds(LastUpTo(table, f, s).value, item, sub)
  {
    LastUpToIsNewest(table, f, s);
  }

  /** A page from the item's moment on that holds nothing of the sub-account that feeds the item finds
      nothing. */
  lemma TieHides(auth: seq<Session>, table: seq<Row>, elems: seq<Row>, item: Row, sub: int, twin: Row)
    requires IsOldestFirst(table) && twin in table && IsLaterTwin(twin, item, sub)
    requires forall q <- elems :: item.mts <= q.mts && !Feeds(q, item, sub)
    ensures FindFeeding(Records(auth, table, elems), item, sub).None?
  {
    hide LastUpTo, Feeds, IsLaterTwin, IsOldestFirst;
    var firsts := FirstGrouped(elems);
    var initial := InitialElems(auth, table, firsts);
    FirstsAreElems(elems);
    InitialElemsFrom(auth, table, firsts);
    forall q | q in initial + elems ensures !Feeds(q, item, sub) {
      if q in initial {
        var f, s :| f in firsts && IsUpTo(table, f, s, q);
        FetchedIsNoUse(table, f, s, item, sub, twin);
      }
    }
    OrderIsRight(initial + elems);
    FindIsNewest(Records(auth, table, elems), item, sub);
  }

  lemma TiedHasBoth(table: seq<Row>, item: Row, sub: int) returns (twin: Row)
    requires IsOldestFirst(table) && IsTied(table, item, sub)
    ensures twin in table && IsLaterTwin(twin, item, sub)
    ensures LastFeeding(table, item, sub).Some?
  {
    twin :| twin in table && IsLaterTwin(twin, item, sub);
    LastIsNewest(table, item, sub);
  }

  // ----- Any page

  /** The rows of the item's moment that may stand before it. */
  function Before(table: seq<Row>, item: Row): set<int>
  {
    set r | r in table && r.mts == item.mts && r.id <= item.id && r.rowId != item.rowId :: r.rowId
  }

  /** The page that skips them begins with the item. */
  lemma PageBeginsWith(table: seq<Row>, users: set<int>, item: Row, limit: nat)
    requires IsLedger(table) && item in table && IsEligible(item, users) && 0 < limit
    ensures IsQuery(table, item.mts, Before(table, item))
    ensures var elems := Page(table, users, item.mts, Before(table, item), limit);
            && item in elems
            && forall q <- elems :: item.mts <= q.mts && (q == item || q.mts > item.mts || q.id > item.id)
  {
    var skipped := Before(table, item);
    var rows := Filtered(table, users, item.mts, skipped);
    var elems := Page(table, users, item.mts, skipped, limit);
    forall r <- table ensures (r.rowId in skipped <==> r.mts == item.mts && r.id <= item.id && r.rowId != item.rowId) {
      if r.rowId in skipped {
        var o :| o in table && o.mts == item.mts && o.id <= item.id && o.rowId != item.rowId && o.rowId == r.rowId;
        OwnRow(table, o, r);
      }
    }
    forall q <- rows ensures item.mts <= q.mts && (q == item || q.mts > item.mts || q.id > item.id) {
      if q.rowId == item.rowId { OwnRow(table, q, item); }
    }
    FilteredIsOrdered(table, users, item.mts, skipped);
    var k :| 0 <= k < |rows| && rows[k] == item;
    if k > 0 { assert rows[0] in rows && NotAfter(rows[0], rows[k]); }
    assert elems[0] == rows[0];
  }

  /** The exact condition, whatever the length of a page: every page that holds the item finds the
      latest row of the sub-account if and only if the two are not tied. */
  lemma EveryPageFindsUnlessTied(auth: seq<Session>, table: seq<Row>, users: set<int>, item: Row, sub: int, limit: nat)
    requires IsLedger(table) && item in table && IsEligible(item, users) && 0 < limit
    requires sub in SubUsersIds(auth, item.userId)
    ensures (forall mts, skipped ::
               var elems := Page(table, users, mts, skipped, limit);
               IsQuery(table, mts, skipped) && item in elems ==> Finds(auth, table, elems, item, sub))
            <==> !IsTied(table, item, sub)
  {
    hide Page, Finds, IsQuery, IsTied, IsLedger;
    if IsTied(table, item, sub) {
      NotFoundOnItsPage(auth, table, users, item, sub, limit);
    } else {
      forall mts, skipped | IsQuery(table, mts, skipped) && item in Page(table, users, mts, skipped, limit)
        ensures Finds(auth, table, Page(table, users, mts, skipped, limit), item, sub)
      {
        QueryIsFair(table, users, mts, skipped, limit);
        FindsIfUntied(auth, table, users, Page(table, users, mts, skipped, limit), item, sub);
      }
    }
  }

  lemma QueryIsFair(table: seq<Row>, users: set<int>, mts: int, skipped: set<int>, limit: nat)
    requires IsLedger(table) && IsQuery(table, mts, skipped)
    ensures IsFairPage(table, users, Page(table, users, mts, skipped, limit))
  {
    PageIsFair(table, users, mts, skipped, limit);
  }

  lemma NotFoundOnItsPage(auth: seq<Session>, table: seq<Row>, users: set<int>, item: Row, sub: int, limit: nat)
    requires IsLedger(table) && item in table && IsEligible(item, users) && 0 < limit && IsTied(table, item, sub)
    ensures var elems := Page(table, users, item.mts, Before(table, item), limit);
            IsQuery(table, item.mts, Before(table, item)) && item in elems && !Finds(auth, table, elems, item, sub)
  {
    PageBeginsWith(table, users, item, limit);
    hide Page, Before, IsQuery;
    var twin := TiedHasBoth(table, item, sub);
    TieHides(auth, table, Page(table, users, item.mts, Before(table, item), limit), item, sub, twin);
  }

  // ----- The first page of a run

  predicate IsEarlier(r: Option<Row>, item: Row) { r.Some? && r.value.mts < item.mts }

  /** A run that begins at the moment of the item: its first page misses the latest row of the
      sub-account if and only if the two are tied and that row is of an earlier moment. */
  lemma FirstPageFindsUnlessTied(auth: seq<Session>, table: seq<Row>, users: set<int>, item: Row, sub: int, limit: nat)
    requires IsLedger(table) && item in table && sub in SubUsersIds(auth, item.userId)
    requires item in Page(table, users, item.mts, {}, limit)
    ensures Finds(auth, table, Page(table, users, item.mts, {}, limit), item, sub)
            <==> !(IsTied(table, item, sub) && IsEarlier(LastFeeding(table, item, sub), item))
  {
    hide Finds, LastFeeding, Records, Page;
    var elems := Page(table, users, item.mts, {}, limit);
    PageIsFair(table, users, item.mts, {}, limit);
    if !IsTied(table, item, sub) {
      FindsIfUntied(auth, table, users, elems, item, sub);
    } else {
      var twin := TiedHasBoth(table, item, sub);
      LastIsNewest(table, item, sub);
      if IsEarlier(LastFeeding(table, item, sub), item) {
        FromItsMoment(table, users, item, limit);
        TieHides(auth, table, elems, item, sub, twin);
        NotFound(auth, table, elems, item, sub);
      } else {
        FoundOnPage(auth, table, users, item, sub, limit);
      }
    }
  }

  lemma NotFound(auth: seq<Session>, table: seq<Row>, elems: seq<Row>, item: Row, sub: int)
    requires FindFeeding(Records(auth, table, elems), item, sub).None? && LastFeeding(table, item, sub).Some?
    ensures !Finds(auth, table, elems, item, sub)
  {
  }

  lemma FromItsMoment(table: seq<Row>, users: set<int>, item: Row, limit: nat)
    ensures forall q <- Page(table, users, item.mts, {}, limit) :: q in table && item.mts <= q.mts
  {
    var rows := Filtered(table, users, item.mts, {});
    forall q <- Page(table, users, item.mts, {}, limit) ensures q in rows {}
  }

  /** The latest row is of the item's moment, so it is on the page before the item. */
  lemma FoundOnPage(auth: seq<Session>, table: seq<Row>, users: set<int>, item: Row, sub: int, limit: nat)
    requires IsLedger(table) && item in table && item in Page(table, users, item.mts, {}, limit)
    requires LastFeeding(table, item, sub).Some? && LastFeeding(table, item, sub).value.mts == item.mts
    ensures Finds(auth, table, Page(table, users, item.mts, {}, limit), item, sub)
  {
    var elems := Page(table, users, item.mts, {}, limit);
    var rows := Filtered(table, users, item.mts, {});
    var r := LastFeeding(table, item, sub).value;
    LastIsNewest(table, item, sub);
    FilteredIsOrdered(table, users, item.mts, {});
    hide Filtered, LastFeeding, Records;
    assert forall q <- elems :: q in rows;
    if r !in elems {
      LaterRowsAreLater(rows, limit, item, r);
      SameNewest(table, r, item);
    }
    FoundInRecords(auth, table, elems, item, sub, r);
  }

  lemma FoundInRecords(auth: seq<Session>, table: seq<Row>, elems: seq<Row>, item: Row, sub: int, r: Row)
    requires IsLedger(table) && item in table && LastFeeding(table, item, sub) == Some(r)
    requires r in elems && forall q <- elems :: q in table
    ensures Finds(auth, table, elems, item, sub)
  {
    var firsts := FirstGrouped(elems);
    LastIsNewest(table, item, sub);
    InitialElemsHold(auth, table, firsts);
    OrderIsRight(InitialElems(auth, table, firsts) + elems);
    FindIsNewest(Records(auth, table, elems), item, sub);
    SameNewest(table, FindFeeding(Records(auth, table, elems), item, sub).value, r);
  }

  // ----- A run that goes wrong

  function Entry(id: int, mts: int, sub: int, balance: real): Row
  {
    Row(id, id, mts, "exchange", "BTC", 7, Some(sub), Some(balance), None)
  }

  const AUTH := [Session(Some(7), true, Some(1)), Session(Some(7), true, Some(2))]
  const FIRST := Entry(1, 1, 2, 5.0)
  const ITEM := Entry(2, 2, 1, 3.0)
  const TIE := Entry(3, 2, 2, 9.0)
  const TABLE := [FIRST, ITEM, TIE]

  /** The first row has been recalculated before. */
  const COLUMNS := map[1 := Balance(Some(5.0), None, true), 2 := Balance(None, None, false),
                       3 := Balance(None, None, false)]
  const START := Cursor(2, {})

  lemma Subs()
    ensures SubUsersIds(AUTH, 7) == [1, 2] && UsersOf(AUTH) == {7}
  {
    assert AUTH[..1] == [AUTH[0]];
    assert AUTH[..1][..0] == [];
    assert SubUsersIds([], 7) == [];
    assert SubUsersIds(AUTH[..1], 7) == [1];
    assert AUTH[0] in AUTH;
    assert UsersOf(AUTH) == {7};
  }

  lemma TableIsLedger()
    ensures IsLedger(TABLE) && ITEM in TABLE
  {
    assert TABLE[1] == ITEM;
  }

  lemma ItemIsTied()
    ensures IsTied(TABLE, ITEM, 2)
  {
    assert TABLE[0] == FIRST && TABLE[2] == TIE;
    assert Feeds(FIRST, ITEM, 2) && IsLaterTwin(TIE, ITEM, 2);
  }

  lemma WholeFeeding()
    ensures LastFeeding(TABLE, ITEM, 1) == Some(ITEM) && LastFeeding(TABLE, ITEM, 2) == Some(FIRST)
  {
    assert TABLE[..2] == [FIRST, ITEM] && TABLE[..2][..1] == [FIRST];
    assert LastFeeding(TABLE[..2], ITEM, 1) == Some(ITEM) && LastFeeding(TABLE[..2][..1], ITEM, 2) == Some(FIRST);
    assert LastFeeding(TABLE[..2], ITEM, 2) == Some(FIRST);
  }

  lemma TheListing()
    ensures Filtered(TABLE, {7}, 2, {}) == [ITEM, TIE] && Listing(TABLE, {7}, 2) == [ITEM, TIE]
  {
    assert TABLE[1..] == [ITEM, TIE] && TABLE[1..][1..] == [TIE] && TABLE[1..][1..][1..] == [];
    assert Filtered([TIE], {7}, 2, {}) == [TIE];
    assert Filtered([ITEM, TIE], {7}, 2, {}) == [ITEM, TIE];
  }

  lemma WholeIsEight()
    ensures WholeTableBalance(AUTH, TABLE, ITEM).balance == Some(8.0)
  {
    hide LastFeeding, SumOf, Natives;
    Subs();
    WholeFeeding();
    var latest := seq(2, k requires 0 <= k < 2 => LastFeeding(TABLE, ITEM, [1, 2][k]));
    assert latest == [Some(ITEM), Some(FIRST)];
    SumOfTwo(Some(ITEM), Some(FIRST), false);
  }

  /** The first page of the run. */
  lemma TheFirstPage()
    ensures Page(TABLE, {7}, 2, {}, PAGE_LIMIT) == [ITEM, TIE] == NthPage([ITEM, TIE], START, PAGE_LIMIT, 0)
  {
    TheListing();
    assert [ITEM, TIE][1..] == [TIE] && [TIE][1..] == [];
    assert Nexts([TIE], START) == [TIE];
  }

  lemma PageIsThree()
    ensures RecalcBalance(AUTH, Records(AUTH, TABLE, [ITEM, TIE]), ITEM).balance == Some(3.0)
  {
    hide LastFeeding, FindFeeding, SumOf, Natives, Records, Page, SubUsersIds, IsTied;
    Subs();
    TableIsLedger();
    WholeFeeding();
    ItemIsTied();
    TheFirstPage();
    var records := Records(AUTH, TABLE, [ITEM, TIE]);
    assert [ITEM, TIE][0] == ITEM;
    FirstPageFindsUnlessTied(AUTH, TABLE, {7}, ITEM, 1, PAGE_LIMIT);
    assert FindFeeding(records, ITEM, 1) == Some(ITEM) by { OwnIsUntied(); }
    TieHides(AUTH, TABLE, [ITEM, TIE], ITEM, 2, TIE);
    var found := seq(2, k requires 0 <= k < 2 => FindFeeding(records, ITEM, [1, 2][k]));
    assert found == [Some(ITEM), None];
    SumOfTwo(Some(ITEM), None, false);
  }

  lemma OwnIsUntied()
    ensures !IsTied(TABLE, ITEM, 1)
  {
  }

  lemma BothAreSkipped()
    ensures Nexts([ITEM, TIE], Cursor(2, {2, 3})) == []
  {
    assert [ITEM, TIE][1..] == [TIE] && [TIE][1..] == [];
    assert Nexts([TIE], Cursor(2, {2, 3})) == [];
  }

  lemma AfterBoth()
    ensures After([ITEM, TIE]) == Cursor(2, {2, 3})
  {
    var rows := [ITEM, TIE];
    assert rows[0] == ITEM && rows[1] == TIE;
  }

  lemma {:induction false} LaterPagesAreEmpty(k: nat)
    requires 0 < k
    ensures CursorAt([ITEM, TIE], START, PAGE_LIMIT, k) == Cursor(2, {2, 3})
    ensures NthPage([ITEM, TIE], START, PAGE_LIMIT, k) == []
  {
    hide Nexts, After;
    TheFirstPage();
    AfterBoth();
    BothAreSkipped();
    if k > 1 { LaterPagesAreEmpty(k - 1); }
  }

  lemma {:induction false} ItemStaysAtThree(before: Balance, k: nat)
    requires 0 < k
    ensures ValueAfter(before, AUTH, TABLE, [ITEM, TIE], START, k, ITEM).balance == Some(3.0)
  {
    hide RecalcBalance, Records, NthPage;
    if k == 1 {
      TheFirstPage();
      PageIsThree();
      assert [ITEM, TIE][0] == ITEM;
    } else {
      LaterPagesAreEmpty(k - 1);
      ItemStaysAtThree(before, k - 1);
    }
  }

  /** A recalculation with the real length of a page writes 3 for the item of this table, whose balance
      in the whole table is 8: the page begins at the tied rows. */
  method TieMakesPagesMatter() returns (columns: map<int, Balance>)
    ensures columns.Keys == COLUMNS.Keys && columns[ITEM.rowId].balance == Some(3.0)
    ensures WholeTableBalance(AUTH, TABLE, ITEM).balance == Some(8.0)
  {
    hide WholeTableBalance, ValueAfter, NthPage, Listing, IsLedger, CanAdvance, IsUntied, IsOnPages;
    TableIsLedger();
    WholeIsEight();
    Subs();
    TheListing();
    TheFirstPage();
    BeginsAtItem();
    var table := new LedgersTable(TABLE, COLUMNS);
    var pages := table.Execute(AUTH);
    columns := table.columns;
    assert NthPage([ITEM, TIE], START, PAGE_LIMIT, 0) != [];
    ItemStaysAtThree(COLUMNS[2], pages);
  }

  lemma BeginsAtItem()
    ensures FirstNotRecalced(TABLE, {7}, COLUMNS) == Some(ITEM)
    ensures forall r <- TABLE :: r.rowId in COLUMNS
  {
    assert TABLE[1..] == [ITEM, TIE];
  }
}
