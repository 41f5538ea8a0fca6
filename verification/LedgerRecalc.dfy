/** The recalculation as it runs: page after page it writes the balance columns of the table. */
module LedgerRecalc {
  import opened Wrappers
  import opened LedgerRows
  import opened LedgerSums
  import opened LedgerPages
  import opened LedgerPaging
  import opened LedgerCoverage

  const PAGE_LIMIT: nat := 20000
  const MAX_PAGES: nat := 1000

  function UsersOf(auth: seq<Session>): set<int> { set s | s in auth && s.id.Some? :: s.id.value }

  /** The first row of a sub-account that has not been recalculated. */
  function FirstNotRecalced(rows: seq<Row>, users: set<int>, columns: map<int, Balance>): Option<Row>
  {
    if rows == [] then None
    else if IsEligible(rows[0], users) && rows[0].rowId in columns && !columns[rows[0].rowId].isRecalced then
      Some(rows[0])
    else FirstNotRecalced(rows[1..], users, columns)
  }

  /** The row is of a sub-account and has its columns, which are not marked. */
  predicate IsUnmarked(r: Row, users: set<int>, columns: map<int, Balance>)
  {
    r.subUserId.Some? && r.userId in users && r.rowId in columns && !columns[r.rowId].isRecalced
  }

  lemma {:induction false} FirstIsFirst(rows: seq<Row>, users: set<int>, columns: map<int, Balance>)
    requires IsOldestFirst(rows)
    ensures var first := FirstNotRecalced(rows, users, columns);
            && (first.None? ==> forall r <- rows :: !IsUnmarked(r, users, columns))
            && (first.Some? ==>
                  && first.value in rows && IsUnmarked(first.value, users, columns)
                  && forall r <- rows :: IsUnmarked(r, users, columns) ==> NotAfter(first.value, r))
    decreases |rows|
  {
    if rows != [] {
      assert rows == [rows[0]] + rows[1..];
      FirstIsFirst(rows[1..], users, columns);
      forall r <- rows[1..] ensures NotAfter(rows[0], r) {
        var k :| 0 <= k < |rows[1..]| && rows[1..][k] == r;
        assert rows[k + 1] == r;
      }
    }
  }

  /** The rows from a moment on. */
  function Listing(rows: seq<Row>, users: set<int>, mts: int): seq<Row> { Filtered(rows, users, mts, {}) }

  // ----- The pages of the table are the pages of the listing

  lemma {:induction false} FilterTwice(rows: seq<Row>, users: set<int>, start: int, c: Cursor)
    requires start <= c.mts
    ensures Filtered(rows, users, c.mts, c.skipped) == Nexts(Listing(rows, users, start), c)
  {
    if rows != [] {
      FilterTwice(rows[1..], users, start, c);
      var rest := Listing(rows[1..], users, start);
      if IsOnPage(rows[0], users, start, {}) {
        assert Listing(rows, users, start) == [rows[0]] + rest;
        assert ([rows[0]] + rest)[1..] == rest;
      } else {
        assert Listing(rows, users, start) == rest;
      }
    }
  }

  lemma {:induction false} ListingIsListing(rows: seq<Row>, users: set<int>, mts: int)
    requires IsOldestFirst(rows) && forall j, k :: 0 <= j < k < |rows| ==> rows[j].rowId != rows[k].rowId
    ensures IsListing(Listing(rows, users, mts))
  {
    FilteredIsOrdered(rows, users, mts, {});
    if rows != [] {
      ListingIsListing(rows[1..], users, mts);
      var rest := Listing(rows[1..], users, mts);
      forall k | 0 <= k < |rest| ensures rest[k].rowId != rows[0].rowId {
        assert rest[k] in rows[1..];
        var j :| 0 <= j < |rows[1..]| && rows[1..][j] == rest[k];
        assert rows[j + 1] == rest[k];
      }
    }
  }

  // ----- The loops

  /** The nested loops that fetch the latest rows of the other sub-accounts. */
  method GetInitialElems(auth: seq<Session>, table: seq<Row>, firsts: seq<Row>) returns (res: seq<Row>)
    ensures res == InitialElems(auth, table, firsts)
  {
    hide LastUpTo, SubUsersIds;
    res := [];
    for i := 0 to |firsts|
      invariant res == InitialElems(auth, table, firsts[..i])
    {
      var first := firsts[i];
      var subs := SubUsersIds(auth, first.userId);
      var before := res;
      for j := 0 to |subs|
        invariant res == before + Fetched(table, first, subs[..j])
      {
        assert subs[..j + 1][..j] == subs[..j];
        if first.subUserId != Some(subs[j]) {
          var r := LastUpTo(table, first, subs[j]);
          if r.Some? { res := res + [r.value]; }
        }
      }
      assert subs[..|subs|] == subs && firsts[..i + 1][..i] == firsts[..i];
    }
    assert firsts[..|firsts|] == firsts;
  }

  /** The row is on one of the first `k` pages. */
  ghost predicate IsOnPages(listing: seq<Row>, start: Cursor, k: nat, r: Row)
  {
    exists j: nat :: j < k && r in NthPage(listing, start, PAGE_LIMIT, j)
  }

  /** What a row has after `k` pages: the balance computed on the last of them that holds it. */
  function ValueAfter(before: Balance, auth: seq<Session>, table: seq<Row>, listing: seq<Row>, start: Cursor,
                      k: nat, r: Row): Balance
  {
    if k == 0 then before
    else
      var elems := NthPage(listing, start, PAGE_LIMIT, k - 1);
      if r in elems then RecalcBalance(auth, Records(auth, table, elems), r)
      else ValueAfter(before, auth, table, listing, start, k - 1, r)
  }

  /** After `k` pages every row has what these pages make of it, and untied rows on them have the
      balance of the whole table. */
  ghost predicate IsWritten(columns: map<int, Balance>, before: map<int, Balance>, auth: seq<Session>,
                            table: seq<Row>, listing: seq<Row>, start: Cursor, k: nat)
  {
    columns.Keys == before.Keys
    && forall r <- table ::
         && r.rowId in columns
         && columns[r.rowId] == ValueAfter(before[r.rowId], auth, table, listing, start, k, r)
         && (!IsOnPages(listing, start, k, r) ==> columns[r.rowId] == before[r.rowId])
         && (IsOnPages(listing, start, k, r) && IsUntied(auth, table, r) ==>
               columns[r.rowId] == WholeTableBalance(auth, table, r))
  }

  /** The balances of one page. */
  function PageWritten(columns: map<int, Balance>, auth: seq<Session>, table: seq<Row>, elems: seq<Row>, n: nat):
      map<int, Balance>
    requires n <= |elems|
  {
    if n == 0 then columns
    else PageWritten(columns, auth, table, elems, n - 1)[
           elems[n - 1].rowId := RecalcBalance(auth, Records(auth, table, elems), elems[n - 1])]
  }

  lemma {:induction false} PageWrites(columns: map<int, Balance>, auth: seq<Session>, table: seq<Row>,
                                      elems: seq<Row>, n: nat, r: Row)
    requires n <= |elems| && r in table && r.rowId in columns
    requires forall e <- elems :: e in table && (e.rowId == r.rowId ==> e == r)
    ensures var w := PageWritten(columns, auth, table, elems, n);
            && r.rowId in w
            && w[r.rowId] == if r in elems[..n] then RecalcBalance(auth, Records(auth, table, elems), r)
                             else columns[r.rowId]
  {
    hide RecalcBalance, Records;
    if n > 0 {
      PageWrites(columns, auth, table, elems, n - 1, r);
      assert elems[..n] == elems[..n - 1] + [elems[n - 1]];
    }
  }

  lemma {:induction false} PageWritesKeys(columns: map<int, Balance>, auth: seq<Session>, table: seq<Row>,
                                          elems: seq<Row>, n: nat)
    requires n <= |elems| && forall e <- elems :: e.rowId in columns
    ensures PageWritten(columns, auth, table, elems, n).Keys == columns.Keys
  {
    hide RecalcBalance, Records;
    if n > 0 { PageWritesKeys(columns, auth, table, elems, n - 1); }
  }

  lemma OnePageMore(columns: map<int, Balance>, before: map<int, Balance>, auth: seq<Session>, table: seq<Row>,
                    users: set<int>, listing: seq<Row>, start: Cursor, k: nat, next: nat)
    requires IsLedger(table) && next == k + 1 && IsWritten(columns, before, auth, table, listing, start, k)
    requires IsFairPage(table, users, NthPage(listing, start, PAGE_LIMIT, k))
    requires forall r <- NthPage(listing, start, PAGE_LIMIT, k) :: r in table
    ensures var elems := NthPage(listing, start, PAGE_LIMIT, k);
            IsWritten(PageWritten(columns, auth, table, elems, |elems|), before, auth, table, listing, start, next)
  {
    hide NthPage, WholeTableBalance, PageWritten, RecalcBalance, Records, IsUntied, IsFairPage;
    var elems := NthPage(listing, start, PAGE_LIMIT, k);
    assert elems[..|elems|] == elems;
    PageWritesKeys(columns, auth, table, elems, |elems|);
    var w := PageWritten(columns, auth, table, elems, |elems|);
    forall r <- table
      ensures r.rowId in w && w[r.rowId] == ValueAfter(before[r.rowId], auth, table, listing, start, next, r)
      ensures !IsOnPages(listing, start, next, r) ==> w[r.rowId] == before[r.rowId]
      ensures IsOnPages(listing, start, next, r) && IsUntied(auth, table, r) ==>
                w[r.rowId] == WholeTableBalance(auth, table, r)
    {
      forall e <- elems ensures e.rowId == r.rowId ==> e == r { if e.rowId == r.rowId { OwnRow(table, e, r); } }
      PageWrites(columns, auth, table, elems, |elems|, r);
      OnMorePages(listing, start, k, next, r);
      if r in elems && IsUntied(auth, table, r) { RightOnPage(auth, table, users, elems, r); }
    }
  }

  lemma RightOnPage(auth: seq<Session>, table: seq<Row>, users: set<int>, elems: seq<Row>, r: Row)
    requires IsLedger(table) && IsFairPage(table, users, elems) && r in elems && IsUntied(auth, table, r)
    ensures RecalcBalance(auth, Records(auth, table, elems), r) == WholeTableBalance(auth, table, r)
  {
    hide RecalcBalance, Records, WholeTableBalance, IsLedger, IsFairPage, IsUntied;
    var n :| 0 <= n < |elems| && elems[n] == r;
    FairPageIsRight(auth, table, users, elems, n);
  }

  lemma OwnRow(table: seq<Row>, a: Row, b: Row)
    requires IsLedger(table) && a in table && b in table && a.rowId == b.rowId
    ensures a == b
  {
    var j, k :| 0 <= j < |table| && table[j] == a && 0 <= k < |table| && table[k] == b;
  }

  lemma OnMorePages(listing: seq<Row>, start: Cursor, k: nat, next: nat, r: Row)
    requires next == k + 1
    ensures IsOnPages(listing, start, next, r)
            <==> IsOnPages(listing, start, k, r) || r in NthPage(listing, start, PAGE_LIMIT, k)
  {
    hide NthPage;
    if IsOnPages(listing, start, k, r) {
      var j: nat :| j < k && r in NthPage(listing, start, PAGE_LIMIT, j);
    }
  }

  // ----- The state between two pages

  /** The cursor never moves before the start and only skips rows up to its moment. */
  predicate IsFairCursor(table: seq<Row>, start: Cursor, c: Cursor)
  {
    start.mts <= c.mts && forall r <- table :: r.rowId in c.skipped ==> r.mts <= c.mts
  }

  lemma NextPageIsFair(table: seq<Row>, users: set<int>, listing: seq<Row>, start: Cursor, k: nat)
    requires IsLedger(table) && listing == Listing(table, users, start.mts) && start.skipped == {}
    requires IsFairCursor(table, start, CursorAt(listing, start, PAGE_LIMIT, k))
    ensures var c := CursorAt(listing, start, PAGE_LIMIT, k);
            var elems := Page(table, users, c.mts, c.skipped, PAGE_LIMIT);
            && elems == NthPage(listing, start, PAGE_LIMIT, k)
            && IsFairPage(table, users, elems)
            && (forall e <- elems :: e in table && start.mts <= e.mts)
            && (elems != [] ==> IsFairCursor(table, start, After(elems)))
  {
    var c := CursorAt(listing, start, PAGE_LIMIT, k);
    var elems := Page(table, users, c.mts, c.skipped, PAGE_LIMIT);
    FilterTwice(table, users, start.mts, c);
    PageIsFair(table, users, c.mts, c.skipped, PAGE_LIMIT);
    var all := Filtered(table, users, c.mts, c.skipped);
    hide Filtered;
    assert forall e <- elems :: e in all;
    if elems != [] { AfterIsFair(table, elems); }
  }

  lemma AfterIsFair(table: seq<Row>, elems: seq<Row>)
    requires IsLedger(table) && elems != [] && forall e <- elems :: e in table
    ensures After(elems).mts == elems[|elems| - 1].mts
    ensures forall r <- table :: r.rowId in After(elems).skipped ==> r.mts <= After(elems).mts
  {
    forall r <- table ensures r.rowId in After(elems).skipped ==> r.mts <= After(elems).mts {
      if e :| e in elems && e.mts == After(elems).mts && e.rowId == r.rowId {
        OwnRow(table, e, r);
      }
    }
  }

  /** When a page comes back empty, every row that can be reached has been. */
  lemma EmptyPageMeansDone(listing: seq<Row>, start: Cursor, k: nat)
    requires IsListing(listing) && IsStart(listing, start) && CanAdvance(listing, PAGE_LIMIT)
    requires NthPage(listing, start, PAGE_LIMIT, k) == [] || 2 * |listing| <= k * PAGE_LIMIT
    ensures forall r <- listing :: IsOnPages(listing, start, k, r)
  {
    hide IsListing, CanAdvance, IsStart;
    var lo, a, p := PagesReach(listing, start, PAGE_LIMIT, k);
    if p < |listing| {
      var lo', a', q := StepForward(listing, CursorAt(listing, start, PAGE_LIMIT, k), PAGE_LIMIT, lo, a, p);
    }
    assert p == |listing|;
    hide NthPage;
    forall r <- listing ensures IsOnPages(listing, start, k, r) {
      var i :| 0 <= i < |listing| && listing[i] == r;
      assert IsReached(listing, start, PAGE_LIMIT, k, i);
      var j: nat :| j < k && listing[i] in NthPage(listing, start, PAGE_LIMIT, j);
    }
  }

  /** The pages did not run out, or they hold the listing twice. */
  predicate IsEnough(pages: nat, listing: seq<Row>) { pages < MAX_PAGES || 2 * |listing| <= MAX_PAGES * PAGE_LIMIT }

  class LedgersTable {
    /** The table read in the order of time and entry number. */
    const rows: seq<Row>
    /** The columns `balance`, `balanceUsd` and `_isBalanceRecalced`, by `_id`. */
    var columns: map<int, Balance>

    constructor (rows: seq<Row>, columns: map<int, Balance>)
      ensures this.rows == rows && this.columns == columns
    {
      this.rows, this.columns := rows, columns;
    }

    ghost predicate Valid()
      reads this
    {
      IsLedger(rows) && forall r <- rows :: r.rowId in columns
    }

    /** The loop over one page. */
    method WritePage(auth: seq<Session>, elems: seq<Row>)
      modifies this`columns
      ensures columns == PageWritten(old(columns), auth, rows, elems, |elems|)
    {
      hide RecalcBalance, Records;
      var initialElems := GetInitialElems(auth, rows, FirstGrouped(elems));
      var records := OrderByTime(initialElems + elems);
      RecordsAre(auth, rows, elems);
      for n := 0 to |elems|
        invariant columns == PageWritten(old(columns), auth, rows, elems, n)
      {
        columns := columns[elems[n].rowId := RecalcBalance(auth, records, elems[n])];
      }
    }

    /** The loop over the pages. */
    method WritePages(auth: seq<Session>, start: Cursor) returns (pages: nat)
      requires Valid() && start.skipped == {}
      modifies this`columns
      ensures Valid() && pages <= MAX_PAGES
      ensures var listing := Listing(rows, UsersOf(auth), start.mts);
              && IsWritten(columns, old(columns), auth, rows, listing, start, pages)
              && (pages == MAX_PAGES || NthPage(listing, start, PAGE_LIMIT, pages) == [])
    {
      hide WholeTableBalance, IsLedger, NthPage, IsFairPage, PageWritten, IsWritten, Page, IsFairCursor, After,
           IsUntied;
      var users, cursor, count := UsersOf(auth), start, 0;
      ghost var listing := Listing(rows, users, start.mts);
      pages := 0;
      NothingWritten(columns, auth, rows, listing, start);
      StartIsFair(rows, start);
      while true
        invariant Valid() && pages == count <= MAX_PAGES
        invariant IsWritten(columns, old(columns), auth, rows, listing, start, pages)
        invariant cursor == CursorAt(listing, start, PAGE_LIMIT, pages) && IsFairCursor(rows, start, cursor)
        decreases MAX_PAGES - count
      {
        count := count + 1;
        if count > MAX_PAGES { break; }
        NextPageIsFair(rows, users, listing, start, pages);
        var elems := Page(rows, users, cursor.mts, cursor.skipped, PAGE_LIMIT);
        if |elems| == 0 { break; }
        OnePageMore(columns, old(columns), auth, rows, users, listing, start, pages, pages + 1);
        WritePage(auth, elems);
        WrittenIsValid(old(columns), auth, listing, start, pages + 1);
        cursor := After(elems);
        CursorMoves(listing, start, pages, pages + 1);
        pages := pages + 1;
      }
    }

    lemma WrittenIsValid(before: map<int, Balance>, auth: seq<Session>, listing: seq<Row>, start: Cursor, k: nat)
      requires IsLedger(rows) && IsWritten(columns, before, auth, rows, listing, start, k)
      ensures Valid()
    {
      hide IsLedger;
    }

    /** The whole recalculation. It writes page after page, from the moment of the first row that has
        not been recalculated on; the untied rows of those pages get the balance of the whole table,
        which is the sum of the latest rows of the sub-accounts, and rows on no page keep what they had.
        If no moment holds the paging up, and the pages do not run out or the listing is no longer than
        half of what they hold, those are all rows from that moment on. */
    method Execute(auth: seq<Session>) returns (pages: nat)
      requires Valid()
      modifies this`columns
      ensures Valid() && pages <= MAX_PAGES
      ensures var first := FirstNotRecalced(rows, UsersOf(auth), old(columns));
              if first.None? || first.value.mts == 0 then columns == old(columns)
              else
                var listing := Listing(rows, UsersOf(auth), first.value.mts);
                var start := Cursor(first.value.mts, {});
                && IsWritten(columns, old(columns), auth, rows, listing, start, pages)
                && (pages == MAX_PAGES || NthPage(listing, start, PAGE_LIMIT, pages) == [])
                && HoldSums(columns, auth, rows, listing, start, pages)
                && (CanAdvance(listing, PAGE_LIMIT) && IsEnough(pages, listing) ==>
                      forall r <- listing ::
                        && r.rowId in columns
                        && (IsUntied(auth, rows, r) ==>
                              && columns[r.rowId] == WholeTableBalance(auth, rows, r)
                              && IsSumOfLatest(columns[r.rowId], auth, rows, r)))
    {
      hide WholeTableBalance, IsLedger, NthPage, FirstNotRecalced, CanAdvance, IsListing, Listing, IsStart, IsUntied,
           ValueAfter, IsSumOfLatest, IsWritten, HoldSums, IsOnPages;
      pages := 0;
      if |auth| == 0 {
        assert UsersOf(auth) == {};
        NobodyToRecalc(rows, UsersOf(auth), columns);
        return;
      }
      var users := UsersOf(auth);
      var first := FirstNotRecalced(rows, users, columns);
      if first.None? || first.value.mts == 0 { return; }
      var start := Cursor(first.value.mts, {});
      ghost var listing := Listing(rows, users, start.mts);
      pages := WritePages(auth, start);
      ListingStarts(rows, users, start);
      WrittenHoldSums(columns, old(columns), auth, rows, listing, start, pages);
      if CanAdvance(listing, PAGE_LIMIT) && IsEnough(pages, listing) {
        EmptyPageMeansDone(listing, start, pages);
        AllHoldSums(columns, old(columns), auth, rows, listing, start, pages);
      }
    }
  }

  /** Every untied row on the pages has the sum of the latest rows of the sub-accounts. */
  ghost predicate HoldSums(columns: map<int, Balance>, auth: seq<Session>, table: seq<Row>, listing: seq<Row>,
                           start: Cursor, k: nat)
  {
    forall r <- table :: IsOnPages(listing, start, k, r) && IsUntied(auth, table, r) ==>
      r.rowId in columns && IsSumOfLatest(columns[r.rowId], auth, table, r)
  }

  lemma WrittenHoldSums(columns: map<int, Balance>, before: map<int, Balance>, auth: seq<Session>, table: seq<Row>,
                        listing: seq<Row>, start: Cursor, k: nat)
    requires IsLedger(table) && IsWritten(columns, before, auth, table, listing, start, k)
    ensures HoldSums(columns, auth, table, listing, start, k)
  {
    hide IsOnPages, IsUntied, WholeTableBalance, IsSumOfLatest, ValueAfter;
    forall r | r in table ensures IsSumOfLatest(WholeTableBalance(auth, table, r), auth, table, r) {
      WholeTableBalanceIsSum(auth, table, r);
    }
  }

  lemma AllHoldSums(columns: map<int, Balance>, before: map<int, Balance>, auth: seq<Session>, table: seq<Row>,
                    listing: seq<Row>, start: Cursor, k: nat)
    requires IsWritten(columns, before, auth, table, listing, start, k)
    requires HoldSums(columns, auth, table, listing, start, k)
    requires forall r <- listing :: r in table && IsOnPages(listing, start, k, r)
    ensures forall r <- listing ::
              && r.rowId in columns
              && (IsUntied(auth, table, r) ==>
                    && columns[r.rowId] == WholeTableBalance(auth, table, r)
                    && IsSumOfLatest(columns[r.rowId], auth, table, r))
  {
    hide IsOnPages, IsUntied, WholeTableBalance, IsSumOfLatest, ValueAfter;
  }

  lemma RecordsAre(auth: seq<Session>, table: seq<Row>, elems: seq<Row>)
    ensures Records(auth, table, elems) == OrderByTime(InitialElems(auth, table, FirstGrouped(elems)) + elems)
  {
  }

  lemma {:induction false} NobodyToRecalc(rows: seq<Row>, users: set<int>, columns: map<int, Balance>)
    requires users == {}
    ensures FirstNotRecalced(rows, users, columns).None?
  {
    if rows != [] { NobodyToRecalc(rows[1..], users, columns); }
  }

  lemma NothingWritten(columns: map<int, Balance>, auth: seq<Session>, table: seq<Row>, listing: seq<Row>,
                       start: Cursor)
    requires forall r <- table :: r.rowId in columns
    ensures IsWritten(columns, columns, auth, table, listing, start, 0)
  {
  }

  lemma StartIsFair(table: seq<Row>, start: Cursor)
    requires start.skipped == {}
    ensures IsFairCursor(table, start, start)
  {
  }

  lemma CursorMoves(listing: seq<Row>, start: Cursor, k: nat, next: nat)
    requires next == k + 1 && NthPage(listing, start, PAGE_LIMIT, k) != []
    ensures CursorAt(listing, start, PAGE_LIMIT, next) == After(NthPage(listing, start, PAGE_LIMIT, k))
  {
  }

  lemma ListingStarts(table: seq<Row>, users: set<int>, start: Cursor)
    requires IsLedger(table) && start.skipped == {}
    ensures var listing := Listing(table, users, start.mts);
            IsListing(listing) && IsStart(listing, start) && forall r <- listing :: r in table
  {
    ListingIsListing(table, users, start.mts);
    var listing := Listing(table, users, start.mts);
    forall i | 0 <= i < |listing| ensures start.mts <= listing[i].mts { assert listing[i] in listing; }
  }
}
