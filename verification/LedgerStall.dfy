/** A recalculation that never gets to its last row: two pages of rows share a moment and one more row
follows. */
module LedgerStall {
  import opened Wrappers
  import opened LedgerRows
  import opened LedgerPages
  import opened LedgerPaging
  import opened LedgerCoverage
  import opened LedgerRecalc

  const COUNT: nat := 2 * PAGE_LIMIT + 1
  const LAST: nat := 2 * PAGE_LIMIT
  const START := Cursor(1, {})
  const AUTH := [Session(Some(7), true, Some(1))]

  function Entry(i: nat): Row { Row(i, i, 1, "exchange", "BTC", 7, Some(1), Some(0.0), None) }

  function Entries(n: nat): (r: seq<Row>)
    ensures |r| == n && forall i :: 0 <= i < n ==> r[i] == Entry(i)
  {
    seq(n, i requires 0 <= i < n => Entry(i))
  }

  lemma EntriesAreLedger(n: nat)
    ensures IsLedger(Entries(n)) && IsListing(Entries(n)) && IsStart(Entries(n), START)
  {
  }

  lemma {:induction false} AllAreListed(rows: seq<Row>, users: set<int>, mts: int)
    requires forall i :: 0 <= i < |rows| ==> IsOnPage(rows[i], users, mts, {})
    ensures Filtered(rows, users, mts, {}) == rows
  {
    if rows != [] { AllAreListed(rows[1..], users, mts); }
  }

  /** The listing cannot be paged through, and its last row is on no page. */
  lemma LongMomentStalls()
    ensures IsListing(Entries(COUNT)) && !CanAdvance(Entries(COUNT), PAGE_LIMIT)
    ensures forall k: nat :: !IsOnPages(Entries(COUNT), START, k, Entry(LAST))
  {
    hide NthPage, IsListing, IsStart, IsLedger;
    var rows := Entries(COUNT);
    EntriesAreLedger(COUNT);
    assert !CanAdvanceAt(rows, PAGE_LIMIT, 0);
    NeverReached(rows, START, PAGE_LIMIT, 1, 0, LAST);
    forall k: nat ensures !IsOnPages(rows, START, k, Entry(LAST)) { OnPagesIsReached(rows, START, k, LAST); }
  }

  lemma OnPagesIsReached(rows: seq<Row>, start: Cursor, k: nat, n: nat)
    requires n < |rows|
    ensures IsOnPages(rows, start, k, rows[n]) ==> IsEverReached(rows, start, PAGE_LIMIT, n)
  {
    hide NthPage;
    assert IsOnPages(rows, start, k, rows[n]) == IsReached(rows, start, PAGE_LIMIT, k, n);
  }

  const NOTHING := Balance(None, None, false)

  function NothingRecalced(n: nat): (r: map<int, Balance>)
    ensures forall i :: 0 <= i < n <==> i in r
    ensures forall i <- r :: r[i] == NOTHING
  {
    if n == 0 then map[] else NothingRecalced(n - 1)[n - 1 := NOTHING]
  }

  /** The whole recalculation on these rows leaves the last one as it was. */
  method LastRowIsNotRecalced() returns (columns: map<int, Balance>)
    ensures columns.Keys == NothingRecalced(COUNT).Keys && LAST in columns && columns[LAST] == NOTHING
  {
    hide NthPage, IsListing, IsStart, IsLedger, CanAdvance, IsOnPages, ValueAfter, WholeTableBalance, Listing;
    var rows, before := Entries(COUNT), NothingRecalced(COUNT);
    EntriesAreLedger(COUNT);
    WhereItBegins();
    LongMomentStalls();
    var table := new LedgersTable(rows, before);
    var pages := table.Execute(AUTH);
    columns := table.columns;
    assert rows[LAST] in rows;
  }

  lemma WhereItBegins()
    ensures UsersOf(AUTH) == {7} && Listing(Entries(COUNT), {7}, 1) == Entries(COUNT)
    ensures FirstNotRecalced(Entries(COUNT), {7}, NothingRecalced(COUNT)) == Some(Entry(0))
    ensures forall r <- Entries(COUNT) :: r.rowId in NothingRecalced(COUNT)
  {
    assert AUTH[0] in AUTH;
    assert UsersOf(AUTH) == {7};
    AllAreListed(Entries(COUNT), {7}, 1);
    assert Entries(COUNT)[0] == Entry(0);
  }
}
