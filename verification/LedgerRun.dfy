/** A recalculation in figures: two sub-accounts, one of which has no balance in USD. */
module LedgerRun {
  import opened Wrappers
  import opened LedgerRows
  import opened LedgerSums
  import opened LedgerPages
  import opened LedgerPaging
  import opened LedgerRecalc

  const AUTH := [Session(Some(7), true, Some(1)), Session(Some(7), true, Some(2))]
  const A := Row(1, 1, 1, "exchange", "BTC", 7, Some(1), Some(2.0), Some(60000.0))
  const B := Row(2, 2, 2, "exchange", "BTC", 7, Some(2), Some(3.0), None)
  const TABLE := [A, B]
  const EMPTY := Balance(None, None, false)
  const COLUMNS := map[1 := EMPTY, 2 := EMPTY]

  lemma Subs()
    ensures SubUsersIds(AUTH, 7) == [1, 2] && UsersOf(AUTH) == {7}
  {
    assert AUTH[..1] == [AUTH[0]] && AUTH[..1][..0] == [];
    assert SubUsersIds([], 7) == [];
    assert SubUsersIds(AUTH[..1], 7) == [1];
    assert AUTH[0] in AUTH;
    assert UsersOf(AUTH) == {7};
  }

  lemma LastOnes()
    ensures LastFeeding(TABLE, A, 1) == LastFeeding(TABLE, B, 1) == Some(A)
    ensures LastFeeding(TABLE, A, 2) == None && LastFeeding(TABLE, B, 2) == Some(B)
  {
    assert TABLE[..1] == [A] && TABLE[..1][..0] == [];
    assert LastFeeding([], A, 2) == None;
    assert LastFeeding(TABLE[..1], A, 1) == LastFeeding(TABLE[..1], B, 1) == Some(A);
    assert LastFeeding(TABLE[..1], A, 2) == None;
  }

  lemma InTheTable()
    ensures WholeTableBalance(AUTH, TABLE, A) == Balance(Some(2.0), Some(60000.0), true)
    ensures WholeTableBalance(AUTH, TABLE, B) == Balance(Some(5.0), Some(60000.0), true)
  {
    hide LastFeeding, SumOf, Natives;
    Subs();
    LastOnes();
    assert seq(2, k requires 0 <= k < 2 => LastFeeding(TABLE, A, [1, 2][k])) == [Some(A), None];
    assert seq(2, k requires 0 <= k < 2 => LastFeeding(TABLE, B, [1, 2][k])) == [Some(A), Some(B)];
    SumOfTwo(Some(A), None, false);
    SumOfTwo(Some(A), None, true);
    SumOfTwo(Some(A), Some(B), false);
    SumOfTwo(Some(A), Some(B), true);
  }

  lemma TheTable()
    ensures IsLedger(TABLE) && IsUntied(AUTH, TABLE, A) && IsUntied(AUTH, TABLE, B)
    ensures forall r <- TABLE :: r.rowId in COLUMNS
  {
    Subs();
  }

  lemma TheListing()
    ensures Listing(TABLE, {7}, 1) == TABLE && CanAdvance(TABLE, PAGE_LIMIT)
    ensures FirstNotRecalced(TABLE, {7}, COLUMNS) == Some(A)
  {
    assert TABLE[1..] == [B] && [B][1..] == [];
    assert Filtered([B], {7}, 1, {}) == [B];
  }

  lemma KeysStay(columns: map<int, Balance>, before: map<int, Balance>, auth: seq<Session>, table: seq<Row>,
                 listing: seq<Row>, start: Cursor, k: nat)
    requires IsWritten(columns, before, auth, table, listing, start, k)
    ensures columns.Keys == before.Keys
  {
  }

  lemma InFigures(columns: map<int, Balance>)
    requires columns.Keys == COLUMNS.Keys
    requires forall r <- TABLE :: r.rowId in columns && columns[r.rowId] == WholeTableBalance(AUTH, TABLE, r)
    ensures columns == map[1 := Balance(Some(2.0), Some(60000.0), true), 2 := Balance(Some(5.0), Some(60000.0), true)]
  {
    hide WholeTableBalance;
    InTheTable();
    assert TABLE[0] == A && TABLE[1] == B;
    assert columns[A.rowId] == WholeTableBalance(AUTH, TABLE, A);
    assert columns[B.rowId] == WholeTableBalance(AUTH, TABLE, B);
  }

  lemma AllUntied()
    ensures forall r <- TABLE :: IsUntied(AUTH, TABLE, r)
  {
    hide IsUntied;
    TheTable();
  }

  /** Both columns are summed over the sub-accounts, each over what there is of it. */
  method Run() returns (columns: map<int, Balance>)
    ensures columns == map[1 := Balance(Some(2.0), Some(60000.0), true), 2 := Balance(Some(5.0), Some(60000.0), true)]
  {
    hide WholeTableBalance, ValueAfter, NthPage, Listing, IsLedger, CanAdvance, IsUntied, IsOnPages, IsWritten,
         HoldSums, FirstNotRecalced, UsersOf, SubUsersIds;
    Subs();
    TheTable();
    AllUntied();
    TheListing();
    var rows, before := TABLE, COLUMNS;
    var table := new LedgersTable(rows, before);
    var pages := table.Execute(AUTH);
    columns := table.columns;
    KeysStay(columns, before, AUTH, rows, Listing(rows, {7}, 1), Cursor(1, {}), pages);
    InFigures(columns);
  }
}
