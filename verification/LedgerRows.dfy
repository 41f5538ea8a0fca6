/** The rows of the ledgers table and the balance of one row, computed from other rows.

A row belongs to a user and, when the user is a master account, to one of its sub-accounts. The
balance shown for the master account adds up the balances of the sub-accounts. */
module LedgerRows {
  import opened Wrappers

  /** `rowId` is the primary key `_id`, `id` the number of the ledger entry; a balance that is not
      finite is `None`. */
  datatype Row = Row(
    rowId: int, id: int, mts: int, wallet: string, currency: string, userId: int, subUserId: Option<int>,
    nativeBalance: Option<real>, nativeBalanceUsd: Option<real>)

  /** The columns that the recalculation writes. */
  datatype Balance = Balance(balance: Option<real>, balanceUsd: Option<real>, isRecalced: bool)

  /** An authenticated account; a sub-account names its master account in `id`. */
  datatype Session = Session(id: Option<int>, isSubAccount: bool, subUserId: Option<int>)

  function SubUsersIds(auth: seq<Session>, userId: int): seq<int>
  {
    if auth == [] then []
    else
      var k := |auth| - 1;
      SubUsersIds(auth[..k], userId)
      + (if auth[k].isSubAccount && auth[k].id == Some(userId) && auth[k].subUserId.Some?
         then [auth[k].subUserId.value] else [])
  }

  predicate SameGroup(a: Row, b: Row)
  {
    a.wallet == b.wallet && a.currency == b.currency && a.userId == b.userId
  }

  /** `a` does not come after `b` in the order of time and entry number. */
  predicate NotAfter(a: Row, b: Row) { a.mts < b.mts || (a.mts == b.mts && a.id <= b.id) }

  /** `r` is a row of the sub-account at or before `item`. */
  predicate Feeds(r: Row, item: Row, subUserId: int)
  {
    r.subUserId == Some(subUserId) && SameGroup(r, item) && r.id <= item.id && r.mts <= item.mts
  }

  /** The sum of the values there are, if there is one. */
  function SumOf(vals: seq<Option<real>>): Option<real>
  {
    if vals == [] then None
    else
      var k := |vals| - 1;
      var rest := SumOf(vals[..k]);
      if vals[k].None? then rest else Some(rest.GetOr(0.0) + vals[k].value)
  }

  function Natives(rows: seq<Option<Row>>, isUsd: bool): (r: seq<Option<real>>)
    ensures |r| == |rows|
  {
    seq(|rows|, k requires 0 <= k < |rows| =>
      if rows[k].None? then None
      else if isUsd then rows[k].value.nativeBalanceUsd else rows[k].value.nativeBalance)
  }

  /** The balance of a row, given for each sub-account of its user the row that counts. */
  function BalanceFrom(item: Row, latest: seq<Option<Row>>): Balance
  {
    if latest == [] then Balance(item.nativeBalance, item.nativeBalanceUsd, false)
    else
      var sum, sumUsd := SumOf(Natives(latest, false)), SumOf(Natives(latest, true));
      Balance(if sum.Some? then sum else item.nativeBalance,
              if sumUsd.Some? then sumUsd else item.nativeBalanceUsd, true)
  }

  // ----- The definition on the whole table

  /** The last row of a sub-account at or before `item`, in a table listed oldest first. */
  function LastFeeding(table: seq<Row>, item: Row, subUserId: int): Option<Row>
  {
    if table == [] then None
    else
      var k := |table| - 1;
      if Feeds(table[k], item, subUserId) then Some(table[k]) else LastFeeding(table[..k], item, subUserId)
  }

  /** The balance that a row should have: the sum over the sub-accounts of their latest balances. */
  function WholeTableBalance(auth: seq<Session>, table: seq<Row>, item: Row): Balance
  {
    var subs := SubUsersIds(auth, item.userId);
    BalanceFrom(item, seq(|subs|, k requires 0 <= k < |subs| => LastFeeding(table, item, subs[k])))
  }

  // ----- The computation on the records of one page

  predicate IsNewestFirst(rows: seq<Row>) { forall j, k :: 0 <= j < k < |rows| ==> NotAfter(rows[k], rows[j]) }

  function InsertByTime(r: Row, rows: seq<Row>): seq<Row>
  {
    if rows == [] || NotAfter(rows[0], r) then [r] + rows else [rows[0]] + InsertByTime(r, rows[1..])
  }

  /** The stable sort of the records, newest first. */
  function OrderByTime(rows: seq<Row>): seq<Row>
  {
    if rows == [] then [] else InsertByTime(rows[0], OrderByTime(rows[1..]))
  }

  function FindFeeding(records: seq<Row>, item: Row, subUserId: int): Option<Row>
  {
    if records == [] then None
    else if Feeds(records[0], item, subUserId) then Some(records[0])
    else FindFeeding(records[1..], item, subUserId)
  }

  function RecalcBalance(auth: seq<Session>, records: seq<Row>, item: Row): Balance
  {
    var subs := SubUsersIds(auth, item.userId);
    BalanceFrom(item, seq(|subs|, k requires 0 <= k < |subs| => FindFeeding(records, item, subs[k])))
  }

  lemma {:induction false} InsertKeeps(r: Row, rows: seq<Row>)
    requires IsNewestFirst(rows)
    ensures IsNewestFirst(InsertByTime(r, rows))
    ensures forall q :: q in InsertByTime(r, rows) <==> q == r || q in rows
    decreases |rows|
  {
    if rows != [] && !NotAfter(rows[0], r) {
      InsertKeeps(r, rows[1..]);
      assert rows == [rows[0]] + rows[1..];
      var t := InsertByTime(r, rows[1..]);
      forall k | 0 <= k < |t| ensures NotAfter(t[k], rows[0]) { assert t[k] in t; }
    }
  }

  lemma {:induction false} OrderIsRight(rows: seq<Row>)
    ensures IsNewestFirst(OrderByTime(rows))
    ensures forall q :: q in OrderByTime(rows) <==> q in rows
    decreases |rows|
  {
    if rows != [] {
      OrderIsRight(rows[1..]);
      InsertKeeps(rows[0], OrderByTime(rows[1..]));
      assert rows == [rows[0]] + rows[1..];
    }
  }

  /** In records sorted newest first, the row found is the newest that feeds the item. */
  lemma {:induction false} FindIsNewest(records: seq<Row>, item: Row, subUserId: int)
    requires IsNewestFirst(records)
    ensures var r := FindFeeding(records, item, subUserId);
            && (r.None? ==> forall q <- records :: !Feeds(q, item, subUserId))
            && (r.Some? ==> r.value in records && Feeds(r.value, item, subUserId)
                            && forall q <- records :: Feeds(q, item, subUserId) ==> NotAfter(q, r.value))
    decreases |records|
  {
    if records != [] {
      assert records == [records[0]] + records[1..];
      FindIsNewest(records[1..], item, subUserId);
      if Feeds(records[0], item, subUserId) {
        forall q <- records ensures NotAfter(q, records[0]) {
          var k :| 0 <= k < |records| && records[k] == q;
        }
      }
    }
  }

  predicate IsOldestFirst(rows: seq<Row>) { forall j, k :: 0 <= j < k < |rows| ==> NotAfter(rows[j], rows[k]) }

  lemma {:induction false} LastIsNewest(table: seq<Row>, item: Row, subUserId: int)
    requires IsOldestFirst(table)
    ensures var r := LastFeeding(table, item, subUserId);
            && (r.None? ==> forall q <- table :: !Feeds(q, item, subUserId))
            && (r.Some? ==> r.value in table && Feeds(r.value, item, subUserId)
                            && forall q <- table :: Feeds(q, item, subUserId) ==> NotAfter(q, r.value))
    decreases |table|
  {
    if table != [] {
      var k := |table| - 1;
      assert table == table[..k] + [table[k]];
      LastIsNewest(table[..k], item, subUserId);
      if Feeds(table[k], item, subUserId) {
        forall q <- table ensures NotAfter(q, table[k]) {
          var j :| 0 <= j < |table| && table[j] == q;
        }
      }
    }
  }
}
