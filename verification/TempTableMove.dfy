/** The copy of a temporary table into the main table, chunk by chunk over the range of the ids. */
module TempTableMove {
  import opened Wrappers

  /** A row of the temporary table: its id, the values of the unique index and the other values. */
  datatype Row<K, V> = Row(id: int, key: K, value: V)

  /** The temporary table read in the order of its ids, which are unique and may have gaps. */
  predicate IsOrdered<K, V>(rows: seq<Row<K, V>>)
  {
    forall j, k :: 0 <= j < k < |rows| ==> rows[j].id < rows[k].id
  }

  /** `INSERT OR REPLACE` of rows in order: a row replaces the one with its key. */
  function Upsert<K, V>(main: map<K, V>, rows: seq<Row<K, V>>): map<K, V>
  {
    if rows == [] then main
    else
      var k := |rows| - 1;
      Upsert(main, rows[..k])[rows[k].key := rows[k].value]
  }

  /** `WHERE _id >= lo AND _id <= hi ORDER BY _id`. */
  function Between<K, V>(rows: seq<Row<K, V>>, lo: int, hi: int): seq<Row<K, V>>
  {
    if rows == [] then []
    else (if lo <= rows[0].id <= hi then [rows[0]] else []) + Between(rows[1..], lo, hi)
  }

  /** The first id from `lo` on, if there is one. */
  function FirstFrom<K, V>(rows: seq<Row<K, V>>, lo: int): Option<int>
  {
    if rows == [] then None
    else if lo <= rows[0].id then Some(rows[0].id) else FirstFrom(rows[1..], lo)
  }

  lemma {:induction false} UpsertAppend<K, V>(main: map<K, V>, a: seq<Row<K, V>>, b: seq<Row<K, V>>)
    ensures Upsert(main, a + b) == Upsert(Upsert(main, a), b)
    decreases |b|
  {
    if b == [] {
      assert a + b == a;
    } else {
      var k := |b| - 1;
      assert (a + b)[..|a| + k] == a + b[..k];
      UpsertAppend(main, a, b[..k]);
    }
  }

  predicate HasKey<K(==), V>(rows: seq<Row<K, V>>, key: K) { exists k :: 0 <= k < |rows| && rows[k].key == key }

  /** A key keeps what it had, unless it has a row. */
  lemma {:induction false} OtherKeysStay<K, V>(main: map<K, V>, rows: seq<Row<K, V>>, key: K)
    requires !HasKey(rows, key)
    ensures key in Upsert(main, rows) <==> key in main
    ensures key in main ==> Upsert(main, rows)[key] == main[key]
    decreases |rows|
  {
    if rows != [] {
      var k := |rows| - 1;
      assert forall j :: 0 <= j < k ==> rows[..k][j] == rows[j];
      OtherKeysStay(main, rows[..k], key);
    }
  }

  /** Of several rows with one key, the one with the highest id is in the main table at the end. */
  lemma LastRowWins<K, V>(main: map<K, V>, rows: seq<Row<K, V>>, n: nat)
    requires n < |rows| && !HasKey(rows[n + 1..], rows[n].key)
    ensures var r := Upsert(main, rows); rows[n].key in r && r[rows[n].key] == rows[n].value
  {
    assert rows == rows[..n + 1] + rows[n + 1..] && rows[..n + 1][..n] == rows[..n];
    UpsertAppend(main, rows[..n + 1], rows[n + 1..]);
    OtherKeysStay(Upsert(main, rows[..n + 1]), rows[n + 1..], rows[n].key);
  }

  /** A range of ids is a stretch of the table, from the first id in it to the first id behind it. */
  lemma {:induction false} RangeIsStretch<K, V>(rows: seq<Row<K, V>>, n: nat, m: nat, lo: int, hi: int)
    requires IsOrdered(rows) && n <= m <= |rows| && lo <= hi + 1
    requires forall k :: 0 <= k < n ==> rows[k].id < lo
    requires forall k :: n <= k < m ==> lo <= rows[k].id <= hi
    requires forall k :: m <= k < |rows| ==> hi < rows[k].id
    ensures Between(rows, lo, hi) == rows[n..m]
    decreases |rows|
  {
    if rows != [] {
      var rest := rows[1..];
      if n > 0 {
        RangeIsStretch(rest, n - 1, m - 1, lo, hi);
        assert rest[n - 1..m - 1] == rows[n..m];
      } else if m > 0 {
        RangeIsStretch(rest, 0, m - 1, lo, hi);
        assert rows[0..m] == [rows[0]] + rest[0..m - 1];
      } else {
        RangeIsStretch(rest, 0, 0, lo, hi);
      }
    }
  }

  lemma {:induction false} NextAfterRange<K, V>(rows: seq<Row<K, V>>, m: nat, hi: int)
    requires m <= |rows|
    requires forall k :: 0 <= k < m ==> rows[k].id <= hi
    requires forall k :: m <= k < |rows| ==> hi < rows[k].id
    ensures FirstFrom(rows, hi + 1) == if m == |rows| then None else Some(rows[m].id)
    decreases |rows|
  {
    if rows != [] && m > 0 { NextAfterRange(rows[1..], m - 1, hi); }
  }

  lemma {:induction false} EndOfRange<K, V>(rows: seq<Row<K, V>>, n: nat, hi: int) returns (m: nat)
    requires IsOrdered(rows) && n <= |rows|
    ensures n <= m <= |rows|
    ensures forall k :: n <= k < m ==> rows[k].id <= hi
    ensures forall k :: m <= k < |rows| ==> hi < rows[k].id
    decreases |rows| - n
  {
    if n == |rows| || hi < rows[n].id { m := n; } else { m := EndOfRange(rows, n + 1, hi); }
  }

  class MainTable<K(==), V> {
    var rows: map<K, V>

    /** The copy terminates for any gaps between the ids and any positive length of the chunks. It
        visits every row of the temporary table once, in the order of the ids, and the main table ends
        as after a single pass over all of them; `isCleared` tells whether it is emptied before. */
    method MoveTempTableDataToMain(temp: seq<Row<K, V>>, chunkLength: int, isCleared: bool)
        returns (ghost visited: seq<Row<K, V>>)
      requires IsOrdered(temp) && 0 < chunkLength
      modifies this
      ensures rows == Upsert(if isCleared then map[] else old(rows), temp)
      ensures visited == temp
    {
      if isCleared { rows := map[]; }
      visited := [];
      ghost var before := rows;
      ghost var n := 0;
      var startId := if |temp| == 0 then None else Some(temp[0].id);
      assert temp[..0] == [];
      while startId.Some?
        invariant 0 <= n <= |temp|
        invariant startId == if n == |temp| then None else Some(temp[n].id)
        invariant visited == temp[..n] && rows == Upsert(before, visited)
        decreases |temp| - n
      {
        var endId := startId.value + chunkLength - 1;
        ghost var m := EndOfRange(temp, n, endId);
        RangeIsStretch(temp, n, m, startId.value, endId);
        NextAfterRange(temp, m, endId);
        var chunk := Between(temp, startId.value, endId);
        UpsertAppend(before, visited, chunk);
        rows := Upsert(rows, chunk);
        visited := visited + chunk;
        startId := FirstFrom(temp, endId + 1);
        n := m;
      }
      assert temp[..n] == temp;
    }
  }
}
