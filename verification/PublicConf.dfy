/** Reconciling the stored configuration of a public collection with a requested one. */
module PublicConf {
  import opened Wrappers

  datatype Conf = Conf(symbol: string, timeframe: Option<string>, start: int)

  datatype Row = Row(id: nat, userId: int, confName: string, conf: Conf)

  const CANDLES_CONF := "candlesConf"

  predicate IsCandles(confName: string) { confName == CANDLES_CONF }

  datatype Key = Key(symbol: string, timeframe: Option<string>)

  /** What makes an entry the same: the symbol and, for candles, the time frame. */
  function KeyOf(confName: string, c: Conf): Key { Key(c.symbol, if IsCandles(confName) then c.timeframe else None) }

  predicate HasKey(confName: string, confs: seq<Conf>, key: Key)
  {
    exists k :: 0 <= k < |confs| && KeyOf(confName, confs[k]) == key
  }

  /** `hasConf`; `isUniqueConf` is its opposite. */
  predicate HasConf(confName: string, confs: seq<Conf>, c: Conf)
  {
    exists k :: 0 <= k < |confs| && confs[k].symbol == c.symbol
                && (!IsCandles(confName) || confs[k].timeframe == c.timeframe)
  }

  lemma HasConfIsHasKey(confName: string, confs: seq<Conf>, c: Conf)
    ensures HasConf(confName, confs, c) <==> HasKey(confName, confs, KeyOf(confName, c))
  {
    if HasConf(confName, confs, c) {
      var k :| 0 <= k < |confs| && confs[k].symbol == c.symbol
          && (!IsCandles(confName) || confs[k].timeframe == c.timeframe);
      assert KeyOf(confName, confs[k]) == KeyOf(confName, c);
    }
  }

  /** The start of the first requested entry with the key. */
  function FirstStart(confName: string, data: seq<Conf>, key: Key): (r: Option<int>)
    ensures r.Some? <==> HasKey(confName, data, key)
  {
    if data == [] then None
    else if KeyOf(confName, data[0]) == key then Some(data[0].start)
    else
      assert data == [data[0]] + data[1..];
      FirstStart(confName, data[1..], key)
  }

  /** The requested entries, the first of each key, that are stored already or are not. */
  function Firsts(confName: string, stored: seq<Conf>, data: seq<Conf>, areStored: bool): seq<Conf>
  {
    if data == [] then []
    else
      var k := |data| - 1;
      var accum := Firsts(confName, stored, data[..k], areStored);
      if HasConf(confName, stored, data[k]) == areStored && !HasConf(confName, accum, data[k]) then accum + [data[k]]
      else accum
  }

  predicate IsDistinct(confName: string, confs: seq<Conf>)
  {
    forall j, k :: 0 <= j < k < |confs| ==> KeyOf(confName, confs[j]) != KeyOf(confName, confs[k])
  }

  lemma {:induction false} FirstStartWith(confName: string, data: seq<Conf>, c: Conf, key: Key)
    ensures FirstStart(confName, data + [c], key)
            == if HasKey(confName, data, key) then FirstStart(confName, data, key)
               else if KeyOf(confName, c) == key then Some(c.start) else None
  {
    if data == [] {
      assert data + [c] == [c];
    } else {
      assert (data + [c])[1..] == data[1..] + [c];
      FirstStartWith(confName, data[1..], c, key);
      assert data == [data[0]] + data[1..];
    }
  }

  lemma HasKeyWith(confName: string, confs: seq<Conf>, c: Conf, key: Key)
    ensures HasKey(confName, confs + [c], key) <==> HasKey(confName, confs, key) || KeyOf(confName, c) == key
  {
    var all := confs + [c];
    assert all[|confs|] == c;
    if HasKey(confName, confs, key) {
      var k :| 0 <= k < |confs| && KeyOf(confName, confs[k]) == key;
      assert all[k] == confs[k];
    }
  }

  lemma {:induction false} FirstsAreFirst(confName: string, stored: seq<Conf>, data: seq<Conf>, areStored: bool)
    ensures var r := Firsts(confName, stored, data, areStored);
            && IsDistinct(confName, r)
            && (forall key :: HasKey(confName, r, key) <==>
                  HasKey(confName, data, key) && HasKey(confName, stored, key) == areStored)
            && (forall c <- r :: FirstStart(confName, data, KeyOf(confName, c)) == Some(c.start))
    decreases |data|
  {
    hide HasKey, HasConf, FirstStart, KeyOf;
    if data == [] {
      NoKeys(confName);
    } else {
      var k := |data| - 1;
      var accum, c := Firsts(confName, stored, data[..k], areStored), data[k];
      FirstsAreFirst(confName, stored, data[..k], areStored);
      assert data == data[..k] + [c];
      HasConfIsHasKey(confName, stored, c);
      HasConfIsHasKey(confName, accum, c);
      var r := Firsts(confName, stored, data, areStored);
      forall key
        ensures HasKey(confName, r, key)
                <==> HasKey(confName, data, key) && (HasKey(confName, stored, key) == areStored)
      {
        HasKeyWith(confName, data[..k], c, key);
        HasKeyWith(confName, accum, c, key);
        assert HasKey(confName, accum, key)
            <==> HasKey(confName, data[..k], key) && (HasKey(confName, stored, key) == areStored);
      }
      FirstsStayFirst(confName, accum, data[..k], c);
    }
  }

  lemma NoKeys(confName: string)
    ensures forall key :: !HasKey(confName, [], key)
  {
  }

  lemma FirstsStayFirst(confName: string, accum: seq<Conf>, data: seq<Conf>, c: Conf)
    requires forall a <- accum :: FirstStart(confName, data, KeyOf(confName, a)) == Some(a.start)
    ensures forall a <- accum :: FirstStart(confName, data + [c], KeyOf(confName, a)) == Some(a.start)
    ensures !HasKey(confName, data, KeyOf(confName, c))
            ==> FirstStart(confName, data + [c], KeyOf(confName, c)) == Some(c.start)
    ensures IsDistinct(confName, accum) && !HasKey(confName, accum, KeyOf(confName, c))
            ==> IsDistinct(confName, accum + [c])
  {
    hide FirstStart;
    forall a | a in accum ensures FirstStart(confName, data + [c], KeyOf(confName, a)) == Some(a.start) {
      FirstStartWith(confName, data, c, KeyOf(confName, a));
    }
    FirstStartWith(confName, data, c, KeyOf(confName, c));
  }

  // ----- The table

  predicate IsOf(r: Row, userId: int, confName: string) { r.userId == userId && r.confName == confName }

  /** The rows of the user and the configuration, or all the others, in their order. */
  function Select(rows: seq<Row>, userId: int, confName: string, isOf: bool): (r: seq<Row>)
    ensures forall row :: row in r <==> row in rows && IsOf(row, userId, confName) == isOf
  {
    if rows == [] then []
    else
      assert rows == [rows[0]] + rows[1..];
      (if IsOf(rows[0], userId, confName) == isOf then [rows[0]] else []) + Select(rows[1..], userId, confName, isOf)
  }

  function Confs(rows: seq<Row>): (r: seq<Conf>)
    ensures |r| == |rows| && forall k :: 0 <= k < |rows| ==> r[k] == rows[k].conf
  {
    seq(|rows|, k requires 0 <= k < |rows| => rows[k].conf)
  }

  /** Ids are unique and below the next one. */
  predicate IsTable(rows: seq<Row>, nextId: nat)
  {
    && (forall j, k :: 0 <= j < k < |rows| ==> rows[j].id < rows[k].id)
    && (forall k :: 0 <= k < |rows| ==> rows[k].id < nextId)
  }

  function NewRows(confs: seq<Conf>, userId: int, confName: string, nextId: nat): (r: seq<Row>)
    ensures |r| == |confs|
    ensures forall k :: 0 <= k < |confs| ==> r[k] == Row(nextId + k, userId, confName, Stored(confName, confs[k]))
  {
    seq(|confs|, k requires 0 <= k < |confs| => Row(nextId + k, userId, confName, Stored(confName, confs[k])))
  }

  /** Only candles are stored with a time frame. */
  function Stored(confName: string, c: Conf): (r: Conf)
    ensures KeyOf(confName, r) == KeyOf(confName, c) && r.start == c.start
  {
    if IsCandles(confName) then c else c.(timeframe := None)
  }

  function RemovedIds(confName: string, data: seq<Conf>, mine: seq<Row>): (r: seq<nat>)
    ensures forall id :: id in r <==>
              exists k :: 0 <= k < |mine| && mine[k].id == id && !HasConf(confName, data, mine[k].conf)
  {
    if mine == [] then []
    else
      var k := |mine| - 1;
      var accum := RemovedIds(confName, data, mine[..k]);
      if HasConf(confName, data, mine[k].conf) then accum else accum + [mine[k].id]
  }

  function Without(rows: seq<Row>, userId: int, confName: string, ids: seq<nat>): (r: seq<Row>)
    ensures forall row :: row in r <==> row in rows && !(IsOf(row, userId, confName) && row.id in ids)
  {
    if rows == [] then []
    else
      assert rows == [rows[0]] + rows[1..];
      (if IsOf(rows[0], userId, confName) && rows[0].id in ids then [] else [rows[0]])
      + Without(rows[1..], userId, confName, ids)
  }

  function UpdatedRow(r: Row, userId: int, confName: string, c: Conf): Row
  {
    if IsOf(r, userId, confName) && KeyOf(confName, r.conf) == KeyOf(confName, c) then
      r.(conf := r.conf.(start := c.start))
    else r
  }

  function Updated(rows: seq<Row>, userId: int, confName: string, c: Conf): (r: seq<Row>)
    ensures |r| == |rows| && forall k :: 0 <= k < |rows| ==> r[k] == UpdatedRow(rows[k], userId, confName, c)
  {
    seq(|rows|, k requires 0 <= k < |rows| => UpdatedRow(rows[k], userId, confName, c))
  }

  function UpdatedAll(rows: seq<Row>, userId: int, confName: string, confs: seq<Conf>): seq<Row>
  {
    if confs == [] then rows
    else
      var k := |confs| - 1;
      Updated(UpdatedAll(rows, userId, confName, confs[..k]), userId, confName, confs[k])
  }

  // ----- What the three changes do to the rows of the configuration and to the others

  lemma {:induction false} SelectOfBoth(a: seq<Row>, b: seq<Row>, userId: int, confName: string, isOf: bool)
    ensures Select(a + b, userId, confName, isOf)
            == Select(a, userId, confName, isOf) + Select(b, userId, confName, isOf)
  {
    if a == [] {
      assert a + b == b;
    } else {
      assert (a + b)[1..] == a[1..] + b;
      SelectOfBoth(a[1..], b, userId, confName, isOf);
    }
  }

  lemma {:induction false} SelectUniform(rows: seq<Row>, userId: int, confName: string, isOf: bool)
    requires forall r <- rows :: IsOf(r, userId, confName)
    ensures Select(rows, userId, confName, isOf) == if isOf then rows else []
  {
    if rows != [] { SelectUniform(rows[1..], userId, confName, isOf); }
  }

  lemma {:induction false} SelectWithout(rows: seq<Row>, userId: int, confName: string, ids: seq<nat>, isOf: bool)
    ensures Select(Without(rows, userId, confName, ids), userId, confName, isOf)
            == if isOf then Without(Select(rows, userId, confName, true), userId, confName, ids)
               else Select(rows, userId, confName, false)
  {
    hide IsOf;
    if rows != [] {
      SelectWithout(rows[1..], userId, confName, ids, isOf);
      var rest := Without(rows[1..], userId, confName, ids);
      assert [] + rest == rest && ([rows[0]] + rest)[1..] == rest;
      var mine := Select(rows[1..], userId, confName, isOf);
      assert [] + mine == mine && ([rows[0]] + mine)[1..] == mine;
    }
  }

  lemma UpdatedOfBoth(a: seq<Row>, b: seq<Row>, userId: int, confName: string, c: Conf)
    ensures Updated(a + b, userId, confName, c) == Updated(a, userId, confName, c) + Updated(b, userId, confName, c)
  {
  }

  lemma UpdatedOfOne(r: Row, userId: int, confName: string, c: Conf, isOf: bool)
    ensures Updated([r], userId, confName, c) == [UpdatedRow(r, userId, confName, c)]
    ensures Select([UpdatedRow(r, userId, confName, c)], userId, confName, isOf)
            == if isOf then Updated(Select([r], userId, confName, true), userId, confName, c)
               else Select([r], userId, confName, false)
  {
  }

  lemma {:induction false} SelectUpdated(rows: seq<Row>, userId: int, confName: string, c: Conf, isOf: bool)
    ensures Select(Updated(rows, userId, confName, c), userId, confName, isOf)
            == if isOf then Updated(Select(rows, userId, confName, true), userId, confName, c)
               else Select(rows, userId, confName, false)
  {
    hide UpdatedRow, Select, Updated;
    if rows == [] {
      NothingSelected(userId, confName, c, isOf);
    } else {
      var head, tail := [rows[0]], rows[1..];
      assert rows == head + tail;
      SelectUpdated(tail, userId, confName, c, isOf);
      UpdatedOfBoth(head, tail, userId, confName, c);
      UpdatedOfOne(rows[0], userId, confName, c, isOf);
      SelectOfBoth(head, tail, userId, confName, isOf);
      SelectOfBoth(Updated(head, userId, confName, c), Updated(tail, userId, confName, c), userId, confName, isOf);
      UpdatedOfBoth(Select(head, userId, confName, true), Select(tail, userId, confName, true), userId, confName, c);
    }
  }

  lemma NothingSelected(userId: int, confName: string, c: Conf, isOf: bool)
    ensures Updated([], userId, confName, c) == [] == Select([], userId, confName, isOf)
  {
  }

  lemma {:induction false} SelectUpdatedAll(rows: seq<Row>, userId: int, confName: string, confs: seq<Conf>)
    ensures Select(UpdatedAll(rows, userId, confName, confs), userId, confName, false)
            == Select(rows, userId, confName, false)
    ensures Select(UpdatedAll(rows, userId, confName, confs), userId, confName, true)
            == UpdatedAll(Select(rows, userId, confName, true), userId, confName, confs)
    decreases |confs|
  {
    hide Select, Updated;
    if confs != [] {
      var k := |confs| - 1;
      SelectUpdatedAll(rows, userId, confName, confs[..k]);
      SelectUpdated(UpdatedAll(rows, userId, confName, confs[..k]), userId, confName, confs[k], false);
      SelectUpdated(UpdatedAll(rows, userId, confName, confs[..k]), userId, confName, confs[k], true);
    }
  }

  /** Every row keeps its place and key, and takes the start of the entry with its key, if there is one. */
  lemma {:induction false} UpdatedAllAt(rows: seq<Row>, userId: int, confName: string, confs: seq<Conf>, i: nat)
    requires i < |rows| && IsOf(rows[i], userId, confName)
    ensures var r := UpdatedAll(rows, userId, confName, confs);
            && |r| == |rows| && IsOf(r[i], userId, confName) && r[i].id == rows[i].id
            && KeyOf(confName, r[i].conf) == KeyOf(confName, rows[i].conf)
            && if HasKey(confName, confs, KeyOf(confName, rows[i].conf)) then
                 exists c <- confs :: KeyOf(confName, c) == KeyOf(confName, rows[i].conf) && c.start == r[i].conf.start
               else r[i] == rows[i]
    decreases |confs|
  {
    hide HasKey;
    if confs == [] {
      NoKeys(confName);
    } else {
      var k := |confs| - 1;
      UpdatedAllAt(rows, userId, confName, confs[..k], i);
      assert confs == confs[..k] + [confs[k]];
      HasKeyWith(confName, confs[..k], confs[k], KeyOf(confName, rows[i].conf));
    }
  }

  // ----- The rows of the configuration after the edit

  predicate RowsHaveKey(confName: string, rows: seq<Row>, key: Key)
  {
    exists k :: 0 <= k < |rows| && KeyOf(confName, rows[k].conf) == key
  }

  lemma ConfsHaveKey(confName: string, rows: seq<Row>, key: Key)
    ensures HasKey(confName, Confs(rows), key) <==> RowsHaveKey(confName, rows, key)
  {
    if RowsHaveKey(confName, rows, key) {
      var k :| 0 <= k < |rows| && KeyOf(confName, rows[k].conf) == key;
      assert Confs(rows)[k] == rows[k].conf;
    }
  }

  predicate HasOneRowEach(confName: string, rows: seq<Row>)
  {
    forall j, k :: 0 <= j < k < |rows| ==> KeyOf(confName, rows[j].conf) != KeyOf(confName, rows[k].conf)
  }

  /** The ids of the rows that are not requested any more are the ids of no other rows. */
  lemma RemovedAreUnrequested(confName: string, data: seq<Conf>, mine: seq<Row>, nextId: nat, r: Row)
    requires IsTable(mine, nextId) && (r in mine || r.id >= nextId)
    ensures r.id in RemovedIds(confName, data, mine) <==> r in mine && !HasKey(confName, data, KeyOf(confName, r.conf))
  {
    HasConfIsHasKey(confName, data, r.conf);
    if r in mine {
      var k :| 0 <= k < |mine| && mine[k] == r;
      assert forall j :: 0 <= j < |mine| && mine[j].id == r.id ==> j == k;
    }
  }

  /** The rows left after inserting and removing. */
  function Left(mine: seq<Row>, userId: int, confName: string, data: seq<Conf>, nextId: nat): seq<Row>
  {
    Without(mine + NewRows(Firsts(confName, Confs(mine), data, false), userId, confName, nextId), userId, confName,
            RemovedIds(confName, data, mine))
  }

  predicate AreOf(rows: seq<Row>, userId: int, confName: string) { forall r <- rows :: IsOf(r, userId, confName) }

  /** A row that is left was stored and is requested, or is new with the start of the first request. */
  lemma LeftIsRequested(mine: seq<Row>, userId: int, confName: string, data: seq<Conf>, nextId: nat, r: Row)
    requires IsTable(mine, nextId) && AreOf(mine, userId, confName) && r in Left(mine, userId, confName, data, nextId)
    ensures IsOf(r, userId, confName) && HasKey(confName, data, KeyOf(confName, r.conf))
    ensures !RowsHaveKey(confName, mine, KeyOf(confName, r.conf)) ==>
              FirstStart(confName, data, KeyOf(confName, r.conf)) == Some(r.conf.start)
  {
    hide FirstStart, HasKey, Firsts, KeyOf, Stored;
    var firsts := Firsts(confName, Confs(mine), data, false);
    var added := NewRows(firsts, userId, confName, nextId);
    assert r in mine + added;
    if r in mine {
      RemovedAreUnrequested(confName, data, mine, nextId, r);
      InRows(confName, mine, r);
    } else {
      var k :| 0 <= k < |added| && added[k] == r;
      FirstsAreFirst(confName, Confs(mine), data, false);
      assert firsts[k] in firsts;
      HasItsKey(confName, firsts, k);
    }
  }

  lemma InRows(confName: string, rows: seq<Row>, r: Row)
    requires r in rows
    ensures RowsHaveKey(confName, rows, KeyOf(confName, r.conf))
  {
  }

  lemma HasItsKey(confName: string, confs: seq<Conf>, k: nat)
    requires k < |confs|
    ensures HasKey(confName, confs, KeyOf(confName, confs[k]))
  {
  }

  lemma RequestedIsLeft(mine: seq<Row>, userId: int, confName: string, data: seq<Conf>, nextId: nat, key: Key)
    requires IsTable(mine, nextId) && AreOf(mine, userId, confName) && HasKey(confName, data, key)
    ensures RowsHaveKey(confName, Left(mine, userId, confName, data, nextId), key)
  {
    hide HasKey, Firsts, KeyOf, Stored, IsTable, RemovedIds;
    var firsts := Firsts(confName, Confs(mine), data, false);
    var added := NewRows(firsts, userId, confName, nextId);
    var r := RowWithKey(mine, userId, confName, data, nextId, key);
    assert r in mine + added;
    RemovedAreUnrequested(confName, data, mine, nextId, r);
    InRows(confName, Left(mine, userId, confName, data, nextId), r);
  }

  lemma RowWithKey(mine: seq<Row>, userId: int, confName: string, data: seq<Conf>, nextId: nat, key: Key)
      returns (r: Row)
    requires HasKey(confName, data, key)
    ensures KeyOf(confName, r.conf) == key
    ensures r in mine
            || (r.id >= nextId && r in NewRows(Firsts(confName, Confs(mine), data, false), userId, confName, nextId))
  {
    hide Firsts, KeyOf, Stored;
    var firsts := Firsts(confName, Confs(mine), data, false);
    ConfsHaveKey(confName, mine, key);
    if RowsHaveKey(confName, mine, key) {
      var k :| 0 <= k < |mine| && KeyOf(confName, mine[k].conf) == key;
      r := mine[k];
    } else {
      FirstsAreFirst(confName, Confs(mine), data, false);
      assert HasKey(confName, firsts, key);
      var k :| 0 <= k < |firsts| && KeyOf(confName, firsts[k]) == key;
      r := NewRows(firsts, userId, confName, nextId)[k];
    }
  }

  lemma {:induction false} WithoutHasOneEach(rows: seq<Row>, userId: int, confName: string, ids: seq<nat>)
    requires HasOneRowEach(confName, rows)
    ensures HasOneRowEach(confName, Without(rows, userId, confName, ids))
  {
    hide KeyOf;
    if rows != [] {
      WithoutHasOneEach(rows[1..], userId, confName, ids);
      var rest := Without(rows[1..], userId, confName, ids);
      forall k | 0 <= k < |rest| ensures KeyOf(confName, rest[k].conf) != KeyOf(confName, rows[0].conf) {
        assert rest[k] in rows[1..];
        var j :| 0 <= j < |rows[1..]| && rows[1..][j] == rest[k];
        assert rows[j + 1] == rest[k];
      }
    }
  }

  lemma LeftHasOneEach(mine: seq<Row>, userId: int, confName: string, data: seq<Conf>, nextId: nat)
    requires HasOneRowEach(confName, mine)
    ensures HasOneRowEach(confName, Left(mine, userId, confName, data, nextId))
  {
    hide KeyOf, Firsts, HasKey, Stored;
    var firsts := Firsts(confName, Confs(mine), data, false);
    var added := NewRows(firsts, userId, confName, nextId);
    FirstsAreFirst(confName, Confs(mine), data, false);
    forall j, k | 0 <= j < |mine| && 0 <= k < |added|
      ensures KeyOf(confName, mine[j].conf) != KeyOf(confName, added[k].conf)
    {
      HasItsKey(confName, firsts, k);
      HasItsKey(confName, Confs(mine), j);
    }
    WithoutHasOneEach(mine + added, userId, confName, RemovedIds(confName, data, mine));
  }

  /** The rows of the configuration after the edit. */
  function Edited(mine: seq<Row>, userId: int, confName: string, data: seq<Conf>, nextId: nat): seq<Row>
  {
    UpdatedAll(Left(mine, userId, confName, data, nextId), userId, confName, Firsts(confName, Confs(mine), data, true))
  }

  lemma EditedAt(mine: seq<Row>, userId: int, confName: string, data: seq<Conf>, nextId: nat, i: nat)
    requires IsTable(mine, nextId) && AreOf(mine, userId, confName) && i < |Left(mine, userId, confName, data, nextId)|
    ensures var r, left := Edited(mine, userId, confName, data, nextId), Left(mine, userId, confName, data, nextId);
            && |r| == |left| && r[i].id == left[i].id && KeyOf(confName, r[i].conf) == KeyOf(confName, left[i].conf)
            && FirstStart(confName, data, KeyOf(confName, r[i].conf)) == Some(r[i].conf.start)
  {
    hide Left, Firsts, UpdatedAll, FirstStart, KeyOf, HasKey, IsTable, AreOf;
    var left := Left(mine, userId, confName, data, nextId);
    var key := KeyOf(confName, left[i].conf);
    var updates := Firsts(confName, Confs(mine), data, true);
    LeftIsRequested(mine, userId, confName, data, nextId, left[i]);
    UpdatedAllAt(left, userId, confName, updates, i);
    FirstsAreFirst(confName, Confs(mine), data, true);
    ConfsHaveKey(confName, mine, key);
    if HasKey(confName, updates, key) {
      var r := Edited(mine, userId, confName, data, nextId)[i];
      var c :| c in updates && KeyOf(confName, c) == key && c.start == r.conf.start;
      assert FirstStart(confName, data, key) == Some(c.start);
    }
  }

  /** After the edit exactly the requested keys are stored, with the start of the first request for
      each, and once each if they were stored once each. */
  lemma EditedIsRequested(mine: seq<Row>, userId: int, confName: string, data: seq<Conf>, nextId: nat)
    requires IsTable(mine, nextId) && AreOf(mine, userId, confName)
    ensures var r := Edited(mine, userId, confName, data, nextId);
            && (forall key :: RowsHaveKey(confName, r, key) <==> HasKey(confName, data, key))
            && (forall k :: 0 <= k < |r| ==>
                  FirstStart(confName, data, KeyOf(confName, r[k].conf)) == Some(r[k].conf.start))
            && (HasOneRowEach(confName, mine) ==> HasOneRowEach(confName, r))
  {
    hide Left, Edited, FirstStart, KeyOf, HasKey, IsTable, AreOf, Firsts, UpdatedAll, RowsHaveKey, HasOneRowEach;
    var r, left := Edited(mine, userId, confName, data, nextId), Left(mine, userId, confName, data, nextId);
    EditedIsAsLong(mine, userId, confName, data, nextId);
    forall i | 0 <= i < |r|
      ensures FirstStart(confName, data, KeyOf(confName, r[i].conf)) == Some(r[i].conf.start)
      ensures KeyOf(confName, r[i].conf) == KeyOf(confName, left[i].conf)
    {
      EditedAt(mine, userId, confName, data, nextId, i);
    }
    SameKeys(confName, left, r);
    forall key ensures RowsHaveKey(confName, r, key) <==> HasKey(confName, data, key) {
      if HasKey(confName, data, key) { RequestedIsLeft(mine, userId, confName, data, nextId, key); }
      StartedKeysAreIn(confName, data, r, key);
    }
    if HasOneRowEach(confName, mine) { LeftHasOneEach(mine, userId, confName, data, nextId); }
  }

  /** Entries are the same when they have one symbol and, for candles, one time frame. */
  predicate AreSame(confName: string, a: Conf, b: Conf)
  {
    a.symbol == b.symbol && (confName == "candlesConf" ==> a.timeframe == b.timeframe)
  }

  /** Every requested entry is stored, and every stored entry has the start of the first such request. */
  ghost predicate IsAsRequested(confName: string, stored: seq<Row>, data: seq<Conf>)
  {
    && (forall c <- data :: exists r <- stored :: AreSame(confName, r.conf, c))
    && forall r <- stored :: exists k :: 0 <= k < |data| && IsFirstSame(confName, data, r.conf, k)
                                         && data[k].start == r.conf.start
  }

  predicate IsFirstSame(confName: string, data: seq<Conf>, c: Conf, k: nat)
    requires k < |data|
  {
    AreSame(confName, data[k], c) && forall j :: 0 <= j < k ==> !AreSame(confName, data[j], c)
  }

  lemma {:induction false} FirstStartIsOfFirst(confName: string, data: seq<Conf>, c: Conf)
    ensures FirstStart(confName, data, KeyOf(confName, c)).Some? ==>
              exists k :: 0 <= k < |data| && IsFirstSame(confName, data, c, k)
                          && Some(data[k].start) == FirstStart(confName, data, KeyOf(confName, c))
    decreases |data|
  {
    if data != [] && !AreSame(confName, data[0], c) {
      FirstStartIsOfFirst(confName, data[1..], c);
      if FirstStart(confName, data[1..], KeyOf(confName, c)).Some? {
        var k :| 0 <= k < |data[1..]| && IsFirstSame(confName, data[1..], c, k)
                 && Some(data[1..][k].start) == FirstStart(confName, data[1..], KeyOf(confName, c));
        assert forall j :: 0 < j < |data| ==> data[j] == data[1..][j - 1];
        assert IsFirstSame(confName, data, c, k + 1);
      }
    } else if data != [] {
      assert IsFirstSame(confName, data, c, 0);
    }
  }

  /** What has the requested keys and starts is as requested. */
  lemma KeysAreRequests(confName: string, stored: seq<Row>, data: seq<Conf>)
    requires forall key :: RowsHaveKey(confName, stored, key) <==> HasKey(confName, data, key)
    requires forall r <- stored :: FirstStart(confName, data, KeyOf(confName, r.conf)) == Some(r.conf.start)
    ensures IsAsRequested(confName, stored, data)
  {
    forall c <- data ensures exists r <- stored :: AreSame(confName, r.conf, c) {
      var k :| 0 <= k < |data| && data[k] == c;
      assert HasKey(confName, data, KeyOf(confName, c));
      assert RowsHaveKey(confName, stored, KeyOf(confName, c));
      var n :| 0 <= n < |stored| && KeyOf(confName, stored[n].conf) == KeyOf(confName, c);
      assert AreSame(confName, stored[n].conf, c);
    }
    forall r <- stored
      ensures exists k :: 0 <= k < |data| && IsFirstSame(confName, data, r.conf, k) && data[k].start == r.conf.start
    {
      FirstStartIsOfFirst(confName, data, r.conf);
    }
  }

  lemma {:induction false} UpdatedAllIsAsLong(rows: seq<Row>, userId: int, confName: string, confs: seq<Conf>)
    ensures |UpdatedAll(rows, userId, confName, confs)| == |rows|
    decreases |confs|
  {
    if confs != [] { UpdatedAllIsAsLong(rows, userId, confName, confs[..|confs| - 1]); }
  }

  lemma EditedIsAsLong(mine: seq<Row>, userId: int, confName: string, data: seq<Conf>, nextId: nat)
    ensures |Edited(mine, userId, confName, data, nextId)| == |Left(mine, userId, confName, data, nextId)|
  {
    UpdatedAllIsAsLong(Left(mine, userId, confName, data, nextId), userId, confName,
                       Firsts(confName, Confs(mine), data, true));
  }

  lemma SameKeys(confName: string, a: seq<Row>, b: seq<Row>)
    requires |a| == |b| && forall k :: 0 <= k < |b| ==> KeyOf(confName, b[k].conf) == KeyOf(confName, a[k].conf)
    ensures forall key :: RowsHaveKey(confName, a, key) <==> RowsHaveKey(confName, b, key)
    ensures HasOneRowEach(confName, a) <==> HasOneRowEach(confName, b)
  {
    hide KeyOf;
    forall key ensures RowsHaveKey(confName, a, key) <==> RowsHaveKey(confName, b, key) {
      if RowsHaveKey(confName, a, key) {
        var k :| 0 <= k < |a| && KeyOf(confName, a[k].conf) == key;
        assert KeyOf(confName, b[k].conf) == key;
      }
    }
  }

  lemma StartedKeysAreIn(confName: string, data: seq<Conf>, rows: seq<Row>, key: Key)
    requires forall k :: 0 <= k < |rows| ==>
               FirstStart(confName, data, KeyOf(confName, rows[k].conf)) == Some(rows[k].conf.start)
    ensures RowsHaveKey(confName, rows, key) ==> HasKey(confName, data, key)
  {
    hide KeyOf, HasKey;
  }

  // ----- The edit

  class PublicCollsConfTable {
    var rows: seq<Row>
    var nextId: nat

    ghost predicate Valid()
      reads this
    {
      IsTable(rows, nextId)
    }

    constructor (rows: seq<Row>, nextId: nat)
      requires IsTable(rows, nextId)
      ensures Valid() && this.rows == rows && this.nextId == nextId
    {
      this.rows, this.nextId := rows, nextId;
    }

    /** What is stored for the user and the name becomes what is requested; nothing else changes. */
    method EditPublicCollsConf(confName: string, userId: int, data: seq<Conf>)
      requires Valid()
      modifies this
      ensures Valid()
      ensures Select(rows, userId, confName, false) == Select(old(rows), userId, confName, false)
      ensures var mine := Select(rows, userId, confName, true);
              && mine == Edited(Select(old(rows), userId, confName, true), userId, confName, data, old(nextId))
              && (forall key :: RowsHaveKey(confName, mine, key) <==> HasKey(confName, data, key))
              && (forall r <- mine :: FirstStart(confName, data, KeyOf(confName, r.conf)) == Some(r.conf.start))
              && (HasOneRowEach(confName, Select(old(rows), userId, confName, true)) ==> HasOneRowEach(confName, mine))
              && IsAsRequested(confName, mine, data)
    {
      hide Firsts, RemovedIds, Without, Select, KeyOf, FirstStart, HasKey, RowsHaveKey, HasOneRowEach, AreOf, Stored,
           IsTable, Updated, IsAsRequested;
      var mine := Select(rows, userId, confName, true);
      var newData := Firsts(confName, Confs(mine), data, false);
      var removedIds := RemovedIds(confName, data, mine);
      var updatedData := Firsts(confName, Confs(mine), data, true);

      var added := NewRows(newData, userId, confName, nextId);
      SelectAdded(rows, added, userId, confName);
      AddedIsTable(rows, nextId, newData, userId, confName);
      rows, nextId := rows + added, nextId + |added|;

      SelectWithout(rows, userId, confName, removedIds, false);
      SelectWithout(rows, userId, confName, removedIds, true);
      WithoutIsTable(rows, userId, confName, removedIds, nextId);
      rows := Without(rows, userId, confName, removedIds);

      ghost var left := rows;
      for k := 0 to |updatedData|
        invariant rows == UpdatedAll(left, userId, confName, updatedData[..k]) && IsTable(rows, nextId)
      {
        assert updatedData[..k + 1][..k] == updatedData[..k] && updatedData[..k + 1][k] == updatedData[k];
        UpdatedIsTable(rows, nextId, userId, confName, updatedData[k]);
        rows := Updated(rows, userId, confName, updatedData[k]);
      }
      assert updatedData[..|updatedData|] == updatedData;
      SelectUpdatedAll(left, userId, confName, updatedData);
      SelectIsTable(old(rows), userId, confName, old(nextId));
      EditedIsRequested(mine, userId, confName, data, old(nextId));
      KeysAreRequests(confName, Select(rows, userId, confName, true), data);
    }
  }

  lemma SelectAdded(rows: seq<Row>, added: seq<Row>, userId: int, confName: string)
    requires AreOf(added, userId, confName) || forall k :: 0 <= k < |added| ==> IsOf(added[k], userId, confName)
    ensures Select(rows + added, userId, confName, false) == Select(rows, userId, confName, false)
    ensures Select(rows + added, userId, confName, true) == Select(rows, userId, confName, true) + added
  {
    hide Select;
    SelectOfBoth(rows, added, userId, confName, false);
    SelectOfBoth(rows, added, userId, confName, true);
    SelectUniform(added, userId, confName, false);
    SelectUniform(added, userId, confName, true);
  }

  lemma {:induction false} WithoutIsTable(rows: seq<Row>, userId: int, confName: string, ids: seq<nat>, nextId: nat)
    requires IsTable(rows, nextId)
    ensures IsTable(Without(rows, userId, confName, ids), nextId)
  {
    hide IsOf, IsTable;
    TailIsTable(rows, nextId);
    if rows != [] {
      WithoutIsTable(rows[1..], userId, confName, ids, nextId);
      HeadIsLowest(rows, nextId, Without(rows[1..], userId, confName, ids));
    }
  }

  lemma {:induction false} SelectIsTable(rows: seq<Row>, userId: int, confName: string, nextId: nat)
    requires IsTable(rows, nextId)
    ensures IsTable(Select(rows, userId, confName, true), nextId)
            && AreOf(Select(rows, userId, confName, true), userId, confName)
  {
    if rows != [] {
      SelectIsTable(rows[1..], userId, confName, nextId);
      HeadIsLowest(rows, nextId, Select(rows[1..], userId, confName, true));
    }
  }

  lemma TailIsTable(rows: seq<Row>, nextId: nat)
    requires IsTable(rows, nextId)
    ensures rows != [] ==> rows[0].id < nextId && IsTable(rows[1..], nextId)
    ensures IsTable([], nextId)
  {
  }

  lemma AddedIsTable(rows: seq<Row>, nextId: nat, confs: seq<Conf>, userId: int, confName: string)
    requires IsTable(rows, nextId)
    ensures IsTable(rows + NewRows(confs, userId, confName, nextId), nextId + |confs|)
  {
  }

  lemma UpdatedIsTable(rows: seq<Row>, nextId: nat, userId: int, confName: string, c: Conf)
    requires IsTable(rows, nextId)
    ensures IsTable(Updated(rows, userId, confName, c), nextId)
  {
  }

  lemma HeadIsLowest(rows: seq<Row>, nextId: nat, rest: seq<Row>)
    requires IsTable(rows, nextId) && IsTable(rest, nextId) && rows != [] && forall r <- rest :: r in rows[1..]
    ensures IsTable([rows[0]] + rest, nextId) && [] + rest == rest
  {
    hide IsTable;
    TailIsTable(rows, nextId);
    forall k | 0 <= k < |rest| ensures rows[0].id < rest[k].id {
      assert rest[k] in rest;
      HeadIsBefore(rows, nextId, rest[k]);
    }
    TableOfBoth(rows[0], rest, nextId);
  }

  lemma HeadIsBefore(rows: seq<Row>, nextId: nat, r: Row)
    requires IsTable(rows, nextId) && rows != [] && r in rows[1..]
    ensures rows[0].id < r.id
  {
    var j :| 0 <= j < |rows[1..]| && rows[1..][j] == r;
    assert rows[j + 1] == r;
  }

  lemma TableOfBoth(r: Row, rest: seq<Row>, nextId: nat)
    requires IsTable(rest, nextId) && r.id < nextId && forall k :: 0 <= k < |rest| ==> r.id < rest[k].id
    ensures IsTable([r] + rest, nextId)
  {
  }
}
