/** The calculation over the joined rows: the order in which it visits them, what it knows at each, and
what comes out. */
module CalcGroupedData {
  import opened Wrappers
  import opened MergeData

  datatype Result<R> = Result(mts: int, vals: R)

  /** `calcDataItem` with the state it keeps between its calls; it gives nothing for an empty object. */
  type CalcItem<!S, !V, R> = (S, Row<V>) -> (S, Option<R>)

  /** Rows as they come. */
  function NewestToOldest<S, V, R>(calcItem: CalcItem<S, V, R>, s: S, rows: seq<Row<V>>): (S, seq<Result<R>>)
  {
    if rows == [] then (s, [])
    else
      var k := |rows| - 1;
      var (before, results) := NewestToOldest(calcItem, s, rows[..k]);
      var (after, vals) := calcItem(before, rows[k]);
      (after, if vals.Some? then results + [Result(rows[k].mts, vals.value)] else results)
  }

  /** Rows in the order of time. */
  function OldestToNewest<S, V, R>(calcItem: CalcItem<S, V, R>, s: S, rows: seq<Row<V>>): (S, seq<Result<R>>)
  {
    if rows == [] then (s, [])
    else
      var (before, results) := OldestToNewest(calcItem, s, rows[1..]);
      var (after, vals) := calcItem(before, rows[0]);
      (after, if vals.Some? then [Result(rows[0].mts, vals.value)] + results else results)
  }

  predicate AreDescending<R>(results: seq<Result<R>>)
  {
    forall j, k :: 0 <= j < k < |results| ==> results[j].mts > results[k].mts
  }

  /** Which way the rows are visited decides what the calculation knows, not the order of its results. */
  lemma {:induction false} ResultsStayDescending<S, V, R>(calcItem: CalcItem<S, V, R>, s: S, rows: seq<Row<V>>)
    requires IsDescending(rows)
    ensures AreDescending(OldestToNewest(calcItem, s, rows).1) && AreDescending(NewestToOldest(calcItem, s, rows).1)
    ensures forall t <- OldestToNewest(calcItem, s, rows).1 :: HasMts(rows, t.mts)
    ensures forall t <- NewestToOldest(calcItem, s, rows).1 :: HasMts(rows, t.mts)
    decreases |rows|
  {
    OldestFirstDescends(calcItem, s, rows);
    NewestFirstDescends(calcItem, s, rows);
  }

  lemma {:induction false} OldestFirstDescends<S, V, R>(calcItem: CalcItem<S, V, R>, s: S, rows: seq<Row<V>>)
    requires IsDescending(rows)
    ensures var results := OldestToNewest(calcItem, s, rows).1;
            AreDescending(results) && forall t <- results :: HasMts(rows, t.mts)
    decreases |rows|
  {
    if rows != [] {
      OldestFirstDescends(calcItem, s, rows[1..]);
      assert rows[0].mts == rows[0].mts;
      forall t | t in OldestToNewest(calcItem, s, rows[1..]).1 ensures t.mts < rows[0].mts && HasMts(rows, t.mts) {
        var k :| 0 <= k < |rows[1..]| && rows[1..][k].mts == t.mts;
        assert rows[k + 1].mts == t.mts;
      }
    }
  }

  lemma {:induction false} NewestFirstDescends<S, V, R>(calcItem: CalcItem<S, V, R>, s: S, rows: seq<Row<V>>)
    requires IsDescending(rows)
    ensures var results := NewestToOldest(calcItem, s, rows).1;
            AreDescending(results) && forall t <- results :: HasMts(rows, t.mts)
    decreases |rows|
  {
    if rows != [] {
      var last := |rows| - 1;
      NewestFirstDescends(calcItem, s, rows[..last]);
      assert rows[last].mts == rows[last].mts;
      forall t | t in NewestToOldest(calcItem, s, rows[..last]).1
        ensures t.mts > rows[last].mts && HasMts(rows, t.mts)
      {
        var k :| 0 <= k < |rows[..last]| && rows[..last][k].mts == t.mts;
        assert rows[k].mts == t.mts;
      }
    }
  }

  // ----- The visits

  /** The calculation visits these rows, goes through these states and gives these values. */
  ghost predicate IsRun<S, V, R>(calcItem: CalcItem<S, V, R>, s0: S, visited: seq<Row<V>>, states: seq<S>,
                                 outs: seq<Option<R>>)
  {
    && |states| == |visited| + 1 && |outs| == |visited| && states[0] == s0
    && forall i :: 0 <= i < |visited| ==> (states[i + 1], outs[i]) == calcItem(states[i], visited[i])
  }

  /** The same rows in the order of time, or against it. */
  ghost predicate AreVisited<V>(rows: seq<Row<V>>, visited: seq<Row<V>>, isReverse: bool)
  {
    && |visited| == |rows| && (forall i :: 0 <= i < |visited| ==> visited[i] in rows)
    && (forall r <- rows :: r in visited)
    && forall i, j :: 0 <= i < j < |visited| ==>
         if isReverse then visited[i].mts < visited[j].mts else visited[i].mts > visited[j].mts
  }

  /** The results are what the visits gave, under the moments of their rows. */
  ghost predicate AreGiven<V, R>(visited: seq<Row<V>>, outs: seq<Option<R>>, results: seq<Result<R>>)
    requires |outs| == |visited|
  {
    && (forall i :: 0 <= i < |outs| && outs[i].Some? ==> Result(visited[i].mts, outs[i].value) in results)
    && forall n :: 0 <= n < |results| ==>
         exists i :: 0 <= i < |outs| && outs[i] == Some(results[n].vals) && visited[i].mts == results[n].mts
  }

  /** What the calculation leaves and gives, said of its visits. */
  ghost predicate IsCalculated<S(!new), V(!new), R(!new)>(calcItem: CalcItem<S, V, R>, s0: S, rows: seq<Row<V>>,
                                                          isReverse: bool, s: S, results: seq<Result<R>>)
  {
    exists visited, states, outs ::
      && IsRun(calcItem, s0, visited, states, outs) && AreVisited(rows, visited, isReverse)
      && states[|visited|] == s && AreGiven(visited, outs, results)
  }

  lemma RunGoesOn<S, V, R>(calcItem: CalcItem<S, V, R>, s0: S, visited: seq<Row<V>>, states: seq<S>,
                           outs: seq<Option<R>>, row: Row<V>)
    requires IsRun(calcItem, s0, visited, states, outs)
    ensures var (after, vals) := calcItem(states[|visited|], row);
            IsRun(calcItem, s0, visited + [row], states + [after], outs + [vals])
  {
  }

  lemma MoreIsGiven<V, R>(visited: seq<Row<V>>, outs: seq<Option<R>>, results: seq<Result<R>>, row: Row<V>,
                          vals: Option<R>, after: seq<Result<R>>)
    requires |outs| == |visited| && AreGiven(visited, outs, results)
    requires vals.None? ==> after == results
    requires vals.Some? ==>
               after == results + [Result(row.mts, vals.value)] || after == [Result(row.mts, vals.value)] + results
    ensures AreGiven(visited + [row], outs + [vals], after)
  {
    var vs, os := visited + [row], outs + [vals];
    forall n | 0 <= n < |after|
      ensures exists i :: 0 <= i < |os| && os[i] == Some(after[n].vals) && vs[i].mts == after[n].mts
    {
      if after[n] in results {
        var m :| 0 <= m < |results| && results[m] == after[n];
        var i :| 0 <= i < |outs| && outs[i] == Some(results[m].vals) && visited[i].mts == results[m].mts;
        assert os[i] == outs[i] && vs[i] == visited[i];
      } else {
        assert os[|outs|] == Some(after[n].vals) && vs[|outs|] == row;
      }
    }
  }

  lemma {:induction false} OldestFirstVisits<S, V, R>(calcItem: CalcItem<S, V, R>, s0: S, rows: seq<Row<V>>)
      returns (visited: seq<Row<V>>, states: seq<S>, outs: seq<Option<R>>)
    requires IsDescending(rows)
    ensures IsRun(calcItem, s0, visited, states, outs) && AreVisited(rows, visited, true)
    ensures states[|visited|] == OldestToNewest(calcItem, s0, rows).0
    ensures AreGiven(visited, outs, OldestToNewest(calcItem, s0, rows).1)
    decreases |rows|
  {
    visited, states, outs := [], [s0], [];
    if rows != [] {
      visited, states, outs := OldestFirstVisits(calcItem, s0, rows[1..]);
      var (before, results) := OldestToNewest(calcItem, s0, rows[1..]);
      var (after, vals) := calcItem(before, rows[0]);
      hide AreGiven, IsRun, AreVisited;
      RunGoesOn(calcItem, s0, visited, states, outs, rows[0]);
      MoreIsGiven(visited, outs, results, rows[0], vals, OldestToNewest(calcItem, s0, rows).1);
      NewestIsVisitedLast(rows, visited);
      StatesOf(calcItem, s0, visited, states, outs);
      visited, states, outs := visited + [rows[0]], states + [after], outs + [vals];
    }
  }

  lemma StatesOf<S, V, R>(calcItem: CalcItem<S, V, R>, s0: S, visited: seq<Row<V>>, states: seq<S>,
                          outs: seq<Option<R>>)
    requires IsRun(calcItem, s0, visited, states, outs)
    ensures |states| == |visited| + 1 && |outs| == |visited|
  {
  }

  lemma NewestIsVisitedLast<V>(rows: seq<Row<V>>, visited: seq<Row<V>>)
    requires IsDescending(rows) && rows != [] && AreVisited(rows[1..], visited, true)
    ensures AreVisited(rows, visited + [rows[0]], true)
  {
    assert rows == [rows[0]] + rows[1..];
    forall i | 0 <= i < |visited| ensures visited[i].mts < rows[0].mts {
      var k :| 0 <= k < |rows[1..]| && rows[1..][k] == visited[i];
      assert rows[k + 1] == visited[i];
    }
  }

  lemma {:induction false} NewestFirstVisits<S, V, R>(calcItem: CalcItem<S, V, R>, s0: S, rows: seq<Row<V>>)
      returns (states: seq<S>, outs: seq<Option<R>>)
    requires IsDescending(rows)
    ensures IsRun(calcItem, s0, rows, states, outs)
    ensures states[|rows|] == NewestToOldest(calcItem, s0, rows).0
    ensures AreGiven(rows, outs, NewestToOldest(calcItem, s0, rows).1)
    decreases |rows|
  {
    states, outs := [s0], [];
    if rows != [] {
      var last := |rows| - 1;
      states, outs := NewestFirstVisits(calcItem, s0, rows[..last]);
      var (before, results) := NewestToOldest(calcItem, s0, rows[..last]);
      var (after, vals) := calcItem(before, rows[last]);
      hide AreGiven, IsRun;
      RunGoesOn(calcItem, s0, rows[..last], states, outs, rows[last]);
      StatesOf(calcItem, s0, rows[..last], states, outs);
      MoreIsGiven(rows[..last], outs, results, rows[last], vals, NewestToOldest(calcItem, s0, rows).1);
      assert rows[..last] + [rows[last]] == rows;
      states, outs := states + [after], outs + [vals];
    }
  }

  lemma AreCalculated<S(!new), V(!new), R(!new)>(calcItem: CalcItem<S, V, R>, s0: S, rows: seq<Row<V>>, isReverse: bool)
    requires IsDescending(rows)
    ensures var (s, results) := if isReverse then OldestToNewest(calcItem, s0, rows)
                                else NewestToOldest(calcItem, s0, rows);
            IsCalculated(calcItem, s0, rows, isReverse, s, results)
  {
    hide AreGiven, IsRun, OldestToNewest, NewestToOldest;
    if isReverse {
      var visited, states, outs := OldestFirstVisits(calcItem, s0, rows);
    } else {
      var states, outs := NewestFirstVisits(calcItem, s0, rows);
      assert AreVisited(rows, rows, false);
    }
  }

  /** The calculation visits every row of the join once, in the order of time or against it, each time with
      the state that the visit before has left; its results are what these visits give, newest first. */
  method CalcGroupedData<S(!new), V(!new), R(!new)>(inputs: seq<seq<Item<V>>>, calcItem: CalcItem<S, V, R>, s0: S,
                                                    isReverse: bool)
    returns (s: S, results: seq<Result<R>>)
    ensures exists rows ::
              && IsJoin(inputs, Counts(inputs, MaxLength(inputs), 0), rows)
              && (s, results) == (if isReverse then OldestToNewest(calcItem, s0, rows)
                                  else NewestToOldest(calcItem, s0, rows))
              && IsCalculated(calcItem, s0, rows, isReverse, s, results)
              && forall t <- results :: HasMts(rows, t.mts)
    ensures AreDescending(results)
  {
    hide IsJoin, AreDescending;
    var data := MergeInputs(inputs);
    s, results := s0, [];
    if isReverse {
      for i := |data| downto 0
        invariant (s, results) == OldestToNewest(calcItem, s0, data[i..])
      {
        assert data[i..][0] == data[i] && data[i..][1..] == data[i + 1..];
        var (after, vals) := calcItem(s, data[i]);
        s := after;
        if vals.Some? { results := [Result(data[i].mts, vals.value)] + results; }
      }
      assert data[0..] == data;
    } else {
      for i := 0 to |data|
        invariant (s, results) == NewestToOldest(calcItem, s0, data[..i])
      {
        assert data[..i + 1][i] == data[i] && data[..i + 1][..i] == data[..i];
        var (after, vals) := calcItem(s, data[i]);
        s := after;
        if vals.Some? { results := results + [Result(data[i].mts, vals.value)]; }
      }
      assert data[..|data|] == data;
    }
    JoinDescends(inputs, Counts(inputs, MaxLength(inputs), 0), data);
    ResultsStayDescending(calcItem, s0, data);
    AreCalculated(calcItem, s0, data, isReverse);
  }

  // ----- Two calculations

  function Recorder<V>(): CalcItem<seq<Row<V>>, V, ()> { (seen: seq<Row<V>>, row: Row<V>) => (seen + [row], None) }

  lemma {:induction false} RecorderSees<V>(visited: seq<Row<V>>, states: seq<seq<Row<V>>>, outs: seq<Option<()>>,
                                           n: nat)
    requires IsRun(Recorder(), [], visited, states, outs) && n <= |visited|
    ensures states[n] == visited[..n]
  {
    if n > 0 {
      RecorderSees(visited, states, outs, n - 1);
      assert (states[n - 1 + 1], outs[n - 1]) == Recorder()(states[n - 1], visited[n - 1]);
      assert visited[..n] == visited[..n - 1] + [visited[n - 1]];
    }
  }

  /** A calculation that records the rows it is called with has seen, in the end, all rows in the order of
      time, or against it. */
  lemma RecorderSeesAll<V(!new)>(rows: seq<Row<V>>, isReverse: bool, seen: seq<Row<V>>, results: seq<Result<()>>)
    requires IsCalculated(Recorder(), [], rows, isReverse, seen, results)
    ensures AreVisited(rows, seen, isReverse)
  {
    hide AreVisited, AreGiven;
    var visited, states, outs :|
      && IsRun(Recorder(), [], visited, states, outs) && AreVisited(rows, visited, isReverse)
      && states[|visited|] == seen && AreGiven(visited, outs, results);
    RecorderSees(visited, states, outs, |visited|);
    assert visited[..|visited|] == visited;
  }

  /** A running sum over the values under the first input. */
  function Adder(): CalcItem<int, int, int>
  {
    (sum: int, row: Row<int>) => var next := sum + Cell(row, 0).GetOr(0); (next, Some(next))
  }

  const INPUTS: seq<seq<Item<int>>> := [[Item(Some(2), Some(5)), Item(Some(1), Some(3))]]
  const JOINED: seq<Row<int>> := [Row(2, map[0 := 5]), Row(1, map[0 := 3])]

  lemma TheJoin()
    ensures Counts(INPUTS, MaxLength(INPUTS), 0) == [2] && IsJoin(INPUTS, [2], JOINED)
  {
    var items := INPUTS[0];
    assert LastAt(items, 0, 2) == None && LastAt(items, 0, 1) == None;
    assert LastAt(items, 1, 2) == Some(5) && LastAt(items, 1, 1) == None;
    assert LastAt(items, 2, 2) == Some(5) && LastAt(items, 2, 1) == Some(3);
    assert Cell(JOINED[0], 0) == Some(5) && Cell(JOINED[1], 0) == Some(3);
    assert 0 in JOINED[0].vals && 0 in JOINED[1].vals;
    assert IsJoinedRow(INPUTS, [2], JOINED[0]) && IsJoinedRow(INPUTS, [2], JOINED[1]);
    assert HasMts(JOINED, JOINED[0].mts) && HasMts(JOINED, JOINED[1].mts);
    assert AreAllIn(items, 2, JOINED);
  }

  lemma Sums()
    ensures OldestToNewest(Adder(), 0, JOINED) == (8, [Result(2, 8), Result(1, 3)])
    ensures NewestToOldest(Adder(), 0, JOINED) == (8, [Result(2, 5), Result(1, 8)])
  {
    var newer, older := JOINED[0], JOINED[1];
    assert JOINED[1..] == [older] && JOINED[..1] == [newer] && [older][1..] == [] && [newer][..0] == [];
    assert Cell(newer, 0) == Some(5) && Cell(older, 0) == Some(3);
    assert OldestToNewest(Adder(), 0, []) == (0, []) && NewestToOldest(Adder(), 0, []) == (0, []);
    assert Adder()(0, older) == (3, Some(3)) && Adder()(3, newer) == (8, Some(8));
    assert Adder()(0, newer) == (5, Some(5)) && Adder()(5, older) == (8, Some(8));
    assert OldestToNewest(Adder(), 0, [older]).1 == [Result(1, 3)];
    assert NewestToOldest(Adder(), 0, [newer]).1 == [Result(2, 5)];
    assert OldestToNewest(Adder(), 0, JOINED).1 == [Result(2, 8), Result(1, 3)];
    assert NewestToOldest(Adder(), 0, JOINED).1 == [Result(2, 5), Result(1, 8)];
  }

  /** In the order of time the sum at the older moment is 3 and at the newer one 8. */
  method RunningSum(isReverse: bool) returns (results: seq<Result<int>>)
    ensures results == if isReverse then [Result(2, 8), Result(1, 3)] else [Result(2, 5), Result(1, 8)]
  {
    hide IsJoin, OldestToNewest, NewestToOldest, IsCalculated, Counts, MaxLength;
    TheJoin();
    Sums();
    var inputs := INPUTS;
    var s;
    s, results := CalcGroupedData(inputs, Adder(), 0, isReverse);
    forall rows | IsJoin(inputs, Counts(inputs, MaxLength(inputs), 0), rows) ensures rows == JOINED {
      JoinIsUnique(inputs, rows, JOINED);
    }
  }
}
