/** Grouping a newest-first list by time frames, oldest frame first. */
module GroupByTimeframe {
  import opened Wrappers
  import opened TimeFrames
  import opened SetMtsToFrames

  /** A row; the date is absent when it is not an integer. */
  datatype Item = Item(date: Option<int>, value: real)

  /** `calcDataFn` with the state it keeps between its calls; it gives nothing for an empty object. */
  type Calc<!S, V> = (S, seq<Item>, Option<int>) -> (S, Option<V>)

  function Dated(data: seq<Item>): (r: seq<Item>)
    ensures forall t <- r :: t in data && t.date.Some?
  {
    if data == [] then []
    else (if data[0].date.Some? then [data[0]] else []) + Dated(data[1..])
  }

  /** The rows of one frame in their order. */
  function InFrame(cal: Calendar, tf: Timeframe, data: seq<Item>, frame: int): (r: seq<Item>)
    ensures forall t <- r :: t in data && t.date.Some? && cal(tf, t.date.value) == frame
  {
    if data == [] then []
    else
      (if data[0].date.Some? && cal(tf, data[0].date.value) == frame then [data[0]] else [])
      + InFrame(cal, tf, data[1..], frame)
  }

  predicate IsNewestFirstData(data: seq<Item>)
  {
    forall j, k :: 0 <= j < k < |data| && data[j].date.Some? && data[k].date.Some?
                   ==> data[j].date.value >= data[k].date.value
  }

  /** All rows of the calls, newest first; the calls come oldest first. */
  function Flat(calls: seq<seq<Item>>): seq<Item>
  {
    if calls == [] then [] else calls[|calls| - 1] + Flat(calls[..|calls| - 1])
  }

  predicate IsAscending(frames: seq<int>) { forall j, k :: 0 <= j < k < |frames| ==> frames[j] < frames[k] }

  function LastDate(rows: seq<Item>): Option<int> { if rows == [] then None else rows[|rows| - 1].date }

  function MtsOf(cal: Calendar, tf: Timeframe, rows: seq<Item>): Option<int>
  {
    if IsTimeframe(tf) then
      if LastDate(rows).Some? then Some(cal(tf, LastDate(rows).value)) else None
    else if tf.Number? then Some(tf.value)
    else LastDate(rows)
  }

  /** The state and the groups after the calls, the newest group first. */
  function Run<S, V>(cal: Calendar, tf: Timeframe, calcData: Calc<S, V>, s: S, calls: seq<seq<Item>>)
      : (S, seq<GroupItem<V>>)
  {
    if calls == [] then (s, [])
    else
      var k := |calls| - 1;
      var (before, groups) := Run(cal, tf, calcData, s, calls[..k]);
      var mts := MtsOf(cal, tf, calls[k]);
      var (after, vals) := calcData(before, calls[k], mts);
      (after, if mts.Some? && vals.Some? then [GroupItem(mts.value, vals.value)] + groups else groups)
  }

  /** The moment that a call is told: the start of the frame of its oldest row, the number given as the time
      frame, or the date of its oldest row. */
  predicate IsToldMts(cal: Calendar, tf: Timeframe, rows: seq<Item>, mts: Option<int>)
  {
    match tf
    case Number(value) => mts == Some(value)
    case Named => mts == if rows == [] then None else rows[|rows| - 1].date
    case Absent => mts == if rows == [] then None else rows[|rows| - 1].date
    case _ =>
      mts == if rows != [] && rows[|rows| - 1].date.Some? then Some(cal(tf, rows[|rows| - 1].date.value)) else None
  }

  /** The calculation goes through these states and gives these values, one call after the other. */
  ghost predicate AreCallsOf<S, V>(cal: Calendar, tf: Timeframe, calcData: Calc<S, V>, s0: S, calls: seq<seq<Item>>,
                                   states: seq<S>, mts: seq<Option<int>>, outs: seq<Option<V>>)
  {
    && |states| == |calls| + 1 && |mts| == |outs| == |calls| && states[0] == s0
    && forall i :: 0 <= i < |calls| ==>
         IsToldMts(cal, tf, calls[i], mts[i]) && (states[i + 1], outs[i]) == calcData(states[i], calls[i], mts[i])
  }

  /** The groups are what the calls with a moment have given. */
  ghost predicate AreGroupsOf<V>(mts: seq<Option<int>>, outs: seq<Option<V>>, groups: seq<GroupItem<V>>)
    requires |mts| == |outs|
  {
    && (forall i :: 0 <= i < |outs| && mts[i].Some? && outs[i].Some? ==>
          GroupItem(mts[i].value, outs[i].value) in groups)
    && forall n :: 0 <= n < |groups| ==>
         exists i :: 0 <= i < |outs| && outs[i] == Some(groups[n].vals) && mts[i] == Some(groups[n].mts)
  }

  /** What the calls leave and give. */
  ghost predicate IsResultOf<S(!new), V(!new)>(cal: Calendar, tf: Timeframe, calcData: Calc<S, V>, s0: S,
                                               calls: seq<seq<Item>>, s: S, groups: seq<GroupItem<V>>)
  {
    exists states, mts, outs ::
      && AreCallsOf(cal, tf, calcData, s0, calls, states, mts, outs)
      && states[|calls|] == s && AreGroupsOf(mts, outs, groups)
  }

  lemma OneCallMore<V>(mts: seq<Option<int>>, outs: seq<Option<V>>, groups: seq<GroupItem<V>>, m: Option<int>,
                       v: Option<V>)
    requires |mts| == |outs| && AreGroupsOf(mts, outs, groups)
    ensures m.Some? && v.Some? ==> AreGroupsOf(mts + [m], outs + [v], [GroupItem(m.value, v.value)] + groups)
    ensures m.None? || v.None? ==> AreGroupsOf(mts + [m], outs + [v], groups)
  {
    var ms, os := mts + [m], outs + [v];
    forall g | g in groups ensures exists i :: 0 <= i < |os| && os[i] == Some(g.vals) && ms[i] == Some(g.mts) {
      var n :| 0 <= n < |groups| && groups[n] == g;
      var i :| 0 <= i < |outs| && outs[i] == Some(groups[n].vals) && mts[i] == Some(groups[n].mts);
      assert os[i] == outs[i] && ms[i] == mts[i];
    }
    assert os[|outs|] == v && ms[|outs|] == m;
  }

  lemma CallsGoOn<S, V>(cal: Calendar, tf: Timeframe, calcData: Calc<S, V>, s0: S, calls: seq<seq<Item>>,
                        states: seq<S>, mts: seq<Option<int>>, outs: seq<Option<V>>, rows: seq<Item>)
    requires AreCallsOf(cal, tf, calcData, s0, calls, states, mts, outs)
    ensures var m := MtsOf(cal, tf, rows);
            var (after, v) := calcData(states[|calls|], rows, m);
            AreCallsOf(cal, tf, calcData, s0, calls + [rows], states + [after], mts + [m], outs + [v])
  {
    IsTold(cal, tf, rows);
    hide IsToldMts, MtsOf;
  }

  lemma IsTold(cal: Calendar, tf: Timeframe, rows: seq<Item>)
    ensures IsToldMts(cal, tf, rows, MtsOf(cal, tf, rows))
  {
  }

  lemma {:induction false} RunGoesOn<S, V>(cal: Calendar, tf: Timeframe, calcData: Calc<S, V>, s0: S,
                                           calls: seq<seq<Item>>)
      returns (states: seq<S>, mts: seq<Option<int>>, outs: seq<Option<V>>)
    ensures AreCallsOf(cal, tf, calcData, s0, calls, states, mts, outs)
    ensures states[|calls|] == Run(cal, tf, calcData, s0, calls).0
    ensures AreGroupsOf(mts, outs, Run(cal, tf, calcData, s0, calls).1)
    decreases |calls|
  {
    hide IsToldMts, MtsOf;
    states, mts, outs := [s0], [], [];
    if calls != [] {
      var k := |calls| - 1;
      states, mts, outs := RunGoesOn(cal, tf, calcData, s0, calls[..k]);
      var (before, groups) := Run(cal, tf, calcData, s0, calls[..k]);
      var m := MtsOf(cal, tf, calls[k]);
      var (after, v) := calcData(before, calls[k], m);
      hide AreGroupsOf;
      OneCallMore(mts, outs, groups, m, v);
      CallsGoOn(cal, tf, calcData, s0, calls[..k], states, mts, outs, calls[k]);
      assert calls[..k] + [calls[k]] == calls;
      states, mts, outs := states + [after], mts + [m], outs + [v];
    }
  }

  /** The run of any calls is a sequence of calls, each with the state that the one before has left. */
  lemma RunIsCalls<S(!new), V(!new)>(cal: Calendar, tf: Timeframe, calcData: Calc<S, V>, s0: S, calls: seq<seq<Item>>)
    ensures var (s, groups) := Run(cal, tf, calcData, s0, calls);
            IsResultOf(cal, tf, calcData, s0, calls, s, groups)
  {
    hide Run, AreGroupsOf, IsToldMts;
    var states, mts, outs := RunGoesOn(cal, tf, calcData, s0, calls);
  }

  /** `_checkTimeframe`: the next row, which is newer, lies in a later frame than the last of the rows. */
  predicate IsFrameOver(cal: Calendar, tf: Timeframe, next: Option<int>, rows: seq<Item>, isLastIter: bool)
  {
    || isLastIter
    || (next.Some? && LastDate(rows).Some? && cal(tf, next.value) > cal(tf, LastDate(rows).value))
  }

  // ----- No row is lost or counted twice

  lemma {:induction false} DatedOfBoth(a: seq<Item>, b: seq<Item>)
    ensures Dated(a + b) == Dated(a) + Dated(b)
  {
    if a == [] {
      assert a + b == b;
    } else {
      assert (a + b)[1..] == a[1..] + b;
      DatedOfBoth(a[1..], b);
    }
  }

  lemma {:induction false} InFrameOfBoth(cal: Calendar, tf: Timeframe, a: seq<Item>, b: seq<Item>, frame: int)
    ensures InFrame(cal, tf, a + b, frame) == InFrame(cal, tf, a, frame) + InFrame(cal, tf, b, frame)
  {
    if a == [] {
      assert a + b == b;
    } else {
      assert (a + b)[0] == a[0] && (a + b)[1..] == a[1..] + b;
      InFrameOfBoth(cal, tf, a[1..], b, frame);
      var head := if a[0].date.Some? && cal(tf, a[0].date.value) == frame then [a[0]] else [];
      var x, y := InFrame(cal, tf, a[1..], frame), InFrame(cal, tf, b, frame);
      assert head + (x + y) == (head + x) + y;
    }
  }

  lemma {:induction false} InFrameOfDated(cal: Calendar, tf: Timeframe, data: seq<Item>, frame: int)
    ensures InFrame(cal, tf, Dated(data), frame) == InFrame(cal, tf, data, frame)
  {
    if data != [] {
      InFrameOfDated(cal, tf, data[1..], frame);
      var rest := Dated(data[1..]);
      assert [] + rest == rest && ([data[0]] + rest)[1..] == rest;
    }
  }

  /** The calls are the frames of the data: each has rows, all of its own frame, and later calls have
      later frames. */
  predicate IsChain(cal: Calendar, tf: Timeframe, calls: seq<seq<Item>>, frames: seq<int>)
  {
    && |frames| == |calls| && IsAscending(frames)
    && forall k :: 0 <= k < |calls| ==> calls[k] != [] && AllInFrame(cal, tf, calls[k], frames[k])
  }

  predicate AllInFrame(cal: Calendar, tf: Timeframe, rows: seq<Item>, frame: int)
  {
    forall i :: 0 <= i < |rows| ==> rows[i].date.Some? && cal(tf, rows[i].date.value) == frame
  }

  lemma {:induction false} InFrameOfUniform(cal: Calendar, tf: Timeframe, rows: seq<Item>, frame: int, other: int)
    requires AllInFrame(cal, tf, rows, frame)
    ensures InFrame(cal, tf, rows, other) == if other == frame then rows else []
  {
    if rows != [] {
      assert AllInFrame(cal, tf, rows[1..], frame);
      InFrameOfUniform(cal, tf, rows[1..], frame, other);
      assert rows == [rows[0]] + rows[1..];
    }
  }

  lemma {:induction false} ChainHasFrame(cal: Calendar, tf: Timeframe, calls: seq<seq<Item>>, frames: seq<int>,
                                         frame: int)
    requires IsChain(cal, tf, calls, frames)
    ensures frame !in frames ==> InFrame(cal, tf, Flat(calls), frame) == []
    ensures forall k :: 0 <= k < |frames| && frames[k] == frame ==> InFrame(cal, tf, Flat(calls), frame) == calls[k]
  {
    hide InFrame, IsChain;
    if calls == [] {
      NoRows(cal, tf, frame);
      NoFrames(cal, tf, frames);
    } else {
      var last := |calls| - 1;
      ChainPrefix(cal, tf, calls, frames);
      ChainHasFrame(cal, tf, calls[..last], frames[..last], frame);
      InFrameOfUniform(cal, tf, calls[last], frames[last], frame);
      InFrameOfBoth(cal, tf, calls[last], Flat(calls[..last]), frame);
      assert frames == frames[..last] + [frames[last]];
    }
  }

  lemma NoFrames(cal: Calendar, tf: Timeframe, frames: seq<int>)
    requires IsChain(cal, tf, [], frames)
    ensures frames == []
  {
  }

  lemma ChainPrefix(cal: Calendar, tf: Timeframe, calls: seq<seq<Item>>, frames: seq<int>)
    requires IsChain(cal, tf, calls, frames) && calls != []
    ensures |frames| == |calls| && frames[|calls| - 1] !in frames[..|calls| - 1]
    ensures IsChain(cal, tf, calls[..|calls| - 1], frames[..|calls| - 1])
    ensures AllInFrame(cal, tf, calls[|calls| - 1], frames[|calls| - 1])
  {
  }

  lemma NoRows(cal: Calendar, tf: Timeframe, frame: int)
    ensures InFrame(cal, tf, [], frame) == []
  {
  }

  /** The rows of the calls being the dated rows of the data in their order, each call is made with
      exactly the rows of its frame, and every dated row has its frame among the calls. */
  lemma CallsAreFrames(cal: Calendar, tf: Timeframe, data: seq<Item>, calls: seq<seq<Item>>, frames: seq<int>)
    requires IsChain(cal, tf, calls, frames) && Flat(calls) == Dated(data)
    ensures forall k :: 0 <= k < |calls| ==> calls[k] == InFrame(cal, tf, data, frames[k])
    ensures forall t <- data :: t.date.Some? ==> cal(tf, t.date.value) in frames
  {
    hide InFrame, Dated, Flat;
    forall k | 0 <= k < |calls| ensures calls[k] == InFrame(cal, tf, data, frames[k]) {
      ChainHasFrame(cal, tf, calls, frames, frames[k]);
      InFrameOfDated(cal, tf, data, frames[k]);
    }
    forall t | t in data && t.date.Some? ensures cal(tf, t.date.value) in frames {
      ChainHasFrame(cal, tf, calls, frames, cal(tf, t.date.value));
      InFrameOfDated(cal, tf, data, cal(tf, t.date.value));
      RowIsInFrame(cal, tf, data, t);
    }
  }

  lemma {:induction false} RowIsInFrame(cal: Calendar, tf: Timeframe, data: seq<Item>, t: Item)
    requires t in data && t.date.Some?
    ensures t in InFrame(cal, tf, data, cal(tf, t.date.value))
  {
    if data[0] != t {
      assert t in data[1..];
      RowIsInFrame(cal, tf, data[1..], t);
    }
  }

  // ----- The frames of the data

  /** The distinct frames of newest-first data, oldest first. */
  function Frames(cal: Calendar, tf: Timeframe, data: seq<Item>): seq<int>
  {
    if data == [] then []
    else
      var rest := Frames(cal, tf, data[1..]);
      if data[0].date.Some? && cal(tf, data[0].date.value) !in rest then rest + [cal(tf, data[0].date.value)] else rest
  }

  /** For every frame the rows it has. */
  function FrameCalls(cal: Calendar, tf: Timeframe, data: seq<Item>): (r: seq<seq<Item>>)
    ensures |r| == |Frames(cal, tf, data)|
    ensures forall k :: 0 <= k < |r| ==> r[k] == InFrame(cal, tf, data, Frames(cal, tf, data)[k])
  {
    var frames := Frames(cal, tf, data);
    seq(|frames|, k requires 0 <= k < |frames| => InFrame(cal, tf, data, frames[k]))
  }

  lemma {:induction false} FramesAscend(cal: Calendar, tf: Timeframe, data: seq<Item>)
    requires IsCalendar(cal) && IsNewestFirstData(data)
    ensures IsAscending(Frames(cal, tf, data))
    ensures forall k :: 0 <= k < |Frames(cal, tf, data)| ==> IsFrameOfSome(cal, tf, data, Frames(cal, tf, data)[k])
    ensures forall f :: f in Frames(cal, tf, data) <==> IsFrameOfSome(cal, tf, data, f)
  {
    hide IsAscending, IsCalendar, IsNewestFirstData, IsFrameOfSome;
    if data == [] {
      NoFrameOfNone(cal, tf);
    } else {
      TailIsNewestFirst(data);
      FramesAscend(cal, tf, data[1..]);
      var rest := Frames(cal, tf, data[1..]);
      forall f ensures IsFrameOfSome(cal, tf, data, f)
                       <==> IsFrameOfSome(cal, tf, data[1..], f)
                            || (data[0].date.Some? && f == cal(tf, data[0].date.value))
      {
        FrameOfHead(cal, tf, data, f);
      }
      if data[0].date.Some? && cal(tf, data[0].date.value) !in rest {
        forall k | 0 <= k < |rest| ensures rest[k] < cal(tf, data[0].date.value) {
          assert rest[k] in rest;
          HeadIsLatest(cal, tf, data, rest[k]);
        }
        AscendingWith(rest, cal(tf, data[0].date.value));
      }
    }
  }

  predicate IsFrameOfSome(cal: Calendar, tf: Timeframe, data: seq<Item>, frame: int)
  {
    exists k :: 0 <= k < |data| && data[k].date.Some? && cal(tf, data[k].date.value) == frame
  }

  lemma NoFrameOfNone(cal: Calendar, tf: Timeframe)
    ensures IsAscending([]) && forall f :: !IsFrameOfSome(cal, tf, [], f)
  {
  }

  lemma TailIsNewestFirst(data: seq<Item>)
    requires IsNewestFirstData(data) && data != []
    ensures IsNewestFirstData(data[1..])
  {
  }

  lemma AscendingWith(frames: seq<int>, f: int)
    requires IsAscending(frames) && forall k :: 0 <= k < |frames| ==> frames[k] < f
    ensures IsAscending(frames + [f])
  {
  }

  lemma FrameOfHead(cal: Calendar, tf: Timeframe, data: seq<Item>, f: int)
    requires data != []
    ensures IsFrameOfSome(cal, tf, data, f)
            <==> IsFrameOfSome(cal, tf, data[1..], f) || (data[0].date.Some? && f == cal(tf, data[0].date.value))
  {
    if IsFrameOfSome(cal, tf, data[1..], f) {
      var k :| 0 <= k < |data[1..]| && data[1..][k].date.Some? && cal(tf, data[1..][k].date.value) == f;
      assert data[k + 1] == data[1..][k];
    }
    if IsFrameOfSome(cal, tf, data, f) {
      var k :| 0 <= k < |data| && data[k].date.Some? && cal(tf, data[k].date.value) == f;
      assert k > 0 ==> data[1..][k - 1] == data[k];
    }
  }

  lemma HeadIsLatest(cal: Calendar, tf: Timeframe, data: seq<Item>, f: int)
    requires IsCalendar(cal) && IsNewestFirstData(data) && data != [] && data[0].date.Some?
    requires IsFrameOfSome(cal, tf, data[1..], f)
    ensures f <= cal(tf, data[0].date.value)
  {
    var k :| 0 <= k < |data[1..]| && data[1..][k].date.Some? && cal(tf, data[1..][k].date.value) == f;
    assert data[1..][k] == data[k + 1];
    assert cal(tf, data[k + 1].date.value) <= cal(tf, data[0].date.value);
  }

  predicate AreAmong(a: seq<int>, b: seq<int>) { forall k :: 0 <= k < |a| ==> a[k] in b }

  lemma {:induction false} SameAscending(a: seq<int>, b: seq<int>)
    requires IsAscending(a) && IsAscending(b) && AreAmong(a, b) && AreAmong(b, a)
    ensures a == b
    decreases |a|
  {
    if a == [] || b == [] {
      NoneAmongNone(a, b);
      NoneAmongNone(b, a);
    } else {
      var x, y := |a| - 1, |b| - 1;
      LastIsAtMost(a, b);
      LastIsAtMost(b, a);
      InitsAreAmong(a, b);
      InitsAreAmong(b, a);
      SameAscending(a[..x], b[..y]);
      assert a == a[..x] + [a[x]] && b == b[..y] + [b[y]];
    }
  }

  lemma NoneAmongNone(a: seq<int>, b: seq<int>)
    requires AreAmong(a, b)
    ensures a != [] ==> a[0] in b && b != []
  {
  }

  lemma LastIsAtMost(a: seq<int>, b: seq<int>)
    requires IsAscending(b) && AreAmong(a, b) && a != [] && b != []
    ensures a[|a| - 1] <= b[|b| - 1]
  {
  }

  lemma InitsAreAmong(a: seq<int>, b: seq<int>)
    requires IsAscending(a) && AreAmong(a, b) && a != [] && b != [] && a[|a| - 1] == b[|b| - 1]
    ensures AreAmong(a[..|a| - 1], b[..|b| - 1]) && IsAscending(a[..|a| - 1])
  {
    forall k | 0 <= k < |a| - 1 ensures a[k] in b[..|b| - 1] {
      var x := a[k];
      assert x in b && x < a[|a| - 1];
      var j :| 0 <= j < |b| && b[j] == x;
      assert b[..|b| - 1][j] == x;
    }
  }

  /** Calls that have one frame each, ascending, and make up the dated rows are those of the frames of
      the data. */
  lemma ChainIsFrames(cal: Calendar, tf: Timeframe, data: seq<Item>, calls: seq<seq<Item>>, frames: seq<int>)
    requires IsCalendar(cal) && IsNewestFirstData(data)
    requires IsChain(cal, tf, calls, frames) && Flat(calls) == Dated(data)
    ensures frames == Frames(cal, tf, data) && calls == FrameCalls(cal, tf, data)
  {
    hide InFrame, Dated, Flat, IsCalendar, IsNewestFirstData, IsFrameOfSome, Frames, IsAscending;
    CallsAreFrames(cal, tf, data, calls, frames);
    FramesAscend(cal, tf, data);
    ChainsHaveRows(cal, tf, calls, frames);
    var all := Frames(cal, tf, data);
    forall k | 0 <= k < |frames| ensures frames[k] in all {
      assert calls[k][0] in calls[k];
      RowHasFrame(cal, tf, data, calls[k][0]);
    }
    forall k | 0 <= k < |all| ensures all[k] in frames {
      FrameIsIn(cal, tf, data, frames, all[k]);
    }
    SameAscending(frames, all);
  }

  lemma RowHasFrame(cal: Calendar, tf: Timeframe, data: seq<Item>, t: Item)
    requires t in data && t.date.Some?
    ensures IsFrameOfSome(cal, tf, data, cal(tf, t.date.value))
  {
  }

  lemma FrameIsIn(cal: Calendar, tf: Timeframe, data: seq<Item>, frames: seq<int>, f: int)
    requires forall t <- data :: t.date.Some? ==> cal(tf, t.date.value) in frames
    ensures IsFrameOfSome(cal, tf, data, f) ==> f in frames
  {
  }

  function Total(rows: seq<Item>): real { if rows == [] then 0.0 else rows[0].value + Total(rows[1..]) }

  function TotalOfCalls(calls: seq<seq<Item>>): real
  {
    if calls == [] then 0.0 else TotalOfCalls(calls[..|calls| - 1]) + Total(calls[|calls| - 1])
  }

  lemma {:induction false} TotalOfBoth(a: seq<Item>, b: seq<Item>)
    ensures Total(a + b) == Total(a) + Total(b)
  {
    if a == [] {
      assert a + b == b;
    } else {
      assert (a + b)[1..] == a[1..] + b;
      TotalOfBoth(a[1..], b);
    }
  }

  /** Sums over the groups make the sum over the data. */
  lemma {:induction false} GroupsAddUp(calls: seq<seq<Item>>)
    ensures TotalOfCalls(calls) == Total(Flat(calls))
  {
    if calls != [] {
      var last := |calls| - 1;
      GroupsAddUp(calls[..last]);
      TotalOfBoth(calls[last], Flat(calls[..last]));
    }
  }

  // ----- The groups

  lemma {:induction false} GroupsHaveOwnFrames<S, V>(cal: Calendar, tf: Timeframe, calcData: Calc<S, V>, s: S,
                                                     calls: seq<seq<Item>>, frames: seq<int>)
    requires IsCalendar(cal) && IsTimeframe(tf) && IsChain(cal, tf, calls, frames)
    ensures var groups := Run(cal, tf, calcData, s, calls).1;
            && HasOwnFrames(cal, tf, groups)
            && forall k :: 0 <= k < |groups| ==> groups[k].mts in frames && cal(tf, groups[k].mts) == groups[k].mts
  {
    hide IsCalendar, IsChain, MtsOf, HasOwnFrames;
    if calls == [] {
      NoGroups<V>(cal, tf);
    } else {
      var last := |calls| - 1;
      ChainPrefix(cal, tf, calls, frames);
      ChainsHaveRows(cal, tf, calls, frames);
      GroupsHaveOwnFrames(cal, tf, calcData, s, calls[..last], frames[..last]);
      LastCallMts(cal, tf, calls, frames);
      var groups := Run(cal, tf, calcData, s, calls[..last]).1;
      forall k | 0 <= k < |groups| ensures groups[k].mts in frames && groups[k].mts < frames[last] {
        var j :| 0 <= j < last && frames[j] == groups[k].mts;
      }
      var vals := calcData(Run(cal, tf, calcData, s, calls[..last]).0, calls[last], Some(frames[last])).1;
      if vals.Some? { LaterGroupFirst(cal, tf, GroupItem(frames[last], vals.value), groups); }
    }
  }

  lemma NoGroups<V>(cal: Calendar, tf: Timeframe)
    ensures HasOwnFrames<V>(cal, tf, [])
  {
  }

  lemma LaterGroupFirst<V>(cal: Calendar, tf: Timeframe, g: GroupItem<V>, groups: seq<GroupItem<V>>)
    requires IsTimeframe(tf) && HasOwnFrames(cal, tf, groups) && cal(tf, g.mts) == g.mts
    requires forall k :: 0 <= k < |groups| ==> groups[k].mts < g.mts && cal(tf, groups[k].mts) == groups[k].mts
    ensures HasOwnFrames(cal, tf, [g] + groups)
  {
  }

  lemma LastCallMts(cal: Calendar, tf: Timeframe, calls: seq<seq<Item>>, frames: seq<int>)
    requires IsCalendar(cal) && IsTimeframe(tf) && IsChain(cal, tf, calls, frames) && calls != []
    ensures MtsOf(cal, tf, calls[|calls| - 1]) == Some(frames[|calls| - 1])
    ensures cal(tf, frames[|calls| - 1]) == frames[|calls| - 1]
  {
    var rows := calls[|calls| - 1];
    assert rows[|rows| - 1].date.Some?;
    var date := rows[|rows| - 1].date.value;
    assert cal(tf, cal(tf, date)) == cal(tf, date);
  }

  // ----- The loop

  /** What is being collected has one frame, later than the frames of the calls, and the next row, if
      it is dated, belongs to it; with nothing collected the next row opens a later frame. */
  ghost predicate IsOpen(cal: Calendar, tf: Timeframe, data: seq<Item>, i: nat, rows: seq<Item>, calls: seq<seq<Item>>,
                         frames: seq<int>)
    requires i <= |data|
  {
    && IsChain(cal, tf, calls, frames)
    && (forall t <- rows :: t in data[i..] && t.date.Some?)
    && (rows != [] ==>
          && var frame := cal(tf, rows[|rows| - 1].date.value);
          && AllInFrame(cal, tf, rows, frame)
          && (frames != [] ==> frames[|frames| - 1] < frame)
          && (i > 0 && data[i - 1].date.Some? ==> cal(tf, data[i - 1].date.value) == frame))
    && (rows == [] && calls != [] ==>
          && i > 0 && data[i - 1].date.Some?
          && frames[|frames| - 1] < cal(tf, data[i - 1].date.value))
  }

  function DateBefore(data: seq<Item>, i: nat): Option<int>
    requires i <= |data|
  {
    if i > 0 then data[i - 1].date else None
  }

  function WithRow(rows: seq<Item>, t: Item): seq<Item> { if t.date.Some? then [t] + rows else rows }

  function FrameOf(cal: Calendar, tf: Timeframe, rows: seq<Item>): int
  {
    if LastDate(rows).Some? then cal(tf, LastDate(rows).value) else 0
  }

  lemma RowJoins(cal: Calendar, tf: Timeframe, data: seq<Item>, i: nat, rows: seq<Item>, calls: seq<seq<Item>>,
                 frames: seq<int>)
    requires IsCalendar(cal) && i < |data| && IsNewestFirstData(data)
    requires IsOpen(cal, tf, data, i + 1, rows, calls, frames)
    ensures var after := WithRow(rows, data[i]);
            && (forall t <- after :: t in data[i..] && t.date.Some?)
            && (after == [] ==> calls == [])
            && (after != [] ==>
                  && AllInFrame(cal, tf, after, FrameOf(cal, tf, after))
                  && (frames != [] ==> frames[|frames| - 1] < FrameOf(cal, tf, after)))
  {
    hide IsCalendar, IsChain, IsNewestFirstData;
    assert data[i..] == [data[i]] + data[i + 1..];
    var after := WithRow(rows, data[i]);
    ChainIsEven(cal, tf, calls, frames);
    if rows != [] {
      assert after[|after| - 1] == rows[|rows| - 1];
      assert LastDate(after) == LastDate(rows);
    }
  }

  lemma ChainIsEven(cal: Calendar, tf: Timeframe, calls: seq<seq<Item>>, frames: seq<int>)
    requires IsChain(cal, tf, calls, frames)
    ensures |frames| == |calls|
  {
  }

  lemma NextIsNoEarlier(cal: Calendar, tf: Timeframe, data: seq<Item>, i: nat, rows: seq<Item>)
    requires IsCalendar(cal) && 0 < i <= |data| && IsNewestFirstData(data) && data[i - 1].date.Some?
    requires rows != [] && forall t <- rows :: t in data[i..] && t.date.Some?
    ensures cal(tf, data[i - 1].date.value) >= FrameOf(cal, tf, rows)
  {
    var last := rows[|rows| - 1];
    assert last in rows;
    var k :| i <= k < |data| && data[k] == last;
    assert last.date.value <= data[i - 1].date.value;
    assert cal(tf, last.date.value) <= cal(tf, data[i - 1].date.value);
  }

  lemma ChainGrows(cal: Calendar, tf: Timeframe, rows: seq<Item>, calls: seq<seq<Item>>, frames: seq<int>)
    requires IsChain(cal, tf, calls, frames) && rows != [] && AllInFrame(cal, tf, rows, FrameOf(cal, tf, rows))
    requires frames != [] ==> frames[|frames| - 1] < FrameOf(cal, tf, rows)
    ensures IsChain(cal, tf, calls + [rows], frames + [FrameOf(cal, tf, rows)])
  {
    hide AllInFrame;
  }

  /** One turn of the loop keeps the calls the frames of what has been passed. */
  lemma TurnKeepsOpen(cal: Calendar, tf: Timeframe, data: seq<Item>, i: nat, rows: seq<Item>, calls: seq<seq<Item>>,
                      frames: seq<int>)
    requires IsCalendar(cal) && i < |data| && IsNewestFirstData(data)
    requires IsOpen(cal, tf, data, i + 1, rows, calls, frames)
    ensures var after := WithRow(rows, data[i]);
            if !IsFrameOver(cal, tf, DateBefore(data, i), after, i == 0) then
              IsOpen(cal, tf, data, i, after, calls, frames)
            else
              && (after != [] ==> IsChain(cal, tf, calls + [after], frames + [FrameOf(cal, tf, after)]))
              && (i > 0 ==>
                      after != [] && IsOpen(cal, tf, data, i, [], calls + [after], frames + [FrameOf(cal, tf, after)]))
              && (after == [] ==> calls == [])
  {
    hide IsCalendar, IsChain, IsNewestFirstData, AllInFrame;
    var after := WithRow(rows, data[i]);
    RowJoins(cal, tf, data, i, rows, calls, frames);
    if after != [] {
      ChainGrows(cal, tf, after, calls, frames);
      if i > 0 && data[i - 1].date.Some? { NextIsNoEarlier(cal, tf, data, i, after); }
    }
  }

  predicate IsOver(cal: Calendar, tf: Timeframe, data: seq<Item>, i: nat, rows: seq<Item>)
    requires i < |data|
  {
    if IsTimeframe(tf) then IsFrameOver(cal, tf, DateBefore(data, i), rows, i == 0) else i == 0
  }

  lemma DatedFrom(data: seq<Item>, i: nat, rows: seq<Item>)
    requires i < |data|
    ensures Dated(data[i..]) == (if data[i].date.Some? then [data[i]] else []) + Dated(data[i + 1..])
    ensures WithRow(rows, data[i]) == (if data[i].date.Some? then [data[i]] else []) + rows
  {
    assert data[i..][1..] == data[i + 1..];
    assert [] + rows == rows;
  }

  lemma FlatWith(calls: seq<seq<Item>>, rows: seq<Item>)
    ensures Flat(calls + [rows]) == rows + Flat(calls)
  {
    assert (calls + [rows])[..|calls|] == calls;
  }

  lemma RunWith<S, V>(cal: Calendar, tf: Timeframe, calcData: Calc<S, V>, s: S, calls: seq<seq<Item>>, rows: seq<Item>)
    ensures var before := Run(cal, tf, calcData, s, calls);
            var mts := MtsOf(cal, tf, rows);
            var r := calcData(before.0, rows, mts);
            Run(cal, tf, calcData, s, calls + [rows])
            == (r.0, if mts.Some? && r.1.Some? then [GroupItem(mts.value, r.1.value)] + before.1 else before.1)
  {
    assert (calls + [rows])[..|calls|] == calls;
  }

  ghost predicate AreFramesSoFar(cal: Calendar, tf: Timeframe, data: seq<Item>, i: nat, rows: seq<Item>,
                                 calls: seq<seq<Item>>, frames: seq<int>)
    requires i <= |data|
  {
    IsTimeframe(tf) && IsCalendar(cal) && IsNewestFirstData(data) ==>
      if i > 0 then IsOpen(cal, tf, data, i, rows, calls, frames)
      else Dated(data[i..]) != [] ==> IsChain(cal, tf, calls, frames)
  }

  lemma TurnKeepsFrames(cal: Calendar, tf: Timeframe, data: seq<Item>, i: nat, rows: seq<Item>, calls: seq<seq<Item>>,
                        frames: seq<int>)
    requires i < |data| && rows + Flat(calls) == Dated(data[i + 1..])
    requires AreFramesSoFar(cal, tf, data, i + 1, rows, calls, frames)
    ensures var after := WithRow(rows, data[i]);
            if IsOver(cal, tf, data, i, after) then
              AreFramesSoFar(cal, tf, data, i, [], calls + [after], frames + [FrameOf(cal, tf, after)])
            else AreFramesSoFar(cal, tf, data, i, after, calls, frames)
  {
    hide IsCalendar, IsNewestFirstData, IsOpen, IsChain, Dated, FrameOf;
    if IsTimeframe(tf) && IsCalendar(cal) && IsNewestFirstData(data) {
      TurnKeepsOpen(cal, tf, data, i, rows, calls, frames);
      DatedFrom(data, i, rows);
    }
  }

  lemma AllFrames(cal: Calendar, tf: Timeframe, data: seq<Item>, calls: seq<seq<Item>>, frames: seq<int>)
    requires AreFramesSoFar(cal, tf, data, 0, [], calls, frames)
    requires IsTimeframe(tf) && IsCalendar(cal) && IsNewestFirstData(data) && Dated(data) != []
    ensures IsChain(cal, tf, calls, frames)
  {
    assert data[0..] == data;
  }

  lemma WhenOver(cal: Calendar, tf: Timeframe, data: seq<Item>, i: nat, rows: seq<Item>)
    requires i < |data|
    ensures i == 0 ==> IsOver(cal, tf, data, i, rows)
    ensures i > 0 && (rows == [] || !IsTimeframe(tf)) ==> !IsOver(cal, tf, data, i, rows)
  {
  }

  method CollectGroups<S, V>(data: seq<Item>, tf: Timeframe, cal: Calendar, calcData: Calc<S, V>, s0: S)
    returns (s: S, res: seq<GroupItem<V>>, ghost calls: seq<seq<Item>>, ghost frames: seq<int>)
    requires data != []
    ensures (s, res) == Run(cal, tf, calcData, s0, calls) && Flat(calls) == Dated(data)
    ensures !IsTimeframe(tf) || Dated(data) == [] ==> calls == [Dated(data)]
    ensures IsTimeframe(tf) && IsCalendar(cal) && IsNewestFirstData(data) && Dated(data) != [] ==>
              IsChain(cal, tf, calls, frames)
  {
    hide AreFramesSoFar, IsChain, IsNewestFirstData, IsCalendar, Dated, Flat, Run, MtsOf, WithRow, IsOver;
    s, res, calls, frames := s0, [], [], [];
    var subRes: seq<Item> := [];
    StartIsOpen<S, V>(cal, tf, data, calcData, s0);
    for i := |data| downto 0
      invariant (s, res) == Run(cal, tf, calcData, s0, calls)
      invariant subRes + Flat(calls) == Dated(data[i..])
      invariant !IsTimeframe(tf) ==> |calls| == if i > 0 then 0 else 1
      invariant i == 0 ==> subRes == [] && calls != []
      invariant Dated(data[i..]) == [] ==> calls == if i > 0 then [] else [[]]
      invariant AreFramesSoFar(cal, tf, data, i, subRes, calls, frames)
    {
      DatedFrom(data, i, subRes);
      TurnKeepsFrames(cal, tf, data, i, subRes, calls, frames);
      subRes := WithRow(subRes, data[i]);
      WhenOver(cal, tf, data, i, subRes);
      if IsOver(cal, tf, data, i, subRes) {
        var mts := MtsOf(cal, tf, subRes);
        RunWith(cal, tf, calcData, s0, calls, subRes);
        FlatWith(calls, subRes);
        var (after, vals) := calcData(s, subRes, mts);
        s := after;
        if mts.Some? && vals.Some? { res := [GroupItem(mts.value, vals.value)] + res; }
        calls, frames := calls + [subRes], frames + [FrameOf(cal, tf, subRes)];
        subRes := [];
      }
    }
    assert data[0..] == data;
    assert Flat(calls) == Dated(data);
    if |calls| == 1 { FlatOfOne(calls); }
    if IsTimeframe(tf) && IsCalendar(cal) && IsNewestFirstData(data) && Dated(data) != [] {
      AllFrames(cal, tf, data, calls, frames);
    }
  }

  lemma FlatOfOne(calls: seq<seq<Item>>)
    requires |calls| == 1
    ensures calls == [Flat(calls)]
  {
    assert calls[..0] == [] && calls[0] + [] == calls[0];
  }

  lemma StartIsOpen<S, V>(cal: Calendar, tf: Timeframe, data: seq<Item>, calcData: Calc<S, V>, s: S)
    requires data != []
    ensures AreFramesSoFar(cal, tf, data, |data|, [], [], [])
    ensures Run(cal, tf, calcData, s, []) == (s, [])
    ensures Flat([]) == [] && Dated(data[|data|..]) == []
  {
  }

  /** The calculation is called on the dated rows, split into consecutive parts, oldest part first; for
      newest-first data and a named frame that is once per distinct frame, oldest frame first, with
      exactly the rows of the frame in their order, and the groups come out strictly newest first. */
  method GroupByTimeframe<S(!new), V(!new)>(data: seq<Item>, tf: Timeframe, start: Option<int>, end: Option<int>,
                                            cal: Calendar, calcData: Calc<S, V>, s0: S)
    returns (s: S, res: seq<GroupItem<V>>)
    ensures exists calls, groups ::
              && Flat(calls) == Dated(data) && (s, groups) == Run(cal, tf, calcData, s0, calls)
              && IsResultOf(cal, tf, calcData, s0, calls, s, groups)
              && (data == [] ==> calls == [])
              && (data != [] && (!IsTimeframe(tf) || Dated(data) == []) ==> calls == [Dated(data)])
              && (IsTimeframe(tf) && IsCalendar(cal) && IsNewestFirstData(data) && Dated(data) != []
                  ==> calls == FrameCalls(cal, tf, data))
              && IsDelimited(cal, tf, start, end, groups, res)
    ensures IsTimeframe(tf) && IsCalendar(cal) && IsNewestFirstData(data) && Dated(data) != [] ==>
              && IsNewestFirst(res) && HasOwnFrames(cal, tf, res)
              && forall k :: 0 <= k < |res| ==> IsFrameOfSome(cal, tf, data, cal(tf, res[k].mts))
  {
    hide InFrame, Dated, Flat, Run, IsCalendar, IsNewestFirstData, IsNewestFirst, HasOwnFrames, NewMts, IsAscending,
         FrameCalls, IsFrameOfSome, IsChain, Frames, IsResultOf;
    if data == [] {
      Nothing<S, V>(cal, tf, calcData, s0);
      RunIsCalls<S, V>(cal, tf, calcData, s0, []);
      assert IsDelimited<V>(cal, tf, start, end, [], []);
      return s0, [];
    }
    ghost var calls, frames;
    s, res, calls, frames := CollectGroups(data, tf, cal, calcData, s0);
    var groups := new GroupItem<V>[|res|](k requires 0 <= k < |res| => res[k]);
    assert groups[..] == res;
    ghost var before := res;
    RunIsCalls(cal, tf, calcData, s0, calls);
    SetMtsToStartingAndEndingFrames(groups, start, end, tf, cal);
    res := groups[..];
    assert IsDelimited(cal, tf, start, end, before, res);
    if IsTimeframe(tf) && IsCalendar(cal) && IsNewestFirstData(data) && Dated(data) != [] {
      ChainIsFrames(cal, tf, data, calls, frames);
      FramesAscend(cal, tf, data);
      GroupsHaveOwnFrames(cal, tf, calcData, s0, calls, frames);
      OrderAndFramesStay(cal, tf, before, start, end, res);
    }
  }

  /** `res` is `groups` with the moments of the first and the last one rewritten. */
  ghost predicate IsDelimited<V>(cal: Calendar, tf: Timeframe, start: Option<int>, end: Option<int>,
                                 groups: seq<GroupItem<V>>, res: seq<GroupItem<V>>)
  {
    && |res| == |groups|
    && forall k :: 0 <= k < |res| ==> res[k] == groups[k].(mts := NewMts(cal, tf, groups, start, end, k))
  }

  lemma ChainsHaveRows(cal: Calendar, tf: Timeframe, calls: seq<seq<Item>>, frames: seq<int>)
    requires IsChain(cal, tf, calls, frames)
    ensures |frames| == |calls| && IsAscending(frames) && forall k :: 0 <= k < |calls| ==> calls[k] != []
  {
  }

  lemma Nothing<S, V>(cal: Calendar, tf: Timeframe, calcData: Calc<S, V>, s: S)
    ensures Run(cal, tf, calcData, s, []) == (s, []) && Flat([]) == Dated([]) == []
  {
  }
}
