/** The first and the last group of a grouped list get the requested end and start as their moments. */
module SetMtsToFrames {
  import opened Wrappers
  import opened TimeFrames

  datatype GroupItem<V> = GroupItem(mts: int, vals: V)

  predicate IsNewestFirst<V>(data: seq<GroupItem<V>>)
  {
    forall j, k :: 0 <= j < k < |data| ==> data[j].mts > data[k].mts
  }

  /** Every group has a frame of its own, and later groups come first. */
  predicate HasOwnFrames<V>(cal: Calendar, tf: Timeframe, data: seq<GroupItem<V>>)
  {
    forall j, k :: 0 <= j < k < |data| ==> StartOf(cal, tf, data[j].mts) > StartOf(cal, tf, data[k].mts)
  }

  function MtsIfInTimeframe(cal: Calendar, tf: Timeframe, nativeMts: int, mts: int): int
  {
    if !IsText(tf) || StartOf(cal, tf, mts) == StartOf(cal, tf, nativeMts) then mts else nativeMts
  }

  /** The moment of group `k` afterwards. */
  function NewMts<V>(cal: Calendar, tf: Timeframe, data: seq<GroupItem<V>>, start: Option<int>, end: Option<int>,
                     k: nat): int
    requires k < |data|
  {
    if k == 0 && end.Some? then MtsIfInTimeframe(cal, tf, data[k].mts, end.value)
    else if k > 0 && k == |data| - 1 && start.Some? then MtsIfInTimeframe(cal, tf, data[k].mts, start.value)
    else data[k].mts
  }

  /** The first group gets the end, and the last one of several the start, exactly when the requested moment
      lies in the frame of the group or there is no named frame; every other moment stays. */
  lemma RewrittenExactly<V>(cal: Calendar, tf: Timeframe, data: seq<GroupItem<V>>, start: Option<int>,
                            end: Option<int>, k: nat)
    requires k < |data|
    ensures var native, moment := data[k].mts, NewMts(cal, tf, data, start, end, k);
            var asked := if k == 0 then end else if k == |data| - 1 then start else None;
            && (asked.Some? ==> (moment == asked.value <==> !IsText(tf) || IsInFrameOf(cal, tf, asked.value, native)))
            && (asked == None || moment != asked.value ==> moment == native)
  {
  }

  /** Whatever the frame is, a text that names none being taken for a year, both moments lie in it. */
  predicate IsInFrameOf(cal: Calendar, tf: Timeframe, a: int, b: int)
  {
    if tf.Named? then cal(Year, a) == cal(Year, b) else cal(tf, a) == cal(tf, b)
  }

  method SetMtsToStartingAndEndingFrames<V>(data: array<GroupItem<V>>, start: Option<int>, end: Option<int>,
                                            tf: Timeframe, cal: Calendar)
    modifies data
    ensures forall k :: 0 <= k < data.Length ==>
              data[k] == old(data[k]).(mts := NewMts(cal, tf, old(data[..]), start, end, k))
  {
    if data.Length == 0 { return; }
    if end.Some? {
      data[0] := data[0].(mts := MtsIfInTimeframe(cal, tf, data[0].mts, end.value));
    }
    var last := data.Length - 1;
    if start.Some? && data.Length > 1 {
      data[last] := data[last].(mts := MtsIfInTimeframe(cal, tf, data[last].mts, start.value));
    }
  }

  /** With a named time frame the list stays strictly newest first, and every moment stays in the frame
      of its group, wherever the requested start and end lie. */
  lemma OrderAndFramesStay<V>(cal: Calendar, tf: Timeframe, data: seq<GroupItem<V>>, start: Option<int>,
                              end: Option<int>, after: seq<GroupItem<V>>)
    requires IsCalendar(cal) && IsText(tf) && HasOwnFrames(cal, tf, data)
    requires |after| == |data|
    requires forall k :: 0 <= k < |data| ==> after[k] == data[k].(mts := NewMts(cal, tf, data, start, end, k))
    ensures IsNewestFirst(after) && HasOwnFrames(cal, tf, after)
    ensures forall k :: 0 <= k < |data| ==> StartOf(cal, tf, after[k].mts) == StartOf(cal, tf, data[k].mts)
    ensures forall k :: 0 <= k < |data| ==> after[k].vals == data[k].vals
  {
    hide NewMts, StartOf, IsCalendar;
    forall k | 0 <= k < |data| ensures StartOf(cal, tf, after[k].mts) == StartOf(cal, tf, data[k].mts) {
      FrameStays(cal, tf, data, start, end, k);
    }
    forall j, k | 0 <= j < k < |after| ensures after[j].mts > after[k].mts {
      assert StartOf(cal, tf, after[j].mts) > StartOf(cal, tf, after[k].mts);
      LaterFrameLaterMoment(cal, tf, after[j].mts, after[k].mts);
    }
  }

  lemma FrameStays<V>(cal: Calendar, tf: Timeframe, data: seq<GroupItem<V>>, start: Option<int>, end: Option<int>,
                      k: nat)
    requires IsText(tf) && k < |data|
    ensures StartOf(cal, tf, NewMts(cal, tf, data, start, end, k)) == StartOf(cal, tf, data[k].mts)
  {
  }

  lemma LaterFrameLaterMoment(cal: Calendar, tf: Timeframe, a: int, b: int)
    requires IsCalendar(cal) && StartOf(cal, tf, a) > StartOf(cal, tf, b)
    ensures a > b
  {
    var named := if tf.Named? then Year else tf;
    assert a <= b ==> cal(named, a) <= cal(named, b);
  }

  /** Without a named frame the order stays exactly when the requested moments fit between the others. */
  lemma OrderWithoutFrames<V>(cal: Calendar, tf: Timeframe, data: seq<GroupItem<V>>, start: int, end: int,
                              after: seq<GroupItem<V>>)
    requires !IsText(tf) && IsNewestFirst(data) && |data| > 1 && |after| == |data|
    requires forall k :: 0 <= k < |data| ==>
               after[k] == data[k].(mts := NewMts(cal, tf, data, Some(start), Some(end), k))
    ensures IsNewestFirst(after) <==>
              start < end && (|data| > 2 ==> end > data[1].mts && data[|data| - 2].mts > start)
  {
    var n := |data|;
    if IsNewestFirst(after) {
      assert after[0].mts > after[n - 1].mts;
      if n > 2 { assert after[0].mts > after[1].mts && after[n - 2].mts > after[n - 1].mts; }
    }
  }
}
