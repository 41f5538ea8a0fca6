/** Time frames and the moments they start at. The rules of the calendar are not modelled: a calendar
is any function that maps a moment to the start of its frame. */
module TimeFrames {
  /** `Named` stands for a text that names no frame; such a text is taken for a year where a frame is
      needed all the same. */
  datatype Timeframe = Day | Week | Month | Year | Named | Number(value: int) | Absent

  type Calendar = (Timeframe, int) -> int

  predicate IsTimeframe(tf: Timeframe) { tf in {Day, Week, Month, Year} }

  predicate IsText(tf: Timeframe) { IsTimeframe(tf) || tf.Named? }

  /** A frame starts no later than any of its moments, its start lies in it, and later moments lie in
      no earlier frames. */
  ghost predicate IsCalendar(cal: Calendar)
  {
    && (forall tf: Timeframe, t: int :: cal(tf, t) <= t && cal(tf, cal(tf, t)) == cal(tf, t))
    && (forall tf: Timeframe, t: int, u: int :: t <= u ==> cal(tf, t) <= cal(tf, u))
  }

  function StartOf(cal: Calendar, tf: Timeframe, mts: int): int { cal(if tf.Named? then Year else tf, mts) }
}
