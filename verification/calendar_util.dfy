/**
 * The formatting helper of the dialog. A point in time is reduced to the
 * minutes elapsed since midnight, in [0, 1440): the `HH:mm` text depends on
 * nothing else, and a shift across midnight only changes the day.
 */
module CalendarUtil {
  import opened Wrappers
  import opened Decimal

  const MinutesPerDay: int := 1440

  predicate IsTimeOfDay(t: int) {
    0 <= t < MinutesPerDay
  }

  /**
   * The time of day that a lenient calendar shows after `delta` minutes are
   * added to `t` (negative `delta` subtracts): the one congruent to `t + delta`.
   */
  function AddMinutes(t: int, delta: int): (r: int)
    ensures IsTimeOfDay(r)
    ensures (r - (t + delta)) % MinutesPerDay == 0
  {
    (t + delta) % MinutesPerDay
  }

  /**
   * The time of day of a calendar whose hour of day and minute are set to
   * `hour` and `minute` (a lenient calendar carries overflow into the day).
   */
  function TimeAt(hour: int, minute: int): (t: int)
    ensures IsTimeOfDay(t)
    ensures 0 <= hour < 24 && 0 <= minute < 60 ==> t == hour * 60 + minute
  {
    AddMinutes(0, hour * 60 + minute)
  }

  /** `getTimeString`: the `HH:mm` pattern, a zero-padded 24-hour clock. */
  function TimeString(t: int): (s: string)
    requires IsTimeOfDay(t)
    ensures |s| == 5 && s[2] == ':'
    ensures AllDigits(s[..2]) && ParseNat(s[..2]) == t / 60 < 24
    ensures AllDigits(s[3..]) && ParseNat(s[3..]) == t % 60
  {
    var s := TwoDigits(t / 60) + ":" + TwoDigits(t % 60);
    assert s[..2] == TwoDigits(t / 60);
    assert s[3..] == TwoDigits(t % 60);
    s
  }

  /** Reads `HH:mm` back to minutes since midnight; `None` for any other text. */
  function ParseTime(s: string): (r: Option<int>)
    ensures r.Some? ==> IsTimeOfDay(r.value)
  {
    if |s| == 5 && s[2] == ':' && AllDigits(s[..2]) && AllDigits(s[3..])
       && ParseNat(s[..2]) < 24 && ParseNat(s[3..]) < 60
    then Some(ParseNat(s[..2]) * 60 + ParseNat(s[3..]))
    else None
  }

  lemma ParseTimeString(t: int)
    requires IsTimeOfDay(t)
    ensures ParseTime(TimeString(t)) == Some(t)
  {
  }

  /** Different times of day never share a label. */
  lemma TimeStringInjective(a: int, b: int)
    requires IsTimeOfDay(a) && IsTimeOfDay(b)
    requires TimeString(a) == TimeString(b)
    ensures a == b
  {
    ParseTimeString(a);
    ParseTimeString(b);
  }

  /** What a title says: one time, or a range from `start` to `stop`. */
  datatype Range = At(time: int) | Between(start: int, stop: int)

  const BetweenWord: string := "between "
  const AndWord: string := " and "

  /**
   * `getTimeRangeString` with the minute field: the time itself when the
   * margin is zero, otherwise the text "between S and E" where S and E are
   * `t` shifted back and forward by the margin.
   */
  function TimeRangeString(t: int, margin: int): (s: string)
    requires IsTimeOfDay(t)
    ensures margin == 0 <==> |s| == 5
    ensures margin != 0 ==> |s| == 23 && s[..8] == BetweenWord && s[13..18] == AndWord
  {
    if margin == 0 then TimeString(t)
    else
      var start := AddMinutes(t, -1 * margin);
      var stop := AddMinutes(t, margin);
      BetweenWord + TimeString(start) + AndWord + TimeString(stop)
  }

  /** Reads a title back; `None` for text that `TimeRangeString` never produces. */
  function ParseRange(s: string): (r: Option<Range>)
  {
    if |s| == 5 then
      match ParseTime(s)
      case Some(t) => Some(At(t))
      case None => None
    else if |s| == 23 && s[..8] == BetweenWord && s[13..18] == AndWord then
      match (ParseTime(s[8..13]), ParseTime(s[18..]))
      case (Some(a), Some(b)) => Some(Between(a, b))
      case _ => None
    else None
  }

  /** The range the text denotes, for a time and a margin. */
  function RangeOf(t: int, margin: int): Range {
    if margin == 0 then At(t) else Between(AddMinutes(t, -margin), AddMinutes(t, margin))
  }

  /**
   * The title names exactly the time when the margin is zero, and otherwise
   * the start `t - margin` and the stop `t + margin`, both wrapped into the day.
   */
  lemma ParseTimeRangeString(t: int, margin: int)
    requires IsTimeOfDay(t)
    ensures ParseRange(TimeRangeString(t, margin)) == Some(RangeOf(t, margin))
  {
    var s := TimeRangeString(t, margin);
    if margin == 0 {
      ParseTimeString(t);
    } else {
      var start, stop := AddMinutes(t, -margin), AddMinutes(t, margin);
      assert s[8..13] == TimeString(start);
      assert s[18..] == TimeString(stop);
      ParseTimeString(start);
      ParseTimeString(stop);
    }
  }

  /** Start and stop lie the same distance from `t`, the margin, around the clock. */
  lemma RangeSymmetric(t: int, margin: int)
    requires IsTimeOfDay(t) && margin != 0
    ensures RangeOf(t, margin).Between?
    ensures (t - RangeOf(t, margin).start) % MinutesPerDay == margin % MinutesPerDay
    ensures (RangeOf(t, margin).stop - t) % MinutesPerDay == margin % MinutesPerDay
  {
    var start, stop := AddMinutes(t, -margin), AddMinutes(t, margin);
    var j := (start - (t - margin)) / MinutesPerDay;
    var k := (stop - (t + margin)) / MinutesPerDay;
    assert t - start == margin - j * MinutesPerDay;
    assert stop - t == margin + k * MinutesPerDay;
    ShiftByDays(margin, -j);
    ShiftByDays(margin, k);
  }

  /** Whole days do not change a remainder modulo a day. */
  lemma ShiftByDays(m: int, days: int)
    ensures (m + days * MinutesPerDay) % MinutesPerDay == m % MinutesPerDay
  {
  }

  /** Negating the margin swaps start and stop. */
  lemma NegatedMarginSwaps(t: int, margin: int)
    requires IsTimeOfDay(t) && margin != 0
    ensures TimeRangeString(t, -margin)
         == BetweenWord + TimeString(RangeOf(t, margin).stop) + AndWord + TimeString(RangeOf(t, margin).start)
  {
  }
}
