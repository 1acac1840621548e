/**
 * `CustomizableTimeMarginDialog`: three picker wheels (hour, minute, margin),
 * each backed by a `NumberPickerValues`, a minimum time that floors the minute
 * wheel, and the confirm and cancel buttons. The platform's views are reduced
 * to the numbers they hold; the caller's `OnTimeMarginSet` callback is
 * reduced to the list of reports it receives.
 */
module MarginDialog {
  import opened Wrappers
  import opened PickerValues
  import JavaArith
  import CalendarUtil

  /** Android's `NumberPicker`, reduced to the numbers this dialog sets and reads. */
  class NumberPicker {
    /** The first selectable index. */
    var minValue: int
    /** The last selectable index. */
    var maxValue: int
    /** The current index. */
    var value: int
    /** The labels shown for the indices. */
    var displayedValues: seq<string>

    /** A picker as the layout creates it: range [0, 0], index 0, no labels. */
    constructor ()
      ensures State() == Inflated && displayedValues == []
    {
      minValue, maxValue, value := 0, 0, 0;
      displayedValues := [];
    }

    function State(): PickerState
      reads this
    {
      PickerState(minValue, maxValue, value)
    }
  }

  /** The numbers a picker holds. */
  datatype PickerState = PickerState(minValue: int, maxValue: int, value: int)

  const Inflated: PickerState := PickerState(0, 0, 0)

  /**
   * What `initPicker` does to a picker: when `selected` lies within the value
   * set's bounds, the range becomes every index of the set and the current
   * index the one of `selected`; otherwise the picker keeps what it had.
   */
  function InitPickerState(s: PickerState, values: NumberPickerValues, selected: int): (r: PickerState)
    requires values.step > 0
    ensures !(values.min <= selected <= values.max) ==> r == s
  {
    if values.min <= selected && selected <= values.max then
      PickerState(values.ClosestIndex(values.min), values.ClosestIndex(values.max), values.ClosestIndex(selected))
    else s
  }

  /**
   * Within bounds, the picker's range is exactly the set's indices and its
   * current index names the largest value of the set that is at most `selected`.
   */
  lemma InitPickerInBounds(s: PickerState, values: NumberPickerValues, selected: int)
    requires values.Wf() && values.min <= selected <= values.max
    ensures InitPickerState(s, values, selected).minValue == 0
    ensures InitPickerState(s, values, selected).maxValue == values.length - 1
    ensures 0 <= InitPickerState(s, values, selected).value < values.length
    ensures values.values[InitPickerState(s, values, selected).value] <= selected
    ensures selected < values.values[InitPickerState(s, values, selected).value] + values.step
  {
    values.EndIndices();
    values.ClosestIndexRoundsDown(selected);
  }

  /** A selection that is one of the set's values is exactly what the picker then decodes to. */
  lemma InitPickerKeepsOnStepValue(s: PickerState, values: NumberPickerValues, k: int)
    requires values.Wf() && 0 <= k < values.length
    ensures InitPickerState(s, values, values.values[k]).value == k
    ensures values.ValueAt(InitPickerState(s, values, values.values[k]).value) == Some(values.values[k])
  {
    values.ValuesAscend();
    values.ClosestIndexRoundTrip(k);
  }

  /** The minimum time saved by `create`: hour and minute of `min`, or 00:00 when there is none. */
  function SavedMinimum(min: Option<int>): (r: (int, int))
    requires min.Some? ==> CalendarUtil.IsTimeOfDay(min.value)
    ensures min.None? ==> r == (0, 0)
    ensures min.Some? ==> 0 <= r.0 < 24 && 0 <= r.1 < 60 && r.0 * 60 + r.1 == min.value
  {
    match min
    case None => (0, 0)
    case Some(t) => (t / 60, t % 60)
  }

  /** The triple handed to `OnTimeMarginSet`. */
  datatype TimeMargin = TimeMargin(hour: int, minutes: int, margin: int)

  class CustomizableTimeMarginDialog {
    const hours: NumberPickerValues
    const minutes: NumberPickerValues
    const margins: NumberPickerValues
    const pickerHour: NumberPicker
    const pickerMinutes: NumberPicker
    const pickerMargin: NumberPicker
    const minHour: int
    const minMinutes: int
    /** Set once either button has been pressed. */
    var dismissed: bool
    /** Every call made to the caller's `OnTimeMarginSet`, in order. */
    var reported: seq<TimeMargin>

    predicate Valid() {
      && hours.Wf() && minutes.Wf() && margins.Wf()
      && pickerHour != pickerMinutes && pickerHour != pickerMargin && pickerMinutes != pickerMargin
      && 0 <= minHour < 24 && 0 <= minMinutes < 60
    }

    /**
     * `create`: binds the value sets, saves the minimum time (00:00 when
     * `min` is absent) and initialises the three pickers from the selected
     * time of day and the margin.
     */
    constructor Create(min: Option<int>, selected: int, margin: int,
                       hours: NumberPickerValues, minutes: NumberPickerValues, margins: NumberPickerValues)
      requires min.Some? ==> CalendarUtil.IsTimeOfDay(min.value)
      requires CalendarUtil.IsTimeOfDay(selected)
      requires hours.Valid() && minutes.Valid() && margins.Valid()
      ensures Valid() && !dismissed && reported == []
      ensures this.hours == hours && this.minutes == minutes && this.margins == margins
      ensures (minHour, minMinutes) == SavedMinimum(min)
      ensures fresh(pickerHour) && fresh(pickerMinutes) && fresh(pickerMargin)
      ensures pickerHour.State() == InitPickerState(Inflated, hours, selected / 60)
      ensures pickerMinutes.State() == InitPickerState(Inflated, minutes, selected % 60)
      ensures pickerMargin.State() == InitPickerState(Inflated, margins, margin)
      ensures pickerHour.displayedValues
           == if hours.min <= selected / 60 <= hours.max then hours.valuesAsStrings[..] else []
      ensures pickerMinutes.displayedValues
           == if minutes.min <= selected % 60 <= minutes.max then minutes.valuesAsStrings[..] else []
      ensures pickerMargin.displayedValues
           == if margins.min <= margin <= margins.max then margins.valuesAsStrings[..] else []
    {
      this.hours := hours;
      this.minutes := minutes;
      this.margins := margins;
      var saved := SavedMinimum(min);
      minHour, minMinutes := saved.0, saved.1;

      var ph := InflatedPicker(hours, selected / 60);
      var pm := InflatedPicker(minutes, selected % 60);
      var pg := InflatedPicker(margins, margin);
      pickerHour, pickerMinutes, pickerMargin := ph, pm, pg;
      dismissed, reported := false, [];
    }

    /** A picker from the layout, then set up by `initPicker`. */
    static method InflatedPicker(values: NumberPickerValues, selected: int) returns (picker: NumberPicker)
      requires values.Valid()
      ensures fresh(picker)
      ensures picker.State() == InitPickerState(Inflated, values, selected)
      ensures picker.displayedValues
           == if values.min <= selected <= values.max then values.valuesAsStrings[..] else []
    {
      picker := new NumberPicker();
      InitPicker(picker, values, selected);
    }

    /** `initPicker`: sets range, labels and current index when `selected` is within bounds. */
    static method InitPicker(picker: NumberPicker, values: NumberPickerValues, selected: int)
      requires values.Valid()
      modifies picker
      ensures picker.State() == InitPickerState(old(picker.State()), values, selected)
      ensures picker.displayedValues
           == if values.min <= selected <= values.max then values.valuesAsStrings[..] else old(picker.displayedValues)
    {
      if values.min <= selected && selected <= values.max {
        picker.minValue := values.ClosestIndex(values.min);
        picker.maxValue := values.ClosestIndex(values.max);
        picker.displayedValues := values.valuesAsStrings[..];
        picker.value := values.ClosestIndex(selected);
      }
    }

    /**
     * The minute wheel's first index after the hour wheel moves to index
     * `newVal`. The source compares that index with the saved minimum hour.
     */
    function MinuteFloorIndex(newVal: int): (r: int)
      requires Valid()
      ensures newVal == minHour ==> r == minutes.ClosestIndex(minMinutes)
      ensures newVal == minHour && minutes.min <= minMinutes <= minutes.max ==>
                0 <= r < minutes.length && minutes.values[r] <= minMinutes < minutes.values[r] + minutes.step
      ensures newVal != minHour ==> r == 0
    {
      minutes.EndIndices();
      var newMinMinutes := if newVal == minHour then minMinutes else minutes.min;
      if newVal == minHour && minutes.min <= minMinutes <= minutes.max then
        minutes.ClosestIndexRoundsDown(minMinutes);
        minutes.ClosestIndex(newMinMinutes)
      else
        minutes.ClosestIndex(newMinMinutes)
    }

    /**
     * The hour wheel's change listener: re-floors the minute wheel. The hour
     * and margin wheels are left as they are.
     */
    method OnHourChanged(newVal: int)
      requires Valid() && !dismissed
      modifies pickerMinutes
      ensures pickerMinutes.minValue == MinuteFloorIndex(newVal)
      ensures pickerMinutes.maxValue == old(pickerMinutes.maxValue)
      ensures pickerMinutes.value == old(pickerMinutes.value)
      ensures pickerMinutes.displayedValues == old(pickerMinutes.displayedValues)
      ensures unchanged(this, pickerHour, pickerMargin)
    {
      var newMinMinutes := if newVal == minHour then minMinutes else minutes.min;
      pickerMinutes.minValue := minutes.ClosestIndex(newMinMinutes);
    }

    /**
     * When the hour set does not start at 0, the wheel showing the minimum
     * hour sits at an index different from that hour, so moving to it resets
     * the minute floor to the set's first index instead of the minimum minute.
     */
    lemma FloorIgnoresMinimumHourOffGrid()
      requires Valid() && hours.min > 0 && hours.min <= minHour <= hours.max
      ensures hours.ClosestIndex(minHour) != minHour
      ensures MinuteFloorIndex(hours.ClosestIndex(minHour)) == 0
    {
      var k := hours.ClosestIndex(minHour);
      assert hours.min + k * hours.step <= minHour;
      if k == minHour {
        JavaArith.MulAtLeast(hours.step, minHour);
        assert false;
      }
      assert MinuteFloorIndex(k) == 0;
    }

    /**
     * With hours 0, 1, 2, ... the index and the hour coincide, and the rule
     * floors the minutes exactly when the wheel shows the minimum hour.
     */
    lemma FloorFollowsHourOnUnitGrid(i: int)
      requires Valid() && hours.min == 0 && hours.step == 1 && 0 <= i < hours.length
      ensures hours.values[i] == minHour ==> MinuteFloorIndex(i) == minutes.ClosestIndex(minMinutes)
      ensures hours.values[i] != minHour ==> MinuteFloorIndex(i) == 0
    {
      assert hours.values[i] == i;
    }

    /** `getHour`, `getMinutes`, `getMargin` together: `None` where a lookup throws. */
    function Selected(): (r: Option<TimeMargin>)
      reads pickerHour, pickerMinutes, pickerMargin
      requires Valid()
      ensures r.Some? <==>
                && 0 <= pickerHour.value < hours.length
                && 0 <= pickerMinutes.value < minutes.length
                && 0 <= pickerMargin.value < margins.length
      ensures r.Some? ==>
                r.value == TimeMargin(hours.values[pickerHour.value], minutes.values[pickerMinutes.value],
                                      margins.values[pickerMargin.value])
      ensures r.Some? ==>
                && hours.min <= r.value.hour <= hours.max
                && hours.ClosestIndex(r.value.hour) == pickerHour.value
                && minutes.min <= r.value.minutes <= minutes.max
                && minutes.ClosestIndex(r.value.minutes) == pickerMinutes.value
                && margins.min <= r.value.margin <= margins.max
                && margins.ClosestIndex(r.value.margin) == pickerMargin.value
    {
      match (hours.ValueAt(pickerHour.value), minutes.ValueAt(pickerMinutes.value), margins.ValueAt(pickerMargin.value))
      case (Some(h), Some(m), Some(g)) =>
        hours.ClosestIndexOfStep(pickerHour.value);
        minutes.ClosestIndexOfStep(pickerMinutes.value);
        margins.ClosestIndexOfStep(pickerMargin.value);
        Some(TimeMargin(h, m, g))
      case _ => None
    }

    /**
     * `getTitle`: the time the hour and minute wheels show, with the margin,
     * rendered by `getTimeRangeString` on the minute field.
     */
    function Title(): (r: Option<string>)
      reads pickerHour, pickerMinutes, pickerMargin
      requires Valid()
      ensures r.Some? <==> Selected().Some?
      ensures r.Some? ==>
                var sel := Selected().value;
                CalendarUtil.ParseRange(r.value)
                  == Some(CalendarUtil.RangeOf(CalendarUtil.TimeAt(sel.hour, sel.minutes), sel.margin))
    {
      match Selected()
      case None => None
      case Some(sel) =>
        var t := CalendarUtil.TimeAt(sel.hour, sel.minutes);
        CalendarUtil.ParseTimeRangeString(t, sel.margin);
        Some(CalendarUtil.TimeRangeString(t, sel.margin))
    }

    /**
     * The positive button: dismisses the dialog and reports the decoded
     * triple once. A lookup that throws ends the handler before the report.
     */
    method Confirm() returns (report: Option<TimeMargin>)
      requires Valid() && !dismissed
      modifies this
      ensures dismissed
      ensures report == Selected()
      ensures reported == old(reported) + (if report.Some? then [report.value] else [])
    {
      dismissed := true;
      report := Selected();
      if report.Some? {
        reported := reported + [report.value];
      }
    }

    /** The negative button: dismisses the dialog and reports nothing. */
    method Cancel()
      requires Valid() && !dismissed
      modifies this
      ensures dismissed
      ensures reported == old(reported)
    {
      dismissed := true;
    }
  }
}
