# CustomizableTimeMarginDialog, modelled in Dafny

This project models the logic of an Android dialog. The dialog lets a user pick a time of day together with a symmetric
margin, for example "between 14:20 and 14:40". Three picker wheels do this: hour, minute and margin. Each wheel
shows an evenly stepped set of integers (`NumberPickerValues`). A minimum time floors the minute wheel. The title
is rendered by the formatting helper `CalendarUtil`.

Modules, one per unit of the program:

- `PickerValues` holds the class `NumberPickerValues`. Its constructor fills the values and their decimal labels in
  a loop, which is proved to fill every slot with `min + i * step`. `ClosestIndex` is Java's truncating
  `(value - min) / step`. The lemmas prove that indices and values round-trip, that values ascend, and that
  `ClosestIndex` rounds down to the nearest step.
- `MarginDialog` holds the dialog class. `Create` saves the minimum time, with 00:00 when none is given, and
  initialises the three pickers through `InitPicker`. `OnHourChanged` is the hour wheel's listener. `Confirm` and
  `Cancel` are the two buttons, and `Selected` and `Title` read the wheels. Android's `NumberPicker` becomes a class
  with four plain fields: min index, max index, current index and labels. The caller's `OnTimeMarginSet` callback
  becomes the field `reported`, which lists every report made.
- `CalendarUtil` works on a time reduced to minutes since midnight, in [0, 1440). It covers `HH:mm` rendering, the
  shift by a margin that wraps across midnight, and the "between S and E" wording. Each rendering has a parser, and
  the lemmas prove that parsing undoes rendering. The source computes start and stop on clones of the input
  calendar. Here they are functions of a value, so the input time cannot change.
- `Decimal`, `JavaArith` and `Wrappers` are small helpers. They give Java's `val + ""`, two-digit padding, Java's
  truncating `/`, and `Option`.

Two behaviours of the code differ from what a reader of the dialog might expect. The model follows the code:

- The hour listener compares the new hour *index* with the saved minimum *hour*
  (`java/CustomizableTimeMarginDialog.java:98`). The expected rule ("selecting the minimum hour floors the minutes")
  therefore holds only when the hour set is 0, 1, 2, …. `FloorFollowsHourOnUnitGrid` proves that case. When the hour
  set starts above 0, `FloorIgnoresMinimumHourOffGrid` proves that moving the wheel to the minimum hour resets the floor to 0. The model
  reproduces the comparison as written.
- `getClosestIndex` is documented as giving the member "closest to" a value. It truncates, so it gives the largest
  member at or below the value (`ClosestIndexRoundsDown`). For example, with a minute step of 15 and a minimum minute
  of 14, the minute floor drops to :00.
- The range wording is produced for every non-zero margin, not only a positive one. A negative margin swaps start and
  stop (`NegatedMarginSwaps`).

## Model

| member | source | states |
|---|---|---|
| `PickerValues.NumberPickerValues.constructor` | java/CustomizableTimeMarginDialog.java:235-252 | length is `(max - min) / step + 1`; every slot `i` holds `min + i * step` and its decimal label; the `val <= max` guard never stops the fill early |
| `PickerValues.NumberPickerValues.ClosestIndex` | java/CustomizableTimeMarginDialog.java:259-261 | for `value >= min` the result `r` satisfies `min + r*step <= value < min + (r+1)*step`; below `min` it truncates toward zero as Java does |
| `PickerValues.NumberPickerValues.ClosestIndexOfStep` | java/CustomizableTimeMarginDialog.java:259-261 | `ClosestIndex(min + k*step) == k` for every integer `k` |
| `PickerValues.NumberPickerValues.ClosestIndexRoundTrip` | java/CustomizableTimeMarginDialog.java:248-260 | `ClosestIndex(values[i]) == i` for every index of the set |
| `PickerValues.NumberPickerValues.EndIndices` | java/CustomizableTimeMarginDialog.java:139-140 | `ClosestIndex(min) == 0` and `ClosestIndex(max) == length - 1` |
| `PickerValues.NumberPickerValues.ClosestIndexRoundsDown` | java/CustomizableTimeMarginDialog.java:254-261 | for `min <= v <= max` the index is in `[0, length)` and names the largest value of the set that is at most `v` |
| `PickerValues.NumberPickerValues.ValuesAscend` | java/CustomizableTimeMarginDialog.java:240-251 | values strictly increase, the first is `min`, the last is at most `max` and within one step of it |
| `PickerValues.NumberPickerValues.ValueAt` | java/CustomizableTimeMarginDialog.java:170-188 | `values.get(index)` yields a value exactly for indices in `[0, length)`, and that value is `min + index*step` within `[min, max]`; otherwise the lookup throws (`None`) |
| `PickerValues.NumberPickerValues.LabelsParseBack` | java/CustomizableTimeMarginDialog.java:250 | every label parses back to its value |
| `Decimal.IntString` | java/CustomizableTimeMarginDialog.java:250 | `val + ""`: a minus sign exactly for negatives, then digits without a leading zero |
| `Decimal.ParseIntString` | java/CustomizableTimeMarginDialog.java:250 | parsing the decimal text of `n` gives back `n` |
| `Decimal.IntStringInjective` | java/CustomizableTimeMarginDialog.java:250 | distinct values get distinct labels |
| `Decimal.TwoDigits` | java/CalendarUtil.java:12 | the `HH` and `mm` fields are two digits, zero-padded, reading back as the number |
| `MarginDialog.InitPickerState` | java/CustomizableTimeMarginDialog.java:137-144 | a selection outside `[values.min, values.max]` leaves the picker's numbers unchanged |
| `MarginDialog.InitPickerInBounds` | java/CustomizableTimeMarginDialog.java:137-144 | a selection within bounds sets the range to `[0, length - 1]` and the index to the largest value of the set that is at most `selected` |
| `MarginDialog.InitPickerKeepsOnStepValue` | java/CustomizableTimeMarginDialog.java:137-144 | a selection that is a value of the set becomes its own index, and decoding that index gives the selection back |
| `MarginDialog.CustomizableTimeMarginDialog.InitPicker` | java/CustomizableTimeMarginDialog.java:137-144 | the picker's numbers become `InitPickerState` of the old ones; labels are set only when the selection is in bounds |
| `MarginDialog.SavedMinimum` | java/CustomizableTimeMarginDialog.java:77-86 | with no minimum the saved hour and minute are 0 and 0; otherwise they are the hour (0-23) and minute (0-59) of the minimum |
| `MarginDialog.CustomizableTimeMarginDialog.Create` | java/CustomizableTimeMarginDialog.java:60-91 | binds the value sets, saves the minimum, initialises hour, minute and margin pickers (numbers and labels) from the selected time and margin; nothing is reported and the dialog is open |
| `MarginDialog.CustomizableTimeMarginDialog.InflatedPicker` | java/CustomizableTimeMarginDialog.java:137-144 | a fresh picker after `initPicker`: its numbers are `InitPickerState` of the inflated state, and it shows the set's labels exactly when the selection is in bounds |
| `MarginDialog.CustomizableTimeMarginDialog.MinuteFloorIndex` | java/CustomizableTimeMarginDialog.java:98-99 | when the new hour index equals the minimum hour the floor is the minimum minute's index, rounded down to a step and inside the wheel; otherwise it is 0 |
| `MarginDialog.CustomizableTimeMarginDialog.OnHourChanged` | java/CustomizableTimeMarginDialog.java:95-102 | only the minute wheel's first index changes, to `MinuteFloorIndex`; hour and margin wheels and the dialog stay as they were |
| `MarginDialog.CustomizableTimeMarginDialog.FloorIgnoresMinimumHourOffGrid` | java/CustomizableTimeMarginDialog.java:98 | when the hour set starts above 0, the wheel showing the minimum hour is at another index, and moving to it resets the floor to 0 |
| `MarginDialog.CustomizableTimeMarginDialog.FloorFollowsHourOnUnitGrid` | java/CustomizableTimeMarginDialog.java:98 | with hours 0, 1, 2, … the floor is the minimum minute exactly when the shown hour is the minimum hour |
| `MarginDialog.CustomizableTimeMarginDialog.Selected` | java/CustomizableTimeMarginDialog.java:170-188 | the triple is defined exactly when all three indices are in range, and it is then `(hours.values[hIdx], minutes.values[mIdx], margins.values[gIdx])`; each value lies in its set's bounds and maps back to its wheel's index |
| `MarginDialog.CustomizableTimeMarginDialog.Title` | java/CustomizableTimeMarginDialog.java:159-163 | the title exists exactly when the triple does, and reads back as the shown time or as the range of that time shifted by the margin |
| `MarginDialog.CustomizableTimeMarginDialog.Confirm` | java/CustomizableTimeMarginDialog.java:109-117 | dismisses; reports `(hours.values[hIdx], minutes.values[mIdx], margins.values[gIdx])` exactly once (through `Selected`), or nothing when a lookup throws |
| `MarginDialog.CustomizableTimeMarginDialog.Cancel` | java/CustomizableTimeMarginDialog.java:118-125 | dismisses and reports nothing |
| `CalendarUtil.TimeString` | java/CalendarUtil.java:12-20 | five characters: the hour 00-23 as two digits, `:`, the minute 00-59 as two digits |
| `CalendarUtil.ParseTimeString` | java/CalendarUtil.java:18-20 | parsing `HH:mm` gives back the time |
| `CalendarUtil.TimeStringInjective` | java/CalendarUtil.java:18-20 | different times have different texts |
| `CalendarUtil.AddMinutes` | java/CalendarUtil.java:28-29 | adding minutes gives the time of day congruent to `t + delta` modulo a day |
| `CalendarUtil.TimeAt` | java/CustomizableTimeMarginDialog.java:160-162 | setting hour and minute gives a time of day, equal to `hour*60 + minute` when both are in range |
| `CalendarUtil.TimeRangeString` | java/CalendarUtil.java:22-33 | a margin of 0 gives the 5-character time; any other margin gives 23 characters starting "between " with " and " in the middle |
| `CalendarUtil.ParseTimeRangeString` | java/CalendarUtil.java:22-33 | the text reads back as the time itself for margin 0, otherwise as start `t - margin` and stop `t + margin` wrapped into the day |
| `CalendarUtil.RangeSymmetric` | java/CalendarUtil.java:26-29 | start and stop lie the margin away from `t` on either side, modulo a day |
| `CalendarUtil.NegatedMarginSwaps` | java/CalendarUtil.java:28-29 | negating the margin swaps start and stop in the text |
| `JavaArith.Quot` | java/CustomizableTimeMarginDialog.java:260 | Java's `/`: the quotient is truncated toward zero, for positive divisors |

## Left out

- Android view plumbing is not modelled: inflating layouts, looking up views, the builder's `setView` and
  `setCustomTitle`, `setText`, `setWrapSelectorWheel` and `dismiss` beyond the `dismissed` flag. The model keeps
  only the numbers the pickers hold.
- `NumberPicker`'s own clamping when its range changes is not modelled, and neither is the user's scrolling. The
  current index is a plain field that any caller may set.
- The initial state of a picker comes from the layout and the toolkit, and neither is part of this model. The model
  assumes a freshly inflated picker has range [0, 0], index 0 and no labels (`Inflated`). A `selected` time or margin
  outside its set's bounds leaves the picker in that assumed state, and `Create` and `Title` describe it from there.
- The minute and margin listeners only refresh the title. The title is the function `Title` of the picker state, so
  these listeners change no modelled state and have no method.
- The date, time zone, daylight saving time, seconds and locale digits of `Calendar` and `SimpleDateFormat` are not
  modelled. A time is its minutes since midnight. A day rollover changes only the day, never the `HH:mm` text.
- The localized string lookup `getString` is a call into the platform. The model uses its literal English format,
  "between %1$s and %2$s".
- The `field` argument of `getTimeRangeString` is fixed to the minute field, the only one the dialog passes.
- Java's 32-bit `int` wrap-around is not modelled. Integers are unbounded, so huge bounds are not covered
  (`max - min`, `val += step`, `-1 * margin`, `hour * 60`).
- PickerValues.NumberPickerValues.constructor: requires `step > 0` and `min <= max`. The source accepts other
  inputs: with a zero step every slot holds `min`, and `min > max` leaves a slot empty or gives a negative array size.
- PickerValues.NumberPickerValues.ClosestIndex: requires `step > 0`, because the source divides by zero otherwise.
- MarginDialog.CustomizableTimeMarginDialog.Confirm: requires an open dialog, as do `Cancel` and `OnHourChanged`.
  The platform delivers no button or wheel events to a dismissed dialog.
- The `titleView != null` check in `updateTitle` is view plumbing and is not modelled.
- `SimpleDateFormat` is not thread-safe, but this code is single-threaded, so that is not modelled.
