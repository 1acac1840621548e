/**
 * `NumberPickerValues`: an evenly stepped set of integers from `min` up to
 * `max`, with a parallel array of their decimal labels for a picker wheel.
 * Nothing changes after construction, so every field is a constant.
 */
module PickerValues {
  import opened Wrappers
  import JavaArith
  import Decimal

  class NumberPickerValues {
    const min: int
    const max: int
    const step: int
    /** The number of values. */
    const length: int
    /** The numerical values, in order. */
    const values: seq<int>
    /** The labels shown on the wheel, one per value. */
    const valuesAsStrings: array<string>

    /** What construction establishes about the numbers: `values[i] == min + i * step`. */
    predicate Wf() {
      && step > 0
      && min <= max
      && length == (max - min) / step + 1
      && |values| == length
      && forall i :: 0 <= i < length ==> values[i] == min + i * step
    }

    /** `Wf` and, in addition, every label is the decimal text of its value. */
    ghost predicate Valid()
      reads valuesAsStrings
    {
      && Wf()
      && valuesAsStrings.Length == length
      && forall i :: 0 <= i < length ==> valuesAsStrings[i] == Decimal.IntString(values[i])
    }

    constructor (min: int, max: int, step: int)
      requires step > 0 && min <= max
      ensures this.min == min && this.max == max && this.step == step
      ensures length == (max - min) / step + 1
      ensures Valid() && fresh(valuesAsStrings)
    {
      this.min := min;
      this.max := max;
      this.step := step;

      // `max - min` is not negative, so Java's truncating `/` is Dafny's `/` here.
      var len := max - min;
      if step > 0 {
        len := len / step;
      }
      len := len + 1;

      var vs: seq<int> := [];
      var labels := new string[len];
      var i, val := 0, min;
      while i < len && val <= max
        invariant 0 <= i <= len
        invariant val == min + i * step
        invariant |vs| == i
        invariant forall k :: 0 <= k < i ==> vs[k] == min + k * step
        invariant forall k :: 0 <= k < i ==> labels[k] == Decimal.IntString(vs[k])
      {
        vs := vs + [val];
        labels[i] := Decimal.IntString(val);
        assert val + step == min + (i + 1) * step;
        i, val := i + 1, val + step;
      }
      // The guard `val <= max` never ends the fill before every slot is set.
      FillCompletes(i, len, min, max, step);

      this.length := len;
      this.values := vs;
      this.valuesAsStrings := labels;
    }

    /** `getClosestIndex`: Java's truncating `(value - min) / step`. */
    function ClosestIndex(value: int): (r: int)
      requires step > 0
      ensures min <= value ==> min + r * step <= value < min + (r + 1) * step
      ensures value < min ==> min + (r - 1) * step < value <= min + r * step
    {
      JavaArith.Quot(value - min, step)
    }

    /** `values.get(index)`: the value at an index, `None` where Java throws `IndexOutOfBoundsException`. */
    function ValueAt(index: int): (r: Option<int>)
      requires Wf()
      ensures r.Some? <==> 0 <= index < length
      ensures r.Some? ==> r.value == min + index * step && min <= r.value <= max
    {
      if 0 <= index < |values| then
        StepsFit(index, max - min, step);
        Some(values[index])
      else None
    }

    /** The index of a value on the grid of steps is its number of steps from `min`. */
    lemma ClosestIndexOfStep(k: int)
      requires step > 0
      ensures ClosestIndex(min + k * step) == k
    {
      JavaArith.QuotOfMultiple(k, step);
    }

    /** `getClosestIndex(values[i]) == i`: labels and indices round-trip. */
    lemma ClosestIndexRoundTrip(i: int)
      requires Wf() && 0 <= i < length
      ensures ClosestIndex(values[i]) == i
    {
      ClosestIndexOfStep(i);
    }

    /** The first and last values map to the wheel's first and last index. */
    lemma EndIndices()
      requires Wf()
      ensures ClosestIndex(min) == 0
      ensures ClosestIndex(max) == length - 1
    {
      ClosestIndexOfStep(0);
    }

    /**
     * Within `[min, max]` the index is a valid one and names the largest value
     * of the set that does not exceed `v`.
     */
    lemma ClosestIndexRoundsDown(v: int)
      requires Wf() && min <= v <= max
      ensures 0 <= ClosestIndex(v) < length
      ensures values[ClosestIndex(v)] <= v < values[ClosestIndex(v)] + step
      ensures forall j :: 0 <= j < length && values[j] <= v ==> j <= ClosestIndex(v)
    {
      var r := ClosestIndex(v);
      EndIndices();
      assert min + r * step <= v < min + (r + 1) * step;
      assert max < min + length * step;
      JavaArith.MulStrictMonotone(-1, r, step);
      JavaArith.MulStrictMonotone(r, length, step);
      assert values[r] == min + r * step;
      forall j | 0 <= j < length && values[j] <= v
        ensures j <= r
      {
        JavaArith.MulStrictMonotone(r, j - 1, step);
        assert (j - 1) * step == j * step - step;
      }
    }

    /** The values ascend strictly from `min`; the last is the largest on-step value up to `max`. */
    lemma ValuesAscend()
      requires Wf()
      ensures forall i, j :: 0 <= i < j < length ==> values[i] < values[j]
      ensures values[0] == min
      ensures values[length - 1] <= max < values[length - 1] + step
    {
      forall i, j | 0 <= i < j < length
        ensures values[i] < values[j]
      {
        JavaArith.MulStrictMonotone(i, j, step);
      }
      EndIndices();
    }

    /** Each label reads back as the value it stands for. */
    lemma LabelsParseBack(i: int)
      requires Valid() && 0 <= i < length
      ensures Decimal.ParseInt(valuesAsStrings[i]) == Some(values[i])
    {
      Decimal.ParseIntString(values[i]);
    }
  }

  /** A fill that stopped at `i` with `min + i * step <= max` or at `len` stopped at `len`. */
  lemma FillCompletes(i: int, len: int, min: int, max: int, step: int)
    requires step > 0 && min <= max && len == (max - min) / step + 1
    requires 0 <= i <= len && !(i < len && min + i * step <= max)
    ensures i == len
  {
    if i < len {
      StepsFit(i, max - min, step);
    }
  }

  /** `i` steps fit into a span `d` when `i` is at most the span's number of whole steps. */
  lemma StepsFit(i: int, d: int, step: int)
    requires step > 0 && 0 <= d && 0 <= i <= d / step
    ensures i * step <= d
  {
    JavaArith.MulStrictMonotone(d / step, i, step);
  }
}
