/** `SignalViewViewModel`: one curve of the display. Each scalar of the
    signal view goes through the filter pipeline, in list order, and the
    filtered value is written, with the tick's time, into the ring buffer
    the curve is drawn from. The view model also owns the sample count
    (the buffer's capacity) and the vertical range with its margins. */
module SignalViewModels {
  import opened Wrappers
  import opened Doubles
  import RingBuffers
  import Documents
  import SignalFilters
  import FilterPipeline

  /** `TimedData`: one sample of the curve. */
  datatype TimedData = TimedData(elapsedTime: real, value: real)

  /** `default(TimedData)`, what an empty slot of the buffer holds. */
  const NoSample := TimedData(0.0, 0.0)

  /** `SignalViewViewModelBase.ViewHeight`, in points. */
  const ViewHeight := 250.0

  /** The share of the range added as a margin above and below it. */
  const Margin := 0.1

  // ----------------------------------------------------------------------
  // The per-tick fold through the pipeline

  /** Every state can take a sample at `time`. */
  predicate AllDefined(states: seq<SignalFilters.FilterState>, time: real)
  {
    forall i :: 0 <= i < |states| ==> SignalFilters.Defined(states[i], time)
  }

  /** The pipeline over filter states: the first filter takes the input,
      each later one the output of the one before, and the result is the
      last output; every filter moves to its next state. */
  function Fold(states: seq<SignalFilters.FilterState>, time: real, value: real): (r: (seq<SignalFilters.FilterState>, real))
    requires AllDefined(states, time)
    ensures |r.0| == |states|
    ensures states == [] ==> r.1 == value
    decreases |states|
  {
    if states == [] then ([], value)
    else
      var prefix := Fold(states[..|states| - 1], time, value);
      var last := SignalFilters.Step(states[|states| - 1], time, prefix.1);
      (prefix.0 + [last.0], last.1)
  }

  /** Feeding two pipelines one after the other is feeding their
      concatenation. */
  lemma {:induction false} FoldAppend(s: seq<SignalFilters.FilterState>, t: seq<SignalFilters.FilterState>, time: real, value: real)
    requires AllDefined(s, time) && AllDefined(t, time)
    ensures AllDefined(s + t, time)
    ensures var first := Fold(s, time, value);
            var second := Fold(t, time, first.1);
            Fold(s + t, time, value) == (first.0 + second.0, second.1)
    decreases |t|
  {
    if t == [] {
      assert s + t == s;
      var first := Fold(s, time, value);
      assert first.0 + [] == first.0;
    } else {
      var u := t[..|t| - 1];
      FoldAppend(s, u, time, value);
      assert (s + t)[..|s + t| - 1] == s + u;
      assert (s + t)[|s + t| - 1] == t[|t| - 1];
      var first := Fold(s, time, value);
      var mid := Fold(u, time, first.1);
      var last := SignalFilters.Step(t[|t| - 1], time, mid.1);
      assert Fold(t, time, first.1) == (mid.0 + [last.0], last.1);
      assert Fold(s + t, time, value) == ((first.0 + mid.0) + [last.0], last.1);
      assert (first.0 + mid.0) + [last.0] == first.0 + (mid.0 + [last.0]);
    }
  }

  /** A one-filter pipeline is that filter's step. */
  lemma FoldSingle(s: SignalFilters.FilterState, time: real, value: real)
    requires SignalFilters.Defined(s, time)
    ensures Fold([s], time, value) == ([SignalFilters.Step(s, time, value).0], SignalFilters.Step(s, time, value).1)
  {
    assert [s][..0] == [];
    assert Fold([], time, value) == ([], value);
    var last := SignalFilters.Step(s, time, value);
    assert Fold([s], time, value) == ([] + [last.0], last.1);
    assert [] + [last.0] == [last.0];
  }

  /** Two inversers in a row give the input back. */
  lemma InverserPairCancels(time: real, value: real)
    ensures Fold([SignalFilters.InverserState, SignalFilters.InverserState], time, value).1 == value
  {
    var s := [SignalFilters.InverserState, SignalFilters.InverserState];
    assert s[..1] == [SignalFilters.InverserState];
    FoldSingle(SignalFilters.InverserState, time, value);
  }

  /** Every object the filters of `items` hold. */
  function FilterObjects(items: seq<FilterPipeline.SignalFilterViewModel>): set<object>
  {
    set i, o | 0 <= i < |items| && o in items[i].signalFilter.Objects() :: o
  }

  /** The current states of the filters of `items`, in list order. */
  function StatesOf(items: seq<FilterPipeline.SignalFilterViewModel>): (r: seq<SignalFilters.FilterState>)
    reads FilterObjects(items)
    ensures |r| == |items|
  {
    seq(|items|, i reads FilterObjects(items) requires 0 <= i < |items| => items[i].signalFilter.State())
  }

  /** The `foreach` of `OnSignalViewValue`: each filter view model, in
      list order, processes the previous output. */
  method FoldFilters(items: seq<FilterPipeline.SignalFilterViewModel>, time: real, value: real) returns (r: real)
    requires FilterPipeline.FiltersApart(items) && AllDefined(StatesOf(items), time)
    modifies FilterObjects(items)
    ensures (StatesOf(items), r) == Fold(old(StatesOf(items)), time, value)
  {
    ghost var before := StatesOf(items);
    r := value;
    var i := 0;
    while i < |items|
      invariant 0 <= i <= |items|
      invariant StatesOf(items) == Fold(before[..i], time, value).0 + before[i..]
      invariant r == Fold(before[..i], time, value).1
    {
      FoldStep(before, i, time, value);
      r := StepFilter(items, i, time, r);
      i := i + 1;
    }
    assert before[..|items|] == before;
    var result := Fold(before, time, value);
    assert StatesOf(items) == result.0 + [] == result.0 && r == result.1;
    assert result == (result.0, result.1);
  }

  /** One turn of that loop: the `i`-th filter steps, the others keep
      their states. */
  method StepFilter(items: seq<FilterPipeline.SignalFilterViewModel>, i: int, time: real, value: real) returns (r: real)
    requires FilterPipeline.FiltersApart(items) && 0 <= i < |items|
    requires SignalFilters.Defined(StatesOf(items)[i], time)
    modifies items[i].signalFilter.Objects()
    ensures var step := SignalFilters.Step(old(StatesOf(items))[i], time, value);
            StatesOf(items) == old(StatesOf(items))[i := step.0] && r == step.1
  {
    ghost var before := StatesOf(items);
    var vm := items[i];
    r := vm.ProcessValue(time, value);
    forall k | 0 <= k < |items| && k != i
      ensures StatesOf(items)[k] == before[k]
    {
      assert items[k].signalFilter.Objects() !! vm.signalFilter.Objects();
    }
  }

  /** The fold over one more filter is the step of that filter after the
      fold over the ones before it. */
  lemma FoldStep(states: seq<SignalFilters.FilterState>, i: int, time: real, value: real)
    requires AllDefined(states, time) && 0 <= i < |states|
    ensures var prefix := Fold(states[..i], time, value);
            var step := SignalFilters.Step(states[i], time, prefix.1);
            && Fold(states[..i + 1], time, value) == (prefix.0 + [step.0], step.1)
            && (prefix.0 + states[i..])[i := step.0] == (prefix.0 + [step.0]) + states[i + 1..]
  {
    assert states[..i + 1][..i] == states[..i];
    var prefix := Fold(states[..i], time, value);
    var step := SignalFilters.Step(states[i], time, prefix.1);
    assert (prefix.0 + states[i..])[i := step.0] == (prefix.0 + [step.0]) + states[i + 1..];
  }

  // ----------------------------------------------------------------------
  // The vertical range

  /** `MarginedMinimumRange` and `MarginedMaximumRange` for a range. */
  function MarginedRange(minimum: real, maximum: real): (r: (real, real))
  {
    var range := Abs(maximum - minimum);
    (minimum - range * Margin, maximum + range * Margin)
  }

  /** `PointsPerTick`: the view height spread over the margined range. */
  function PointsPerTickOf(minimum: real, maximum: real, unitsPerTick: real): ExtReal
  {
    var margined := MarginedRange(minimum, maximum);
    Divide(ViewHeight * unitsPerTick, Abs(margined.1 - margined.0))
  }

  /** For an ordered range the margins lie outside it, a tenth of its
      width on each side; for a reversed one they lie inside it. */
  lemma MarginedRangeBounds(minimum: real, maximum: real)
    ensures var r := MarginedRange(minimum, maximum);
            && (minimum <= maximum ==> r.0 <= minimum && maximum <= r.1 && r.1 - r.0 == 1.2 * (maximum - minimum))
            && (maximum < minimum ==> maximum < r.1 && r.0 < minimum && r.0 - r.1 == 0.8 * (minimum - maximum))
  {
  }

  /** `PointsPerTick` is a number exactly when the range is not empty;
      then a tick of `unitsPerTick` spans its share of the view height. */
  lemma PointsPerTickFinite(minimum: real, maximum: real, unitsPerTick: real)
    ensures PointsPerTickOf(minimum, maximum, unitsPerTick).Finite? <==> minimum != maximum
    ensures minimum < maximum ==>
              PointsPerTickOf(minimum, maximum, unitsPerTick) == Finite(ViewHeight * unitsPerTick / (1.2 * (maximum - minimum)))
    ensures maximum < minimum ==>
              PointsPerTickOf(minimum, maximum, unitsPerTick) == Finite(ViewHeight * unitsPerTick / (0.8 * (minimum - maximum)))
  {
    MarginedRangeBounds(minimum, maximum);
  }

  // ----------------------------------------------------------------------
  // The view model

  class SignalViewViewModel {
    /** The document `SetDataValue` marks modified. */
    const root: Documents.FileManager
    /** `Parent.SignalFiltersPipeline.SignalFilters`. */
    const filters: FilterPipeline.ReorderableCollection
    var ringBuffer: RingBuffers.RingBuffer<TimedData>
    var signalSampleCount: int
    var minimumRange: real
    var maximumRange: real
    var unitsPerTick: real
    var unitsPerSecond: real
    var marginedMinimumRange: real
    var marginedMaximumRange: real
    var pointsPerTick: ExtReal
    /** `Error`: the identity of the last upstream exception, or null. */
    var error: Option<nat>
    var isError: bool

    /** The margins and `PointsPerTick` follow the range and the tick. */
    predicate Scaled()
      reads this
    {
      && (marginedMinimumRange, marginedMaximumRange) == MarginedRange(minimumRange, maximumRange)
      && pointsPerTick == PointsPerTickOf(minimumRange, maximumRange, unitsPerTick)
    }

    /** The buffer is usable and has the sample count as capacity (unless a
        count of zero or less was refused), the scale follows the range,
        and `IsError` says whether there is an error. */
    ghost predicate Valid()
      reads this, ringBuffer, ringBuffer.buffer
    {
      && ringBuffer.Valid() && !ringBuffer.Reversing
      && (signalSampleCount > 0 ==> ringBuffer.Length() == signalSampleCount)
      && Scaled()
      && isError == error.Some?
    }

    /** The constructor: 300 samples, range [-1, 1], half a unit per tick,
        100 units per second. Each of its five settings changes a value,
        so each marks the document modified; the model marks it once,
        which leaves the same document state. */
    constructor (root: Documents.FileManager, filters: FilterPipeline.ReorderableCollection)
      modifies root
      ensures Valid() && fresh(ringBuffer) && fresh(ringBuffer.buffer) && ringBuffer.Written == []
      ensures this.root == root && this.filters == filters
      ensures signalSampleCount == 300 && minimumRange == -1.0 && maximumRange == 1.0
      ensures unitsPerTick == 0.5 && unitsPerSecond == 100.0 && error == None
      ensures marginedMinimumRange == -1.2 && marginedMaximumRange == 1.2 && pointsPerTick == Finite(125.0 / 2.4)
      ensures root.isModified && root.filename == old(root.filename)
      ensures root.trace == old(root.trace) + Documents.ModifiedChange(old(root.isModified), true)
    {
      this.root := root;
      this.filters := filters;
      unitsPerSecond := 100.0;
      signalSampleCount := 300;
      ringBuffer := new RingBuffers.RingBuffer(300, NoSample);
      minimumRange := -1.0;
      maximumRange := 1.0;
      unitsPerTick := 0.5;
      marginedMinimumRange := -1.2;
      marginedMaximumRange := 1.2;
      pointsPerTick := Finite(125.0 / 2.4);
      error := None;
      isError := false;
      new;
      root.SetIsModified(true);
    }

    /** `RecomputeScaleBarValues`. */
    method RecomputeScaleBarValues()
      modifies this`marginedMinimumRange, this`marginedMaximumRange, this`pointsPerTick
      ensures Scaled()
    {
      var range := Abs(maximumRange - minimumRange);
      marginedMinimumRange := minimumRange - range * Margin;
      marginedMaximumRange := maximumRange + range * Margin;
      pointsPerTick := Divide(ViewHeight * unitsPerTick, Abs(marginedMaximumRange - marginedMinimumRange));
    }

    /** The `MinimumRange` setter: on a change, the document is marked
        modified and the scale recomputed. */
    method SetMinimumRange(value: real)
      requires Valid()
      modifies this`minimumRange, this`marginedMinimumRange, this`marginedMaximumRange, this`pointsPerTick, root
      ensures Valid() && minimumRange == value
      ensures root.filename == old(root.filename)
      ensures root.trace == old(root.trace) + (if old(minimumRange) == value then [] else Documents.ModifiedChange(old(root.isModified), true))
      ensures old(minimumRange) != value ==> root.isModified
    {
      if minimumRange != value {
        minimumRange := value;
        root.SetIsModified(true);
        RecomputeScaleBarValues();
      }
    }

    method SetMaximumRange(value: real)
      requires Valid()
      modifies this`maximumRange, this`marginedMinimumRange, this`marginedMaximumRange, this`pointsPerTick, root
      ensures Valid() && maximumRange == value
      ensures root.filename == old(root.filename)
      ensures root.trace == old(root.trace) + (if old(maximumRange) == value then [] else Documents.ModifiedChange(old(root.isModified), true))
      ensures old(maximumRange) != value ==> root.isModified
    {
      if maximumRange != value {
        maximumRange := value;
        root.SetIsModified(true);
        RecomputeScaleBarValues();
      }
    }

    method SetUnitsPerTick(value: real)
      requires Valid()
      modifies this`unitsPerTick, this`marginedMinimumRange, this`marginedMaximumRange, this`pointsPerTick, root
      ensures Valid() && unitsPerTick == value
      ensures root.filename == old(root.filename)
      ensures root.trace == old(root.trace) + (if old(unitsPerTick) == value then [] else Documents.ModifiedChange(old(root.isModified), true))
      ensures old(unitsPerTick) != value ==> root.isModified
    {
      if unitsPerTick != value {
        unitsPerTick := value;
        root.SetIsModified(true);
        RecomputeScaleBarValues();
      }
    }

    /** `UnitsPerSecond`: marks the document modified on a change and
        recomputes nothing. */
    method SetUnitsPerSecond(value: real)
      modifies this`unitsPerSecond, root
      ensures unitsPerSecond == value
      ensures root.filename == old(root.filename)
      ensures root.trace == old(root.trace) + (if old(unitsPerSecond) == value then [] else Documents.ModifiedChange(old(root.isModified), true))
      ensures old(unitsPerSecond) != value ==> root.isModified
    {
      if unitsPerSecond != value {
        unitsPerSecond := value;
        root.SetIsModified(true);
      }
    }

    /** The `SignalSampleCount` setter. On a change it stores the count and
        marks the document modified, then builds a buffer of that capacity
        (which throws for a count of zero or less, leaving the old buffer)
        and writes into it what forward enumeration of the old one yields. */
    method SetSignalSampleCount(value: int) returns (result: Outcome<RingBuffers.BufferError>)
      requires Valid()
      modifies this`signalSampleCount, this`ringBuffer, root
      ensures Valid() && signalSampleCount == value
      ensures result.Fail? <==> old(signalSampleCount) != value && value <= 0
      ensures result.Fail? ==> result.error == RingBuffers.ArgumentOutOfRange
      ensures old(signalSampleCount) == value || result.Fail? ==> ringBuffer == old(ringBuffer)
      ensures old(signalSampleCount) != value && result.Pass? ==>
                && fresh(ringBuffer) && ringBuffer.Length() == value
                && ringBuffer.Written == old(ringBuffer.ForwardView())
      ensures old(signalSampleCount) != value && result.Pass? && old(ringBuffer.iterateLength == ringBuffer.Length()) ==>
                RingBuffers.Retained(ringBuffer.Written, value)
                  == RingBuffers.Retained(old(ringBuffer.Written), RingBuffers.Min(old(ringBuffer.Length()), value))
      ensures root.filename == old(root.filename)
      ensures root.trace == old(root.trace) + (if old(signalSampleCount) == value then [] else Documents.ModifiedChange(old(root.isModified), true))
      ensures old(signalSampleCount) != value ==> root.isModified
    {
      if signalSampleCount == value {
        return Pass;
      }
      signalSampleCount := value;
      root.SetIsModified(true);
      var created := Resized(ringBuffer, value);
      if created.Failure? {
        return Fail(created.error);
      }
      ringBuffer := created.value;
      result := Pass;
    }

    /** `new RingBuffer<TimedData>(value)` filled with `Write(old.ToArray())`. */
    static method Resized(previous: RingBuffers.RingBuffer<TimedData>, value: int)
      returns (r: Result<RingBuffers.RingBuffer<TimedData>, RingBuffers.BufferError>)
      requires previous.Valid() && !previous.Reversing
      ensures r.Failure? <==> value <= 0
      ensures r.Failure? ==> r.error == RingBuffers.ArgumentOutOfRange
      ensures r.Success? ==>
                && fresh(r.value) && fresh(r.value.buffer) && r.value.Valid() && !r.value.Reversing
                && r.value.Length() == value && r.value.Written == previous.ForwardView()
      ensures r.Success? && previous.iterateLength == previous.Length() ==>
                RingBuffers.Retained(r.value.Written, value)
                  == RingBuffers.Retained(previous.Written, RingBuffers.Min(previous.Length(), value))
    {
      var created := RingBuffers.RingBuffer.Create(value, NoSample);
      if created.Failure? {
        return Failure(created.error);
      }
      var samples := previous.Forward();
      var data := new TimedData[|samples|](i requires 0 <= i < |samples| => samples[i]);
      var resized := created.value;
      var written := resized.WriteAll(data);
      assert data[..] == samples;
      if previous.iterateLength == previous.Length() {
        previous.ForwardWhenFull();
        RingBuffers.RetainedTwice(previous.Written, previous.Length(), value);
      }
      r := Success(resized);
    }

    /** `OnSignalViewValue`: the value goes through the pipeline's filters
        in list order and the result is written, with the tick's elapsed
        time, as one sample. The stopwatch reading is a parameter. */
    method OnSignalViewValue(value: real, elapsedTime: real)
      requires Valid() && FilterPipeline.FiltersApart(filters.items)
      requires AllDefined(StatesOf(filters.items), elapsedTime)
      modifies FilterObjects(filters.items), ringBuffer, ringBuffer.buffer
      ensures Valid()
      ensures var folded := Fold(old(StatesOf(filters.items)), elapsedTime, value);
              && StatesOf(filters.items) == folded.0
              && ringBuffer.Written == old(ringBuffer.Written) + [TimedData(elapsedTime, folded.1)]
    {
      assert this !in FilterObjects(filters.items) && ringBuffer !in FilterObjects(filters.items);
      assert ringBuffer.buffer !in FilterObjects(filters.items);
      var filtered := FoldFilters(filters.items, elapsedTime, value);
      assert Valid();
      Record(TimedData(elapsedTime, filtered));
    }

    /** `RingBuffer.Write` of one sample. */
    method Record(sample: TimedData)
      requires Valid()
      modifies ringBuffer, ringBuffer.buffer
      ensures Valid() && ringBuffer.Written == old(ringBuffer.Written) + [sample]
    {
      ringBuffer.Write(sample);
    }

    /** `OnSignalViewError`: the upstream exception becomes `Error`, and
        `IsError` follows it. */
    method OnSignalViewError(ex: nat)
      requires Valid()
      modifies this`error, this`isError
      ensures Valid() && error == Some(ex) && isError
    {
      if error != Some(ex) {
        error := Some(ex);
        isError := error.Some?;
      }
    }
  }
}
