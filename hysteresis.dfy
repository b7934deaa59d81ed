/** The hysteresis filter (a Schmitt trigger): the output switches to the
    maximum when the input reaches the high trigger, to the minimum when it
    falls to the low trigger, and holds its value in between. */
module Hysteresis {
  datatype HysteresisSettings = HysteresisSettings(maxValue: real, highTrigger: real, lowTrigger: real, minValue: real)

  datatype HysteresisState = HysteresisState(settings: HysteresisSettings, outputSignalValue: real)

  /** A new filter: every setting and the output are 0. */
  const Initial := HysteresisState(HysteresisSettings(0.0, 0.0, 0.0, 0.0), 0.0)

  /** `ProcessValue(time, value)`: the high trigger is checked first. */
  function Step(s: HysteresisState, value: real): (r: HysteresisState)
    ensures r.settings == s.settings
    ensures value >= s.settings.highTrigger ==> r.outputSignalValue == s.settings.maxValue
    ensures value < s.settings.highTrigger && value <= s.settings.lowTrigger ==> r.outputSignalValue == s.settings.minValue
    ensures s.settings.lowTrigger < value < s.settings.highTrigger ==> r == s
  {
    if value >= s.settings.highTrigger then s.(outputSignalValue := s.settings.maxValue)
    else if value <= s.settings.lowTrigger then s.(outputSignalValue := s.settings.minValue)
    else s
  }

  /** The outputs for a whole input sequence. */
  function Run(s: HysteresisState, values: seq<real>): (outputs: seq<real>)
    ensures |outputs| == |values|
    decreases |values|
  {
    if values == [] then []
    else
      var s1 := Step(s, values[0]);
      [s1.outputSignalValue] + Run(s1, values[1..])
  }

  /** Every output is the maximum, the minimum, or the output held from
      before the first sample. */
  lemma {:induction false} OutputsAreLevels(s: HysteresisState, values: seq<real>)
    ensures forall i :: 0 <= i < |values| ==>
              Run(s, values)[i] in {s.settings.maxValue, s.settings.minValue, s.outputSignalValue}
    decreases |values|
  {
    if values != [] {
      var s1 := Step(s, values[0]);
      OutputsAreLevels(s1, values[1..]);
      assert s1.settings == s.settings;
      assert s1.outputSignalValue in {s.settings.maxValue, s.settings.minValue, s.outputSignalValue};
    }
  }

  /** While the input stays strictly between the triggers, the output holds. */
  lemma {:induction false} HoldsBetweenTriggers(s: HysteresisState, values: seq<real>)
    requires forall i :: 0 <= i < |values| ==> s.settings.lowTrigger < values[i] < s.settings.highTrigger
    ensures forall i :: 0 <= i < |values| ==> Run(s, values)[i] == s.outputSignalValue
    decreases |values|
  {
    if values != [] {
      assert Step(s, values[0]) == s;
      HoldsBetweenTriggers(s, values[1..]);
    }
  }

  /** The same input twice in a row gives the same output. */
  lemma Idempotent(s: HysteresisState, value: real)
    ensures Step(Step(s, value), value) == Step(s, value)
  {
  }

  /** With max 1, high 0.5, low -0.5, min -1: the inputs 0.6, 0.3, -0.6, 0
      come out as 1, 1, -1, -1. */
  lemma TriggerExample()
    ensures Run(HysteresisState(HysteresisSettings(1.0, 0.5, -0.5, -1.0), 0.0), [0.6, 0.3, -0.6, 0.0])
         == [1.0, 1.0, -1.0, -1.0]
  {
    var s := HysteresisState(HysteresisSettings(1.0, 0.5, -0.5, -1.0), 0.0);
    var s1 := Step(s, 0.6);
    var s2 := Step(s1, 0.3);
    var s3 := Step(s2, -0.6);
    assert [0.6, 0.3, -0.6, 0.0][1..] == [0.3, -0.6, 0.0];
    assert [0.3, -0.6, 0.0][1..] == [-0.6, 0.0];
    assert [-0.6, 0.0][1..] == [0.0];
    assert Run(s3, [0.0]) == [-1.0];
  }

  class HysteresisFilter {
    var maxValue: real
    var highTrigger: real
    var lowTrigger: real
    var minValue: real
    var outputSignalValue: real
    /** How many times `ConfigurationChanged` has been raised. */
    var configurationChanged: nat

    function Settings(): HysteresisSettings
      reads this
    {
      HysteresisSettings(maxValue, highTrigger, lowTrigger, minValue)
    }

    function State(): HysteresisState
      reads this
    {
      HysteresisState(Settings(), outputSignalValue)
    }

    constructor ()
      ensures State() == Initial && configurationChanged == 0
    {
      maxValue := 0.0;
      highTrigger := 0.0;
      lowTrigger := 0.0;
      minValue := 0.0;
      outputSignalValue := 0.0;
      configurationChanged := 0;
    }

    /** Unlike the cutoff filters, raises `ConfigurationChanged` even when
        nothing changed. */
    method UpdateSettings(maxValue: real, highTrigger: real, lowTrigger: real, minValue: real)
      modifies this
      ensures State() == HysteresisState(HysteresisSettings(maxValue, highTrigger, lowTrigger, minValue),
                                         old(outputSignalValue))
      ensures configurationChanged == old(configurationChanged) + 1
    {
      this.maxValue := maxValue;
      this.highTrigger := highTrigger;
      this.lowTrigger := lowTrigger;
      this.minValue := minValue;

      configurationChanged := configurationChanged + 1;
    }

    method ProcessValue(time: real, value: real) returns (r: real)
      modifies this
      ensures State() == Step(old(State()), value) && r == outputSignalValue
      ensures configurationChanged == old(configurationChanged)
    {
      if value >= highTrigger {
        outputSignalValue := maxValue;
      } else if value <= lowTrigger {
        outputSignalValue := minValue;
      }

      return outputSignalValue;
    }

    method Save() returns (settings: HysteresisSettings)
      ensures settings == Settings()
    {
      settings := HysteresisSettings(maxValue, highTrigger, lowTrigger, minValue);
    }

    /** Sets the four fields directly: no event is raised. */
    method Load(settings: HysteresisSettings)
      modifies this
      ensures State() == old(State()).(settings := settings)
      ensures configurationChanged == old(configurationChanged)
    {
      maxValue := settings.maxValue;
      highTrigger := settings.highTrigger;
      lowTrigger := settings.lowTrigger;
      minValue := settings.minValue;
    }
  }

  /** Loading what was just saved changes nothing. */
  method SaveLoadRoundTrip(f: HysteresisFilter)
    modifies f
    ensures f.State() == old(f.State()) && f.configurationChanged == old(f.configurationChanged)
  {
    var settings := f.Save();
    f.Load(settings);
  }
}
