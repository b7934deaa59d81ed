/** The low-pass filter: an exponential moving average whose coefficient is
    either the slider value itself (Alpha mode) or derived from the slider
    value as an RC time constant and the time step (RC mode). */
module LowPass {
  /** `CutoffFilterConfigWindow.FilterMode` is an `int` enum: Alpha is 0,
      RC is 1, and any code other than Alpha's takes the RC branch. */
  const AlphaMode: int := 0
  const RCMode: int := 1

  datatype LowPassState = LowPassState(mode: int, sliderValue: real, previousValue: real, previousTime: real)

  /** The state `new LowPassFilter(factory)` starts in: Alpha mode, slider
      0.05, no sample seen (previous time -1). */
  const Initial := LowPassState(AlphaMode, 0.05, 0.0, -1.0)

  /** A sample is the first one while the previous time is negative. */
  predicate Seeding(s: LowPassState)
  {
    s.previousTime < 0.0
  }

  /** Outside the real-number model: the RC coefficient divides by
      slider + dt. */
  predicate Defined(s: LowPassState, time: real)
  {
    Seeding(s) || s.mode == AlphaMode || s.sliderValue + (time - s.previousTime) != 0.0
  }

  function Cutoff(s: LowPassState, time: real): real
    requires !Seeding(s) && Defined(s, time)
  {
    if s.mode == AlphaMode then s.sliderValue
    else s.sliderValue / (s.sliderValue + (time - s.previousTime))
  }

  /** `ProcessValue(time, value)`: the new state and the returned value. */
  function Step(s: LowPassState, time: real, value: real): (r: (LowPassState, real))
    requires Defined(s, time)
    ensures r.0.mode == s.mode && r.0.sliderValue == s.sliderValue
    ensures r.1 == r.0.previousValue
  {
    if Seeding(s) then
      (s.(previousValue := value, previousTime := time), value)
    else
      var cutoff := Cutoff(s, time);
      var t := if s.mode == AlphaMode then s.previousTime else time;
      var v := s.previousValue + cutoff * (value - s.previousValue);
      (s.(previousValue := v, previousTime := t), v)
  }

  /** The first sample passes through unchanged and records its time. */
  lemma SeedPassesThrough(s: LowPassState, time: real, value: real)
    requires Seeding(s)
    ensures Step(s, time, value) == (s.(previousValue := value, previousTime := time), value)
  {
  }

  /** Alpha mode never moves the recorded time once seeded, so the output
      does not depend on the sample times. */
  lemma AlphaIgnoresTime(s: LowPassState, t1: real, t2: real, value: real)
    requires !Seeding(s) && s.mode == AlphaMode
    ensures Step(s, t1, value) == Step(s, t2, value)
    ensures Step(s, t1, value).0.previousTime == s.previousTime
  {
    assert Cutoff(s, t1) == Cutoff(s, t2) == s.sliderValue;
    assert Step(s, t1, value).1 == Step(s, t2, value).1;
    assert Step(s, t1, value).0 == Step(s, t2, value).0;
  }

  /** With a coefficient in [0, 1] the output lies between the previous
      output and the input. */
  lemma OutputBetween(s: LowPassState, time: real, value: real)
    requires !Seeding(s) && Defined(s, time) && 0.0 <= Cutoff(s, time) <= 1.0
    ensures var out := Step(s, time, value).1;
            (s.previousValue <= value ==> s.previousValue <= out <= value) &&
            (value <= s.previousValue ==> value <= out <= s.previousValue)
  {
    var c := Cutoff(s, time);
    var d := value - s.previousValue;
    assert Step(s, time, value).1 == s.previousValue + c * d;
    if d >= 0.0 {
      assert 0.0 <= c * d <= d by {
        assert c * d <= 1.0 * d;
      }
    } else {
      assert d <= c * d <= 0.0 by {
        assert 1.0 * d <= c * d;
      }
    }
  }

  /** A constant input that equals the previous output is a fixed point. */
  lemma SteadyState(s: LowPassState, time: real)
    requires !Seeding(s) && Defined(s, time)
    ensures Step(s, time, s.previousValue).1 == s.previousValue
  {
  }

  /** Feeding the same value `k` times in Alpha mode. */
  function RunAlpha(s: LowPassState, value: real, k: nat): (r: LowPassState)
    requires !Seeding(s) && s.mode == AlphaMode
    ensures !Seeding(r) && r.mode == AlphaMode && r.sliderValue == s.sliderValue
    decreases k
  {
    if k == 0 then s else RunAlpha(Step(s, 0.0, value).0, value, k - 1)
  }

  function Power(x: real, k: nat): real
  {
    if k == 0 then 1.0 else x * Power(x, k - 1)
  }

  /** In Alpha mode the distance to a constant input shrinks by the factor
      (1 - alpha) per sample. */
  lemma {:induction false} AlphaConvergence(s: LowPassState, value: real, k: nat)
    requires !Seeding(s) && s.mode == AlphaMode
    ensures value - RunAlpha(s, value, k).previousValue
         == Power(1.0 - s.sliderValue, k) * (value - s.previousValue)
    decreases k
  {
    if k > 0 {
      var a := s.sliderValue;
      var d := value - s.previousValue;
      var s1 := Step(s, 0.0, value).0;
      Shrink(s.previousValue, value, a);
      AlphaConvergence(s1, value, k - 1);
      Regroup(Power(1.0 - a, k - 1), 1.0 - a, d);
    }
  }

  lemma Shrink(previous: real, value: real, a: real)
    ensures value - (previous + a * (value - previous)) == (1.0 - a) * (value - previous)
  {
  }

  lemma Regroup(p: real, x: real, d: real)
    ensures p * (x * d) == (x * p) * d
  {
  }

  /** With alpha 0.5, the samples 0, 10, 10 come out as 0, 5, 7.5. */
  lemma HalfAlphaExample()
    ensures var s0 := Initial.(sliderValue := 0.5);
            var r1 := Step(s0, 0.0, 0.0);
            var r2 := Step(r1.0, 0.01, 10.0);
            var r3 := Step(r2.0, 0.02, 10.0);
            r1.1 == 0.0 && r2.1 == 5.0 && r3.1 == 7.5
  {
  }

  /** What `Save` writes and `Load` reads back: the mode code and the
      slider value (the XML text encoding is not modelled). */
  datatype LowPassSettings = LowPassSettings(mode: int, value: real)

  class LowPassFilter {
    var mode: int
    var sliderValue: real
    var previousValue: real
    var previousTime: real
    /** How many times `ConfigurationChanged` has been raised. */
    var configurationChanged: nat

    function State(): LowPassState
      reads this
    {
      LowPassState(mode, sliderValue, previousValue, previousTime)
    }

    /** The constructor's `SetSliderValue(0.05)` happens before anyone can
        subscribe, so no raised event is observable. */
    constructor ()
      ensures State() == Initial && configurationChanged == 0
    {
      mode := AlphaMode;
      sliderValue := 0.05;
      previousValue := 0.0;
      previousTime := -1.0;
      configurationChanged := 0;
    }

    /** Raises `ConfigurationChanged` only when the mode actually changes. */
    method SetMode(mode: int)
      modifies this
      ensures State() == old(State()).(mode := mode)
      ensures configurationChanged == old(configurationChanged) + (if old(this.mode) != mode then 1 else 0)
    {
      if this.mode != mode {
        this.mode := mode;
        configurationChanged := configurationChanged + 1;
      }
    }

    /** Raises `ConfigurationChanged` only when the value actually changes. */
    method SetSliderValue(sliderValue: real)
      modifies this
      ensures State() == old(State()).(sliderValue := sliderValue)
      ensures configurationChanged == old(configurationChanged) + (if old(this.sliderValue) != sliderValue then 1 else 0)
    {
      if this.sliderValue != sliderValue {
        this.sliderValue := sliderValue;
        configurationChanged := configurationChanged + 1;
      }
    }

    method ProcessValue(time: real, value: real) returns (r: real)
      requires Defined(State(), time)
      modifies this
      ensures (State(), r) == Step(old(State()), time, value)
      ensures configurationChanged == old(configurationChanged)
    {
      ghost var s := State();
      if previousTime < 0.0 {
        previousValue := value;
        previousTime := time;
        return value;
      }

      var cutoff: real;

      if mode == AlphaMode {
        cutoff := sliderValue;
      } else {
        var dt := time - previousTime;
        previousTime := time;
        cutoff := sliderValue / (sliderValue + dt);
      }

      assert cutoff == Cutoff(s, time);
      previousValue := previousValue + cutoff * (value - previousValue);
      assert State() == Step(s, time, value).0;

      return previousValue;
    }

    method Save() returns (settings: LowPassSettings)
      ensures settings == LowPassSettings(mode, sliderValue)
    {
      settings := LowPassSettings(mode, sliderValue);
    }

    method Load(settings: LowPassSettings)
      modifies this
      ensures State() == old(State()).(mode := settings.mode, sliderValue := settings.value)
      ensures configurationChanged == old(configurationChanged)
                + (if old(mode) != settings.mode then 1 else 0)
                + (if old(sliderValue) != settings.value then 1 else 0)
    {
      SetMode(settings.mode);
      SetSliderValue(settings.value);
    }
  }

  /** Loading what was just saved changes nothing and raises no event. */
  method SaveLoadRoundTrip(f: LowPassFilter)
    modifies f
    ensures f.State() == old(f.State()) && f.configurationChanged == old(f.configurationChanged)
  {
    var settings := f.Save();
    f.Load(settings);
  }
}
