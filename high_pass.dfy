/** The high-pass filter: the output follows the changes of the input and
    decays by the coefficient on every sample, so a constant offset is
    removed.  The coefficient is the slider value (Alpha mode) or derived
    from it as an RC time constant and the time step (RC mode). */
module HighPass {
  /** The `FilterMode` codes: Alpha is 0; any other code takes the RC branch. */
  const AlphaMode: int := 0
  const RCMode: int := 1

  datatype HighPassState = HighPassState(mode: int, sliderValue: real, previousValue: real,
                                         previousUnfilteredValue: real, previousTime: real)

  /** The state `new HighPassFilter(factory)` starts in: Alpha mode, slider
      0.85, no sample seen. */
  const Initial := HighPassState(AlphaMode, 0.85, 0.0, 0.0, -1.0)

  predicate Seeding(s: HighPassState)
  {
    s.previousTime < 0.0
  }

  /** Outside the real-number model: the RC coefficient divides by
      slider + dt. */
  predicate Defined(s: HighPassState, time: real)
  {
    Seeding(s) || s.mode == AlphaMode || s.sliderValue + (time - s.previousTime) != 0.0
  }

  function Cutoff(s: HighPassState, time: real): real
    requires !Seeding(s) && Defined(s, time)
  {
    if s.mode == AlphaMode then s.sliderValue
    else s.sliderValue / (s.sliderValue + (time - s.previousTime))
  }

  /** `ProcessValue(time, value)`: the new state and the returned value. */
  function Step(s: HighPassState, time: real, value: real): (r: (HighPassState, real))
    requires Defined(s, time)
    ensures r.0.mode == s.mode && r.0.sliderValue == s.sliderValue
    ensures r.1 == r.0.previousValue && r.0.previousUnfilteredValue == value
  {
    if Seeding(s) then
      (s.(previousValue := value, previousUnfilteredValue := value, previousTime := time), value)
    else
      var cutoff := Cutoff(s, time);
      var t := if s.mode == AlphaMode then s.previousTime else time;
      var v := cutoff * (s.previousValue + value - s.previousUnfilteredValue);
      (s.(previousValue := v, previousUnfilteredValue := value, previousTime := t), v)
  }

  /** The first sample passes through unchanged. */
  lemma SeedPassesThrough(s: HighPassState, time: real, value: real)
    requires Seeding(s)
    ensures Step(s, time, value).1 == value && Step(s, time, value).0.previousTime == time
  {
  }

  /** Offset invariance: shifting the input and the remembered input by the
      same amount leaves the output unchanged. */
  lemma IgnoresOffset(s: HighPassState, time: real, value: real, offset: real)
    requires !Seeding(s) && Defined(s, time)
    ensures Step(s.(previousUnfilteredValue := s.previousUnfilteredValue + offset), time, value + offset).1
         == Step(s, time, value).1
  {
    var s2 := s.(previousUnfilteredValue := s.previousUnfilteredValue + offset);
    assert Cutoff(s2, time) == Cutoff(s, time);
    assert s2.previousValue + (value + offset) - s2.previousUnfilteredValue
        == s.previousValue + value - s.previousUnfilteredValue;
  }

  /** Feeding the same value `k` times in Alpha mode. */
  function RunAlpha(s: HighPassState, value: real, k: nat): (r: HighPassState)
    requires !Seeding(s) && s.mode == AlphaMode
    ensures !Seeding(r) && r.mode == AlphaMode && r.sliderValue == s.sliderValue
    ensures k > 0 ==> r.previousUnfilteredValue == value
    decreases k
  {
    if k == 0 then s else RunAlpha(Step(s, 0.0, value).0, value, k - 1)
  }

  function Power(x: real, k: nat): real
  {
    if k == 0 then 1.0 else x * Power(x, k - 1)
  }

  /** A constant input that the filter has already seen makes the output
      decay geometrically: after `k` more samples it is alpha^k times the
      previous output. */
  lemma {:induction false} ConstantInputDecays(s: HighPassState, k: nat)
    requires !Seeding(s) && s.mode == AlphaMode
    ensures RunAlpha(s, s.previousUnfilteredValue, k).previousValue
         == Power(s.sliderValue, k) * s.previousValue
    decreases k
  {
    if k > 0 {
      var a := s.sliderValue;
      var s1 := Step(s, 0.0, s.previousUnfilteredValue).0;
      assert s1.previousValue == a * s.previousValue;
      assert s1.previousUnfilteredValue == s.previousUnfilteredValue;
      ConstantInputDecays(s1, k - 1);
      Regroup(Power(a, k - 1), a, s.previousValue);
    }
  }

  lemma Regroup(p: real, x: real, d: real)
    ensures p * (x * d) == (x * p) * d
  {
  }

  /** With alpha 0.5, the samples 0, 10, 10 come out as 0, 5, 2.5. */
  lemma HalfAlphaExample()
    ensures var s0 := Initial.(sliderValue := 0.5);
            var r1 := Step(s0, 0.0, 0.0);
            var r2 := Step(r1.0, 0.01, 10.0);
            var r3 := Step(r2.0, 0.02, 10.0);
            r1.1 == 0.0 && r2.1 == 5.0 && r3.1 == 2.5
  {
  }

  /** What `Save` writes and `Load` reads back. */
  datatype HighPassSettings = HighPassSettings(mode: int, value: real)

  class HighPassFilter {
    var mode: int
    var sliderValue: real
    var previousValue: real
    var previousUnfilteredValue: real
    var previousTime: real
    /** How many times `ConfigurationChanged` has been raised. */
    var configurationChanged: nat

    function State(): HighPassState
      reads this
    {
      HighPassState(mode, sliderValue, previousValue, previousUnfilteredValue, previousTime)
    }

    constructor ()
      ensures State() == Initial && configurationChanged == 0
    {
      mode := AlphaMode;
      sliderValue := 0.85;
      previousValue := 0.0;
      previousUnfilteredValue := 0.0;
      previousTime := -1.0;
      configurationChanged := 0;
    }

    method SetMode(mode: int)
      modifies this
      ensures State() == old(State()).(mode := mode)
      ensures configurationChanged == old(configurationChanged) + (if old(this.mode) != mode then 1 else 0)
    {
      if this.mode != mode {
        this.mode := mode;
        configurationChanged := configurationChanged + 1;
      }
    }

    method SetSliderValue(sliderValue: real)
      modifies this
      ensures State() == old(State()).(sliderValue := sliderValue)
      ensures configurationChanged == old(configurationChanged) + (if old(this.sliderValue) != sliderValue then 1 else 0)
    {
      if this.sliderValue != sliderValue {
        this.sliderValue := sliderValue;
        configurationChanged := configurationChanged + 1;
      }
    }

    method ProcessValue(time: real, value: real) returns (r: real)
      requires Defined(State(), time)
      modifies this
      ensures (State(), r) == Step(old(State()), time, value)
      ensures configurationChanged == old(configurationChanged)
    {
      ghost var s := State();
      if previousTime < 0.0 {
        previousValue := value;
        previousUnfilteredValue := value;
        previousTime := time;
        return value;
      }

      var cutoff: real;

      if mode == AlphaMode {
        cutoff := sliderValue;
      } else {
        var dt := time - previousTime;
        previousTime := time;
        cutoff := sliderValue / (sliderValue + dt);
      }

      assert cutoff == Cutoff(s, time);
      previousValue := cutoff * (previousValue + value - previousUnfilteredValue);

      previousUnfilteredValue := value;
      assert State() == Step(s, time, value).0;

      return previousValue;
    }

    method Save() returns (settings: HighPassSettings)
      ensures settings == HighPassSettings(mode, sliderValue)
    {
      settings := HighPassSettings(mode, sliderValue);
    }

    method Load(settings: HighPassSettings)
      modifies this
      ensures State() == old(State()).(mode := settings.mode, sliderValue := settings.value)
      ensures configurationChanged == old(configurationChanged)
                + (if old(mode) != settings.mode then 1 else 0)
                + (if old(sliderValue) != settings.value then 1 else 0)
    {
      SetMode(settings.mode);
      SetSliderValue(settings.value);
    }
  }

  /** Loading what was just saved changes nothing and raises no event. */
  method SaveLoadRoundTrip(f: HighPassFilter)
    modifies f
    ensures f.State() == old(f.State()) && f.configurationChanged == old(f.configurationChanged)
  {
    var settings := f.Save();
    f.Load(settings);
  }
}
