/** `SineWaveParametersViewModel` of the Fourier data source: three texts
    (amplitude, phase, frequency), each turned into a number by `Compute`,
    which also reads fractions such as "1/3". */
module SineWaves {
  import opened Wrappers
  import opened Text
  import opened Doubles

  /** `double.TryParse` of the current culture: the number a text denotes,
      or `None`. It stays a parameter of the model. */
  type Parser = string -> Option<real>

  /** Denominators closer to zero than this read as an infinite fraction. */
  const Epsilon: real := 0.000000001

  /** `Compute`: a null text is 0; a trimmed text holding "/" must split
      into exactly two parts that both parse, and is then their quotient,
      or +infinity when the denominator is below `Epsilon` in magnitude;
      any other text is its parsed value, 0 when it does not parse. */
  function Compute(str: Option<string>, parse: Parser): (r: ExtReal)
    ensures r.Finite? || r == PositiveInfinity
    ensures str.None? ==> r == Finite(0.0)
  {
    if str.None? then Finite(0.0) else Interpret(Trim(str.value), parse)
  }

  /** `Compute` of an already trimmed, non-null text. */
  function Interpret(s: string, parse: Parser): (r: ExtReal)
    ensures r.Finite? || r == PositiveInfinity
  {
    if '/' in s then Fraction(Split(s, '/'), parse)
    else
      match parse(s)
      case Some(v) => Finite(v)
      case None => Finite(0.0)
  }

  /** The fraction branch of `Compute`, given the parts around the "/"s. */
  function Fraction(parts: seq<string>, parse: Parser): (r: ExtReal)
    ensures r.Finite? || r == PositiveInfinity
  {
    if |parts| != 2 then Finite(0.0)
    else
      var a := parse(Trim(parts[0]));
      var b := parse(Trim(parts[1]));
      if a.None? || b.None? then Finite(0.0)
      else if Abs(b.value) < Epsilon then PositiveInfinity
      else Finite(a.value / b.value)
  }

  /** The text is trimmed first: surrounding white space never matters. */
  lemma ComputeIgnoresSurroundingSpace(s: string, parse: Parser)
    ensures Compute(Some(s), parse) == Compute(Some(Trim(s)), parse)
  {
    TrimIdempotent(s);
  }

  /** A text without "/" is its parsed value, or 0 when it does not parse. */
  lemma ComputePlain(s: string, parse: Parser)
    requires Count(Trim(s), '/') == 0
    ensures Compute(Some(s), parse) == if parse(Trim(s)).Some? then Finite(parse(Trim(s)).value) else Finite(0.0)
  {
    assert '/' !in multiset(Trim(s));
  }

  /** More than one "/" gives 0, whatever the parts hold. */
  lemma ComputeManySlashes(s: string, parse: Parser)
    requires Count(Trim(s), '/') >= 2
    ensures Compute(Some(s), parse) == Finite(0.0)
  {
    var t := Trim(s);
    SplitCount(t, '/');
    assert '/' in multiset(t);
  }

  /** Exactly one "/": the fraction of the two trimmed sides, 0 when either
      side does not parse, +infinity when the denominator is too close to 0
      (whatever the numerator is). */
  lemma ComputeFraction(s: string, parse: Parser)
    requires Count(Trim(s), '/') == 1
    ensures var t := Trim(s);
            var i := IndexOf(t, '/');
            var a := parse(Trim(t[..i]));
            var b := parse(Trim(t[i + 1..]));
            Compute(Some(s), parse) ==
              if a.None? || b.None? then Finite(0.0)
              else if Abs(b.value) < Epsilon then PositiveInfinity
              else Finite(a.value / b.value)
  {
    var t := Trim(s);
    assert '/' in multiset(t);
    SplitOnce(t, '/');
  }

  /** +infinity comes only from a single "/" whose two sides parse and
      whose denominator is below `Epsilon`. */
  lemma {:induction false} InfinityIffTinyDenominator(s: string, parse: Parser)
    ensures Compute(Some(s), parse) == PositiveInfinity <==>
              var t := Trim(s);
              var i := IndexOf(t, '/');
              && Count(t, '/') == 1
              && parse(Trim(t[..i])).Some? && parse(Trim(t[i + 1..])).Some?
              && Abs(parse(Trim(t[i + 1..])).value) < Epsilon
  {
    var t := Trim(s);
    var n := Count(t, '/');
    if n == 0 {
      ComputePlain(s, parse);
    } else if n == 1 {
      ComputeFraction(s, parse);
    } else {
      ComputeManySlashes(s, parse);
    }
  }

  /** `SineWaveParameters`: the computed amplitude, phase and frequency. */
  datatype SineWaveParameters = SineWaveParameters(amplitude: ExtReal, phase: ExtReal, frequency: ExtReal)

  /** The attributes of a `<parameter>` element, as `Save` writes them and
      `Load` reads them back. */
  datatype SavedParameters = SavedParameters(active: bool, amp: string, phase: string, freq: string)

  /** The field initialisers: active, and "0" for the three texts. */
  const Defaults := SavedParameters(true, "0", "0", "0")

  class SineWaveParametersViewModel {
    const parse: Parser
    var isActive: bool
    var amplitude: string
    var phase: string
    var frequency: string
    var model: SineWaveParameters
    /** How many times the `configChanged` callback has been called. */
    var configChanges: nat

    /** What `Model` must be for the current texts. */
    function ModelOf(): SineWaveParameters
      reads this`amplitude, this`phase, this`frequency
    {
      SineWaveParameters(Compute(Some(amplitude), parse), Compute(Some(phase), parse), Compute(Some(frequency), parse))
    }

    predicate Valid()
      reads this
    {
      model == ModelOf()
    }

    /** The constructor: texts "0" and active, or the texts of `saved`
        restored without calling `configChanged`; then the model. */
    constructor (saved: Option<SavedParameters>, parse: Parser)
      ensures Valid() && configChanges == 0 && this.parse == parse
      ensures Saved() == if saved.Some? then saved.value else Defaults
    {
      this.parse := parse;
      isActive := true;
      amplitude := "0";
      phase := "0";
      frequency := "0";
      configChanges := 0;
      new;
      if saved.Some? {
        Load(saved.value);
      }
      assert Saved() == if saved.Some? then saved.value else Defaults;
      UpdateModel();
    }

    /** `Load`: assigns the fields directly, so no change is reported. */
    method Load(saved: SavedParameters)
      modifies this`isActive, this`amplitude, this`phase, this`frequency
      ensures Saved() == saved
    {
      isActive := saved.active;
      amplitude := saved.amp;
      phase := saved.phase;
      frequency := saved.freq;
    }

    /** The attributes `Save` writes: the raw texts, not the computed values. */
    function Saved(): (r: SavedParameters)
      reads this`isActive, this`amplitude, this`phase, this`frequency
      ensures r.amp == amplitude && r.phase == phase && r.freq == frequency && r.active == isActive
    {
      SavedParameters(isActive, amplitude, phase, frequency)
    }

    method Save() returns (r: SavedParameters)
      ensures r == Saved()
    {
      r := SavedParameters(isActive, amplitude, phase, frequency);
    }

    method UpdateModel()
      modifies this`model
      ensures Valid()
    {
      model := SineWaveParameters(Compute(Some(amplitude), parse), Compute(Some(phase), parse), Compute(Some(frequency), parse));
    }

    /** `IsActive`: calls `configChanged` only on an actual change; the
        model is not recomputed. */
    method SetIsActive(value: bool)
      requires Valid()
      modifies this`isActive, this`configChanges
      ensures Valid() && isActive == value
      ensures configChanges == old(configChanges) + (if old(isActive) == value then 0 else 1)
    {
      if isActive != value {
        isActive := value;
        configChanges := configChanges + 1;
      }
    }

    /** `Amplitude`: on an actual change, calls `configChanged` and rebuilds
        the model from all three texts. */
    method SetAmplitude(value: string)
      requires Valid()
      modifies this
      ensures Valid() && amplitude == value
      ensures phase == old(phase) && frequency == old(frequency) && isActive == old(isActive)
      ensures configChanges == old(configChanges) + (if old(amplitude) == value then 0 else 1)
    {
      if amplitude != value {
        amplitude := value;
        configChanges := configChanges + 1;
        UpdateModel();
      }
    }

    method SetPhase(value: string)
      requires Valid()
      modifies this
      ensures Valid() && phase == value
      ensures amplitude == old(amplitude) && frequency == old(frequency) && isActive == old(isActive)
      ensures configChanges == old(configChanges) + (if old(phase) == value then 0 else 1)
    {
      if phase != value {
        phase := value;
        configChanges := configChanges + 1;
        UpdateModel();
      }
    }

    method SetFrequency(value: string)
      requires Valid()
      modifies this
      ensures Valid() && frequency == value
      ensures amplitude == old(amplitude) && phase == old(phase) && isActive == old(isActive)
      ensures configChanges == old(configChanges) + (if old(frequency) == value then 0 else 1)
    {
      if frequency != value {
        frequency := value;
        configChanges := configChanges + 1;
        UpdateModel();
      }
    }
  }

  /** A saved parameter set, loaded into a new view model, gives back the
      same four fields and the same model, and reports no change. */
  method SaveThenLoad(vm: SineWaveParametersViewModel) returns (copy: SineWaveParametersViewModel)
    requires vm.Valid()
    ensures copy.Saved() == vm.Saved() && copy.model == vm.model && copy.configChanges == 0
  {
    var saved := vm.Save();
    copy := new SineWaveParametersViewModel(Some(saved), vm.parse);
  }
}
