/** The filter catalogue: the four `ISignalFilterFactory` implementations
    and the filters they produce, as one sum type over the filter
    classes. */
module SignalFilters {
  import LowPass
  import HighPass
  import Hysteresis
  import Inverser

  datatype SignalFilterFactory = LowPassFactory | HighPassFactory | HysteresisFactory | InverserFactory
  {
    function FilterName(): string
    {
      match this
      case LowPassFactory => "Low Pass"
      case HighPassFactory => "High Pass"
      case HysteresisFactory => "Hysteresis"
      case InverserFactory => "Inverser"
    }

    /** The factory's `UniqueIdentifier`, which saved layouts refer to. */
    function UniqueIdentifier(): string
    {
      match this
      case LowPassFactory => "20d6a92d-037e-4814-94b2-0cac85b04365"
      case HighPassFactory => "4edc7d26-3c48-40c1-b296-156c18c22466"
      case HysteresisFactory => "23777bb4-5984-4cd0-b99e-1edee9dab927"
      case InverserFactory => "12690ecb-c7fc-4f00-8ae6-7fcc1734601a"
    }
  }

  /** A saved layout names a filter by its identifier: the identifiers tell
      the factories apart. */
  lemma IdentifiersDistinguish(a: SignalFilterFactory, b: SignalFilterFactory)
    ensures a.UniqueIdentifier() == b.UniqueIdentifier() <==> a == b
  {
  }

  /** So do the names shown to the user. */
  lemma NamesDistinguish(a: SignalFilterFactory, b: SignalFilterFactory)
    ensures a.FilterName() == b.FilterName() <==> a == b
  {
  }

  datatype SignalFilter =
    | LowPassFilter(lowPass: LowPass.LowPassFilter)
    | HighPassFilter(highPass: HighPass.HighPassFilter)
    | HysteresisFilter(hysteresis: Hysteresis.HysteresisFilter)
    | InverserFilter
  {
    /** `SignalFilterFactory`: the factory that produced the filter. */
    function Factory(): SignalFilterFactory
    {
      match this
      case LowPassFilter(_) => LowPassFactory
      case HighPassFilter(_) => HighPassFactory
      case HysteresisFilter(_) => HysteresisFactory
      case InverserFilter => InverserFactory
    }

    /** `Name`: the factory's name. */
    function Name(): string
    {
      Factory().FilterName()
    }

    /** The objects the filter's state lives in. */
    function Objects(): set<object>
    {
      match this
      case LowPassFilter(f) => {f}
      case HighPassFilter(f) => {f}
      case HysteresisFilter(f) => {f}
      case InverserFilter => {}
    }

    function State(): FilterState
      reads Objects()
    {
      match this
      case LowPassFilter(f) => LowPassState(f.State())
      case HighPassFilter(f) => HighPassState(f.State())
      case HysteresisFilter(f) => HysteresisState(f.State())
      case InverserFilter => InverserState
    }

    /** How many times `ConfigurationChanged` has been raised; the inverser
        never raises it. */
    function ConfigurationChanges(): nat
      reads Objects()
    {
      match this
      case LowPassFilter(f) => f.configurationChanged
      case HighPassFilter(f) => f.configurationChanged
      case HysteresisFilter(f) => f.configurationChanged
      case InverserFilter => 0
    }
  }

  datatype FilterState =
    | LowPassState(lowPass: LowPass.LowPassState)
    | HighPassState(highPass: HighPass.HighPassState)
    | HysteresisState(hysteresis: Hysteresis.HysteresisState)
    | InverserState

  /** The state a factory's new filter starts in. */
  function InitialState(factory: SignalFilterFactory): FilterState
  {
    match factory
    case LowPassFactory => LowPassState(LowPass.Initial)
    case HighPassFactory => HighPassState(HighPass.Initial)
    case HysteresisFactory => HysteresisState(Hysteresis.Initial)
    case InverserFactory => InverserState
  }

  /** Whether a sample at `time` stays inside the real-number model (see
      the RC coefficient of the cutoff filters). */
  predicate Defined(s: FilterState, time: real)
  {
    match s
    case LowPassState(l) => LowPass.Defined(l, time)
    case HighPassState(h) => HighPass.Defined(h, time)
    case HysteresisState(_) => true
    case InverserState => true
  }

  /** `ISignalFilter.ProcessValue` of whichever filter it is. */
  function Step(s: FilterState, time: real, value: real): (r: (FilterState, real))
    requires Defined(s, time)
    ensures r.0.LowPassState? == s.LowPassState? && r.0.HighPassState? == s.HighPassState?
    ensures r.0.HysteresisState? == s.HysteresisState? && r.0.InverserState? == s.InverserState?
    ensures s.InverserState? ==> r.1 == -value
  {
    match s
    case LowPassState(l) =>
      var (l1, v) := LowPass.Step(l, time, value); (LowPassState(l1), v)
    case HighPassState(h) =>
      var (h1, v) := HighPass.Step(h, time, value); (HighPassState(h1), v)
    case HysteresisState(h) =>
      var h1 := Hysteresis.Step(h, value); (HysteresisState(h1), h1.outputSignalValue)
    case InverserState => (InverserState, Inverser.ProcessValue(time, value))
  }

  /** `ProduceSignalFilter`: a new filter of the factory's kind. */
  method ProduceSignalFilter(factory: SignalFilterFactory) returns (f: SignalFilter)
    ensures f.Factory() == factory && fresh(f.Objects())
    ensures f.State() == InitialState(factory) && f.ConfigurationChanges() == 0
  {
    match factory
    case LowPassFactory =>
      var l := new LowPass.LowPassFilter();
      f := LowPassFilter(l);
    case HighPassFactory =>
      var h := new HighPass.HighPassFilter();
      f := HighPassFilter(h);
    case HysteresisFactory =>
      var h := new Hysteresis.HysteresisFilter();
      f := HysteresisFilter(h);
    case InverserFactory =>
      f := InverserFilter;
  }

  /** `ProcessValue` dispatched to the filter's class. */
  method ProcessValue(f: SignalFilter, time: real, value: real) returns (r: real)
    requires Defined(f.State(), time)
    modifies f.Objects()
    ensures (f.State(), r) == Step(old(f.State()), time, value)
    ensures f.ConfigurationChanges() == old(f.ConfigurationChanges())
  {
    match f
    case LowPassFilter(l) =>
      r := l.ProcessValue(time, value);
    case HighPassFilter(h) =>
      r := h.ProcessValue(time, value);
    case HysteresisFilter(h) =>
      r := h.ProcessValue(time, value);
    case InverserFilter =>
      r := Inverser.ProcessValue(time, value);
  }
}
