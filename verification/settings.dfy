// The runtime overlay on the reviewed settings (src/adaptive_quant/config/runtime.py:76-311):
// which settings may change at run time, reading and writing them in the settings tree,
// the tighten-only rule, and how an overlay is applied.
module Settings {
  import opened Wrappers

  // The parts of dotted paths the tables mention; every other part is `Named`.
  datatype Name =
    | Data | Backtest | Research | Notifications | Risk | Trading | Mode | LiveTrading
    | PrimaryProvider | HistoryStart | InitialCapital | Execution | ExecutionDelayBars | UseSyntheticHistory
    | CashInterestAnnual | SizingCashBuffer | Costs | CommissionPerShare | CommissionPerOrder | CommissionMinimum
    | HalfSpreadBps | DefaultEntry | SlippageBps | ImpactCoefficientBps | MaxParticipation
    | MaxGridPoints | ResearchWorkers | MonteCarlo | Simulations | Bootstrap | Samples | WalkForward | Scheme
    | MinSeverity
    | MaxGrossExposure | MaxNetUnderlyingExposure | MaxInverseNetExposure | MaxLeveragedEtfWeight | MaxDailyTurnover
    | MaxDailyLoss | MaxOrderNotional | MinCashWeight | VolatilityTarget | AnnualizedTarget | MaxScale
    | Named(text: string)

  // A dotted path, split at its dots: it has at least one part.
  type Path = p: seq<Name> | p != [] witness [Trading]

  // Python floats, as far as comparing them goes.
  datatype Number = Finite(x: real) | PlusInfinity | MinusInfinity | NotANumber

  datatype Json =
    | Null | Bool(b: bool) | Num(number: Number) | Str(s: string) | Arr(items: seq<Json>) | Obj(fields: map<Name, Json>)

  const MODE_PATH: Path := [Trading, Mode]
  const SHADOW := "shadow"
  const PAPER := "paper"
  const LIVE := "live"

  // ------------------------------------------------------------ what may be edited

  datatype Class = Runtime | Confirm(lower: bool)

  // EDITABLE: the class of each editable path; risk limits say which direction is tighter.
  function SpecOf(path: Path): Option<Class> {
    match path[0]
    case Data => if path == [Data, PrimaryProvider] || path == [Data, HistoryStart] then Some(Runtime) else None
    case Backtest =>
      if |path| == 2 && path[1] in {InitialCapital, Execution, ExecutionDelayBars, UseSyntheticHistory,
        CashInterestAnnual, SizingCashBuffer}
      then Some(Runtime)
      else if |path| == 3 && path[1] == Costs
        && path[2] in {CommissionPerShare, CommissionPerOrder, CommissionMinimum, SlippageBps, ImpactCoefficientBps,
          MaxParticipation}
      then Some(Runtime)
      else if path == [Backtest, Costs, HalfSpreadBps, DefaultEntry] then Some(Runtime)
      else None
    case Research =>
      if path == [Research, MaxGridPoints] || path == [Research, ResearchWorkers]
        || path == [Research, MonteCarlo, Simulations]
        || path == [Research, Bootstrap, Samples] || path == [Research, WalkForward, Scheme]
      then Some(Runtime) else None
    case Notifications => if path == [Notifications, MinSeverity] then Some(Runtime) else None
    case Risk =>
      if |path| == 2 && path[1] in {MaxGrossExposure, MaxNetUnderlyingExposure, MaxInverseNetExposure,
        MaxLeveragedEtfWeight, MaxDailyTurnover, MaxDailyLoss, MaxOrderNotional}
      then Some(Confirm(true))
      else if path == [Risk, MinCashWeight] then Some(Confirm(false))
      else if path == [Risk, VolatilityTarget, AnnualizedTarget] || path == [Risk, VolatilityTarget, MaxScale]
      then Some(Confirm(true))
      else None
    case _ => None
  }

  // ------------------------------------------------------------ the settings tree

  function GetPath(data: Json, path: seq<Name>): Option<Json> {
    if path == [] then Some(data)
    else if data.Obj? && path[0] in data.fields then GetPath(data.fields[path[0]], path[1..])
    else None
  }

  // None where the path does not exist: writing never adds a setting.
  function SetPath(data: Json, path: Path, value: Json): Option<Json>
    decreases |path|
  {
    if !data.Obj? || path[0] !in data.fields then None
    else if |path| == 1 then Some(Obj(data.fields[path[0] := value]))
    else
      var sub := SetPath(data.fields[path[0]], path[1..], value);
      if sub.None? then None else Some(Obj(data.fields[path[0] := sub.value]))
  }

  // ------------------------------------------------------------ the tighten-only rule

  predicate Less(a: Number, b: Number) {
    match (a, b)
    case (Finite(x), Finite(y)) => x < y
    case (MinusInfinity, Finite(_)) => true
    case (MinusInfinity, PlusInfinity) => true
    case (Finite(_), PlusInfinity) => true
    case _ => false
  }

  // float(value); `parse` reads the text of a number.
  function ToFloat(parse: string -> Option<Number>, value: Json): Option<Number> {
    match value
    case Num(number) => Some(number)
    case Bool(b) => Some(Finite(if b then 1.0 else 0.0))
    case Str(s) => parse(s)
    case _ => None
  }

  predicate Looser(lower: bool, proposed: Number, current: Number) {
    if lower then Less(current, proposed) else Less(proposed, current)
  }

  datatype Refusal =
    | ModeNotAllowed
    | NotEditable(path: Path)
    | LifecycleLocked
    | MissingLimit(path: Path)
    | NotANumberLimit(path: Path)
    | Loosens(path: Path)
    | UnknownSetting(path: Path)
    | UnknownStrategies(ids: set<string>)
    | SchemaRefused
    | LiveRefused

  function CheckTightening(parse: string -> Option<Number>, reviewed: Json, path: Path, lower: bool,
    value: Json): Option<Refusal> {
    var current := GetPath(reviewed, path);
    if current.None? then Some(MissingLimit(path))
    else
      var a, b := ToFloat(parse, value), ToFloat(parse, current.value);
      if a.None? || b.None? then Some(NotANumberLimit(path))
      else if Looser(lower, a.value, b.value) then Some(Loosens(path))
      else None
  }

  // ------------------------------------------------------------ applying an overlay

  // The overlay as the dictionary it is: its items in their order, each path once.
  type Overlay = seq<(Path, Json)>

  predicate Distinct(overlay: Overlay) {
    forall i, j :: 0 <= i < j < |overlay| ==> overlay[i].0 != overlay[j].0
  }

  datatype Entry = Entry(enabled: Option<bool>, lifecycle: Option<string>, params: Option<map<string, Json>>)

  datatype Strategy = Strategy(id: string, enabled: bool, lifecycle: string, params: map<string, Json>)

  // The reviewed configuration: the settings tree, and the strategy list apart from it.
  datatype Loaded = Loaded(settings: Json, strategies: seq<Strategy>)

  // What other modules decide: how numbers are read, and the settings schema.
  datatype Rules = Rules(parse: string -> Option<Number>, valid: Loaded -> bool)

  const UI_LIFECYCLES := {"research", "validated", "paper", "shadow", "disabled"}

  function OverlayRefusal(overlay: Overlay): Option<Refusal> {
    if overlay == [] then None
    else
      var (path, value) := overlay[0];
      if path == MODE_PATH && value != Str(SHADOW) && value != Str(PAPER) then Some(ModeNotAllowed)
      else if path != MODE_PATH && SpecOf(path).None? then Some(NotEditable(path))
      else OverlayRefusal(overlay[1..])
  }

  predicate OverridesAllowed(overrides: map<string, Entry>) {
    forall id :: id in overrides && overrides[id].lifecycle.Some? ==> overrides[id].lifecycle.value in UI_LIFECYCLES
  }

  // Sets the paths one after the other.
  function ApplyOverlay(rules: Rules, reviewed: Json, merged: Json, overlay: Overlay): Result<Json, Refusal>
    decreases |overlay|
  {
    if overlay == [] then Success(merged)
    else
      var (path, value) := overlay[0];
      var spec := SpecOf(path);
      var refusal := if spec.Some? && spec.value.Confirm?
        then CheckTightening(rules.parse, reviewed, path, spec.value.lower, value) else None;
      if refusal.Some? then Failure(refusal.value)
      else
        var next := SetPath(merged, path, value);
        if next.None? then Failure(UnknownSetting(path))
        else ApplyOverlay(rules, reviewed, next.value, overlay[1..])
  }

  function Overridden(s: Strategy, overrides: map<string, Entry>): Strategy {
    if s.id !in overrides then s
    else
      var o := overrides[s.id];
      Strategy(s.id,
               if o.enabled.Some? then o.enabled.value else s.enabled,
               if o.lifecycle.Some? then o.lifecycle.value else s.lifecycle,
               if o.params.Some? then s.params + o.params.value else s.params)
  }

  function OverriddenAll(strategies: seq<Strategy>, overrides: map<string, Entry>): (r: seq<Strategy>)
    ensures |r| == |strategies|
    ensures forall i :: 0 <= i < |r| ==> r[i] == Overridden(strategies[i], overrides)
  {
    if strategies == [] then [] else [Overridden(strategies[0], overrides)] + OverriddenAll(strategies[1..], overrides)
  }

  function Ids(strategies: seq<Strategy>): set<string> {
    set s | s in strategies :: s.id
  }

  predicate IsLive(settings: Json) {
    GetPath(settings, MODE_PATH) == Some(Str(LIVE))
    || GetPath(settings, [Trading, LiveTrading, Named("enabled")]) == Some(Bool(true))
  }

  // apply_runtime: without an overlay the reviewed configuration itself.
  function ApplyRuntime(rules: Rules, base: Loaded, overlay: Overlay, overrides: map<string, Entry>)
    : Result<Loaded, Refusal>
  {
    if overlay == [] && overrides == map[] then Success(base)
    else if OverlayRefusal(overlay).Some? then Failure(OverlayRefusal(overlay).value)
    else if !OverridesAllowed(overrides) then Failure(LifecycleLocked)
    else
      var merged := ApplyOverlay(rules, base.settings, base.settings, overlay);
      if merged.Failure? then Failure(merged.error)
      else
        var unknown := overrides.Keys - Ids(base.strategies);
        if unknown != {} then Failure(UnknownStrategies(unknown))
        else
          var loaded := Loaded(merged.value, OverriddenAll(base.strategies, overrides));
          if !rules.valid(loaded) then Failure(SchemaRefused)
          else if IsLive(loaded.settings) then Failure(LiveRefused)
          else Success(loaded)
  }
}
