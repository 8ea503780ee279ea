// Which runtime configurations are accepted, and what they make of the strategies
// (src/adaptive_quant/config/runtime.py:76-127,204-302).
module OverlayLaws {
  import opened Wrappers
  import opened Settings
  import opened SettingsLaws

  // ------------------------------------------------------------ strategies

  // A strategy under its override: what the override gives, and the reviewed values
  // otherwise.
  predicate IsOverridden(reviewed: Strategy, o: Entry, after: Strategy) {
    && after.id == reviewed.id
    && after.enabled == (if o.enabled == Some(true) then true else if o.enabled == Some(false) then false
                         else reviewed.enabled)
    && (match o.lifecycle
        case Some(stage) => after.lifecycle == stage
        case None => after.lifecycle == reviewed.lifecycle)
    && (match o.params
        case None => after.params == reviewed.params
        case Some(params) =>
          && after.params.Keys == reviewed.params.Keys + params.Keys
          && forall key :: key in after.params ==>
              after.params[key] == if key in params then params[key] else reviewed.params[key])
  }

  // The strategies of an accepted configuration are the reviewed ones, in their order, each
  // under its override if there is one.
  lemma StrategiesAreOverridden(rules: Rules, base: Loaded, overlay: Overlay, overrides: map<string, Entry>, i: nat)
    requires ApplyRuntime(rules, base, overlay, overrides).Success? && i < |base.strategies|
    ensures var after, reviewed := ApplyRuntime(rules, base, overlay, overrides).value.strategies, base.strategies[i];
      && |after| == |base.strategies|
      && (if reviewed.id in overrides then IsOverridden(reviewed, overrides[reviewed.id], after[i])
          else after[i] == reviewed)
  {
    hide ApplyOverlay, OverlayRefusal, IsLive;
  }

  // ------------------------------------------------------------ the table of settings

  // The risk limits with a tighter direction, and everything else that is editable.
  lemma LimitsAre(path: Path)
    ensures SpecOf(path) == Some(Confirm(true)) <==> path in {
      [Risk, MaxGrossExposure], [Risk, MaxNetUnderlyingExposure], [Risk, MaxInverseNetExposure],
      [Risk, MaxLeveragedEtfWeight], [Risk, MaxDailyTurnover], [Risk, MaxDailyLoss], [Risk, MaxOrderNotional],
      [Risk, VolatilityTarget, AnnualizedTarget], [Risk, VolatilityTarget, MaxScale]}
    ensures SpecOf(path) == Some(Confirm(false)) <==> path == [Risk, MinCashWeight]
  {
    if |path| == 2 {
      assert path == [path[0], path[1]];
    }
  }

  lemma SettingsAre(path: Path)
    ensures SpecOf(path) == Some(Runtime) <==> path in {
      [Data, PrimaryProvider], [Data, HistoryStart],
      [Backtest, InitialCapital], [Backtest, Execution], [Backtest, ExecutionDelayBars],
      [Backtest, UseSyntheticHistory], [Backtest, CashInterestAnnual], [Backtest, SizingCashBuffer],
      [Backtest, Costs, CommissionPerShare], [Backtest, Costs, CommissionPerOrder],
      [Backtest, Costs, CommissionMinimum], [Backtest, Costs, HalfSpreadBps, DefaultEntry],
      [Backtest, Costs, SlippageBps], [Backtest, Costs, ImpactCoefficientBps], [Backtest, Costs, MaxParticipation],
      [Research, MaxGridPoints], [Research, ResearchWorkers], [Research, MonteCarlo, Simulations],
      [Research, Bootstrap, Samples], [Research, WalkForward, Scheme], [Notifications, MinSeverity]}
  {
    if |path| == 2 {
      assert path == [path[0], path[1]];
    } else if |path| == 3 {
      assert path == [path[0], path[1], path[2]];
    }
  }

  // ------------------------------------------------------------ what is accepted

  // How Python's float() reads a value: numbers as they are, booleans as one and zero, and
  // text as the number it spells.
  predicate ReadsAs(parse: string -> Option<Number>, value: Json, x: Number) {
    match value
    case Num(number) => number == x
    case Bool(b) => x == Finite(if b then 1.0 else 0.0)
    case Str(text) => parse(text) == Some(x)
    case _ => false
  }

  lemma FloatsAre(parse: string -> Option<Number>, value: Json)
    ensures forall x :: ReadsAs(parse, value, x) <==> ToFloat(parse, value) == Some(x)
  {
  }

  // A value for a risk limit: a number, as the reviewed one is, and not on its looser side.
  predicate KeepsLimit(rules: Rules, base: Loaded, path: Path, value: Json) {
    match SpecOf(path)
    case Some(Confirm(lower)) =>
      && GetPath(base.settings, path).Some?
      && var reviewed, proposed :=
        ToFloat(rules.parse, GetPath(base.settings, path).value), ToFloat(rules.parse, value);
      && reviewed.Some? && proposed.Some?
      && !(if lower then Less(reviewed.value, proposed.value) else Less(proposed.value, reviewed.value))
    case _ => true
  }

  // Editable paths that exist, the mode only as paper or shadow, limits only tighter,
  // lifecycles other than the live one, and strategies there are.
  ghost predicate Acceptable(rules: Rules, base: Loaded, overlay: Overlay, overrides: map<string, Entry>) {
    && (forall i :: 0 <= i < |overlay| ==>
          && (if overlay[i].0 == [Trading, Mode] then overlay[i].1 == Str("shadow") || overlay[i].1 == Str("paper")
              else SpecOf(overlay[i].0).Some?)
          && GetPath(base.settings, overlay[i].0).Some?
          && KeepsLimit(rules, base, overlay[i].0, overlay[i].1))
    && (forall id :: id in overrides ==>
          && (overrides[id].lifecycle.Some? ==>
                overrides[id].lifecycle.value in {"research", "validated", "paper", "shadow", "disabled"})
          && exists s :: s in base.strategies && s.id == id)
  }

  lemma {:induction false} PathsExist(data: Json, overlay: Overlay)
    requires Writables(overlay)
    ensures SetAll(data, overlay).Some? <==> forall i :: 0 <= i < |overlay| ==> GetPath(data, overlay[i].0).Some?
    decreases |overlay|
  {
    if overlay != [] {
      var (path, value) := overlay[0];
      SetThenGet(data, path, value);
      var next := SetPath(data, path, value);
      if next.Some? {
        PathsExist(next.value, overlay[1..]);
        forall i | 1 <= i < |overlay| ensures GetPath(next.value, overlay[i].0) == GetPath(data, overlay[i].0) {
          WritablesAreIndependent(path, overlay[i].0);
          SetKeepsOthers(data, path, value, overlay[i].0);
        }
        assert forall i :: 1 <= i < |overlay| ==> overlay[i] == overlay[1..][i - 1];
        assert forall i :: 0 <= i < |overlay[1..]| ==> overlay[1..][i] == overlay[i + 1];
      }
    }
  }

  // An overlay is refused for what it asks exactly if that is not acceptable; one that is
  // can then fail only the schema, or the last check against a live configuration.
  lemma RefusedIff(rules: Rules, base: Loaded, overlay: Overlay, overrides: map<string, Entry>)
    requires Distinct(overlay) && !(overlay == [] && overrides == map[])
    ensures var r := ApplyRuntime(rules, base, overlay, overrides);
      && (Acceptable(rules, base, overlay, overrides)
          <==> r.Success? || r.error == SchemaRefused || r.error == LiveRefused)
      && (r.Success? ==> rules.valid(r.value))
      && (r == Failure(SchemaRefused) ==> exists loaded :: !rules.valid(loaded))
      && (r == Failure(LiveRefused) ==> IsLive(base.settings))
  {
    NeverLive(rules, base, overlay, overrides);
    OverlayRefusals(overlay);
    ApplyOverlayRefusals(rules, base.settings, base.settings, overlay);
    AllowedMeans(overlay);
    OverridesMean(base, overrides);
    if OverlayRefusal(overlay).None? {
      AppliesMeans(rules, base, overlay);
    }
    hide ApplyOverlay, OverlayRefusal, OverriddenAll, IsLive, GetPath, SpecOf, KeepsLimit, Ids, OverridesAllowed,
      Distinct;
  }

  lemma AllowedMeans(overlay: Overlay)
    ensures OverlayRefusal(overlay).None? <==> forall i :: 0 <= i < |overlay| ==>
      if overlay[i].0 == [Trading, Mode] then overlay[i].1 == Str("shadow") || overlay[i].1 == Str("paper")
      else SpecOf(overlay[i].0).Some?
  {
    AllowedIff(overlay);
    hide OverlayRefusal, SpecOf;
    forall i | 0 <= i < |overlay|
      ensures ItemAllowed(overlay[i])
         <==> if overlay[i].0 == [Trading, Mode] then overlay[i].1 == Str("shadow") || overlay[i].1 == Str("paper")
              else SpecOf(overlay[i].0).Some?
    {
    }
  }

  lemma OverridesMean(base: Loaded, overrides: map<string, Entry>)
    ensures OverridesAllowed(overrides) && overrides.Keys - Ids(base.strategies) == {}
       <==> forall id :: id in overrides ==>
              && (overrides[id].lifecycle.Some? ==>
                    overrides[id].lifecycle.value in {"research", "validated", "paper", "shadow", "disabled"})
              && exists s :: s in base.strategies && s.id == id
  {
    var unknown := overrides.Keys - Ids(base.strategies);
    forall id | id in overrides ensures id in unknown <==> !exists s :: s in base.strategies && s.id == id {
    }
    assert unknown == {} <==> forall id :: id in overrides ==> id !in unknown;
  }

  lemma AppliesMeans(rules: Rules, base: Loaded, overlay: Overlay)
    requires Distinct(overlay) && OverlayRefusal(overlay).None?
    ensures ApplyOverlay(rules, base.settings, base.settings, overlay).Success?
       <==> forall i :: 0 <= i < |overlay| ==>
              GetPath(base.settings, overlay[i].0).Some? && KeepsLimit(rules, base, overlay[i].0, overlay[i].1)
  {
    AppliesIff(rules, base.settings, base.settings, overlay);
    AllowedIff(overlay);
    PathsExist(base.settings, overlay);
    hide ApplyOverlay, OverlayRefusal, SetAll, SpecOf, GetPath, Less, ToFloat;
    forall i | 0 <= i < |overlay| && GetPath(base.settings, overlay[i].0).Some?
      ensures ItemRefusal(rules, base.settings, overlay[i]).None?
         <==> KeepsLimit(rules, base, overlay[i].0, overlay[i].1)
    {
    }
  }

  // No accepted overlay leaves the mode "live" or the live lock open, and none is refused
  // for it if the reviewed files have neither.
  lemma AcceptedIsNotLive(rules: Rules, base: Loaded, overlay: Overlay, overrides: map<string, Entry>)
    requires Distinct(overlay) && !(overlay == [] && overrides == map[])
    ensures var r, lock := ApplyRuntime(rules, base, overlay, overrides), [Trading, LiveTrading, Named("enabled")];
      && (r.Success? ==>
            && GetPath(r.value.settings, [Trading, Mode]) != Some(Str("live"))
            && GetPath(r.value.settings, lock) != Some(Bool(true)))
      && (r == Failure(LiveRefused) ==>
            || GetPath(base.settings, [Trading, Mode]) == Some(Str("live"))
            || GetPath(base.settings, lock) == Some(Bool(true)))
  {
    NeverLive(rules, base, overlay, overrides);
    hide ApplyRuntime, GetPath;
  }
}
