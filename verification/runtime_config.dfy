// Applying the runtime overlay in place, the cache over it, and what every row that the
// control plane can reach guarantees (src/adaptive_quant/config/runtime.py:182-311,
// src/adaptive_quant/services/runtime.py:21-60, src/adaptive_quant/api/control.py:1003-1060).
module RuntimeConfigs {
  import opened Wrappers
  import opened Settings
  import opened SettingsLaws
  import T = TradingMode

  // ------------------------------------------------------------ the loops

  method ReadPath(data: Json, path: Path) returns (r: Option<Json>)
    ensures r == GetPath(data, path)
  {
    var cur := data;
    for i := 0 to |path|
      invariant GetPath(cur, path[i..]) == GetPath(data, path)
    {
      if !cur.Obj? || path[i] !in cur.fields {
        return None;
      }
      cur := cur.fields[path[i]];
      assert path[i..][1..] == path[i + 1..];
    }
    return Some(cur);
  }

  // The settings a request builds, one change after the other.
  method BuildOverlay(row: T.OverlayMap, changes: seq<T.Setting>) returns (overlay: T.OverlayMap)
    ensures overlay == T.EditOverlay(row, changes)
  {
    overlay := row;
    for i := 0 to |changes|
      invariant overlay == T.EditOverlay(row, changes[..i])
    {
      var ch := changes[i];
      assert changes[..i + 1][..i] == changes[..i];
      if ch.value.Some? {
        overlay := overlay[ch.path := ch.value.value];
      } else {
        overlay := overlay - {ch.path};
      }
    }
    assert changes[..|changes|] == changes;
  }

  method ValidateOverlay(overlay: Overlay) returns (refusal: Option<Refusal>)
    ensures refusal == OverlayRefusal(overlay)
  {
    for i := 0 to |overlay|
      invariant OverlayRefusal(overlay[i..]) == OverlayRefusal(overlay)
    {
      var (path, value) := overlay[i];
      assert overlay[i..][1..] == overlay[i + 1..];
      if path == MODE_PATH {
        if value != Str(SHADOW) && value != Str(PAPER) {
          return Some(ModeNotAllowed);
        }
      } else if SpecOf(path).None? {
        return Some(NotEditable(path));
      }
    }
    return None;
  }

  method MergeOverlay(rules: Rules, reviewed: Json, overlay: Overlay) returns (r: Result<Json, Refusal>)
    ensures r == ApplyOverlay(rules, reviewed, reviewed, overlay)
  {
    var merged := reviewed;
    for i := 0 to |overlay|
      invariant ApplyOverlay(rules, reviewed, merged, overlay[i..]) == ApplyOverlay(rules, reviewed, reviewed, overlay)
    {
      hide CheckTightening, SpecOf;
      var (path, value) := overlay[i];
      assert overlay[i..][1..] == overlay[i + 1..];
      var spec := SpecOf(path);
      if spec.Some? && spec.value.Confirm? {
        var refusal := CheckTightening(rules.parse, reviewed, path, spec.value.lower, value);
        if refusal.Some? {
          return Failure(refusal.value);
        }
      }
      var next := SetPath(merged, path, value);
      if next.None? {
        return Failure(UnknownSetting(path));
      }
      merged := next.value;
    }
    return Success(merged);
  }

  method Apply(rules: Rules, base: Loaded, overlay: Overlay, overrides: map<string, Entry>)
    returns (r: Result<Loaded, Refusal>)
    ensures r == ApplyRuntime(rules, base, overlay, overrides)
  {
    hide OverlayRefusal, ApplyOverlay, IsLive, OverridesAllowed;
    if overlay == [] && overrides == map[] {
      return Success(base);
    }
    var refusal := ValidateOverlay(overlay);
    if refusal.Some? {
      return Failure(refusal.value);
    }
    if !OverridesAllowed(overrides) {
      return Failure(LifecycleLocked);
    }
    var merged := MergeOverlay(rules, base.settings, overlay);
    if merged.Failure? {
      return Failure(merged.error);
    }
    var unknown := overrides.Keys - Ids(base.strategies);
    if unknown != {} {
      return Failure(UnknownStrategies(unknown));
    }
    var entries := [];
    for i := 0 to |base.strategies|
      invariant |entries| == i && forall k :: 0 <= k < i ==> entries[k] == Overridden(base.strategies[k], overrides)
    {
      entries := entries + [Overridden(base.strategies[i], overrides)];
    }
    assert entries == OverriddenAll(base.strategies, overrides);
    var loaded := Loaded(merged.value, entries);
    if !rules.valid(loaded) {
      return Failure(SchemaRefused);
    }
    return if IsLive(loaded.settings) then Failure(LiveRefused) else Success(loaded);
  }

  // ------------------------------------------------------------ rows and their listings

  // `items` is the dictionary `overlay` in some order.
  ghost predicate Lists(items: Overlay, overlay: T.OverlayMap) {
    && Distinct(items)
    && (forall i :: 0 <= i < |items| ==> items[i].0 in overlay && overlay[items[i].0] == items[i].1)
    && (forall path :: path in overlay ==> exists i :: 0 <= i < |items| && items[i].0 == path)
  }

  function ToMap(items: Overlay): (m: T.OverlayMap)
    requires Distinct(items)
    ensures Lists(items, m)
  {
    map i | 0 <= i < |items| :: items[i].0 := items[i].1
  }

  lemma ListingsAgree(a: Overlay, b: Overlay, overlay: T.OverlayMap)
    requires Lists(a, overlay) && Lists(b, overlay)
    ensures multiset(a) == multiset(b)
  {
    forall x ensures multiset(a)[x] == multiset(b)[x] {
      Multiplicity(a, x);
      Multiplicity(b, x);
      InListing(a, overlay, x);
      InListing(b, overlay, x);
    }
  }

  lemma InListing(items: Overlay, overlay: T.OverlayMap, x: (Path, Json))
    requires Lists(items, overlay)
    ensures x in items <==> x.0 in overlay && overlay[x.0] == x.1
  {
    if x.0 in overlay && overlay[x.0] == x.1 {
      var i :| 0 <= i < |items| && items[i].0 == x.0;
      assert items[i] == x;
    }
  }

  lemma {:induction false} Multiplicity(items: Overlay, x: (Path, Json))
    requires Distinct(items)
    ensures multiset(items)[x] == if x in items then 1 else 0
    decreases |items|
  {
    if items != [] {
      var init, last := items[..|items| - 1], items[|items| - 1];
      assert items == init + [last];
      Multiplicity(init, x);
      if x == last {
        assert x !in init;
      }
    }
  }

  // ------------------------------------------------------------ the cache

  datatype Key = Key(revision: nat, overlay: T.OverlayMap, overrides: map<string, Entry>)

  // effective_config: the resolved configuration of a row, remembered by content.
  class ConfigCache {
    const rules: Rules
    const base: Loaded
    var cache: map<Key, Loaded>

    // What is remembered is what resolving the row gives, whatever order it comes in.
    ghost predicate Valid()
      reads this
    {
      forall k, items :: k in cache && Lists(items, k.overlay) ==>
        ApplyRuntime(rules, base, items, k.overrides) == Success(cache[k])
    }

    constructor (rules: Rules, base: Loaded)
      ensures Valid() && this.rules == rules && this.base == base
    {
      this.rules, this.base, cache := rules, base, map[];
    }

    // Always the configuration of this very row, cached or not.
    method Effective(revision: nat, items: Overlay, overrides: map<string, Entry>) returns (r: Result<Loaded, Refusal>)
      requires Valid() && Distinct(items)
      modifies this`cache
      ensures Valid()
      ensures r == ApplyRuntime(rules, base, items, overrides)
    {
      hide ApplyRuntime;
      var key := Key(revision, ToMap(items), overrides);
      if key in cache {
        return Success(cache[key]);
      }
      r := Apply(rules, base, items, overrides);
      if r.Success? {
        forall other | Lists(other, key.overlay) ensures ApplyRuntime(rules, base, other, overrides) == r {
          ListingsAgree(items, other, key.overlay);
          OrderIsIrrelevant(rules, base, items, other, overrides);
        }
        if |cache| > 32 {
          cache := map[];
        }
        cache := cache[key := r.value];
      }
    }
  }

  // ------------------------------------------------------------ reachable rows

  ghost predicate Resolves(rules: Rules, base: Loaded, overlay: T.OverlayMap, overrides: map<string, Entry>) {
    forall items :: Lists(items, overlay) ==> ApplyRuntime(rules, base, items, overrides).Success?
  }

  // The handlers resolve what they save against these rules and reviewed files.
  ghost predicate ResolvesFor(d: T.Deployment, rules: Rules, base: Loaded) {
    forall o, v :: d.accepts(o, v) <==> Resolves(rules, base, o, v)
  }

  lemma {:induction false} ReachableRowsResolve(d: T.Deployment, rules: Rules, base: Loaded,
                                                states: seq<T.System>, events: seq<T.Event>, n: nat)
    requires T.IsRun(d, states, events) && n <= |events| && ResolvesFor(d, rules, base)
    requires Resolves(rules, base, states[0].config.overlay, states[0].config.overrides)
    ensures Resolves(rules, base, states[n].config.overlay, states[n].config.overrides)
  {
    if n > 0 {
      ReachableRowsResolve(d, rules, base, states, events, n - 1);
      hide Resolves;
      StepSavesAccepted(d, states[n - 1], events[n - 1]);
      hide T.Perform, T.Allowed;
    }
  }

  lemma StepSavesAccepted(d: T.Deployment, s: T.System, e: T.Event)
    ensures var next := T.Perform(d, s, e).config;
      next == s.config || d.accepts(next.overlay, next.overrides)
  {
    hide T.ModeOf, T.EditOverlay, T.EditOverrides;
  }

  function InRow(overlay: T.OverlayMap, path: Path): Option<Json> {
    if path in overlay then Some(overlay[path]) else None
  }

  lemma LookupInListing(items: Overlay, overlay: T.OverlayMap, path: Path)
    requires Lists(items, overlay)
    ensures Lookup(items, path) == InRow(overlay, path)
  {
    if Lookup(items, path).Some? {
      LookupFinds(items, path);
    } else if path in overlay {
      var i :| 0 <= i < |items| && items[i].0 == path;
      LookupMisses(items, path, i);
      assert false;
    }
  }

  // Whatever the requests of a run did, the configuration in force resolves, it is not
  // live, and each of its risk limits is at least as tight as the reviewed one if and only
  // if the row does not give it a value that reads as "not a number".
  lemma ReachableRowsAreTight(d: T.Deployment, rules: Rules, base: Loaded, states: seq<T.System>, events: seq<T.Event>,
                              n: nat, items: Overlay, path: Path)
    requires T.IsRun(d, states, events) && n <= |events| && ResolvesFor(d, rules, base)
    requires Resolves(rules, base, states[0].config.overlay, states[0].config.overrides)
    requires Lists(items, states[n].config.overlay)
    requires SpecOf(path).Some? && SpecOf(path).value.Confirm?
    requires GetPath(base.settings, path).Some? && IsLimit(rules.parse, GetPath(base.settings, path).value)
    ensures var r := ApplyRuntime(rules, base, items, states[n].config.overrides);
      && r.Success?
      && (!IsLive(base.settings) ==> !IsLive(r.value.settings))
      && var lower, after, reviewed :=
        SpecOf(path).value.lower, GetPath(r.value.settings, path), GetPath(base.settings, path).value;
      && after.Some?
      && NotLooser(rules.parse, lower, after.value, reviewed)
      && (AtLeastAsTight(rules.parse, lower, after.value, reviewed)
          <==> !ReadsAsNaN(rules.parse, InRow(states[n].config.overlay, path)))
  {
    ReachableRowsResolve(d, rules, base, states, events, n);
    hide ApplyRuntime, T.IsRun, SpecOf, GetPath, IsLive, AtLeastAsTight, NotLooser, IsLimit, ReadsAsNaN;
    LimitsNeverLoosen(rules, base, items, states[n].config.overrides, path);
    LimitsOnlyTighten(rules, base, items, states[n].config.overrides, path);
    LookupInListing(items, states[n].config.overlay, path);
    if !IsLive(base.settings) {
      NeverLive(rules, base, items, states[n].config.overrides);
    }
  }

  lemma OneItemLists(items: Overlay, path: Path, value: Json)
    requires Lists(items, map[path := value])
    ensures items == [(path, value)]
  {
    assert Lists([(path, value)], map[path := value]) by {
      assert [(path, value)][0].0 == path;
    }
    ListingsAgree(items, [(path, value)], map[path := value]);
    assert |items| == |multiset(items)| == 1;
    assert items[0] in multiset(items);
  }

  lemma OneConfirmedChange(path: Path, value: Json)
    requires SpecOf(path).Some? && SpecOf(path).value.Confirm?
    ensures var change := T.Setting(path, Some(value));
      T.ChangeAllowed(change, true) && T.EditOverlay(map[], [change]) == map[path := value]
  {
    var change := T.Setting(path, Some(value));
    assert SpecOf(MODE_PATH).None?;
    assert [change][..0] == [];
    hide SpecOf;
  }

  lemma ReadsTheRow(d: T.Deployment, s: T.System, change: T.Setting)
    requires T.ChangeAllowed(change, true)
    ensures T.Perform(d, s, T.ReadForSettings(1, s.config.revision, [change], true))
         == T.Put(s, 1, T.SettingsRead(s.config, [change]))
  {
    hide T.ChangeAllowed;
    assert forall i :: 0 <= i < |[change]| ==> [change][i] == change;
  }

  lemma SavesTheRow(d: T.Deployment, s: T.System, base: T.Config, changes: seq<T.Setting>)
    requires s.clients == map[1 := T.SettingsRead(base, changes)] && s.config == base
    requires d.accepts(T.EditOverlay(base.overlay, changes), base.overrides)
    ensures T.Perform(d, s, T.SaveSettings(1)).config
         == T.Config(base.revision + 1, T.EditOverlay(base.overlay, changes), base.overrides)
  {
    hide T.EditOverlay;
  }

  lemma TwoSteps(d: T.Deployment, s: T.System, e: T.Event, f: T.Event) returns (states: seq<T.System>)
    requires s.clients == map[] && T.Allowed(s, e) && T.Allowed(T.Perform(d, s, e), f)
    ensures T.IsRun(d, states, [e, f])
    ensures states[0] == s && states[2] == T.Perform(d, T.Perform(d, s, e), f)
  {
    hide T.Perform, T.Allowed;
    var next := T.Perform(d, s, e);
    states := [s, next, T.Perform(d, next, f)];
  }

  lemma ReplacedLimitIsAccepted(d: T.Deployment, rules: Rules, base: Loaded, path: Path, value: Json)
    requires ResolvesFor(d, rules, base) && !IsLive(base.settings)
    requires SpecOf(path).Some? && SpecOf(path).value.Confirm?
    requires GetPath(base.settings, path).Some? && IsLimit(rules.parse, GetPath(base.settings, path).value)
    requires ReadsAsNaN(rules.parse, Some(value))
    requires SetPath(base.settings, path, value).Some? ==>
      rules.valid(Loaded(SetPath(base.settings, path, value).value, base.strategies))
    ensures d.accepts(map[path := value], map[])
  {
    NaNReplacesALimit(rules, base, path, value);
    hide ApplyRuntime, GetPath, SetPath, IsLimit, ReadsAsNaN, IsLive, SpecOf;
    forall items | Lists(items, map[path := value]) ensures ApplyRuntime(rules, base, items, map[]).Success? {
      OneItemLists(items, path, value);
    }
    assert Resolves(rules, base, map[path := value], map[]);
  }

  // Such a row is two steps from the empty one: a confirmed settings request for the limit
  // reads it and saves it, if the schema takes the value.
  lemma LimitCanBeReplaced(d: T.Deployment, rules: Rules, base: Loaded, path: Path, value: Json)
    returns (states: seq<T.System>, events: seq<T.Event>)
    requires ResolvesFor(d, rules, base) && !IsLive(base.settings)
    requires SpecOf(path).Some? && SpecOf(path).value.Confirm?
    requires GetPath(base.settings, path).Some? && IsLimit(rules.parse, GetPath(base.settings, path).value)
    requires ReadsAsNaN(rules.parse, Some(value))
    requires SetPath(base.settings, path, value).Some? ==>
      rules.valid(Loaded(SetPath(base.settings, path, value).value, base.strategies))
    ensures T.IsRun(d, states, events) && |events| == 2
    ensures states[0].config == T.Config(0, map[], map[]) && states[2].config == T.Config(1, map[path := value], map[])
  {
    ReplacedLimitIsAccepted(d, rules, base, path, value);
    OneConfirmedChange(path, value);
    hide T.Perform, T.EditOverlay, T.ChangeAllowed, T.IsRun, ResolvesFor, GetPath, SetPath, IsLimit, ReadsAsNaN, IsLive;
    var change := T.Setting(path, Some(value));
    var start := T.System(T.Config(0, map[], map[]), None, map[]);
    var read := T.Put(start, 1, T.SettingsRead(start.config, [change]));
    events := [T.ReadForSettings(1, 0, [change], true), T.SaveSettings(1)];
    ReadsTheRow(d, start, change);
    SavesTheRow(d, read, start.config, [change]);
    states := TwoSteps(d, start, events[0], events[1]);
  }

  // The mode the handlers and the guard read from a row is the mode of its configuration.
  lemma ModeIsEffective(d: T.Deployment, rules: Rules, base: Loaded, config: T.Config, items: Overlay)
    requires Lists(items, config.overlay) && ApplyRuntime(rules, base, items, config.overrides).Success?
    requires GetPath(base.settings, MODE_PATH) == Some(Str(d.reviewedMode))
    ensures GetPath(ApplyRuntime(rules, base, items, config.overrides).value.settings, MODE_PATH)
      == Some(Str(T.ModeOf(d, config)))
  {
    forall p: Path | Writable(p) ensures p == MODE_PATH || Independent(p, MODE_PATH) {
      if p != MODE_PATH {
        WritablesAreIndependent(p, MODE_PATH);
      }
    }
    EffectiveValue(rules, base, items, config.overrides, MODE_PATH);
    AllowedIff(items);
    hide ApplyOverlay, GetPath;
    if Lookup(items, MODE_PATH).Some? {
      LookupFinds(items, MODE_PATH);
      var i :| 0 <= i < |items| && items[i] == (MODE_PATH, Lookup(items, MODE_PATH).value);
      assert ItemAllowed(items[i]);
    } else if MODE_PATH in config.overlay {
      var i :| 0 <= i < |items| && items[i].0 == MODE_PATH;
      LookupMisses(items, MODE_PATH, i);
      assert false;
    }
  }

  lemma {:induction false} LookupMisses(items: Overlay, path: Path, i: nat)
    requires i < |items| && items[i].0 == path
    ensures Lookup(items, path).Some?
    decreases |items|
  {
    if items[0].0 != path {
      LookupMisses(items[1..], path, i - 1);
    }
  }
}
