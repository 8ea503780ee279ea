// The trading mode, the automation switch and the runtime configuration row
// (src/adaptive_quant/api/control.py:748-775,1003-1073,1281-1427,
// src/adaptive_quant/persistence/control.py:475-563, src/adaptive_quant/worker/scheduler.py:52-100).
// API handlers span several transactions, so every transaction is one step and any
// number of handlers interleave.
module TradingMode {
  import opened Wrappers
  import opened Settings

  // ------------------------------------------------------------ the rows

  type OverlayMap = map<Path, Json>

  // runtime_config: the overlay over the reviewed settings, and per-strategy overrides.
  datatype Config = Config(revision: nat, overlay: OverlayMap, overrides: map<string, Entry>)

  // control_state['scheduler']; the stop write names no mode.
  datatype Switch = Switch(running: bool, mode: Option<string>)

  // What the reviewed files fix: their mode, which overlays and overrides resolve on top
  // of them, and who may trade under a configuration.
  datatype Deployment = Deployment(reviewedMode: string, accepts: (OverlayMap, map<string, Entry>) -> bool,
                                   eligible: (Config, string) -> set<string>)

  // The effective trading mode.
  function ModeOf(d: Deployment, c: Config): string {
    if MODE_PATH in c.overlay && c.overlay[MODE_PATH].Str? then c.overlay[MODE_PATH].s else d.reviewedMode
  }

  // Anything but an explicit "running" means stopped.
  predicate Desired(sw: Option<Switch>) {
    sw.Some? && sw.value.running
  }

  // ------------------------------------------------------------ edits

  // A new value for a setting, or its reset.
  datatype Setting = Setting(path: Path, value: Option<Json>)

  datatype StrategyChange = SetEnabled(on: bool) | SetLifecycle(target: string) | MergeParams(params: map<string, Json>)

  // Only editable paths, never the trading mode, and risk limits only with confirmation.
  predicate ChangeAllowed(change: Setting, confirmed: bool) {
    change.path != MODE_PATH && SpecOf(change.path).Some? && (SpecOf(change.path).value.Confirm? ==> confirmed)
  }

  // Settings changes are applied in order; a reset drops the path.
  function EditOverlay(overlay: OverlayMap, changes: seq<Setting>): OverlayMap {
    if changes == [] then overlay
    else
      var last := changes[|changes| - 1];
      var before := EditOverlay(overlay, changes[..|changes| - 1]);
      if last.value.Some? then before[last.path := last.value.value] else before - {last.path}
  }

  function EditEntry(entry: Entry, change: StrategyChange): Entry {
    match change
    case SetEnabled(on) => entry.(enabled := Some(on))
    case SetLifecycle(target) => entry.(lifecycle := Some(target))
    case MergeParams(params) =>
      entry.(params := Some((if entry.params.Some? then entry.params.value else map[]) + params))
  }

  function EntryOf(overrides: map<string, Entry>, sid: string): Entry {
    if sid in overrides then overrides[sid] else Entry(None, None, None)
  }

  function EditOverrides(overrides: map<string, Entry>, sid: string, change: StrategyChange): map<string, Entry> {
    overrides[sid := EditEntry(EntryOf(overrides, sid), change)]
  }

  // ------------------------------------------------------------ the handlers

  // A request between its transactions, with what it has read so far.
  datatype Client =
    | StartRead(mode: string)
    | StartReady(mode: string)
    | ModeRead(base: Config, target: string)
    | PaperChecked(base: Config)
    | AutomationSeen(base: Config)
    | ShadowReady(base: Config)
    | SettingsRead(base: Config, changes: seq<Setting>)
    | OverridesRead(first: Config, sid: string, change: StrategyChange)
    | OverridesReread(first: Config, base: Config, sid: string, change: StrategyChange)
    | Answered

  datatype System = System(config: Config, switch: Option<Switch>, clients: map<int, Client>)

  // `passes` stands for every other check of the handler (readiness items, broker
  // verification, confirmation phrases).
  datatype Event =
    | ReadForStart(who: int)
    | CheckReadiness(who: int, passes: bool)
    | WriteStart(who: int)
    | Stop
    | ReadForMode(who: int, target: string)
    | CheckPaperSwitch(who: int, passes: bool)
    | CheckAutomation(who: int)
    | StopForShadow(who: int)
    | SaveMode(who: int)
    | ReadForSettings(who: int, expected: nat, changes: seq<Setting>, confirmed: bool)
    | SaveSettings(who: int)
    | ReadForOverrides(who: int, sid: string, change: StrategyChange)
    | RereadForOverrides(who: int)
    | SaveOverrides(who: int)

  // A handler resolves the configuration it is about to save, then saves it;
  // save_runtime_config refuses when the revision moved since the caller's read.
  predicate Accepts(d: Deployment, s: System, expected: nat, overlay: OverlayMap, overrides: map<string, Entry>) {
    d.accepts(overlay, overrides) && s.config.revision == expected
  }

  function Save(d: Deployment, s: System, expected: nat, overlay: OverlayMap, overrides: map<string, Entry>): System {
    if Accepts(d, s, expected, overlay, overrides) then s.(config := Config(expected + 1, overlay, overrides)) else s
  }

  function Put(s: System, who: int, client: Client): System {
    s.(clients := s.clients[who := client])
  }

  function Perform(d: Deployment, s: System, e: Event): System {
    match e
    case ReadForStart(who) =>
      var mode := ModeOf(d, s.config);
      Put(s, who, if mode == PAPER || mode == SHADOW then StartRead(mode) else Answered)
    case CheckReadiness(who, passes) =>
      if !(who in s.clients && s.clients[who].StartRead?) then s
      else Put(s, who, if passes && !Desired(s.switch) then StartReady(s.clients[who].mode) else Answered)
    case WriteStart(who) =>
      if !(who in s.clients && s.clients[who].StartReady?) then s
      else Put(s.(switch := Some(Switch(true, Some(s.clients[who].mode)))), who, Answered)
    case Stop => s.(switch := Some(Switch(false, None)))
    case ReadForMode(who, target) =>
      if (target != PAPER && target != SHADOW) || target == ModeOf(d, s.config) then Put(s, who, Answered)
      else Put(s, who, ModeRead(s.config, target))
    case CheckPaperSwitch(who, passes) =>
      if !(who in s.clients && s.clients[who].ModeRead? && s.clients[who].target == PAPER) then s
      else Put(s, who, if passes && !Desired(s.switch) then PaperChecked(s.clients[who].base) else Answered)
    case CheckAutomation(who) =>
      if !(who in s.clients && s.clients[who].ModeRead? && s.clients[who].target == SHADOW) then s
      else Put(s, who, if Desired(s.switch) then AutomationSeen(s.clients[who].base)
        else ShadowReady(s.clients[who].base))
    case StopForShadow(who) =>
      if !(who in s.clients && s.clients[who].AutomationSeen?) then s
      else Put(s.(switch := Some(Switch(false, None))), who, ShadowReady(s.clients[who].base))
    case SaveMode(who) =>
      if !(who in s.clients && (s.clients[who].PaperChecked? || s.clients[who].ShadowReady?)) then s
      else
        var base := s.clients[who].base;
        var target := if s.clients[who].PaperChecked? then PAPER else SHADOW;
        Put(Save(d, s, base.revision, base.overlay[MODE_PATH := Str(target)], base.overrides), who, Answered)
    case ReadForSettings(who, expected, changes, confirmed) =>
      if expected != s.config.revision || (exists i :: 0 <= i < |changes| && !ChangeAllowed(changes[i], confirmed))
      then Put(s, who, Answered) else Put(s, who, SettingsRead(s.config, changes))
    case SaveSettings(who) =>
      if !(who in s.clients && s.clients[who].SettingsRead?) then s
      else
        var base := s.clients[who].base;
        Put(Save(d, s, base.revision, EditOverlay(base.overlay, s.clients[who].changes), base.overrides), who, Answered)
    case ReadForOverrides(who, sid, change) => Put(s, who, OverridesRead(s.config, sid, change))
    case RereadForOverrides(who) =>
      if !(who in s.clients && s.clients[who].OverridesRead?) then s
      else
        var c := s.clients[who];
        Put(s, who, OverridesReread(c.first, s.config, c.sid, c.change))
    case SaveOverrides(who) =>
      if !(who in s.clients && s.clients[who].OverridesReread?) then s
      else
        var c := s.clients[who];
        Put(Save(d, s, c.base.revision, c.base.overlay, EditOverrides(c.first.overrides, c.sid, c.change)), who,
          Answered)
  }

  // Request handlers run once: a new request gets a new name.
  predicate Allowed(s: System, e: Event) {
    match e
    case ReadForStart(who) => who !in s.clients
    case ReadForMode(who, _) => who !in s.clients
    case ReadForSettings(who, _, _, _) => who !in s.clients
    case ReadForOverrides(who, _, _) => who !in s.clients
    case _ => true
  }

  // A run may start from any rows, with no request under way.
  ghost predicate IsRun(d: Deployment, states: seq<System>, events: seq<Event>) {
    && |states| == |events| + 1
    && states[0].clients == map[]
    && (forall i :: 0 <= i < |events| ==>
      Allowed(states[i], events[i]) && states[i + 1] == Perform(d, states[i], events[i]))
  }

  // ------------------------------------------------------------ the transmit guard

  datatype Refusal =
    GateOff | ModeChanged(now: string) | AutomationStopped | OtherModeRequested | StrategiesWithdrawn(ids: set<string>)

  // Asked before every order: it reads the configuration and, in a later transaction,
  // the switch; None lets the order through.
  function Guard(d: Deployment, gate: bool, mode: string, started: set<string>, config: Config,
    switch: Option<Switch>): Option<Refusal> {
    if !gate then Some(GateOff)
    else if ModeOf(d, config) != mode then Some(ModeChanged(ModeOf(d, config)))
    else if !Desired(switch) then Some(AutomationStopped)
    else if switch.value.mode.Some? && switch.value.mode.value != mode then Some(OtherModeRequested)
    else
      var gone := started - d.eligible(config, mode);
      if gone != {} then Some(StrategiesWithdrawn(gone)) else None
  }

  // ------------------------------------------------------------ saves

  // The edit an accepted overlay save makes.
  datatype OverlayEdit = NoEdit | ModeEdit(target: string) | SettingsEdit(changes: seq<Setting>)

  function EditOf(d: Deployment, s: System, e: Event): OverlayEdit {
    match e
    case SaveMode(who) =>
      if !(who in s.clients && (s.clients[who].PaperChecked? || s.clients[who].ShadowReady?)) then NoEdit
      else
        var base := s.clients[who].base;
        var target := if s.clients[who].PaperChecked? then PAPER else SHADOW;
        if Accepts(d, s, base.revision, base.overlay[MODE_PATH := Str(target)], base.overrides) then ModeEdit(target)
          else NoEdit
    case SaveSettings(who) =>
      if !(who in s.clients && s.clients[who].SettingsRead?) then NoEdit
      else
        var c := s.clients[who];
        if Accepts(d, s, c.base.revision, EditOverlay(c.base.overlay, c.changes), c.base.overrides)
        then SettingsEdit(c.changes) else NoEdit
    case _ => NoEdit
  }

  function ApplyEdit(overlay: OverlayMap, edit: OverlayEdit): OverlayMap {
    match edit
    case NoEdit => overlay
    case ModeEdit(target) => overlay[MODE_PATH := Str(target)]
    case SettingsEdit(changes) => EditOverlay(overlay, changes)
  }

  predicate SavesOverrides(d: Deployment, s: System, e: Event) {
    && e.SaveOverrides? && e.who in s.clients && s.clients[e.who].OverridesReread?
    && var c := s.clients[e.who];
       Accepts(d, s, c.base.revision, c.base.overlay, EditOverrides(c.first.overrides, c.sid, c.change))
  }

  function BaseOf(c: Client): Option<Config> {
    match c
    case ModeRead(base, _) => Some(base)
    case PaperChecked(base) => Some(base)
    case AutomationSeen(base) => Some(base)
    case ShadowReady(base) => Some(base)
    case SettingsRead(base, _) => Some(base)
    case OverridesReread(_, base, _, _) => Some(base)
    case _ => None
  }

  predicate IsSnapshot(current: Config, base: Config) {
    base.revision <= current.revision && (base.revision == current.revision ==> base == current)
  }

  predicate NoModeChange(changes: seq<Setting>) {
    forall i :: 0 <= i < |changes| ==> changes[i].path != MODE_PATH && SpecOf(changes[i].path).Some?
  }

  // What a request read is an older row, or the current one if the revision is the same;
  // and a settings request never names the trading mode.
  ghost predicate Invariant(s: System) {
    && (forall who :: who in s.clients && BaseOf(s.clients[who]).Some? ==>
      IsSnapshot(s.config, BaseOf(s.clients[who]).value))
    && (forall who :: who in s.clients && s.clients[who].SettingsRead? ==> NoModeChange(s.clients[who].changes))
  }

  lemma SaveKeeps(d: Deployment, s: System, e: Event)
    requires Invariant(s) && (e.SaveMode? || e.SaveSettings? || e.SaveOverrides?)
    ensures Invariant(Perform(d, s, e))
    ensures Perform(d, s, e).config == s.config || Perform(d, s, e).config.revision == s.config.revision + 1
  {
    hide EditOverlay, EditOverrides, NoModeChange;
  }

  lemma StepKeeps(d: Deployment, s: System, e: Event)
    requires Invariant(s)
    ensures Invariant(Perform(d, s, e))
    ensures Perform(d, s, e).config == s.config || Perform(d, s, e).config.revision == s.config.revision + 1
  {
    if e.SaveMode? || e.SaveSettings? || e.SaveOverrides? {
      SaveKeeps(d, s, e);
    } else {
      hide ModeOf, SpecOf;
    }
  }

  // Whatever a request read before, an accepted save edits the row as it is now: no
  // overlay edit is lost, and strategy saves leave the overlay alone.
  lemma StepEdits(d: Deployment, s: System, e: Event)
    requires Invariant(s)
    ensures Perform(d, s, e).config.overlay == ApplyEdit(s.config.overlay, EditOf(d, s, e))
    ensures Perform(d, s, e).config.revision
      == s.config.revision + (if EditOf(d, s, e) != NoEdit || SavesOverrides(d, s, e) then 1 else 0)
    ensures !SavesOverrides(d, s, e) ==> Perform(d, s, e).config.overrides == s.config.overrides
  {
    hide ModeOf, EditOverlay, EditOverrides;
  }

  lemma {:induction false} InvariantHolds(d: Deployment, states: seq<System>, events: seq<Event>, n: nat)
    requires IsRun(d, states, events) && n <= |events|
    ensures Invariant(states[n])
  {
    if n > 0 {
      InvariantHolds(d, states, events, n - 1);
      hide Perform, Invariant, Allowed;
      StepKeeps(d, states[n - 1], events[n - 1]);
    }
  }

  // The accepted edits of the first `n` steps, in the order the database took them.
  function Replay(d: Deployment, overlay: OverlayMap, states: seq<System>, events: seq<Event>, n: nat): OverlayMap
    requires n <= |events| < |states|
  {
    if n == 0 then overlay
    else ApplyEdit(Replay(d, overlay, states, events, n - 1), EditOf(d, states[n - 1], events[n - 1]))
  }

  // However the requests interleave, the overlay is the first one with every accepted
  // edit applied in turn: revision checks lose no settings or mode change.
  lemma {:induction false} OverlayEditsAreSerial(d: Deployment, states: seq<System>, events: seq<Event>, n: nat)
    requires IsRun(d, states, events) && n <= |events|
    ensures states[n].config.overlay == Replay(d, states[0].config.overlay, states, events, n)
  {
    if n > 0 {
      OverlayEditsAreSerial(d, states, events, n - 1);
      InvariantHolds(d, states, events, n - 1);
      hide Perform, Invariant, Allowed, EditOf, ApplyEdit;
      StepEdits(d, states[n - 1], events[n - 1]);
    }
  }

  lemma {:induction false} SettingsKeepOthers(overlay: OverlayMap, changes: seq<Setting>, path: Path)
    requires forall i :: 0 <= i < |changes| ==> changes[i].path != path
    ensures path in EditOverlay(overlay, changes) <==> path in overlay
    ensures path in overlay ==> EditOverlay(overlay, changes)[path] == overlay[path]
  {
    if changes != [] {
      SettingsKeepOthers(overlay, changes[..|changes| - 1], path);
    }
  }

  // Strategy saves compute the new overrides from a first read and check the revision of
  // a second one. Where the two reads agree nothing is lost, and only there: an accepted
  // save is the requested change of the current row if and only if the first read shows
  // what the current row holds for every other strategy and for the strategy's other
  // fields.
  ghost predicate AgreesOutside(first: map<string, Entry>, current: map<string, Entry>, sid: string,
    change: StrategyChange) {
    && (forall k :: k != sid ==>
      (k in first <==> k in current) && (k in first && k in current ==> first[k] == current[k]))
    && var a, b := EntryOf(first, sid), EntryOf(current, sid);
       match change
       case SetEnabled(_) => a.lifecycle == b.lifecycle && a.params == b.params
       case SetLifecycle(_) => a.enabled == b.enabled && a.params == b.params
       case MergeParams(params) =>
         && a.enabled == b.enabled && a.lifecycle == b.lifecycle
         && forall k :: k !in params ==> Param(a, k) == Param(b, k)
  }

  function Param(entry: Entry, name: string): Option<Json> {
    if entry.params.Some? && name in entry.params.value then Some(entry.params.value[name]) else None
  }

  lemma EditsAgreeIff(first: map<string, Entry>, current: map<string, Entry>, sid: string, change: StrategyChange)
    ensures EditOverrides(first, sid, change) == EditOverrides(current, sid, change)
       <==> AgreesOutside(first, current, sid, change)
  {
    var x, y := EditOverrides(first, sid, change), EditOverrides(current, sid, change);
    var a, b := EntryOf(first, sid), EntryOf(current, sid);
    if x == y {
      forall k | k != sid
        ensures (k in first <==> k in current) && (k in first && k in current ==> first[k] == current[k])
      {
        assert k in x <==> k in first;
        assert k in y <==> k in current;
      }
      assert x[sid] == y[sid];
      if change.MergeParams? {
        forall k | k !in change.params ensures Param(a, k) == Param(b, k) {
          assert k in x[sid].params.value <==> Param(a, k).Some?;
          assert k in y[sid].params.value <==> Param(b, k).Some?;
        }
      }
    }
    if AgreesOutside(first, current, sid, change) {
      if change.MergeParams? {
        ParamsAgree(a, b, change.params);
      }
      assert x == y;
    }
  }

  lemma ParamsAgree(a: Entry, b: Entry, params: map<string, Json>)
    requires forall k :: k !in params ==> Param(a, k) == Param(b, k)
    ensures EditEntry(a, MergeParams(params)).params == EditEntry(b, MergeParams(params)).params
  {
    var x, y := EditEntry(a, MergeParams(params)).params.value, EditEntry(b, MergeParams(params)).params.value;
    forall k ensures (k in x <==> k in y) && (k in x && k in y ==> x[k] == y[k]) {
      if k !in params {
        assert Param(a, k) == Param(b, k);
      }
    }
    assert x == y;
  }

  lemma OverrideSaveLosesNothingIff(d: Deployment, s: System, e: Event)
    requires Invariant(s) && SavesOverrides(d, s, e)
    ensures var c := s.clients[e.who];
      Perform(d, s, e).config.overrides == EditOverrides(s.config.overrides, c.sid, c.change)
      <==> AgreesOutside(c.first.overrides, s.config.overrides, c.sid, c.change)
  {
    var c := s.clients[e.who];
    EditsAgreeIff(c.first.overrides, s.config.overrides, c.sid, c.change);
    hide EditOverrides, AgreesOutside;
  }
}
