// What becomes of a request whose transactions interleave with those of others
// (src/adaptive_quant/api/control.py:748-775,1003-1073,1281-1427): exactly when it is
// accepted, and what it then leaves in the rows.
module HandlerLaws {
  import opened Wrappers
  import opened Settings
  import opened TradingMode

  // ------------------------------------------------------------ edits

  // A settings request: each path it names has the value it named last, or is reset.
  lemma {:induction false} EditIs(overlay: OverlayMap, changes: seq<Setting>, i: nat)
    requires i < |changes| && forall j :: i < j < |changes| ==> changes[j].path != changes[i].path
    ensures var after := EditOverlay(overlay, changes);
      match changes[i].value
      case Some(value) => changes[i].path in after && after[changes[i].path] == value
      case None => changes[i].path !in after
    decreases |changes|
  {
    var last := |changes| - 1;
    if i < last {
      EditIs(overlay, changes[..last], i);
    }
  }

  // A strategy request changes one field of one strategy.
  ghost predicate IsStrategyEdit(was: Entry, now: Entry, change: StrategyChange) {
    match change
    case SetEnabled(on) => now == Entry(Some(on), was.lifecycle, was.params)
    case SetLifecycle(target) => now == Entry(was.enabled, Some(target), was.params)
    case MergeParams(params) =>
      && now.enabled == was.enabled && now.lifecycle == was.lifecycle && now.params.Some?
      && forall key :: Param(now, key) == if key in params then Some(params[key]) else Param(was, key)
  }

  lemma StrategyEditIs(overrides: map<string, Entry>, sid: string, change: StrategyChange)
    ensures var after := EditOverrides(overrides, sid, change);
      && sid in after && after.Keys == overrides.Keys + {sid}
      && IsStrategyEdit(if sid in overrides then overrides[sid] else Entry(None, None, None), after[sid], change)
      && forall k :: k in overrides && k != sid ==> after[k] == overrides[k]
  {
  }

  // ------------------------------------------------------------ one request among others

  function WhoOf(e: Event): Option<int> {
    match e
    case ReadForStart(who) => Some(who)
    case CheckReadiness(who, _) => Some(who)
    case WriteStart(who) => Some(who)
    case Stop => None
    case ReadForMode(who, _) => Some(who)
    case CheckPaperSwitch(who, _) => Some(who)
    case CheckAutomation(who) => Some(who)
    case StopForShadow(who) => Some(who)
    case SaveMode(who) => Some(who)
    case ReadForSettings(who, _, _, _) => Some(who)
    case SaveSettings(who) => Some(who)
    case ReadForOverrides(who, _, _) => Some(who)
    case RereadForOverrides(who) => Some(who)
    case SaveOverrides(who) => Some(who)
  }

  // No step of the request in between.
  ghost predicate Silent(events: seq<Event>, who: int, m: nat, n: nat) {
    forall k :: m <= k < n && k < |events| ==> WhoOf(events[k]) != Some(who)
  }

  lemma OthersLeave(d: Deployment, s: System, e: Event, who: int)
    requires WhoOf(e) != Some(who) && who in s.clients
    ensures who in Perform(d, s, e).clients && Perform(d, s, e).clients[who] == s.clients[who]
  {
    hide ModeOf, EditOverlay, EditOverrides, Accepts, ChangeAllowed;
  }

  // Between its own transactions a request knows what it knew.
  lemma {:induction false} RequestWaits(d: Deployment, states: seq<System>, events: seq<Event>, who: int, m: nat,
    n: nat)
    requires IsRun(d, states, events) && m <= n <= |events| && Silent(events, who, m, n) && who in states[m].clients
    ensures who in states[n].clients && states[n].clients[who] == states[m].clients[who]
    decreases n - m
  {
    if m < n {
      RequestWaits(d, states, events, who, m, n - 1);
      hide Perform, Allowed;
      OthersLeave(d, states[n - 1], events[n - 1], who);
    }
  }

  // ------------------------------------------------------------ a start

  // A request to start automation: it reads the mode, checks, and writes the switch.
  ghost predicate IsStart(events: seq<Event>, who: int, passes: bool, a: nat, b: nat, c: nat) {
    && a < b < c < |events|
    && events[a] == ReadForStart(who) && events[b] == CheckReadiness(who, passes) && events[c] == WriteStart(who)
    && Silent(events, who, a + 1, b) && Silent(events, who, b + 1, c)
  }

  // It turns automation on, in the mode it read, exactly if that is paper or shadow, its
  // checks pass and automation was off at the check.
  lemma StartedIff(d: Deployment, states: seq<System>, events: seq<Event>, who: int, passes: bool, a: nat, b: nat,
    c: nat)
    requires IsRun(d, states, events) && IsStart(events, who, passes, a, b, c)
    ensures var mode := ModeOf(d, states[a].config);
      var accepted := (mode == "paper" || mode == "shadow") && passes && !Desired(states[b].switch);
      && states[c + 1].switch == (if accepted then Some(Switch(true, Some(mode))) else states[c].switch)
      && states[c + 1].config == states[c].config
  {
    hide ModeOf, Allowed;
    assert states[a + 1] == Perform(d, states[a], events[a]);
    RequestWaits(d, states, events, who, a + 1, b);
    assert states[b + 1] == Perform(d, states[b], events[b]);
    RequestWaits(d, states, events, who, b + 1, c);
    assert states[c + 1] == Perform(d, states[c], events[c]);
  }

  // ------------------------------------------------------------ a mode switch

  // What a request makes of the row it read, if nobody saved since.
  function Saved(d: Deployment, read: Config, now: Config, overlay: OverlayMap, overrides: map<string, Entry>): Config {
    if now.revision == read.revision && d.accepts(overlay, overrides)
    then Config(now.revision + 1, overlay, overrides) else now
  }

  ghost predicate IsSwitchToPaper(events: seq<Event>, who: int, passes: bool, a: nat, b: nat, c: nat) {
    && a < b < c < |events|
    && events[a] == ReadForMode(who, "paper") && events[b] == CheckPaperSwitch(who, passes)
    && events[c] == SaveMode(who)
    && Silent(events, who, a + 1, b) && Silent(events, who, b + 1, c)
  }

  // A switch to paper is saved exactly if the mode was another, the checks pass with
  // automation off, nobody saved since the first read and the configuration resolves.
  lemma SwitchedToPaperIff(d: Deployment, states: seq<System>, events: seq<Event>, who: int, passes: bool,
                           a: nat, b: nat, c: nat)
    requires IsRun(d, states, events) && IsSwitchToPaper(events, who, passes, a, b, c)
    ensures var read, now := states[a].config, states[c].config;
      && states[c + 1].config
        == (if ModeOf(d, read) != "paper" && passes && !Desired(states[b].switch)
            then Saved(d, read, now, read.overlay[[Trading, Mode] := Str("paper")], read.overrides) else now)
      && states[c + 1].switch == states[c].switch
  {
    hide ModeOf, Allowed;
    assert states[a + 1] == Perform(d, states[a], events[a]);
    RequestWaits(d, states, events, who, a + 1, b);
    assert states[b + 1] == Perform(d, states[b], events[b]);
    RequestWaits(d, states, events, who, b + 1, c);
    assert states[c + 1] == Perform(d, states[c], events[c]);
  }

  ghost predicate IsSwitchToShadow(events: seq<Event>, who: int, a: nat, b: nat, c: nat, e: nat) {
    && a < b < c < e < |events|
    && events[a] == ReadForMode(who, "shadow") && events[b] == CheckAutomation(who)
    && events[c] == StopForShadow(who) && events[e] == SaveMode(who)
    && Silent(events, who, a + 1, b) && Silent(events, who, b + 1, c) && Silent(events, who, c + 1, e)
  }

  // A switch to shadow first stops automation if it was seen on, and is then saved exactly
  // if the mode was another, nobody saved since the first read and the configuration
  // resolves.
  lemma SwitchedToShadowIff(d: Deployment, states: seq<System>, events: seq<Event>, who: int, a: nat, b: nat, c: nat,
    e: nat)
    requires IsRun(d, states, events) && IsSwitchToShadow(events, who, a, b, c, e)
    ensures var read, now, other := states[a].config, states[e].config, ModeOf(d, states[a].config) != "shadow";
      && states[c + 1].switch
        == (if other && Desired(states[b].switch) then Some(Switch(false, None)) else states[c].switch)
      && states[e + 1].config
        == (if other then Saved(d, read, now, read.overlay[[Trading, Mode] := Str("shadow")], read.overrides) else now)
  {
    ReadForShadow(d, states, events, who, a, b);
    hide ModeOf, Allowed;
    assert states[b + 1] == Perform(d, states[b], events[b]);
    RequestWaits(d, states, events, who, b + 1, c);
    assert states[c + 1] == Perform(d, states[c], events[c]);
    RequestWaits(d, states, events, who, c + 1, e);
    assert states[e + 1] == Perform(d, states[e], events[e]);
  }

  lemma ReadForShadow(d: Deployment, states: seq<System>, events: seq<Event>, who: int, a: nat, b: nat)
    requires IsRun(d, states, events) && a < b < |events| && events[a] == ReadForMode(who, "shadow")
    requires Silent(events, who, a + 1, b)
    ensures who in states[b].clients
    ensures states[b].clients[who]
         == if ModeOf(d, states[a].config) == "shadow" then Answered else ModeRead(states[a].config, "shadow")
  {
    hide ModeOf, Allowed;
    assert states[a + 1] == Perform(d, states[a], events[a]);
    RequestWaits(d, states, events, who, a + 1, b);
  }

  // ------------------------------------------------------------ settings and strategies

  // Only editable settings, and risk limits only with confirmation.
  predicate MayChange(changes: seq<Setting>, confirmed: bool) {
    forall i :: 0 <= i < |changes| ==>
      && changes[i].path != [Trading, Mode]
      && SpecOf(changes[i].path).Some? && (SpecOf(changes[i].path) == Some(Runtime) || confirmed)
  }

  // A settings request is saved exactly if it expected the row it read, may make its
  // changes, nobody saved since and the configuration resolves.
  lemma SettingsSavedIff(d: Deployment, states: seq<System>, events: seq<Event>, who: int, expected: nat,
                         changes: seq<Setting>, confirmed: bool, a: nat, b: nat)
    requires IsRun(d, states, events) && a < b < |events| && Silent(events, who, a + 1, b)
    requires events[a] == ReadForSettings(who, expected, changes, confirmed) && events[b] == SaveSettings(who)
    ensures var read, now := states[a].config, states[b].config;
      states[b + 1].config
        == (if expected == read.revision && MayChange(changes, confirmed)
            then Saved(d, read, now, EditOverlay(read.overlay, changes), read.overrides) else now)
  {
    MayChangeMeans(changes, confirmed);
    hide ModeOf, Allowed, EditOverlay, SpecOf, ChangeAllowed, MayChange;
    assert states[a + 1] == Perform(d, states[a], events[a]);
    RequestWaits(d, states, events, who, a + 1, b);
    assert states[b + 1] == Perform(d, states[b], events[b]);
  }

  lemma MayChangeMeans(changes: seq<Setting>, confirmed: bool)
    ensures MayChange(changes, confirmed)
       <==> !(exists i :: 0 <= i < |changes| && !ChangeAllowed(changes[i], confirmed))
  {
    hide SpecOf;
    forall i | 0 <= i < |changes|
      ensures ChangeAllowed(changes[i], confirmed)
         <==> && changes[i].path != [Trading, Mode]
              && SpecOf(changes[i].path).Some? && (SpecOf(changes[i].path) == Some(Runtime) || confirmed)
    {
    }
  }

  // A strategy request is saved exactly if nobody saved since its second read and the
  // configuration resolves: with the overrides of its first read, edited.
  lemma StrategySavedIff(d: Deployment, states: seq<System>, events: seq<Event>, who: int, sid: string,
                         change: StrategyChange, a: nat, b: nat, c: nat)
    requires IsRun(d, states, events) && a < b < c < |events|
    requires events[a] == ReadForOverrides(who, sid, change) && events[b] == RereadForOverrides(who)
    requires events[c] == SaveOverrides(who)
    requires Silent(events, who, a + 1, b) && Silent(events, who, b + 1, c)
    ensures var reread, now := states[b].config, states[c].config;
      states[c + 1].config
        == Saved(d, reread, now, reread.overlay, EditOverrides(states[a].config.overrides, sid, change))
  {
    hide ModeOf, Allowed, EditOverrides;
    assert states[a + 1] == Perform(d, states[a], events[a]);
    RequestWaits(d, states, events, who, a + 1, b);
    assert states[b + 1] == Perform(d, states[b], events[b]);
    RequestWaits(d, states, events, who, b + 1, c);
    assert states[c + 1] == Perform(d, states[c], events[c]);
  }

  // ------------------------------------------------------------ the guard

  // An order passes exactly with the master gate open, the mode still the scheduler's,
  // automation on and for no other mode, and every strategy it started with eligible.
  lemma GuardPassesIff(d: Deployment, gate: bool, mode: string, started: set<string>, config: Config,
    switch: Option<Switch>)
    ensures Guard(d, gate, mode, started, config, switch) == None
       <==> && gate && ModeOf(d, config) == mode
            && switch.Some? && switch.value.running && (switch.value.mode.Some? ==> switch.value.mode.value == mode)
            && forall id :: id in started ==> id in d.eligible(config, mode)
  {
    var gone := started - d.eligible(config, mode);
    assert gone == {} <==> forall id :: id in started ==> id !in gone;
  }

  // The mode in force is the overlay's, if it names one, and the reviewed one otherwise.
  lemma ModeIs(d: Deployment, config: Config, mode: string)
    requires [Trading, Mode] in config.overlay ==> config.overlay[[Trading, Mode]].Str?
    ensures ModeOf(d, config) == mode
       <==> if [Trading, Mode] in config.overlay then config.overlay[[Trading, Mode]] == Str(mode)
         else d.reviewedMode == mode
  {
  }
}
