// What the transmit guard promises over whole runs: once a switch to SHADOW is saved, or
// automation is stopped, no order of a paper scheduler passes until the operator has
// undone it (src/adaptive_quant/worker/scheduler.py:64-100,
// src/adaptive_quant/api/control.py:1166-1184,1281-1427).
module TransmitGuard {
  import opened Wrappers
  import opened Settings
  import opened TradingMode

  // ------------------------------------------------------------ the accepted writes

  // A saved switch to `target`.
  predicate SavesMode(d: Deployment, s: System, e: Event, target: string) {
    EditOf(d, s, e) == ModeEdit(target)
  }

  // An accepted start of automation in `mode`.
  predicate StartsAutomation(s: System, e: Event, mode: string) {
    e.WriteStart? && e.who in s.clients && s.clients[e.who] == StartReady(mode)
  }

  predicate StopsAutomation(s: System, e: Event) {
    e.Stop? || (e.StopForShadow? && e.who in s.clients && s.clients[e.who].AutomationSeen?)
  }

  // ------------------------------------------------------------ one step

  // The mode changes to paper only by a saved switch to paper.
  lemma StepToPaper(d: Deployment, s: System, e: Event)
    requires Invariant(s)
    requires ModeOf(d, s.config) != PAPER && ModeOf(d, Perform(d, s, e).config) == PAPER
    ensures SavesMode(d, s, e, PAPER)
  {
    StepEdits(d, s, e);
    var edit := EditOf(d, s, e);
    if edit.SettingsEdit? {
      SettingsKeepOthers(s.config.overlay, edit.changes, MODE_PATH);
    }
  }

  // The switch turns on only by an accepted start, and shows the mode it was for.
  lemma StepOfSwitch(d: Deployment, s: System, e: Event)
    ensures var next := Perform(d, s, e).switch;
      next == s.switch
      || (Desired(next) && next.value.mode.Some? && StartsAutomation(s, e, next.value.mode.value))
      || (!Desired(next) && StopsAutomation(s, e))
    ensures StopsAutomation(s, e) ==> !Desired(Perform(d, s, e).switch)
  {
    hide ModeOf, EditOverlay, EditOverrides;
  }

  // ------------------------------------------------------------ runs

  lemma {:induction false} RevisionsGrow(d: Deployment, states: seq<System>, events: seq<Event>, m: nat, n: nat)
    requires IsRun(d, states, events) && m <= n <= |events|
    ensures states[m].config.revision <= states[n].config.revision
    decreases n - m
  {
    if m < n {
      RevisionsGrow(d, states, events, m, n - 1);
      InvariantHolds(d, states, events, n - 1);
      hide Perform, Invariant, Allowed;
      StepKeeps(d, states[n - 1], events[n - 1]);
    }
  }

  // Step `q` is the check that let request `who` switch to paper: automation was off, and
  // the row had at least the revision the request had read.
  ghost predicate IsCheck(states: seq<System>, events: seq<Event>, who: int, revision: nat, q: nat) {
    && q < |states| && q < |events|
    && events[q] == CheckPaperSwitch(who, true)
    && revision <= states[q].config.revision && !Desired(states[q].switch)
  }

  // Every request that may save a switch to paper has passed such a check.
  ghost predicate ChecksHeld(states: seq<System>, events: seq<Event>, n: nat)
    requires n < |states|
  {
    forall who :: who in states[n].clients && states[n].clients[who].PaperChecked? ==>
      exists q: nat :: q < n && IsCheck(states, events, who, states[n].clients[who].base.revision, q)
  }

  lemma StepToChecked(d: Deployment, s: System, e: Event, who: int)
    requires Invariant(s)
    requires who in Perform(d, s, e).clients && Perform(d, s, e).clients[who].PaperChecked?
    ensures (who in s.clients && s.clients[who] == Perform(d, s, e).clients[who])
      || (e == CheckPaperSwitch(who, true) && !Desired(s.switch)
          && Perform(d, s, e).clients[who].base.revision <= s.config.revision)
  {
    hide ModeOf, EditOverlay, EditOverrides;
  }

  lemma {:induction false} ChecksHold(d: Deployment, states: seq<System>, events: seq<Event>, n: nat)
    requires IsRun(d, states, events) && n <= |events|
    ensures ChecksHeld(states, events, n)
  {
    if n > 0 {
      ChecksHold(d, states, events, n - 1);
      InvariantHolds(d, states, events, n - 1);
      hide Perform, Invariant, Allowed;
      forall who | who in states[n].clients && states[n].clients[who].PaperChecked?
        ensures exists q: nat :: q < n && IsCheck(states, events, who, states[n].clients[who].base.revision, q)
      {
        StepToChecked(d, states[n - 1], events[n - 1], who);
        if events[n - 1] == CheckPaperSwitch(who, true) && !Desired(states[n - 1].switch)
          && states[n].clients[who].base.revision <= states[n - 1].config.revision
        {
          assert IsCheck(states, events, who, states[n].clients[who].base.revision, n - 1);
        } else {
          var q: nat :| q < n - 1 && IsCheck(states, events, who, states[n - 1].clients[who].base.revision, q);
          assert IsCheck(states, events, who, states[n].clients[who].base.revision, q);
        }
      }
    }
  }

  // The last switch to paper before the mode reads paper again.
  lemma {:induction false} PaperNeedsASwitch(d: Deployment, states: seq<System>, events: seq<Event>, m: nat, n: nat)
    returns (p: nat)
    requires IsRun(d, states, events) && m <= n <= |events|
    requires ModeOf(d, states[m].config) != PAPER && ModeOf(d, states[n].config) == PAPER
    ensures m <= p < n && SavesMode(d, states[p], events[p], PAPER)
    decreases n - m
  {
    if ModeOf(d, states[n - 1].config) == PAPER {
      p := PaperNeedsASwitch(d, states, events, m, n - 1);
    } else {
      InvariantHolds(d, states, events, n - 1);
      StepToPaper(d, states[n - 1], events[n - 1]);
      p := n - 1;
    }
  }

  // The start that turned automation on since it was off.
  lemma {:induction false} RunningNeedsAStart(d: Deployment, states: seq<System>, events: seq<Event>, m: nat, n: nat)
    returns (w: nat)
    requires IsRun(d, states, events) && m <= n <= |events|
    requires !Desired(states[m].switch) && Desired(states[n].switch)
    ensures m <= w < n
    ensures states[n].switch.value.mode.Some?
      && StartsAutomation(states[w], events[w], states[n].switch.value.mode.value)
    decreases n - m
  {
    StepOfSwitch(d, states[n - 1], events[n - 1]);
    assert states[n] == Perform(d, states[n - 1], events[n - 1]);
    hide Perform, Allowed;
    if states[n].switch == states[n - 1].switch {
      w := RunningNeedsAStart(d, states, events, m, n - 1);
    } else {
      w := n - 1;
    }
  }

  // ------------------------------------------------------------ the promises

  // Step `t` saves a switch to SHADOW. Whatever the other requests do, a guard call begun
  // after it and built for paper lets an order through only if a later step saved a switch
  // to PAPER - whose check, later than the switch to SHADOW too, found automation off -
  // and after that check a start of paper automation was accepted.
  lemma ShadowHolds(d: Deployment, states: seq<System>, events: seq<Event>, t: nat, r1: nat, r2: nat,
                    gate: bool, started: set<string>) returns (q: nat, p: nat, w: nat)
    requires IsRun(d, states, events) && t < r1 <= r2 <= |events|
    requires SavesMode(d, states[t], events[t], SHADOW)
    requires Guard(d, gate, PAPER, started, states[r1].config, states[r2].switch) == None
    ensures t < q < p < r1 && SavesMode(d, states[p], events[p], PAPER)
    ensures events[q] == CheckPaperSwitch(events[p].who, true) && !Desired(states[q].switch)
    ensures q < w < r2 && StartsAutomation(states[w], events[w], PAPER)
  {
    InvariantHolds(d, states, events, t);
    StepEdits(d, states[t], events[t]);
    assert ModeOf(d, states[t + 1].config) == SHADOW;
    p := PaperNeedsASwitch(d, states, events, t + 1, r1);
    var who, revision := events[p].who, states[p].clients[events[p].who].base.revision;
    assert states[p].clients[who].PaperChecked? && revision == states[p].config.revision;
    ChecksHold(d, states, events, p);
    hide Perform, Allowed, Invariant;
    q :| q < p && IsCheck(states, events, who, revision, q);
    RevisionsGrow(d, states, events, t + 1, p);
    if q <= t {
      RevisionsGrow(d, states, events, q, t);
      assert false;
    }
    w := RunningNeedsAStart(d, states, events, q, r2);
  }

  // After a stop no guard call that reads the switch afterwards - even one begun before
  // it, and for any mode - lets an order through until a start of that mode is accepted.
  lemma StopHolds(d: Deployment, states: seq<System>, events: seq<Event>, t: nat, r1: nat, r2: nat,
                  gate: bool, mode: string, started: set<string>) returns (w: nat)
    requires IsRun(d, states, events) && t < r2 <= |events| && r1 <= r2
    requires StopsAutomation(states[t], events[t])
    requires Guard(d, gate, mode, started, states[r1].config, states[r2].switch) == None
    ensures t < w < r2 && StartsAutomation(states[w], events[w], mode)
  {
    StepOfSwitch(d, states[t], events[t]);
    w := RunningNeedsAStart(d, states, events, t + 1, r2);
  }

  predicate SavesAnything(d: Deployment, s: System, e: Event) {
    EditOf(d, s, e) != NoEdit || SavesOverrides(d, s, e)
  }

  // Once a strategy is no longer eligible, no scheduler started with it sends an order
  // until a later accepted save makes it eligible again.
  lemma {:induction false} DemotionHolds(d: Deployment, states: seq<System>, events: seq<Event>, t: nat, r1: nat,
                                         r2: nat, gate: bool, mode: string, started: set<string>, id: string)
    returns (p: nat)
    requires IsRun(d, states, events) && t <= r1 <= r2 <= |events|
    requires id in started && id !in d.eligible(states[t].config, mode)
    requires Guard(d, gate, mode, started, states[r1].config, states[r2].switch) == None
    ensures t <= p < r1 && SavesAnything(d, states[p], events[p])
    ensures id !in d.eligible(states[p].config, mode) && id in d.eligible(states[p + 1].config, mode)
  {
    hide Perform, Allowed, Invariant;
    assert id in d.eligible(states[r1].config, mode) by {
      assert id !in started - d.eligible(states[r1].config, mode);
    }
    p := r1 - 1;
    while id in d.eligible(states[p].config, mode)
      decreases p
      invariant t <= p < r1 && id in d.eligible(states[p + 1].config, mode)
    {
      p := p - 1;
    }
    InvariantHolds(d, states, events, p);
    StepEdits(d, states[p], events[p]);
  }

  // ------------------------------------------------------------ a save that is lost

  function Overrides(d: Deployment, s: System, who: int): System {
    Perform(d, Perform(d, s, RereadForOverrides(who)), SaveOverrides(who))
  }

  // From any state, a strategy change (say a demotion of "x") that is read, re-read and
  // saved between the two reads of another request (say one enabling "y") is accepted and
  // then undone by that request, which is accepted too: the save that makes a demoted
  // strategy eligible again, of DemotionHolds, need not be about that strategy.
  lemma RacingStrategyChangeIsLost(d: Deployment, s: System, a: int, b: int,
                                   x: string, changeX: StrategyChange, y: string, changeY: StrategyChange)
    requires a != b && a !in s.clients && b !in s.clients
    requires d.accepts(s.config.overlay, EditOverrides(s.config.overrides, x, changeX))
    requires d.accepts(s.config.overlay, EditOverrides(s.config.overrides, y, changeY))
    ensures var s1 := Perform(d, s, ReadForOverrides(a, y, changeY));
      var s2 := Perform(d, s1, ReadForOverrides(b, x, changeX));
      var s3 := Overrides(d, s2, b);
      var s4 := Overrides(d, s3, a);
      && Allowed(s, ReadForOverrides(a, y, changeY)) && Allowed(s1, ReadForOverrides(b, x, changeX))
      && s3.config.overrides == EditOverrides(s.config.overrides, x, changeX)
      && s3.config.revision == s.config.revision + 1
      && s4.config.overrides == EditOverrides(s.config.overrides, y, changeY)
      && s4.config.revision == s.config.revision + 2
  {
    hide EditOverrides;
  }
}
