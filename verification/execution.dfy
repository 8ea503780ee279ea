// When a decision is made and when it fills (src/adaptive_quant/quant/backtest/execution.py).
module Execution {
  import opened Wrappers
  import opened Errors

  datatype Timing = NearClose | NextOpen | NextClose | ClosingAuction

  datatype Point = AtOpen | AtClose

  // Times are seconds; the date counts days.
  datatype Session = Session(date: int, openTime: int, closeTime: int)

  datatype Schedule = Schedule(decisionTime: int, fillOffset: nat, fillPoint: Point)

  function ScheduleOf(timing: Timing, session: Session, delay: nat, nearCloseMinutes: int): Result<Schedule, Error> {
    match timing
    case NearClose =>
      var decision := session.closeTime - 60 * nearCloseMinutes;
      if decision <= session.openTime then Failure(SessionTooShort)
      else Success(Schedule(decision, delay, AtClose))
    case NextOpen => Success(Schedule(session.closeTime, 1 + delay, AtOpen))
    case NextClose => Success(Schedule(session.closeTime, 1 + delay, AtClose))
    case ClosingAuction => Success(Schedule(session.closeTime, delay, AtClose))
  }

  function FillTime(session: Session, point: Point): int {
    if point == AtOpen then session.openTime else session.closeTime
  }

  predicate AllowsSameBarClose(timing: Timing, delay: nat) {
    timing == ClosingAuction && delay == 0
  }

  ghost predicate Ordered(sessions: seq<Session>) {
    && (forall i :: 0 <= i < |sessions| ==> sessions[i].openTime < sessions[i].closeTime)
    && (forall i, j :: 0 <= i < j < |sessions| ==>
          sessions[i].closeTime < sessions[j].openTime && sessions[i].date < sessions[j].date)
  }

  // The fill points of a run in the order they happen: open and close of each session.
  function Slot(index: int, point: Point): int {
    2 * index + if point == AtOpen then 0 else 1
  }

  function SlotTime(sessions: seq<Session>, slot: int): int
    requires 0 <= slot < 2 * |sessions|
  {
    FillTime(sessions[slot / 2], if slot % 2 == 0 then AtOpen else AtClose)
  }

  lemma SlotTimesIncrease(sessions: seq<Session>, a: int, b: int)
    requires Ordered(sessions) && 0 <= a < b < 2 * |sessions|
    ensures SlotTime(sessions, a) < SlotTime(sessions, b)
  {
    if a / 2 == b / 2 {
      assert a % 2 == 0 && b % 2 == 1;
    } else {
      assert a / 2 < b / 2;
      var first, second := sessions[a / 2], sessions[b / 2];
      assert first.closeTime < second.openTime;
    }
  }

  // A fill never comes before its decision, comes strictly after it except in the
  // closing auction without delay, and lies in a slot still ahead of the decision.
  lemma FillFollowsDecision(sessions: seq<Session>, timing: Timing, delay: nat, minutes: int, i: nat)
    requires Ordered(sessions) && 0 < minutes
    requires i < |sessions| && ScheduleOf(timing, sessions[i], delay, minutes).Success?
    requires i + ScheduleOf(timing, sessions[i], delay, minutes).value.fillOffset < |sessions|
    ensures var s := ScheduleOf(timing, sessions[i], delay, minutes).value;
      var slot := Slot(i + s.fillOffset, s.fillPoint);
      && 0 <= slot < 2 * |sessions|
      && SlotTime(sessions, slot) == FillTime(sessions[i + s.fillOffset], s.fillPoint)
      && s.decisionTime <= SlotTime(sessions, slot)
      && (s.decisionTime < SlotTime(sessions, slot) <==> !AllowsSameBarClose(timing, delay))
      && (if timing == NextOpen || timing == NextClose then 2 * i + 2 <= slot else 2 * i + 1 <= slot)
  {
    var s := ScheduleOf(timing, sessions[i], delay, minutes).value;
    var slot := Slot(i + s.fillOffset, s.fillPoint);
    assert slot / 2 == i + s.fillOffset;
    if s.fillOffset > 0 {
      assert sessions[i].closeTime < sessions[i + s.fillOffset].openTime;
    }
  }
}
