// The restartable timer: requests wait in a slot for one duration, the timer
// task turns the latest one it has taken into a deadline, and an expiry puts a
// tick into a slot for one tick, or is dropped when a tick is already there.

module Timers {
  import opened Types

  datatype TimerState = TimerState(slot: Option<Duration>, armed: Option<Instant>, tick: bool)

  const IDLE := TimerState(None, None, false)

  datatype Act =
    | SetTimeout(timeout: Duration)  // set_timeout gets its duration into the slot
    | Consume                        // the task takes it and restarts the sleep
    | Expire                         // the sleep is over
    | Take                           // the owner receives the tick

  predicate CanDo(s: TimerState, act: Act, now: Instant) {
    match act
    case SetTimeout(_) => s.slot.None?
    case Consume => s.slot.Some?
    case Expire => s.armed.Some? && s.armed.value <= now
    case Take => s.tick
  }

  function Do(s: TimerState, act: Act, now: Instant): TimerState
    requires CanDo(s, act, now)
  {
    match act
    case SetTimeout(timeout) => s.(slot := Some(timeout))
    case Consume => s.(slot := None, armed := Some(now + s.slot.value))
    case Expire => s.(armed := None, tick := true)
    case Take => s.(tick := false)
  }

  // The timer as the program keeps it: two channels of capacity one and the
  // sleep the task is waiting for.
  class DynamicTimer {
    var timeouts: seq<Duration>
    var ticks: seq<()>
    var nextTimeout: Option<Instant>

    ghost predicate Valid()
      reads this
    {
      |timeouts| <= 1 && |ticks| <= 1
    }

    ghost function View(): TimerState
      reads this
      requires Valid()
    {
      TimerState(if timeouts == [] then None else Some(timeouts[0]), nextTimeout, ticks != [])
    }

    constructor ()
      ensures Valid() && View() == IDLE
    {
      timeouts, ticks, nextTimeout := [], [], None;
    }

    // False while the caller has to wait.
    method SendTimeout(timeout: Duration) returns (sent: bool)
      requires Valid()
      modifies this`timeouts
      ensures Valid()
      ensures sent <==> CanDo(old(View()), SetTimeout(timeout), 0)
      ensures View() == if sent then Do(old(View()), SetTimeout(timeout), 0) else old(View())
    {
      sent := timeouts == [];
      if sent {
        timeouts := timeouts + [timeout];
      }
    }

    // One turn of the task's loop. With both arms ready either may be taken.
    method Poll(now: Instant) returns (act: Option<Act>)
      requires Valid()
      modifies this
      ensures Valid()
      ensures match act
              case None =>
                View() == old(View()) && !CanDo(old(View()), Consume, now) && !CanDo(old(View()), Expire, now)
              case Some(a) => a in {Consume, Expire} && CanDo(old(View()), a, now) && View() == Do(old(View()), a, now)
    {
      if
      case timeouts != [] =>
        var timeout := timeouts[0];
        timeouts := timeouts[1..];
        nextTimeout := Some(now + timeout);
        act := Some(Consume);
      case nextTimeout.Some? && nextTimeout.value <= now =>
        if |ticks| < 1 {
          ticks := ticks + [()];
        }
        nextTimeout := None;
        act := Some(Expire);
      case timeouts == [] && !(nextTimeout.Some? && nextTimeout.value <= now) =>
        act := None;
    }

    // False while the owner of the timer has to wait.
    method ReceiveTick() returns (received: bool)
      requires Valid()
      modifies this`ticks
      ensures Valid()
      ensures received <==> CanDo(old(View()), Take, 0)
      ensures View() == if received then Do(old(View()), Take, 0) else old(View())
    {
      received := ticks != [];
      if received {
        ticks := ticks[1..];
      }
    }
  }

  // ------------------------------------------------------------ whole runs

  datatype Stamped = Stamped(act: Act, at: Instant)

  ghost predicate IsRun(states: seq<TimerState>, acts: seq<Stamped>) {
    && |states| == |acts| + 1
    && states[0] == IDLE
    && (forall i | 0 <= i < |acts| ::
          CanDo(states[i], acts[i].act, acts[i].at) && states[i + 1] == Do(states[i], acts[i].act, acts[i].at))
    && (forall i, j | 0 <= i < j < |acts| :: acts[i].at <= acts[j].at)
  }

  // The duration in the slot is the one of the last set_timeout.
  ghost predicate SetAt(acts: seq<Stamped>, h: nat, n: nat, timeout: Duration) {
    && h < n <= |acts| && acts[h].act == SetTimeout(timeout)
    && forall k | h < k < n :: !acts[k].act.SetTimeout? && !acts[k].act.Consume?
  }

  // The sleep in progress was started by the request taken at j.
  ghost predicate StartedAt(acts: seq<Stamped>, h: nat, j: nat, n: nat, timeout: Duration) {
    && j < n <= |acts| && acts[j].act.Consume? && SetAt(acts, h, j, timeout)
    && forall k | j < k < n :: !acts[k].act.Consume? && !acts[k].act.Expire?
  }

  lemma {:induction false} SlotOrigin(states: seq<TimerState>, acts: seq<Stamped>, n: nat)
    requires IsRun(states, acts) && n < |states|
    ensures states[n].slot.Some? ==> exists h: nat :: SetAt(acts, h, n, states[n].slot.value)
  {
    if n > 0 && states[n].slot.Some? {
      if acts[n - 1].act.SetTimeout? {
        assert SetAt(acts, n - 1, n, states[n].slot.value);
      } else {
        SlotOrigin(states, acts, n - 1);
        var h: nat :| SetAt(acts, h, n - 1, states[n].slot.value);
        assert SetAt(acts, h, n, states[n].slot.value);
      }
    }
  }

  lemma {:induction false} SleepOrigin(states: seq<TimerState>, acts: seq<Stamped>, n: nat)
    requires IsRun(states, acts) && n < |states|
    ensures states[n].armed.Some? ==>
              exists h: nat, j: nat, timeout: Duration ::
                  StartedAt(acts, h, j, n, timeout) && states[n].armed.value == acts[j].at + timeout
  {
    if n > 0 && states[n].armed.Some? {
      if acts[n - 1].act.Consume? {
        SlotOrigin(states, acts, n - 1);
        var h: nat :| SetAt(acts, h, n - 1, states[n - 1].slot.value);
        assert StartedAt(acts, h, n - 1, n, states[n - 1].slot.value);
      } else {
        SleepOrigin(states, acts, n - 1);
        var h: nat, j: nat, timeout: Duration :|
            StartedAt(acts, h, j, n - 1, timeout) && states[n - 1].armed.value == acts[j].at + timeout;
        assert StartedAt(acts, h, j, n, timeout);
      }
    }
  }

  // Every expiry is due to the request taken last, made by the set_timeout
  // before it, and comes at least that duration after it was taken.
  lemma ExpiryIsDue(states: seq<TimerState>, acts: seq<Stamped>, i: nat)
    requires IsRun(states, acts) && i < |acts| && acts[i].act.Expire?
    ensures exists h: nat, j: nat, timeout: Duration ::
              StartedAt(acts, h, j, i, timeout) && acts[j].at + timeout <= acts[i].at
  {
    SleepOrigin(states, acts, i);
    var h: nat, j: nat, timeout: Duration :|
        StartedAt(acts, h, j, i, timeout) && states[i].armed.value == acts[j].at + timeout;
    assert acts[j].at + timeout <= acts[i].at;
  }

  datatype Tally = Tally(sets: nat, taken: nat, expired: nat, delivered: nat, dropped: nat)

  // How often each thing has happened in the first n acts; an expiry is
  // dropped when a tick was still waiting.
  function Count(states: seq<TimerState>, acts: seq<Stamped>, n: nat): Tally
    requires |states| == |acts| + 1 && n <= |acts|
  {
    if n == 0 then Tally(0, 0, 0, 0, 0)
    else
      var t := Count(states, acts, n - 1);
      match acts[n - 1].act
      case SetTimeout(_) => t.(sets := t.sets + 1)
      case Consume => t.(taken := t.taken + 1)
      case Expire => t.(expired := t.expired + 1, dropped := t.dropped + if states[n - 1].tick then 1 else 0)
      case Take => t.(delivered := t.delivered + 1)
  }

  function One(b: bool): nat {
    if b then 1 else 0
  }

  // No tick is lost but the dropped ones, and there are no more expiries than
  // set_timeout calls.
  lemma {:induction false} TicksConserved(states: seq<TimerState>, acts: seq<Stamped>, n: nat)
    requires IsRun(states, acts) && n < |states|
    ensures var t := Count(states, acts, n);
            && t.expired == t.delivered + One(states[n].tick) + t.dropped
            && t.taken + One(states[n].slot.Some?) == t.sets
            && t.expired + One(states[n].armed.Some?) <= t.taken
  {
    if n > 0 {
      TicksConserved(states, acts, n - 1);
    }
  }
}
