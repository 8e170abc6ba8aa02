/** What holds of the poller over every interleaving of its callbacks. */
module PollingProofs {
  import opened Integers
  import opened Wrappers
  import opened PollingModel

  // ---------- Back-off ----------

  lemma ScaledUp(d: real, a: real, b: real)
    requires d >= 0.0 && a <= b
    ensures d * a <= d * b
  {
  }

  lemma Tenth(d: real)
    requires d >= 1000.0
    ensures d * 1.1 >= d + 100.0
  {
  }

  lemma FloorAtLeast(x: real, n: int)
    requires x >= n as real + 0.5
    ensures x.Floor >= n
  {
  }

  lemma SteppedRises(cfg: Config, delay: int)
    requires delay >= 1000
    ensures cfg.Stepped(delay) >= delay + 100
  {
    var d := delay as real;
    ScaledUp(d, 1.1, cfg.Factor());
    Tenth(d);
    FloorAtLeast(d * cfg.Factor() + 0.5, delay + 100);
  }

  lemma FailureStep(cfg: Config, delay: int)
    requires cfg.Valid() && cfg.intervalMs <= delay <= cfg.Ceiling()
    ensures cfg.LowerBound() <= cfg.AfterFailure(delay) <= cfg.Ceiling()
    ensures cfg.AfterFailure(delay) >= Min(cfg.Ceiling(), delay + 100)
  {
    SteppedRises(cfg, delay);
  }

  function Delay(cfg: Config, delay: int, outcomes: seq<bool>): int {
    if outcomes == [] then delay
    else cfg.AfterRun(Delay(cfg, delay, outcomes[..|outcomes| - 1]), outcomes[|outcomes| - 1])
  }

  lemma {:induction false} DelayInBounds(cfg: Config, delay: int, outcomes: seq<bool>)
    requires cfg.Valid() && cfg.intervalMs <= delay <= cfg.Ceiling()
    ensures cfg.intervalMs <= Delay(cfg, delay, outcomes) <= cfg.Ceiling()
  {
    if outcomes == [] {
    } else {
      var init := outcomes[..|outcomes| - 1];
      DelayInBounds(cfg, delay, init);
      FailureStep(cfg, Delay(cfg, delay, init));
    }
  }

  // `n` failures in a row never lower the delay, and have raised it by 100 ms each or to the
  // ceiling.
  lemma {:induction false} FailuresRaiseDelay(cfg: Config, delay: int, outcomes: seq<bool>, n: nat)
    requires cfg.Valid() && cfg.intervalMs <= delay <= cfg.Ceiling()
    requires n <= |outcomes| && forall i :: |outcomes| - n <= i < |outcomes| ==> !outcomes[i]
    ensures Delay(cfg, delay, outcomes) >= Delay(cfg, delay, outcomes[..|outcomes| - n])
    ensures Delay(cfg, delay, outcomes) >=
            Min(cfg.Ceiling(), Delay(cfg, delay, outcomes[..|outcomes| - n]) + 100 * n)
  {
    if n == 0 {
      assert outcomes[..|outcomes|] == outcomes;
    } else {
      var init := outcomes[..|outcomes| - 1];
      assert init[..|init| - (n - 1)] == outcomes[..|outcomes| - n];
      FailuresRaiseDelay(cfg, delay, init, n - 1);
      DelayInBounds(cfg, delay, init);
      FailureStep(cfg, Delay(cfg, delay, init));
      assert Delay(cfg, delay, outcomes) == cfg.AfterFailure(Delay(cfg, delay, init));
    }
  }

  function FailuresToCeiling(cfg: Config): nat
    requires cfg.Valid()
  {
    (cfg.Ceiling() - cfg.intervalMs + 99) / 100
  }

  // However the runs before went: a success puts the delay back to the interval, and that many
  // failures in a row put it at the ceiling.
  lemma {:induction false} BackoffReachesCeiling(cfg: Config, outcomes: seq<bool>)
    requires cfg.Valid()
    ensures cfg.intervalMs <= Delay(cfg, cfg.intervalMs, outcomes) <= cfg.Ceiling()
    ensures outcomes != [] && outcomes[|outcomes| - 1] ==> Delay(cfg, cfg.intervalMs, outcomes) == cfg.intervalMs
    ensures FailuresToCeiling(cfg) <= |outcomes| &&
            (forall i :: |outcomes| - FailuresToCeiling(cfg) <= i < |outcomes| ==> !outcomes[i]) ==>
              Delay(cfg, cfg.intervalMs, outcomes) == cfg.Ceiling()
  {
    DelayInBounds(cfg, cfg.intervalMs, outcomes);
    var n := FailuresToCeiling(cfg);
    if n <= |outcomes| && forall i :: |outcomes| - n <= i < |outcomes| ==> !outcomes[i] {
      DelayInBounds(cfg, cfg.intervalMs, outcomes[..|outcomes| - n]);
      FailuresRaiseDelay(cfg, cfg.intervalMs, outcomes, n);
    }
  }

  // ---------- Alive, and one run at a time ----------

  ghost predicate TimersKnown(s: State) {
    && (forall id :: id in s.armed ==> s.timer == Some(id))
    && (forall id :: id in s.armed ==> id < s.nextTimer)
  }

  ghost predicate Alive(s: State) {
    && s.active == (if s.inFlight then 1 else 0)
    && (s.disposed ==> s.armed == map[] && !s.updateArmed)
    && (!s.disposed && !s.inFlight ==> s.timer.Some? && s.timer.value in s.armed && s.pending.None?)
  }

  ghost predicate DelaysBounded(cfg: Config, s: State) {
    && cfg.intervalMs <= s.nextDelayMs <= cfg.Ceiling()
    && (forall id :: id in s.armed ==> cfg.intervalMs <= s.armed[id] <= cfg.Ceiling())
  }

  ghost predicate Inv(cfg: Config, s: State) {
    TimersKnown(s) && Alive(s) && DelaysBounded(cfg, s)
  }

  // In between two statements the timer may be off while nothing runs.
  ghost predicate Settling(cfg: Config, s: State) {
    && TimersKnown(s) && DelaysBounded(cfg, s)
    && s.active == (if s.inFlight then 1 else 0)
    && (s.disposed ==> s.armed == map[] && !s.updateArmed)
    && (!s.disposed && !s.inFlight ==> s.pending.None?)
  }

  lemma ClearedSettles(cfg: Config, s: State)
    requires Settling(cfg, s)
    ensures Settling(cfg, Cleared(s)) && Cleared(s).armed == map[]
  {
  }

  lemma ScheduledAlive(cfg: Config, s: State)
    requires cfg.Valid() && Settling(cfg, s)
    ensures Inv(cfg, Scheduled(s, s.nextDelayMs)) || (s.disposed && s.inFlight)
    ensures s.inFlight ==> Inv(cfg, Scheduled(s, s.nextDelayMs))
  {
    ClearedSettles(cfg, s);
  }

  lemma ExecutedAlive(cfg: Config, s: State, reason: Reason)
    requires cfg.Valid() && Settling(cfg, s)
    ensures Inv(cfg, Executed(s, reason))
  {
    if s.inFlight && reason == Poll {
      ScheduledAlive(cfg, s);
    }
  }

  lemma AskedAlive(cfg: Config, s: State, reason: Reason)
    requires cfg.Valid() && Settling(cfg, s)
    ensures Inv(cfg, Asked(s, reason))
  {
    ClearedSettles(cfg, s);
    ExecutedAlive(cfg, Cleared(s), reason);
  }

  lemma FinishedAlive(cfg: Config, s: State, ok: bool)
    requires cfg.Valid() && Inv(cfg, s) && s.active > 0
    ensures Inv(cfg, Finished(cfg, s, ok))
  {
    var s1 := s.(inFlight := false, active := 0);
    if !s.disposed {
      FailureStep(cfg, s.nextDelayMs);
      var s2 := s1.(nextDelayMs := cfg.AfterRun(s.nextDelayMs, ok));
      match s.pending
      case Some(queued) => ExecutedAlive(cfg, s2.(pending := None), queued);
      case None => ScheduledAlive(cfg, s2);
    }
  }

  lemma StepAlive(cfg: Config, s: State, e: Event)
    requires cfg.Valid() && Inv(cfg, s) && Enabled(s, e)
    ensures Inv(cfg, Step(cfg, s, e))
  {
    match e
    case TimerFires(id) => ExecutedAlive(cfg, s.(armed := s.armed - {id}), Poll);
    case Trigger(reason) => AskedAlive(cfg, s, reason);
    case RefreshNow(caller) => AskedAlive(cfg, s, Manual);
    case WaiterWakes(caller) => AskedAlive(cfg, s.(waiters := s.waiters - {caller}), Manual);
    case UpdateTimerFires => ExecutedAlive(cfg, s.(updateArmed := false), Update);
    case Completes(ok) => FinishedAlive(cfg, s, ok);
    case Cleanup =>
      assert Cleared(s.(disposed := true, updateArmed := false)).armed == map[];
    case _ =>
  }

  lemma {:induction false} RunAlive(cfg: Config, s: State, events: seq<Event>)
    requires cfg.Valid() && Inv(cfg, s) && Possible(cfg, s, events)
    ensures Inv(cfg, Run(cfg, s, events))
    decreases |events|
  {
    if events == [] {
    } else {
      StepAlive(cfg, s, events[0]);
      RunAlive(cfg, Step(cfg, s, events[0]), events[1..]);
    }
  }

  // In every interleaving: never two runs at once and never two poll timers; while mounted,
  // either a run is in progress or the poll timer is armed, with a delay between the interval
  // and the ceiling.
  lemma {:induction false} NeverSilentNeverTwice(cfg: Config, events: seq<Event>)
    requires cfg.Valid() && Possible(cfg, Mounted(cfg), events)
    ensures var s := Run(cfg, Mounted(cfg), events);
            && s.active <= 1 && |s.armed| <= 1
            && (!s.disposed ==> s.active == 1 || |s.armed| == 1)
            && (forall id :: id in s.armed ==> cfg.intervalMs <= s.armed[id] <= cfg.Ceiling())
  {
    RunAlive(cfg, Mounted(cfg), events);
    var s := Run(cfg, Mounted(cfg), events);
    if id :| id in s.armed {
      assert s.armed.Keys == {id};
    }
  }

  // ---------- Nothing after cleanup ----------

  // Whatever still finishes, fires or waits after cleanup: no timer is armed and no run starts.
  lemma {:induction false} SilentAfterCleanup(cfg: Config, s: State, events: seq<Event>)
    requires cfg.Valid() && Inv(cfg, s) && s.disposed && Possible(cfg, s, events)
    ensures var s' := Run(cfg, s, events);
            s'.disposed && s'.armed == map[] && !s'.updateArmed && s'.started == s.started
    decreases |events|
  {
    if events == [] {
    } else {
      StepAlive(cfg, s, events[0]);
      SilentAfterCleanup(cfg, Step(cfg, s, events[0]), events[1..]);
    }
  }

  // ---------- No trigger is lost ----------

  // The run other than a poll that an event asks for.
  function Asks(s: State, e: Event): Option<Reason>
    requires Enabled(s, e)
  {
    if s.disposed then None else
      match e
      case Trigger(reason) => if reason == Poll then None else Some(reason)
      case RefreshNow(_) => if StillWaiting(s, s.now) then None else Some(Manual)
      case WaiterWakes(caller) => if StillWaiting(s, s.waiters[caller]) then None else Some(Manual)
      case UpdateTimerFires => Some(Update)
      case _ => None
  }

  // The last of them, after `before`.
  function LastAsk(cfg: Config, s: State, events: seq<Event>, before: Option<Reason>): Option<Reason>
    requires Possible(cfg, s, events)
    decreases |events|
  {
    if events == [] then before else
      var ask := Asks(s, events[0]);
      LastAsk(cfg, Step(cfg, s, events[0]), events[1..], if ask.Some? then ask else before)
  }

  // Idle: the run starts at once.
  lemma AskWhenIdle(cfg: Config, s: State, e: Event)
    requires Inv(cfg, s) && Enabled(s, e) && !s.inFlight && Asks(s, e).Some?
    ensures Step(cfg, s, e).started == s.started + [Asks(s, e).value] && Step(cfg, s, e).active == 1
  {
  }

  predicate KeepsRunning(e: Event) {
    !e.Completes? && !e.Cleanup?
  }

  lemma BusyStep(cfg: Config, s: State, e: Event)
    requires s.inFlight && !s.disposed && Enabled(s, e) && KeepsRunning(e)
    ensures var s' := Step(cfg, s, e);
            s'.inFlight && !s'.disposed && s'.started == s.started &&
            s'.pending == if Asks(s, e).Some? then Asks(s, e) else s.pending
  {
  }

  lemma {:induction false} BusyRun(cfg: Config, s: State, events: seq<Event>)
    requires s.inFlight && !s.disposed && Possible(cfg, s, events) && forall e :: e in events ==> KeepsRunning(e)
    ensures var s' := Run(cfg, s, events);
            s'.inFlight && !s'.disposed && s'.started == s.started &&
            s'.pending == LastAsk(cfg, s, events, s.pending)
    decreases |events|
  {
    if events == [] {
    } else {
      BusyStep(cfg, s, events[0]);
      BusyRun(cfg, Step(cfg, s, events[0]), events[1..]);
    }
  }

  // Busy: whatever is asked for while a run is in progress, no run starts before it completes,
  // and exactly then one starts, with the last reason asked for; if nothing was asked for, the
  // poll timer is armed instead.
  lemma {:induction false} AskWhenBusy(cfg: Config, s: State, events: seq<Event>, ok: bool)
    requires cfg.Valid() && Inv(cfg, s) && s.inFlight && !s.disposed
    requires Possible(cfg, s, events) && forall e :: e in events ==> KeepsRunning(e)
    ensures var before := Run(cfg, s, events);
            && before.started == s.started && Enabled(before, Completes(ok))
            && var after := Step(cfg, before, Completes(ok));
               match LastAsk(cfg, s, events, s.pending)
               case Some(reason) => after.started == s.started + [reason] && after.inFlight && after.pending.None?
               case None => after.started == s.started && !after.inFlight && after.armed != map[]
  {
    BusyRun(cfg, s, events);
    RunAlive(cfg, s, events);
    FinishedAlive(cfg, Run(cfg, s, events), ok);
  }

  // ---------- The delay depends on the outcomes only ----------

  function Outcomes(events: seq<Event>): seq<bool> {
    if events == [] then []
    else Outcomes(events[..|events| - 1]) +
         if events[|events| - 1].Completes? then [events[|events| - 1].ok] else []
  }

  lemma DelayStep(cfg: Config, s: State, e: Event)
    requires Enabled(s, e) && !Step(cfg, s, e).disposed
    ensures Step(cfg, s, e).nextDelayMs == if e.Completes? then cfg.AfterRun(s.nextDelayMs, e.ok) else s.nextDelayMs
  {
  }

  lemma {:induction false} PossibleInit(cfg: Config, s: State, events: seq<Event>)
    requires Possible(cfg, s, events) && events != []
    ensures Possible(cfg, s, events[..|events| - 1])
    ensures Enabled(Run(cfg, s, events[..|events| - 1]), events[|events| - 1])
    ensures Run(cfg, s, events) == Step(cfg, Run(cfg, s, events[..|events| - 1]), events[|events| - 1])
    decreases |events|
  {
    if |events| > 1 {
      PossibleInit(cfg, Step(cfg, s, events[0]), events[1..]);
      assert events[1..][..|events| - 2] == events[..|events| - 1][1..];
    }
  }

  lemma DisposedForGood(cfg: Config, s: State, e: Event)
    requires Enabled(s, e) && s.disposed
    ensures Step(cfg, s, e).disposed
  {
  }

  // Over every run of a mounted poller the delay is that of its outcomes in order, so the back-off
  // bounds hold of the running poller.
  lemma {:induction false} DelayFollowsOutcomes(cfg: Config, events: seq<Event>)
    requires cfg.Valid() && Possible(cfg, Mounted(cfg), events) && !Run(cfg, Mounted(cfg), events).disposed
    ensures Run(cfg, Mounted(cfg), events).nextDelayMs == Delay(cfg, cfg.intervalMs, Outcomes(events))
    decreases |events|
  {
    if events == [] {
    } else {
      var init, last := events[..|events| - 1], events[|events| - 1];
      PossibleInit(cfg, Mounted(cfg), events);
      var s := Run(cfg, Mounted(cfg), init);
      if s.disposed {
        DisposedForGood(cfg, s, last);
      }
      DelayFollowsOutcomes(cfg, init);
      DelayStep(cfg, s, last);
      if last.Completes? {
        assert Outcomes(events)[..|Outcomes(events)| - 1] == Outcomes(init);
      } else {
        assert Outcomes(events) == Outcomes(init);
      }
    }
  }
}
