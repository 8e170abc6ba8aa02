/**
  The single-flight poller as a transition system: one effect's lifetime from mount to cleanup.
  An event is one callback the browser runs, or the end of the page's own request.
 */
module PollingModel {
  import opened Integers
  import opened Wrappers

  datatype Reason = Initial | Poll | Manual | Resume | Update

  const REFRESH_WAIT_LIMIT_MS: int := 15000

  // None stands for a value that is not finite.
  function NormalizedIntervalMs(raw: Option<real>): (ms: int)
    ensures ms >= 1000 && (raw.None? ==> ms == 10000)
    ensures raw.Some? && raw.value >= 1000.0 ==> ms as real <= raw.value < ms as real + 1.0
    ensures raw.Some? && raw.value < 1000.0 ==> ms == 1000
  {
    match raw
    case None => 10000
    case Some(x) => Max(1000, x.Floor)
  }

  // The effect's constants.
  datatype Config = Config(intervalMs: int, minBackoffMs: real, maxBackoffMs: real, multiplier: real) {
    ghost predicate Valid() {
      intervalMs >= 1000
    }

    function LowerBound(): int {
      Max(minBackoffMs.Floor, intervalMs)
    }

    function Ceiling(): int {
      Max(LowerBound(), maxBackoffMs.Floor)
    }

    function Factor(): real {
      if multiplier < 1.1 then 1.1 else multiplier
    }

    // Math.round: halves go up.
    function Stepped(delay: int): int {
      (delay as real * Factor() + 0.5).Floor
    }

    function AfterFailure(delay: int): int {
      Max(LowerBound(), Min(Ceiling(), Stepped(delay)))
    }

    function AfterRun(delay: int, ok: bool): int {
      if ok then intervalMs else AfterFailure(delay)
    }
  }

  // `timer` is the variable holding the last timer's id, `armed` the browser's pending poll
  // timers with their delays, `active` the requests started and not finished, `waiters` the
  // refreshNow calls that wait, since when, and `started` the runs so far.
  datatype State = State(
    now: int,
    disposed: bool,
    timer: Option<nat>,
    armed: map<nat, int>,
    nextTimer: nat,
    inFlight: bool,
    pending: Option<Reason>,
    nextDelayMs: int,
    updateArmed: bool,
    waiters: map<nat, int>,
    active: nat,
    started: seq<Reason>)

  datatype Event =
    | Tick(ms: nat)
    | TimerFires(id: nat)
    | Trigger(reason: Reason)
    | RefreshNow(caller: nat)
    | WaiterWakes(caller: nat)
    | Updated
    | UpdateTimerFires
    | Completes(ok: bool)
    | Cleanup

  // ---------- The effect's inner functions ----------

  function Cleared(s: State): State {
    match s.timer
    case None => s
    case Some(id) => s.(armed := s.armed - {id}, timer := None)
  }

  function Scheduled(s: State, delayMs: int): State {
    if s.disposed then s else
      var c := Cleared(s);
      c.(timer := Some(s.nextTimer), armed := c.armed[s.nextTimer := Max(300, delayMs)], nextTimer := s.nextTimer + 1)
  }

  function Executed(s: State, reason: Reason): State {
    if s.disposed then s
    else if s.inFlight then
      if reason != Poll then s.(pending := Some(reason)) else Scheduled(s, s.nextDelayMs)
    else s.(inFlight := true, active := s.active + 1, started := s.started + [reason])
  }

  function Asked(s: State, reason: Reason): State {
    Executed(Cleared(s), reason)
  }

  function Finished(cfg: Config, s0: State, ok: bool): State
    requires s0.active > 0
  {
    var s := s0.(inFlight := false, active := s0.active - 1);
    if s.disposed then Cleared(s) else
      var s1 := s.(nextDelayMs := cfg.AfterRun(s.nextDelayMs, ok));
      match s1.pending
      case Some(queued) => Executed(s1.(pending := None), queued)
      case None => Scheduled(s1, s1.nextDelayMs)
  }

  // refreshNow goes on once the run in flight is over, the effect is gone, or 15 s have passed.
  predicate StillWaiting(s: State, since: int) {
    s.inFlight && !s.disposed && s.now - since < REFRESH_WAIT_LIMIT_MS
  }

  function RefreshGoesOn(s: State): State {
    if s.disposed then s else Asked(s, Manual)
  }

  // ---------- Runs ----------

  function Mounted(cfg: Config): State {
    Executed(State(0, false, None, map[], 0, false, None, cfg.intervalMs, false, map[], 0, []), Initial)
  }

  predicate Enabled(s: State, e: Event) {
    match e
    case TimerFires(id) => id in s.armed
    case WaiterWakes(caller) => caller in s.waiters
    case UpdateTimerFires => s.updateArmed
    case Completes(_) => s.active > 0
    case _ => true
  }

  function Step(cfg: Config, s: State, e: Event): State
    requires Enabled(s, e)
  {
    match e
    case Tick(ms) => s.(now := s.now + ms)
    case TimerFires(id) => Executed(s.(armed := s.armed - {id}), Poll)
    case Trigger(reason) => if s.disposed then s else Asked(s, reason)
    case RefreshNow(caller) =>
      if s.disposed then s
      else if StillWaiting(s, s.now) then s.(waiters := s.waiters[caller := s.now])
      else RefreshGoesOn(s)
    case WaiterWakes(caller) =>
      if StillWaiting(s, s.waiters[caller]) then s
      else RefreshGoesOn(s.(waiters := s.waiters - {caller}))
    case Updated => if s.disposed then s else s.(updateArmed := true)
    case UpdateTimerFires => Executed(s.(updateArmed := false), Update)
    case Completes(ok) => Finished(cfg, s, ok)
    case Cleanup => Cleared(s.(disposed := true, updateArmed := false))
  }

  predicate Possible(cfg: Config, s: State, events: seq<Event>)
    decreases |events|
  {
    events == [] || (Enabled(s, events[0]) && Possible(cfg, Step(cfg, s, events[0]), events[1..]))
  }

  function Run(cfg: Config, s: State, events: seq<Event>): State
    requires Possible(cfg, s, events)
    decreases |events|
  {
    if events == [] then s else Run(cfg, Step(cfg, s, events[0]), events[1..])
  }
}
