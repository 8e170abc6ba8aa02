/**
  The effect body of useSingleFlightPolling: closures over a handful of variables, stepped through
  in place. Each method is one callback and performs one event of PollingModel.
 */
module Poller {
  import opened Integers
  import opened Wrappers
  import opened PollingModel

  class Effect {
    const cfg: Config
    // The effect's variables.
    var disposed: bool
    var timer: Option<nat>
    var requestInFlightFlag: bool
    var pendingReason: Option<Reason>
    var nextDelayMs: int
    var updateTimer: bool
    // The browser's side: the clock, the pending poll timers, the refreshNow calls that wait, and
    // the page's own runs.
    var now: int
    var armed: map<nat, int>
    var nextTimer: nat
    var waiters: map<nat, int>
    var active: nat
    var started: seq<Reason>

    function View(): State
      reads this
    {
      State(now, disposed, timer, armed, nextTimer, requestInFlightFlag, pendingReason, nextDelayMs, updateTimer,
            waiters, active, started)
    }

    // Mounting runs the page's request at once.
    constructor (cfg: Config)
      ensures this.cfg == cfg && View() == Mounted(cfg)
    {
      this.cfg := cfg;
      disposed, timer, requestInFlightFlag, pendingReason := false, None, false, None;
      nextDelayMs, updateTimer, now, armed, nextTimer := cfg.intervalMs, false, 0, map[], 0;
      waiters, active, started := map[], 0, [];
      new;
      Execute(Initial);
    }

    method ClearTimer()
      modifies this
      ensures View() == Cleared(old(View()))
    {
      if timer.Some? {
        armed := armed - {timer.value};
        timer := None;
      }
    }

    method Schedule(delayMs: int)
      modifies this
      ensures View() == Scheduled(old(View()), delayMs)
    {
      if disposed {
        return;
      }
      ClearTimer();
      var bounded := Max(300, delayMs);
      armed := armed[nextTimer := bounded];
      timer := Some(nextTimer);
      nextTimer := nextTimer + 1;
    }

    // Up to the page's own request, which is then in progress.
    method Execute(reason: Reason)
      modifies this
      ensures View() == Executed(old(View()), reason)
    {
      if disposed {
        return;
      }
      if requestInFlightFlag {
        if reason != Poll {
          pendingReason := Some(reason);
        } else {
          Schedule(nextDelayMs);
        }
        return;
      }
      requestInFlightFlag := true;
      active := active + 1;
      started := started + [reason];
    }

    // The rest of execute, once the request has answered.
    method RunCompletes(successful: bool)
      requires active > 0
      modifies this
      ensures View() == Step(cfg, old(View()), Completes(successful))
    {
      active := active - 1;
      requestInFlightFlag := false;
      if disposed {
        ClearTimer();
      } else {
        SetNextDelay(successful);
        RunPendingOrSchedule();
      }
    }

    method RunPendingOrSchedule()
      modifies this
      ensures View() == match old(View()).pending
                        case Some(queued) => Executed(old(View()).(pending := None), queued)
                        case None => Scheduled(old(View()), old(nextDelayMs))
    {
      if pendingReason.Some? {
        var queued := pendingReason.value;
        pendingReason := None;
        Execute(queued);
      } else {
        Schedule(nextDelayMs);
      }
    }

    method SetNextDelay(successful: bool)
      modifies `nextDelayMs
      ensures nextDelayMs == cfg.AfterRun(old(nextDelayMs), successful)
    {
      if successful {
        nextDelayMs := cfg.intervalMs;
      } else {
        var lowerBoundMs := Max(cfg.minBackoffMs.Floor, cfg.intervalMs);
        var upperBoundMs := Max(lowerBoundMs, cfg.maxBackoffMs.Floor);
        var stepped := (nextDelayMs as real * (if cfg.multiplier < 1.1 then 1.1 else cfg.multiplier) + 0.5).Floor;
        nextDelayMs := Max(lowerBoundMs, Min(upperBoundMs, stepped));
      }
    }

    method PollTimerFires(id: nat)
      requires id in armed
      modifies this
      ensures View() == Step(cfg, old(View()), TimerFires(id))
    {
      armed := armed - {id};
      Execute(Poll);
    }

    // Cleanup replaces the trigger by one that does nothing.
    method TriggerNow(reason: Reason)
      modifies this
      ensures View() == Step(cfg, old(View()), Trigger(reason))
    {
      if disposed {
        return;
      }
      ClearTimer();
      Execute(reason);
    }

    // Cleanup takes refreshNow out of the active refreshers.
    method RefreshAll(caller: nat)
      modifies this
      ensures View() == Step(cfg, old(View()), RefreshNow(caller))
    {
      if disposed {
        return;
      }
      if requestInFlightFlag {
        waiters := waiters[caller := now];
      } else {
        ClearTimer();
        Execute(Manual);
      }
    }

    // One turn of refreshNow's waiting loop, and what follows it.
    method WaitingRefreshWakes(caller: nat)
      requires caller in waiters
      modifies this
      ensures View() == Step(cfg, old(View()), WaiterWakes(caller))
    {
      if requestInFlightFlag && !disposed && now - waiters[caller] < REFRESH_WAIT_LIMIT_MS {
        return;
      }
      waiters := waiters - {caller};
      if !disposed {
        ClearTimer();
        Execute(Manual);
      }
    }

    method OnUpdated()
      modifies this
      ensures View() == Step(cfg, old(View()), Updated)
    {
      if !disposed {
        updateTimer := true;
      }
    }

    method UpdateTimerRuns()
      requires updateTimer
      modifies this
      ensures View() == Step(cfg, old(View()), UpdateTimerFires)
    {
      updateTimer := false;
      Execute(Update);
    }

    method Unmount()
      modifies this
      ensures View() == Step(cfg, old(View()), Cleanup)
    {
      disposed := true;
      ClearTimer();
      updateTimer := false;
    }
  }
}
