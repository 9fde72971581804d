/** The watchdog timer `WDT`: a checker loop that calls a callback whenever
    the time since the last refresh exceeds a delta, and that can be paused,
    resumed and stopped. Time is a logical clock in microseconds passed in
    by the caller; one iteration of the checker loop is one `Step`. */
module Watchdog {
  import opened Wrappers

  /** The fields the checker reads and the commands write. `checkerWaiting`
      is the checker thread parked inside `resume_event.wait()`, and
      `threadStopped` is the event the checker sets when it leaves its loop. */
  datatype WdtState = WdtState(
    internalTs: int,
    pauseFlag: bool,
    resumeEvent: bool,
    poisonPill: bool,
    threadStopped: bool,
    checkerWaiting: bool)

  /** What one checker iteration does. */
  datatype CheckOutcome =
    | Halted                              // the loop has already exited
    | Exited                              // the poison pill ends the loop
    | Waiting                             // paused: blocked until the resume event is set
    | Resumed                             // the resume event was consumed; no expiry check this time
    | Fired(identifier: Option<string>)   // the callback is called, with the identifier when there is one
    | Quiet                               // nothing to do

  datatype Checked = Checked(state: WdtState, outcome: CheckOutcome)

  /** One iteration of `checker` at clock `now`. */
  function CheckerStep(s: WdtState, triggerDelta: real, identifier: Option<string>, now: int): (r: Checked)
    ensures r.outcome.Fired? ==> r.outcome.identifier == identifier
    ensures r.state.internalTs == s.internalTs && r.state.pauseFlag == s.pauseFlag
    ensures r.state.poisonPill == s.poisonPill
  {
    if s.threadStopped then Checked(s, Halted)
    else if s.checkerWaiting then
      if s.resumeEvent then Checked(s.(resumeEvent := false, checkerWaiting := false), Resumed)
      else Checked(s, Waiting)
    else if s.poisonPill then Checked(s.(threadStopped := true), Exited)
    else if s.pauseFlag then
      if s.resumeEvent then Checked(s.(resumeEvent := false), Resumed)
      else Checked(s.(checkerWaiting := true), Waiting)
    else if (now - s.internalTs) as real > triggerDelta then Checked(s, Fired(identifier))
    else Checked(s, Quiet)
  }

  /** A running checker (not exited, not parked in the wait) calls the
      callback exactly when it is neither poisoned nor paused and strictly
      more than the delta has passed since the last refresh. */
  lemma FiresIff(s: WdtState, triggerDelta: real, identifier: Option<string>, now: int)
    requires !s.threadStopped && !s.checkerWaiting
    ensures CheckerStep(s, triggerDelta, identifier, now).outcome.Fired?
            <==> !s.poisonPill && !s.pauseFlag && (now - s.internalTs) as real > triggerDelta
  {
  }

  /** Calling the callback changes nothing the checker reads. */
  lemma FiringLeavesState(s: WdtState, triggerDelta: real, identifier: Option<string>, now: int)
    requires CheckerStep(s, triggerDelta, identifier, now).outcome.Fired?
    ensures CheckerStep(s, triggerDelta, identifier, now).state == s
  {
  }

  /** A poisoned checker leaves its loop without calling the callback and
      sets `thread_stopped`; after that it does nothing. */
  lemma PoisonExits(s: WdtState, triggerDelta: real, identifier: Option<string>, now: int, later: int)
    requires s.poisonPill && !s.threadStopped && !s.checkerWaiting
    ensures var r := CheckerStep(s, triggerDelta, identifier, now);
            && r.outcome == Exited && r.state.threadStopped
            && CheckerStep(r.state, triggerDelta, identifier, later) == Checked(r.state, Halted)
  {
  }

  /** A paused checker never calls the callback: it blocks until the resume
      event is set, then clears it and skips the expiry check. */
  lemma PausedStep(s: WdtState, triggerDelta: real, identifier: Option<string>, now: int)
    requires !s.threadStopped && !s.poisonPill && (s.pauseFlag || s.checkerWaiting)
    ensures var r := CheckerStep(s, triggerDelta, identifier, now);
            && !r.outcome.Fired?
            && (s.resumeEvent ==> r.outcome == Resumed && !r.state.resumeEvent && !r.state.checkerWaiting)
            && (!s.resumeEvent ==> r.outcome == Waiting && r.state.checkerWaiting)
  {
  }

  /** A checker parked in the wait does not see the poison pill: until the
      resume event is set it stays blocked and `thread_stopped` stays clear,
      so a `stop()` called once the checker is parked blocks until
      `resume()`. */
  lemma WaitIgnoresPoison(s: WdtState, triggerDelta: real, identifier: Option<string>, now: int)
    requires s.checkerWaiting && !s.resumeEvent && !s.threadStopped
    ensures CheckerStep(s, triggerDelta, identifier, now) == Checked(s, Waiting)
  {
  }

  /** A pill set while the checker is still outside the wait is seen
      first: even with the pause flag set, the checker leaves its loop and
      sets `thread_stopped`, so that `stop()` returns. */
  lemma PoisonBeforeWaitExits(s: WdtState, triggerDelta: real, identifier: Option<string>, now: int)
    requires s.pauseFlag && s.poisonPill && !s.checkerWaiting && !s.threadStopped
    ensures var r := CheckerStep(s, triggerDelta, identifier, now);
            r.outcome == Exited && r.state.threadStopped
  {
  }

  /** The checker loop run over a sequence of clock readings with no
      command in between: the last state and the outcome of each step. */
  function Run(s: WdtState, triggerDelta: real, identifier: Option<string>, clocks: seq<int>): (r: (WdtState, seq<CheckOutcome>))
    ensures |r.1| == |clocks|
    decreases |clocks|
  {
    if |clocks| == 0 then (s, [])
    else
      var c := CheckerStep(s, triggerDelta, identifier, clocks[0]);
      var rest := Run(c.state, triggerDelta, identifier, clocks[1..]);
      (rest.0, [c.outcome] + rest.1)
  }

  /** Running over two stretches of clock readings in turn is running
      over both: the second starts from the state the first leaves. */
  lemma {:induction false} RunAppend(s: WdtState, triggerDelta: real, identifier: Option<string>, a: seq<int>, b: seq<int>)
    ensures var ra := Run(s, triggerDelta, identifier, a);
            var rb := Run(ra.0, triggerDelta, identifier, b);
            Run(s, triggerDelta, identifier, a + b) == (rb.0, ra.1 + rb.1)
    decreases |a|
  {
    if |a| > 0 {
      assert (a + b)[0] == a[0] && (a + b)[1..] == a[1..] + b;
      var c := CheckerStep(s, triggerDelta, identifier, a[0]);
      RunAppend(c.state, triggerDelta, identifier, a[1..], b);
      var ra := Run(c.state, triggerDelta, identifier, a[1..]);
      var rb := Run(ra.0, triggerDelta, identifier, b);
      assert [c.outcome] + (ra.1 + rb.1) == ([c.outcome] + ra.1) + rb.1;
    } else {
      assert a + b == b;
      var rb := Run(s, triggerDelta, identifier, b);
      assert [] + rb.1 == rb.1;
    }
  }

  /** The callback is not once-only: after it fired at `now`, every later
      step at a clock no earlier than `now` fires again, until a refresh. */
  lemma {:induction false} KeepsFiring(s: WdtState, triggerDelta: real, identifier: Option<string>, now: int, clocks: seq<int>)
    requires CheckerStep(s, triggerDelta, identifier, now).outcome.Fired?
    requires forall i :: 0 <= i < |clocks| ==> clocks[i] >= now
    ensures var r := Run(s, triggerDelta, identifier, clocks);
            r.0 == s && forall i :: 0 <= i < |r.1| ==> r.1[i] == Fired(identifier)
    decreases |clocks|
  {
    if |clocks| > 0 {
      var c := CheckerStep(s, triggerDelta, identifier, clocks[0]);
      assert c.outcome == Fired(identifier) && c.state == s;
      KeepsFiring(s, triggerDelta, identifier, now, clocks[1..]);
    }
  }

  /** A paused timer never calls the callback, however long it runs without
      a command: each time the resume event lets it through, the pause flag
      sends it back into the wait. */
  lemma {:induction false} PausedRunNeverFires(s: WdtState, triggerDelta: real, identifier: Option<string>, clocks: seq<int>)
    requires s.pauseFlag && !s.poisonPill
    ensures forall i :: 0 <= i < |clocks| ==> !Run(s, triggerDelta, identifier, clocks).1[i].Fired?
    decreases |clocks|
  {
    if |clocks| > 0 {
      var c := CheckerStep(s, triggerDelta, identifier, clocks[0]);
      assert !c.outcome.Fired?;
      PausedRunNeverFires(c.state, triggerDelta, identifier, clocks[1..]);
      var rest := Run(c.state, triggerDelta, identifier, clocks[1..]);
      var outs := Run(s, triggerDelta, identifier, clocks).1;
      assert outs == [c.outcome] + rest.1;
      forall i | 0 <= i < |outs|
        ensures !outs[i].Fired?
      {
        if i > 0 {
          assert outs[i] == rest.1[i - 1];
        }
      }
    }
  }

  /** Right after a refresh at `refreshed`, no step at a clock at most
      `refreshed + triggerDelta` fires. */
  lemma RefreshPreventsFiring(s: WdtState, triggerDelta: real, identifier: Option<string>, refreshed: int, now: int)
    requires (now - refreshed) as real <= triggerDelta
    ensures !CheckerStep(s.(internalTs := refreshed), triggerDelta, identifier, now).outcome.Fired?
  {
  }

  class WDT {
    const checkIntervalSec: real
    /** `trigger_delta_sec * 1000000`: the delta in microseconds, the unit
        of the clock. */
    const triggerDelta: real
    const identifier: Option<string>
    const checkerThreadName: string

    var internalTs: int
    var pauseFlag: bool
    var resumeEvent: bool
    var poisonPill: bool
    var threadStopped: bool
    var checkerWaiting: bool

    function State(): WdtState
      reads this
    {
      WdtState(internalTs, pauseFlag, resumeEvent, poisonPill, threadStopped, checkerWaiting)
    }

    /** `__init__` at clock `now`: not paused, no events set, no poison
        pill, and `start()` stamps the internal time with `now`. */
    constructor (checkIntervalSec: real, triggerDeltaSec: real, identifier: Option<string>, now: int)
      ensures this.checkIntervalSec == checkIntervalSec && this.identifier == identifier
      ensures triggerDelta == triggerDeltaSec * 1000000.0
      ensures checkerThreadName == "wdt_checker"
      ensures State() == WdtState(now, false, false, false, false, false)
    {
      this.checkIntervalSec := checkIntervalSec;
      triggerDelta := triggerDeltaSec * 1000000.0;
      this.identifier := identifier;
      checkerThreadName := "wdt_checker";
      pauseFlag := false;
      resumeEvent := false;
      threadStopped := false;
      poisonPill := false;
      checkerWaiting := false;
      internalTs := now;
      new;
      Start(now);
    }

    /** `update()`: the internal time becomes the clock. */
    method Update(now: int)
      modifies this`internalTs
      ensures internalTs == now
    {
      internalTs := now;
    }

    /** `reset()` is `update()`. */
    method Reset(now: int)
      modifies this`internalTs
      ensures internalTs == now
    {
      Update(now);
    }

    method Pause()
      modifies this`pauseFlag
      ensures pauseFlag
    {
      pauseFlag := true;
    }

    method Resume()
      modifies this`pauseFlag, this`resumeEvent
      ensures !pauseFlag && resumeEvent
    {
      pauseFlag := false;
      resumeEvent := true;
    }

    /** `start()`: stamp the internal time; the checker thread it launches
        is the `Step` method. */
    method Start(now: int)
      modifies this`internalTs
      ensures internalTs == now
    {
      Update(now);
    }

    /** `stop()`: inject the poison pill. */
    method Stop()
      modifies this`poisonPill
      ensures poisonPill
    {
      poisonPill := true;
    }

    method GetInternalTime() returns (ts: int)
      ensures ts == internalTs
    {
      ts := internalTs;
    }

    /** One iteration of the checker loop at clock `now`. */
    method Step(now: int) returns (outcome: CheckOutcome)
      modifies this`resumeEvent, this`threadStopped, this`checkerWaiting
      ensures State() == CheckerStep(old(State()), triggerDelta, identifier, now).state
      ensures outcome == CheckerStep(old(State()), triggerDelta, identifier, now).outcome
    {
      if threadStopped {
        return Halted;
      }
      if checkerWaiting {
        if resumeEvent {
          resumeEvent := false;
          checkerWaiting := false;
          return Resumed;
        }
        return Waiting;
      }
      if poisonPill {
        threadStopped := true;
        return Exited;
      }
      if pauseFlag {
        if resumeEvent {
          resumeEvent := false;
          return Resumed;
        }
        checkerWaiting := true;
        return Waiting;
      } else if (now - internalTs) as real > triggerDelta {
        return Fired(identifier);
      }
      return Quiet;
    }
  }
}
