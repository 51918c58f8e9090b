/** The bridge as it is written: one loop that updates its variables in place. */
module BridgeLoop {
  import opened Prelude
  import opened Bridge
  import opened BridgeLaws

  /** How the host process ends: what it reports last, and the code it terminates itself with, if it does. */
  datatype Ending = Ending(reported: Option<Status>, terminated: Option<nat>)

  class ServiceBridge {
    const timing: Timing
    const started: Instant
    var checkpoint: Instant
    var running: bool
    var paused: bool
    var stopping: Option<Instant>
    var explicitStop: bool
    var failureCode: Option<nat>
    var pending: Option<Pending>
    var deferred: Option<bool>
    var firstControl: Option<Control>
    var terminalClaimed: bool
    /** Everything done to the outside world, in order. */
    ghost var log: seq<Event>

    ghost function View(): State
      reads this
    {
      State(started, checkpoint, running, paused, stopping, explicitStop, failureCode, pending, deferred, firstControl,
            terminalClaimed, log)
    }

    constructor (timing: Timing, now: Instant)
      ensures View() == Start(now) && this.timing == timing && started == now
    {
      this.timing, started, checkpoint := timing, now, now;
      running, paused, stopping, explicitStop, failureCode := false, false, None, false, None;
      pending, deferred, firstControl, terminalClaimed := None, None, None, false;
      log := [Reported(StartPending)];
    }

    /** Takes what is waiting, at most a batch, and notices stops in it. */
    method PollControls(env: Env) returns (controls: seq<Control>)
      modifies this
      ensures View() == Collect(old(View()), env) && controls == Batch(old(View()), env)
    {
      controls := if firstControl.Some? then [firstControl.value] else [];
      ghost var first := controls;
      firstControl := None;
      var n := 0;
      while n < CONTROL_BATCH && n < |env.controls|
        invariant n <= CONTROL_BATCH && n <= |env.controls| && controls == first + env.controls[..n]
        decreases |env.controls| - n
      {
        controls := controls + [env.controls[n]];
        n := n + 1;
      }
      assert |env.controls| <= CONTROL_BATCH ==> env.controls[..n] == env.controls;
      if n < CONTROL_BATCH && env.disconnected { explicitStop := true; }
      explicitStop := explicitStop || env.stopSeen || exists c :: c in controls && IsStop(c);
    }

    method DropTransition()
      modifies this
      ensures View() == DropPending(old(View()))
    {
      log := log + if pending.Some? then [Dropped] else [];
      pending, deferred := None, None;
    }

    method ReportStopping(now: Instant, checked: Instant)
      modifies this
      ensures View() == BeginStop(old(View()), now, checked)
    {
      stopping := Some(now);
      log := log + [Reported(StopPending)];
      checkpoint := checked;
    }

    method HandOver(env: Env)
      modifies this
      ensures View() == Gate(old(View()), env)
    {
      if !terminalClaimed && env.gateReady {
        explicitStop := explicitStop || env.claim;
        log := log + if explicitStop then [StopSent] else [];
        log := log + [GateReleased(explicitStop)];
        terminalClaimed := true;
        DropTransition();
        if stopping.None? { ReportStopping(env.at(GateStop), env.at(GateCheck)); }
      }
    }

    method AcceptStop(env: Env)
      modifies this
      ensures View() == Explicit(old(View()), env)
    {
      if explicitStop && stopping.None? {
        log := log + [StopSent];
        DropTransition();
        ReportStopping(env.at(ExplicitStop), env.at(ExplicitCheck));
      }
    }

    method ConfirmStartup(env: Env)
      modifies this
      ensures View() == Startup(timing, old(View()), env)
    {
      if !running && stopping.None? {
        if env.startup.Some? {
          running := true;
          log := log + [Reported(Running)];
          checkpoint := env.at(RunningCheck);
        } else if Elapsed(env.at(StartupTest), started) >= timing.startup {
          failureCode := Some(STARTUP_FAILURE);
          log := log + [StopSent];
          ReportStopping(env.at(StartupStop), env.at(StartupCheck));
        }
      }
    }

    method DispatchControls(controls: seq<Control>)
      modifies this
      ensures View() == Dispatch(old(View()), controls)
    {
      ghost var before := View();
      for i := 0 to |controls|
        invariant View() == Dispatch(before, controls[..i])
      {
        assert controls[..i + 1][..i] == controls[..i];
        match controls[i] {
          case Pause => if running { deferred := Some(true); }
          case Continue => if running { deferred := Some(false); }
          case PowerEvent(_) => log := log + [Forwarded(controls[i])];
          case Rotate => log := log + [Forwarded(controls[i])];
          case _ =>
        }
      }
      assert controls[..|controls|] == controls;
    }

    method ConcludeTransition(outcome: Outcome, env: Env)
      requires pending.Some?
      modifies this
      ensures View() == Conclude(old(View()), outcome, env)
    {
      var p := pending.value;
      log := log + [Observed(outcome, p.pause)];
      pending := None;
      checkpoint := env.at(SettledCheck);
      match outcome {
        case Applied => paused := p.pause;
        case Degraded => failureCode := Some(SUPERVISOR_ERROR);
        case _ =>
      }
      if outcome == Degraded {
        ReportStopping(env.at(DegradedStop), env.at(SettledCheck));
      } else {
        log := log + [Reported(if paused then Paused else Running)];
      }
    }

    method SettleTransition(env: Env)
      modifies this
      ensures View() == Settle(timing, old(View()), env)
    {
      hide Conclude;
      if pending.None? { return; }
      var since := pending.value.started;
      var cancelling := Elapsed(env.at(TransitionTest), since) >= timing.transition;
      log := log + if cancelling then [CancelAsked] else [];
      var outcome := Look(env.phase, cancelling);
      if outcome.Some? {
        ConcludeTransition(outcome.value, env);
      } else if Elapsed(env.at(HardTest), since) >= timing.stop {
        failureCode := Some(SUPERVISOR_ERROR);
        log := log + [StopSent];
        ReportStopping(env.at(HardStop), checkpoint);
      }
    }

    method RequestTransition(env: Env)
      modifies this
      ensures View() == Request(old(View()), env)
    {
      if pending.None? && stopping.None? && deferred.Some? {
        var pause := deferred.value;
        deferred := None;
        pending := Some(Pending(pause, env.at(RequestStart)));
        log := log + [Requested(pause), Reported(if pause then PausePending else ContinuePending)];
        checkpoint := env.at(RequestCheck);
      }
    }

    method RepeatPending(env: Env)
      modifies this
      ensures View() == Checkpoint(timing, old(View()), env)
    {
      if Elapsed(env.at(CheckpointTest), checkpoint) >= timing.checkpoint {
        var status :=
          if stopping.Some? then Some(StopPending)
          else if pending.Some? then Some(if pending.value.pause then PausePending else ContinuePending)
          else if !running then Some(StartPending)
          else None;
        log := log + if status.Some? then [Reported(status.value)] else [];
        checkpoint := env.at(CheckpointCheck);
      }
    }

    method AwaitControl(env: Env)
      modifies this
      ensures View() == Receive(old(View()), env)
    {
      match env.received {
        case Got(c) => firstControl := Some(c);
        case Timeout =>
        case Disconnected => explicitStop := true;
      }
    }

    method Iterate(env: Env) returns (exit: Option<BridgeExit>)
      modifies this
      ensures Step(timing, old(View()), env) == if exit.Some? then Exited(View(), exit.value) else Going(View())
    {
      hide Collect, Gate, Explicit, Startup, Dispatch, Settle, Request, Checkpoint, Receive;
      var controls := PollControls(env);
      HandOver(env);
      AcceptStop(env);
      if env.finished.Some? {
        var accepted := explicitStop || env.stopAtExit;
        var terminal :=
          if accepted then Report(0)
          else if failureCode.Some? then Report(failureCode.value)
          else TerminalFor(env.finished.value, false);
        return Some(BridgeExit(terminal, env.finished.value.None?));
      }
      ConfirmStartup(env);
      if stopping.None? {
        DispatchControls(controls);
        SettleTransition(env);
        RequestTransition(env);
      }
      if stopping.Some? && Elapsed(env.at(StopTest), stopping.value) >= timing.stop {
        var code := if explicitStop || env.stopAtDeadline then 0
                    else if failureCode.Some? then failureCode.value else SUPERVISOR_ERROR;
        return Some(BridgeExit(Report(code), true));
      }
      RepeatPending(env);
      AwaitControl(env);
      return None;
    }

    /** Runs until the loop ends or there is nothing more to observe. */
    method Serve(envs: seq<Env>) returns (exit: Option<BridgeExit>)
      requires View() == Start(started)
      modifies this
      ensures Run(timing, started, envs) == if exit.Some? then Exited(View(), exit.value) else Going(View())
      ensures Allowed(log) && LastStatus(log) == Some(StatusOf(View()))
    {
      hide Step, Allowed, LastStatus;
      for i := 0 to |envs|
        invariant Run(timing, started, envs[..i]) == Going(View())
      {
        assert envs[..i + 1][..i] == envs[..i] && Last(envs[..i + 1]) == envs[i];
        exit := Iterate(envs[i]);
        if exit.Some? {
          ExitSticks(timing, started, envs, i + 1);
          EveryTraceAllowed(timing, started, envs);
          return;
        }
      }
      assert envs[..|envs|] == envs;
      EveryTraceAllowed(timing, started, envs);
      return None;
    }
  }

  lemma {:induction false} ExitSticks(timing: Timing, start: Instant, envs: seq<Env>, n: nat)
    requires n <= |envs| && Run(timing, start, envs[..n]).Exited?
    ensures Run(timing, start, envs) == Run(timing, start, envs[..n])
    decreases |envs|
  {
    if n < |envs| {
      assert envs[..|envs| - 1][..n] == envs[..n];
      ExitSticks(timing, start, envs[..|envs| - 1], n);
    } else {
      assert envs[..n] == envs;
    }
  }

  // -- The end of the host process ------------------------------------------------------------------------

  /** `claimed`: a stop was accepted before the decision could be committed. */
  method Finish(exit: BridgeExit, claimed: bool) returns (ending: Ending)
    ensures claimed ==> ending.reported == Some(ServiceStopped(0)) && ending.terminated in {None, Some(0)}
    ensures ending.reported.None? <==> !claimed && exit.terminal.Crash?
    ensures ending.reported.None? ==> ending.terminated == Some(exit.terminal.code)
    ensures !claimed && exit.terminal.Report? ==> ending.reported == Some(ServiceStopped(exit.terminal.code))
    ensures ending.reported.Some? ==>
              ending.terminated == if exit.forceExit then Some(ending.reported.value.code) else None
  {
    var terminal := if claimed then Report(0) else exit.terminal;
    match terminal {
      case Report(code) => ending := Ending(Some(ServiceStopped(code)), if exit.forceExit then Some(code) else None);
      case Crash(code) => ending := Ending(None, Some(code));
    }
  }

  /** From the first control to the end of the process: whoever asks for a stop, at whatever point of a round the
      bridge notices, gets a clean one, and the process only ever disappears without a last report for a deliberate
      crash nobody stopped. */
  method ServeAndFinish(timing: Timing, start: Instant, envs: seq<Env>, claimed: bool) returns (ending: Option<Ending>)
    ensures ending.Some? <==> Run(timing, start, envs).Exited?
    ensures ending.Some? && (claimed || exists k :: 0 <= k < |envs| && Noticed(timing, start, envs, k)) ==>
              ending.value.reported == Some(ServiceStopped(0))
    ensures ending.Some? && !claimed && Run(timing, start, envs).exit.terminal.Report? ==>
              ending.value.reported == Some(ServiceStopped(Run(timing, start, envs).exit.terminal.code))
    ensures ending.Some? && !claimed && Run(timing, start, envs).exit.terminal.Crash? ==>
              ending.value == Ending(None, Some(Run(timing, start, envs).exit.terminal.code))
    ensures ending.Some? && ending.value.reported.None? ==>
              StopSent !in Run(timing, start, envs).s.log && ending.value.terminated.Some? && ending.value.terminated.value > 0
  {
    var bridge := new ServiceBridge(timing, start);
    var exit := bridge.Serve(envs);
    if exit.None? { return None; }
    var e := Finish(exit.value, claimed);
    ghost var n := ExitRound(timing, start, envs);
    ExitSticks(timing, start, envs, n);
    assert envs[..n][..n - 1] == envs[..n - 1];
    CrashExactly(timing, start, envs[..n]);
    if k :| 0 <= k < |envs| && Noticed(timing, start, envs, k) {
      ExplicitStopWins(timing, start, envs, k);
    }
    return Some(e);
  }

  /** The round that ended the loop. */
  lemma {:induction false} ExitRound(timing: Timing, start: Instant, envs: seq<Env>) returns (n: nat)
    requires Run(timing, start, envs).Exited?
    ensures 0 < n <= |envs| && Run(timing, start, envs[..n]).Exited? && Run(timing, start, envs[..n - 1]).Going?
  {
    hide Step;
    var rest := envs[..|envs| - 1];
    if Run(timing, start, rest).Exited? {
      n := ExitRound(timing, start, rest);
      assert rest[..n] == envs[..n] && rest[..n - 1] == envs[..n - 1];
    } else {
      n := |envs|;
      assert envs[..n] == envs;
    }
  }
}
