/** What every run of the bridge keeps, whatever the controls, the supervisor and the clock do. */
module BridgeLaws {
  import opened Prelude
  import opened Bridge

  // -- Reading a trace ---------------------------------------------------------------------------

  function LastStatus(log: seq<Event>): Option<Status> {
    if log == [] then None
    else if Last(log).Reported? then Some(Last(log).status)
    else LastStatus(log[..|log| - 1])
  }

  /** The transition asked for and neither concluded nor dropped yet: whether it is a pause. */
  function Open(log: seq<Event>): Option<bool> {
    if log == [] then None
    else
      match Last(log)
      case Requested(pause) => Some(pause)
      case Observed(_, _) => None
      case Dropped => None
      case _ => Open(log[..|log| - 1])
  }

  /** Whether the last transition that was applied is a pause. */
  function LastApplied(log: seq<Event>): bool {
    if log == [] then false
    else if Last(log).Observed? && Last(log).outcome == Applied then Last(log).pause
    else LastApplied(log[..|log| - 1])
  }

  predicate Released(log: seq<Event>) { exists i :: 0 <= i < |log| && log[i].GateReleased? }

  predicate Edge(a: Status, b: Status) {
    match a
    case StartPending => b in {StartPending, Running, StopPending}
    case Running => b in {PausePending, ContinuePending, StopPending}
    case Paused => b in {PausePending, ContinuePending, StopPending}
    case PausePending => b in {PausePending, Running, Paused, StopPending}
    case ContinuePending => b in {ContinuePending, Running, Paused, StopPending}
    case StopPending => b == StopPending
    case ServiceStopped(_) => false
  }

  /** May `e` come after `log`? */
  predicate Fits(log: seq<Event>, e: Event) {
    match e
    case Reported(b) =>
      && (if LastStatus(log).None? then b == StartPending else Edge(LastStatus(log).value, b))
      && (b == PausePending ==> Open(log) == Some(true))
      && (b == ContinuePending ==> Open(log) == Some(false))
      && (b in {Running, Paused} ==> Open(log).None? && LastApplied(log) == (b == Paused))
    case Requested(_) => Open(log).None? && LastStatus(log) in {Some(Running), Some(Paused)}
    case Observed(_, pause) => Open(log) == Some(pause)
    case CancelAsked => Open(log).Some?
    case Dropped => Open(log).Some?
    case GateReleased(explicit) => !Released(log) && (explicit ==> StopSent in log)
    case StopSent => true
    case Forwarded(_) => LastStatus(log) != Some(StopPending)
  }

  predicate Allowed(log: seq<Event>) { log == [] || (Allowed(log[..|log| - 1]) && Fits(log[..|log| - 1], Last(log))) }

  // -- The invariant -----------------------------------------------------------------------------------

  function StatusOf(s: State): Status {
    if s.stopping.Some? then StopPending
    else if s.pending.Some? then if s.pending.value.pause then PausePending else ContinuePending
    else if !s.running then StartPending
    else if s.paused then Paused else Running
  }

  predicate Shape(s: State) {
    && (!s.running ==> s.pending.None? && s.deferred.None? && !s.paused)
    && (s.terminalClaimed ==> s.stopping.Some?)
    && (s.failureCode.Some? ==> s.stopping.Some? && s.failureCode.value == if s.running then SUPERVISOR_ERROR else STARTUP_FAILURE)
  }

  predicate Traced(s: State) {
    && Allowed(s.log)
    && LastStatus(s.log) == Some(StatusOf(s))
    && Open(s.log) == (if s.pending.Some? then Some(s.pending.value.pause) else None)
    && LastApplied(s.log) == s.paused
    && Released(s.log) == s.terminalClaimed
  }

  predicate Inv(s: State) { Shape(s) && Traced(s) }

  // -- What one more event means --------------------------------------------------------------------

  lemma Append(log: seq<Event>, e: Event)
    requires Allowed(log) && Fits(log, e)
    ensures var more := log + [e];
            && Allowed(more)
            && LastStatus(more) == (if e.Reported? then Some(e.status) else LastStatus(log))
            && Open(more) == (if e.Requested? then Some(e.pause) else if e.Observed? || e.Dropped? then None else Open(log))
            && LastApplied(more) == (if e.Observed? && e.outcome == Applied then e.pause else LastApplied(log))
            && Released(more) == (Released(log) || e.GateReleased?)
            && |more| > 0
  {
    var more := log + [e];
    assert more[..|more| - 1] == log;
    assert more[|log|] == e && forall i :: 0 <= i < |log| ==> more[i] == log[i];
  }

  lemma CollectKeeps(s: State, env: Env)
    requires Inv(s)
    ensures Inv(Collect(s, env))
  {
    hide Allowed, LastStatus, Open, LastApplied, Released, Batch, IsStop;
  }

  lemma DropKeeps(s: State)
    requires Allowed(s.log) && Open(s.log) == (if s.pending.Some? then Some(s.pending.value.pause) else None)
    ensures var t := DropPending(s);
            && Allowed(t.log) && Open(t.log).None? && LastStatus(t.log) == LastStatus(s.log)
            && LastApplied(t.log) == LastApplied(s.log) && Released(t.log) == Released(s.log)
  {
    hide Allowed, LastStatus, Open, LastApplied, Released, Edge;
    if s.pending.Some? { Append(s.log, Dropped); } else { assert s.log + [] == s.log; }
  }

  lemma BeginStopKeeps(s: State, now: Instant, checked: Instant)
    requires s.stopping.None? && Allowed(s.log)
    requires LastStatus(s.log).Some? && !LastStatus(s.log).value.ServiceStopped?
    ensures var t := BeginStop(s, now, checked);
            && Allowed(t.log) && LastStatus(t.log) == Some(StopPending) && Open(t.log) == Open(s.log)
            && LastApplied(t.log) == LastApplied(s.log) && Released(t.log) == Released(s.log)
  {
    hide Allowed, LastStatus, Open, LastApplied, Released;
    Append(s.log, Reported(StopPending));
  }

  lemma SendStop(log: seq<Event>)
    requires Allowed(log)
    ensures var more := log + [StopSent];
            && Allowed(more) && LastStatus(more) == LastStatus(log) && Open(more) == Open(log)
            && LastApplied(more) == LastApplied(log) && Released(more) == Released(log)
            && StopSent in more
  {
    hide Allowed, LastStatus, Open, LastApplied, Released;
    Append(log, StopSent);
    assert (log + [StopSent])[|log|] == StopSent;
  }

  lemma GateKeeps(s: State, env: Env)
    requires Inv(s)
    ensures Inv(Gate(s, env))
    ensures !s.terminalClaimed && env.gateReady ==> Gate(s, env).stopping.Some?
    ensures s.stopping.Some? ==> Gate(s, env).stopping == s.stopping
  {
    hide Allowed, LastStatus, Open, LastApplied, Released;
    if !s.terminalClaimed && env.gateReady {
      var explicit := s.explicitStop || env.claim;
      if explicit { SendStop(s.log); } else { assert s.log + [] == s.log; }
      var sent := s.log + if explicit then [StopSent] else [];
      Append(sent, GateReleased(explicit));
      var claimed := s.(explicitStop := explicit, terminalClaimed := true, log := sent + [GateReleased(explicit)]);
      DropKeeps(claimed);
      var t := DropPending(claimed);
      if t.stopping.None? { BeginStopKeeps(t, env.at(GateStop), env.at(GateCheck)); }
    }
  }

  lemma ExplicitKeeps(s: State, env: Env)
    requires Inv(s)
    ensures var t := Explicit(s, env);
            && Inv(t) && (t.explicitStop ==> t.stopping.Some?) && t.explicitStop == s.explicitStop
            && (s.stopping.Some? ==> t == s)
  {
    hide Allowed, LastStatus, Open, LastApplied, Released;
    if s.explicitStop && s.stopping.None? {
      SendStop(s.log);
      var sent := s.(log := s.log + [StopSent]);
      DropKeeps(sent);
      BeginStopKeeps(DropPending(sent), env.at(ExplicitStop), env.at(ExplicitCheck));
    }
  }

  lemma StartupKeeps(timing: Timing, s: State, env: Env)
    requires Inv(s)
    ensures Inv(Startup(timing, s, env))
  {
    hide Allowed, LastStatus, Open, LastApplied, Released;
    if !s.running && s.stopping.None? {
      Append(s.log, Reported(Running));
      SendStop(s.log);
      var failed := s.(failureCode := Some(STARTUP_FAILURE), log := s.log + [StopSent]);
      BeginStopKeeps(failed, env.at(StartupStop), env.at(StartupCheck));
    }
  }

  lemma {:induction false} DispatchKeeps(s: State, controls: seq<Control>)
    requires Inv(s) && s.stopping.None?
    ensures var t := Dispatch(s, controls);
            Inv(t) && t == s.(deferred := t.deferred, log := t.log)
  {
    hide Allowed, LastStatus, Open, LastApplied, Released;
    if controls != [] {
      DispatchKeeps(s, controls[..|controls| - 1]);
      var t, c := Dispatch(s, controls[..|controls| - 1]), Last(controls);
      if c.PowerEvent? || c.Rotate? { Append(t.log, Forwarded(c)); }
    }
  }

  lemma ReportSettledKeeps(s: State)
    requires Shape(s) && s.running && s.pending.None? && s.stopping.None?
    requires Allowed(s.log) && Open(s.log).None? && LastApplied(s.log) == s.paused && Released(s.log) == s.terminalClaimed
    requires LastStatus(s.log) in {Some(PausePending), Some(ContinuePending)}
    ensures Inv(ReportSettled(s))
  {
    hide Allowed, LastStatus, Open, LastApplied, Released;
    Append(s.log, Reported(if s.paused then Paused else Running));
  }

  lemma ConcludeKeeps(s: State, outcome: Outcome, env: Env)
    requires Inv(s) && s.pending.Some? && s.stopping.None?
    ensures Inv(Conclude(s, outcome, env))
  {
    hide Allowed, LastStatus, Open, LastApplied, Released;
    Append(s.log, Observed(outcome, s.pending.value.pause));
    var t := s.(pending := None, checkpoint := env.at(SettledCheck), log := s.log + [Observed(outcome, s.pending.value.pause)]);
    match outcome {
      case Applied => ReportSettledKeeps(t.(paused := s.pending.value.pause));
      case Cancelled => ReportSettledKeeps(t);
      case Rejected => ReportSettledKeeps(t);
      case Degraded => BeginStopKeeps(t.(failureCode := Some(SUPERVISOR_ERROR)), env.at(DegradedStop), env.at(SettledCheck));
    }
  }

  lemma SettleKeeps(timing: Timing, s: State, env: Env)
    requires Inv(s) && s.stopping.None?
    ensures Inv(Settle(timing, s, env))
  {
    hide Allowed, LastStatus, Open, LastApplied, Released, Conclude;
    if s.pending.Some? {
      var p := s.pending.value;
      var cancelling := Elapsed(env.at(TransitionTest), p.started) >= timing.transition;
      if cancelling { Append(s.log, CancelAsked); } else { assert s.log + [] == s.log; }
      var t := s.(log := s.log + if cancelling then [CancelAsked] else []);
      assert Inv(t);
      match Look(env.phase, cancelling) {
        case Some(outcome) => ConcludeKeeps(t, outcome, env);
        case None =>
          SendStop(t.log);
          BeginStopKeeps(t.(failureCode := Some(SUPERVISOR_ERROR), log := t.log + [StopSent]), env.at(HardStop), t.checkpoint);
      }
    }
  }

  lemma RequestKeeps(s: State, env: Env)
    requires Inv(s)
    ensures Inv(Request(s, env))
  {
    hide Allowed, LastStatus, Open, LastApplied, Released;
    if s.pending.None? && s.stopping.None? && s.deferred.Some? {
      var pause := s.deferred.value;
      Append(s.log, Requested(pause));
      Append(s.log + [Requested(pause)], Reported(if pause then PausePending else ContinuePending));
      assert s.log + [Requested(pause), Reported(if pause then PausePending else ContinuePending)]
          == s.log + [Requested(pause)] + [Reported(if pause then PausePending else ContinuePending)];
    }
  }

  lemma CheckpointKeeps(timing: Timing, s: State, env: Env)
    requires Inv(s)
    ensures Inv(Checkpoint(timing, s, env))
  {
    hide Allowed, LastStatus, Open, LastApplied, Released;
    if Repeated(s).Some? {
      assert Repeated(s).value == StatusOf(s);
      Append(s.log, Reported(StatusOf(s)));
    } else {
      assert s.log + [] == s.log;
    }
  }

  lemma StepKeeps(timing: Timing, s: State, env: Env)
    requires Inv(s)
    ensures Inv(Step(timing, s, env).s)
  {
    hide Inv, Collect, Gate, Explicit, Startup, Dispatch, Settle, Request, Checkpoint, ExitOnFinish, ExitOnDeadline;
    CollectKeeps(s, env);
    GateKeeps(Collect(s, env), env);
    ExplicitKeeps(Gate(Collect(s, env), env), env);
    var stopped := Explicit(Gate(Collect(s, env), env), env);
    StartupKeeps(timing, stopped, env);
    var up := Startup(timing, stopped, env);
    if up.stopping.None? {
      DispatchKeeps(up, Batch(s, env));
      SettleKeeps(timing, Dispatch(up, Batch(s, env)), env);
      RequestKeeps(Settle(timing, Dispatch(up, Batch(s, env)), env), env);
    }
    var t := Controls(timing, up, Batch(s, env), env);
    CheckpointKeeps(timing, t, env);
    ReceiveKeeps(Checkpoint(timing, t, env), env);
  }

  lemma ReceiveKeeps(s: State, env: Env)
    requires Inv(s)
    ensures Inv(Receive(s, env))
  {
    hide Allowed, LastStatus, Open, LastApplied, Released;
  }

  lemma {:induction false} RunKeeps(timing: Timing, start: Instant, envs: seq<Env>)
    ensures Inv(Run(timing, start, envs).s)
  {
    hide Step, Inv;
    if envs == [] {
      StartKeeps(start);
    } else {
      RunKeeps(timing, start, envs[..|envs| - 1]);
      var before := Run(timing, start, envs[..|envs| - 1]);
      if before.Going? { StepKeeps(timing, before.s, Last(envs)); }
    }
  }

  lemma StartKeeps(start: Instant)
    ensures Inv(Start(start))
  {
    var log := [Reported(StartPending)];
    assert log == [] + log && log[..0] == [];
    Append([], Reported(StartPending));
  }

  /** Every trace is one the status automaton allows, and its last report is the current status. */
  lemma EveryTraceAllowed(timing: Timing, start: Instant, envs: seq<Env>)
    ensures var s := Run(timing, start, envs).s; Allowed(s.log) && LastStatus(s.log) == Some(StatusOf(s))
  {
    hide Run, Allowed;
    RunKeeps(timing, start, envs);
  }

  // -- What an allowed trace cannot contain ------------------------------------------------------------

  lemma {:induction false} AllowedAt(log: seq<Event>, k: nat)
    requires Allowed(log) && k < |log|
    ensures Allowed(log[..k]) && Fits(log[..k], log[k])
    decreases |log|
  {
    hide Fits;
    if k < |log| - 1 {
      assert log[..|log| - 1][..k] == log[..k];
      AllowedAt(log[..|log| - 1], k);
    }
  }

  lemma {:induction false} StatusBefore(log: seq<Event>, i: nat)
    requires Allowed(log) && i < |log| && log[i] == Reported(StopPending)
    ensures LastStatus(log) == Some(StopPending)
    decreases |log|
  {
    if i < |log| - 1 {
      var rest := log[..|log| - 1];
      assert rest[i] == log[i];
      StatusBefore(rest, i);
    }
  }

  /** Once stopping is reported nothing else ever is, and no control reaches the supervisor any more. */
  lemma StoppingAbsorbs(log: seq<Event>, i: nat, j: nat)
    requires Allowed(log) && i < j < |log| && log[i] == Reported(StopPending)
    ensures log[j].Reported? ==> log[j].status == StopPending
    ensures !log[j].Requested? && !log[j].Forwarded?
  {
    hide Allowed, Open, LastApplied, Released;
    AllowedAt(log, j);
    assert log[..j][i] == log[i];
    StatusBefore(log[..j], i);
  }

  /** The terminal gate is released at most once, and for an accepted stop only after the stop has been sent. */
  lemma GateOnce(log: seq<Event>, i: nat, j: nat)
    requires Allowed(log) && i < |log| && j < |log| && log[i].GateReleased? && log[j].GateReleased?
    ensures i == j
    ensures log[i].explicitStop ==> exists k :: 0 <= k < i && log[k] == StopSent
  {
    hide Allowed;
    AllowedAt(log, i);
    AllowedAt(log, j);
    if log[i].explicitStop { var k :| 0 <= k < i && log[..i][k] == StopSent; }
  }

  /** Between two requests the first transition has been concluded or dropped: one is in flight at a time. */
  lemma OneInFlight(log: seq<Event>, i: nat, j: nat)
    requires Allowed(log) && i < j < |log| && log[i].Requested? && log[j].Requested?
    ensures exists k :: i < k < j && (log[k].Observed? || log[k].Dropped?)
  {
    hide Allowed;
    AllowedAt(log, j);
    if forall k :: i < k < j ==> !log[k].Observed? && !log[k].Dropped? {
      StillOpen(log[..j], i);
    }
  }

  lemma {:induction false} StillOpen(log: seq<Event>, i: nat)
    requires i < |log| && log[i].Requested?
    requires forall k :: i < k < |log| ==> !log[k].Observed? && !log[k].Dropped?
    ensures Open(log).Some?
    decreases |log|
  {
    if i < |log| - 1 {
      assert log[..|log| - 1][i] == log[i];
      StillOpen(log[..|log| - 1], i);
    }
  }

  /** A settled report always states the transition applied last. */
  lemma SettledReports(log: seq<Event>, k: nat)
    requires Allowed(log) && k < |log| && log[k].Reported? && log[k].status in {Running, Paused}
    ensures LastApplied(log[..k]) == (log[k].status == Paused) && Open(log[..k]).None?
  {
    hide Allowed;
    AllowedAt(log, k);
  }

  // -- Stops win -----------------------------------------------------------------------------------------

  function Polled(env: Env): seq<Control> {
    if |env.controls| > CONTROL_BATCH then env.controls[..CONTROL_BATCH] else env.controls
  }

  /** The iteration sees a stop before it looks at the supervisor. */
  predicate HearsStop(env: Env) {
    env.stopSeen || (env.disconnected && |env.controls| < CONTROL_BATCH) || exists c :: c in Polled(env) && IsStop(c)
  }

  /** Whenever the iteration asks for a stop or is told of one and there is one: among the controls, at the terminal
      gate, when the supervisor has finished, and when the stop's own deadline has passed. */
  ghost predicate Notices(timing: Timing, s: State, env: Env) {
    || HearsStop(env)
    || (!s.terminalClaimed && env.gateReady && env.claim)
    || (env.finished.Some? && env.stopAtExit)
    || (env.finished.None? && Step(timing, s, env).Exited? && env.stopAtDeadline)
  }

  /** It is handed one while it waits for the next round. */
  predicate ReceivesStop(env: Env) { env.received.Disconnected? || (env.received.Got? && IsStop(env.received.control)) }

  /** Round `k` notices a stop, or ends with receiving one. */
  ghost predicate Noticed(timing: Timing, start: Instant, envs: seq<Env>, k: nat)
    requires k < |envs|
  {
    && Run(timing, start, envs[..k]).Going?
    && (Notices(timing, Run(timing, start, envs[..k]).s, envs[k])
        || (ReceivesStop(envs[k]) && Run(timing, start, envs[..k + 1]).Going?))
  }

  /** A stop has been noticed or is next in line. */
  predicate Heeded(s: State) { s.explicitStop || (s.firstControl.Some? && IsStop(s.firstControl.value)) }

  /** How a round must end for which a stop is known. */
  predicate StopKept(l: Loop) { if l.Exited? then l.exit.terminal == Report(0) else Heeded(l.s) }

  lemma CollectHeeds(s: State, env: Env)
    requires Heeded(s) || HearsStop(env)
    ensures Collect(s, env).explicitStop
  {
    var batch := Batch(s, env);
    if s.firstControl.Some? { assert batch[0] == s.firstControl.value; }
    if c :| c in Polled(env) && IsStop(c) {
      var i :| 0 <= i < |Polled(env)| && Polled(env)[i] == c;
      assert batch[|batch| - |Polled(env)| + i] == c;
    }
  }

  lemma {:induction false} DispatchFrame(s: State, controls: seq<Control>)
    ensures var t := Dispatch(s, controls); t == s.(deferred := t.deferred, log := t.log)
  {
    if controls != [] { DispatchFrame(s, controls[..|controls| - 1]); }
  }

  lemma StepHeeds(timing: Timing, s: State, env: Env)
    requires Heeded(s) || Notices(timing, s, env)
    ensures StopKept(Step(timing, s, env))
  {
    if Heeded(s) || HearsStop(env) { CollectHeeds(s, env); }
    hide Collect, HearsStop, Batch;
    ClaimKept(s, env);
    var stopped := Explicit(Gate(Collect(s, env), env), env);
    hide Gate, Explicit;
    var up := Startup(timing, stopped, env);
    DispatchFrame(up, Batch(s, env));
    KnownStays(timing, stopped, Batch(s, env), env);
    hide Startup, Controls;
  }

  lemma ClaimKept(s: State, env: Env)
    ensures Collect(s, env).terminalClaimed == s.terminalClaimed
    ensures var t := Explicit(Gate(Collect(s, env), env), env);
            t.explicitStop == (Collect(s, env).explicitStop || (!s.terminalClaimed && env.gateReady && env.claim))
  {
    hide Batch, IsStop;
  }

  lemma KnownStays(timing: Timing, s: State, controls: seq<Control>, env: Env)
    ensures var t := Controls(timing, Startup(timing, s, env), controls, env); t.explicitStop == s.explicitStop
  {
    DispatchFrame(Startup(timing, s, env), controls);
    SettleKnows(timing, Dispatch(Startup(timing, s, env), controls), env);
    hide Dispatch, Settle;
  }

  lemma SettleKnows(timing: Timing, s: State, env: Env)
    ensures Settle(timing, s, env).explicitStop == s.explicitStop
  {
  }

  lemma ReceivedIsHeeded(timing: Timing, s: State, env: Env)
    requires ReceivesStop(env) && Step(timing, s, env).Going?
    ensures StopKept(Step(timing, s, env))
  {
    hide Collect, Gate, Explicit, Startup, Controls, Checkpoint, ExitOnFinish, ExitOnDeadline;
  }

  /** However the supervisor ends and whichever deadline is missed: if any round notices a stop, wherever in it, or
      ends with receiving one, the loop ends with the service reported stopped with code 0. */
  lemma {:induction false} ExplicitStopWins(timing: Timing, start: Instant, envs: seq<Env>, k: nat)
    requires k < |envs| && Noticed(timing, start, envs, k)
    ensures StopKept(Run(timing, start, envs))
    decreases |envs|
  {
    hide Step, Notices, ReceivesStop, StopKept;
    var rest := envs[..|envs| - 1];
    if k < |rest| {
      assert rest[..k] == envs[..k] && rest[..k + 1] == envs[..k + 1] && rest[k] == envs[k];
      ExplicitStopWins(timing, start, rest, k);
      KeptLater(timing, Run(timing, start, rest), Last(envs));
    } else {
      assert rest == envs[..k] && envs == envs[..k + 1];
      var s := Run(timing, start, rest).s;
      if Notices(timing, s, envs[k]) { StepHeeds(timing, s, envs[k]); } else { ReceivedIsHeeded(timing, s, envs[k]); }
    }
  }

  lemma KeptLater(timing: Timing, l: Loop, env: Env)
    requires StopKept(l)
    ensures StopKept(if l.Going? then Step(timing, l.s, env) else l)
  {
    if l.Going? { StepHeeds(timing, l.s, env); }
  }

  // -- Exit codes ------------------------------------------------------------------------------------------

  /** A stop is only ever sent for an explicit stop or a failure of the bridge's own. */
  predicate Blameless(s: State) { StopSent in s.log ==> s.explicitStop || s.failureCode.Some? }

  lemma {:induction false} DispatchSendsNoStop(s: State, controls: seq<Control>)
    ensures StopSent in Dispatch(s, controls).log ==> StopSent in s.log
  {
    if controls != [] { DispatchSendsNoStop(s, controls[..|controls| - 1]); }
  }

  lemma SettleBlameless(timing: Timing, s: State, env: Env)
    requires Blameless(s) && s.stopping.None?
    ensures Blameless(Settle(timing, s, env)) && Blameless(Request(Settle(timing, s, env), env))
  {
  }

  lemma StepBlameless(timing: Timing, s: State, env: Env)
    requires Blameless(s)
    ensures Blameless(Step(timing, s, env).s)
  {
    StopsBlameless(s, env);
    hide Blameless, Collect, Gate, Explicit, Startup, Dispatch, Settle, Request, Checkpoint, Batch, ExitOnFinish, ExitOnDeadline;
    var stopped := Explicit(Gate(Collect(s, env), env), env);
    var up := Startup(timing, stopped, env);
    StartupBlameless(timing, stopped, env);
    DispatchBlameless(up, Batch(s, env));
    if up.stopping.None? { SettleBlameless(timing, Dispatch(up, Batch(s, env)), env); }
    EndBlameless(timing, Controls(timing, up, Batch(s, env), env), env);
  }

  lemma StartupBlameless(timing: Timing, s: State, env: Env)
    requires Blameless(s)
    ensures Blameless(Startup(timing, s, env))
  {
  }

  lemma DispatchBlameless(s: State, controls: seq<Control>)
    requires Blameless(s)
    ensures Blameless(Dispatch(s, controls)) && Dispatch(s, controls).stopping == s.stopping
  {
    DispatchSendsNoStop(s, controls);
    DispatchFrame(s, controls);
  }

  lemma EndBlameless(timing: Timing, s: State, env: Env)
    requires Blameless(s)
    ensures Blameless(Receive(Checkpoint(timing, s, env), env))
  {
  }

  lemma StopsBlameless(s: State, env: Env)
    requires Blameless(s)
    ensures Blameless(Explicit(Gate(Collect(s, env), env), env))
  {
  }

  lemma {:induction false} RunBlameless(timing: Timing, start: Instant, envs: seq<Env>)
    ensures Blameless(Run(timing, start, envs).s)
  {
    hide Step, Blameless;
    if envs == [] {
      assert Blameless(Start(start)) by { StartBlameless(start); }
    } else {
      RunBlameless(timing, start, envs[..|envs| - 1]);
      var before := Run(timing, start, envs[..|envs| - 1]);
      if before.Going? { StepBlameless(timing, before.s, Last(envs)); }
    }
  }

  lemma StartBlameless(start: Instant)
    ensures Blameless(Start(start))
  {
  }

  /** The crash-style end is taken exactly when the supervisor ended for that reason and nothing ever asked for a
      stop: no stop was accepted, no deadline missed, and the supervisor was never told to stop. */
  lemma CrashExactly(timing: Timing, start: Instant, envs: seq<Env>)
    requires envs != [] && Run(timing, start, envs[..|envs| - 1]).Going? && Run(timing, start, envs).Exited?
    ensures var (s, exit, env) := (Run(timing, start, envs).s, Run(timing, start, envs).exit, Last(envs));
            && (exit.terminal.Crash? <==>
                  && env.finished.Some? && env.finished.value.Some? && env.finished.value.value.Suicide?
                  && !s.explicitStop && !env.stopAtExit && s.failureCode.None?)
            && (exit.terminal.Crash? ==> StopSent !in s.log && exit.terminal.code > 0)
            && (s.failureCode.Some? && !s.explicitStop && !env.stopAtExit && !env.stopAtDeadline ==>
                  exit.terminal == Report(s.failureCode.value) && s.failureCode.value in {SUPERVISOR_ERROR, STARTUP_FAILURE})
  {
    hide Run, Collect, Gate, Explicit, Startup, Controls;
    RunKeeps(timing, start, envs);
    RunBlameless(timing, start, envs);
    var before := Run(timing, start, envs[..|envs| - 1]);
    RunStep(timing, start, envs);
  }

  lemma RunStep(timing: Timing, start: Instant, envs: seq<Env>)
    requires envs != [] && Run(timing, start, envs[..|envs| - 1]).Going?
    ensures Run(timing, start, envs) == Step(timing, Run(timing, start, envs[..|envs| - 1]).s, Last(envs))
  {
  }

  // -- Deadlines ---------------------------------------------------------------------------------------------

  /** Nothing pending outlives its deadline: of an iteration the loop goes on after, startup, a transition or the
      stop that were under way before and still are had not reached theirs when the iteration began; and a
      transition nobody has begun is cancelled as soon as its shorter deadline has passed. */
  lemma Timely(timing: Timing, s: State, env: Env)
    requires WellTimed(env) && Step(timing, s, env).Going? && timing.stop > 0 && timing.transition > 0
    ensures var t := Step(timing, s, env).s;
            && t.started == s.started && (s.running ==> t.running)
            && (s.stopping.Some? ==> t.stopping == s.stopping)
            && (t.stopping.Some? ==> env.from < t.stopping.value + timing.stop)
            && (!t.running && t.stopping.None? ==> !s.running && s.stopping.None? && env.from < s.started + timing.startup)
            && (t.pending.Some? && t.stopping.None? ==> env.from < t.pending.value.started + timing.stop)
            && (s.pending.Some? && t.pending == s.pending && t.stopping.None? && env.phase.Queued? ==>
                  env.from < s.pending.value.started + timing.transition)
  {
    var stopped := Explicit(Gate(Collect(s, env), env), env);
    StopPhases(s, env);
    hide Collect, Gate, Explicit, Batch, Startup, Dispatch, Settle, Request, Checkpoint, ExitOnFinish, ExitOnDeadline, WellTimed;
    var up := Startup(timing, stopped, env);
    StartupPhase(timing, stopped, env);
    DispatchFrame(up, Batch(s, env));
    if up.stopping.None? { TransitionPhases(timing, Dispatch(up, Batch(s, env)), env); }
    EndPhases(timing, Controls(timing, up, Batch(s, env), env), env);
  }

  lemma StartupPhase(timing: Timing, s: State, env: Env)
    requires WellTimed(env)
    ensures var t := Startup(timing, s, env);
            && t.started == s.started && t.pending == s.pending && (s.running ==> t.running)
            && (s.stopping.Some? ==> t == s)
            && (!t.running && t.stopping.None? ==> !s.running && s.stopping.None? && env.from < s.started + timing.startup)
  {
    assert env.from <= env.at(StartupTest);
  }

  lemma EndPhases(timing: Timing, s: State, env: Env)
    requires WellTimed(env) && ExitOnDeadline(timing, s, env).None?
    ensures var t := Receive(Checkpoint(timing, s, env), env);
            && t.started == s.started && t.pending == s.pending && t.running == s.running && t.stopping == s.stopping
            && (s.stopping.Some? ==> env.from < s.stopping.value + timing.stop)
  {
    assert env.from <= env.at(StopTest);
  }

  lemma StopPhases(s: State, env: Env)
    ensures var t := Explicit(Gate(Collect(s, env), env), env);
            && t.started == s.started && t.running == s.running && (s.stopping.Some? ==> t.stopping == s.stopping)
            && (t.stopping.None? ==> t.pending == s.pending)
  {
    hide Batch, IsStop;
  }

  lemma TransitionPhases(timing: Timing, s: State, env: Env)
    requires WellTimed(env) && s.stopping.None? && timing.stop > 0 && timing.transition > 0
    ensures var t := Request(Settle(timing, s, env), env);
            && t.started == s.started && t.running == s.running
            && (t.pending.Some? && t.stopping.None? ==> env.from < t.pending.value.started + timing.stop)
            && (s.pending.Some? && t.pending == s.pending && t.stopping.None? && env.phase.Queued? ==>
                  env.from < s.pending.value.started + timing.transition)
  {
    assert env.from <= env.at(TransitionTest) && env.from <= env.at(HardTest) && env.from <= env.at(RequestStart);
    SettlePhase(timing, s, env);
    hide Settle, WellTimed;
  }

  lemma SettlePhase(timing: Timing, s: State, env: Env)
    requires WellTimed(env) && s.stopping.None?
    ensures var t := Settle(timing, s, env);
            && t.started == s.started && t.running == s.running
            && (t.pending.Some? && t.stopping.None? ==>
                  && t.pending == s.pending && env.from < t.pending.value.started + timing.stop
                  && (env.phase.Queued? ==> env.from < t.pending.value.started + timing.transition))
  {
    assert env.from <= env.at(TransitionTest) && env.from <= env.at(HardTest);
  }

  /** The time by which what is under way has to end; settled states have none. */
  function Deadline(timing: Timing, s: State): Option<Instant> {
    if s.stopping.Some? then Some(s.stopping.value + timing.stop)
    else if s.pending.Some? then Some(s.pending.value.started + timing.stop)
    else if !s.running then Some(s.started + timing.startup)
    else None
  }

  /** Any run that goes on is settled after a round, or that round began before the deadline of what is under way: so
      nothing but settled running and paused can last. */
  lemma SettledOrInTime(timing: Timing, start: Instant, envs: seq<Env>)
    requires timing.stop > 0 && timing.transition > 0 && envs != [] && WellTimed(Last(envs))
    requires Run(timing, start, envs).Going?
    ensures var s := Run(timing, start, envs).s;
            && (Deadline(timing, s).Some? ==> Last(envs).from < Deadline(timing, s).value)
            && (Deadline(timing, s).None? ==> LastStatus(s.log) in {Some(Running), Some(Paused)})
  {
    RunKeeps(timing, start, envs);
    hide Step, WellTimed, LastStatus, Allowed, Open, LastApplied, Released;
    Timely(timing, Run(timing, start, envs[..|envs| - 1]).s, Last(envs));
  }

  /** A transition that has been pending since round `k` has not been met by a round at or after its hard deadline. */
  lemma {:induction false} TransitionEnds(timing: Timing, start: Instant, envs: seq<Env>, k: nat, p: Pending)
    requires timing.stop > 0 && timing.transition > 0 && forall j :: 0 <= j < |envs| ==> WellTimed(envs[j])
    requires k <= |envs| && Run(timing, start, envs).Going?
    requires forall j :: k <= j <= |envs| ==>
               Run(timing, start, envs[..j]).s.pending == Some(p) && Run(timing, start, envs[..j]).s.stopping.None?
    ensures forall j :: k <= j < |envs| ==> envs[j].from < p.started + timing.stop
    decreases |envs|
  {
    hide Step, WellTimed;
    if k < |envs| {
      var rest := envs[..|envs| - 1];
      assert envs[..|envs|] == envs;
      forall j | k <= j <= |rest|
        ensures rest[..j] == envs[..j]
      {
      }
      assert rest[..|rest|] == rest;
      TransitionEnds(timing, start, rest, k, p);
      Timely(timing, Run(timing, start, rest).s, Last(envs));
      forall j | k <= j < |envs|
        ensures envs[j].from < p.started + timing.stop
      {
        if j < |rest| { assert rest[j] == envs[j]; }
      }
    }
  }

  /** A stop, once begun, ends the loop: no round beginning at or after its deadline is survived. */
  lemma {:induction false} StopEnds(timing: Timing, start: Instant, envs: seq<Env>, k: nat, began: Instant)
    requires timing.stop > 0 && timing.transition > 0 && forall j :: 0 <= j < |envs| ==> WellTimed(envs[j])
    requires k <= |envs| && Run(timing, start, envs[..k]).Going? && Run(timing, start, envs[..k]).s.stopping == Some(began)
    requires Run(timing, start, envs).Going?
    ensures Run(timing, start, envs).s.stopping == Some(began)
    ensures forall j :: k <= j < |envs| ==> envs[j].from < began + timing.stop
    decreases |envs|
  {
    hide Step, WellTimed;
    if k == |envs| {
      assert envs[..k] == envs;
    } else {
      var rest := envs[..|envs| - 1];
      assert rest[..k] == envs[..k];
      StopEnds(timing, start, rest, k, began);
      Timely(timing, Run(timing, start, rest).s, Last(envs));
      forall j | k <= j < |envs|
        ensures envs[j].from < began + timing.stop
      {
        if j < |rest| { assert rest[j] == envs[j]; }
      }
    }
  }

  /** A service is confirmed or being stopped after its startup deadline. */
  lemma {:induction false} StartupEnds(timing: Timing, start: Instant, envs: seq<Env>)
    requires timing.stop > 0 && timing.transition > 0 && forall j :: 0 <= j < |envs| ==> WellTimed(envs[j])
    requires Run(timing, start, envs).Going?
    ensures var s := Run(timing, start, envs).s;
            && s.started == start
            && (!s.running && s.stopping.None? ==>
                  forall j :: 0 <= j < |envs| ==> envs[j].from < start + timing.startup)
  {
    hide Step, WellTimed;
    if envs != [] {
      var rest := envs[..|envs| - 1];
      StartupEnds(timing, start, rest);
      Timely(timing, Run(timing, start, rest).s, Last(envs));
      var s := Run(timing, start, envs).s;
      if !s.running && s.stopping.None? {
        forall j | 0 <= j < |envs|
          ensures envs[j].from < start + timing.startup
        {
          if j < |rest| { assert rest[j] == envs[j]; }
        }
      }
    }
  }
}
