/** The bridge between the service control manager and the supervisor of one service. One iteration of its loop is
    a function of its state and of everything it observes in that iteration. */
module Bridge {
  import opened Prelude

  type Instant = int

  datatype Status = StartPending | Running | PausePending | Paused | ContinuePending | StopPending | ServiceStopped(code: nat)

  datatype Control = Stop | Shutdown | Pause | Continue | PowerEvent(kind: nat) | Rotate | OtherControl

  datatype ExitReason = Stopped | ChildExited | SpawnFailed | Suicide(exitCode: int)

  /** `Crash` ends the process without ever reporting it as stopped. */
  datatype Terminal = Report(code: nat) | Crash(code: nat)

  datatype BridgeExit = BridgeExit(terminal: Terminal, forceExit: bool)

  const STARTUP_FAILURE: nat := 3
  const SUPERVISOR_ERROR: nat := 2
  const SUICIDE_FALLBACK: nat := 1

  function ServiceExitCodeFor(reason: ExitReason): nat {
    match reason
    case Stopped => 0
    case ChildExited => 0
    case SpawnFailed => SUPERVISOR_ERROR
    case Suicide(code) => if code > 0 then code else SUICIDE_FALLBACK
  }

  /** `None` is a supervisor that failed. */
  function TerminalFor(reason: Option<ExitReason>, explicitStop: bool): Terminal {
    if explicitStop then Report(0)
    else
      match reason
      case None => Report(SUPERVISOR_ERROR)
      case Some(r) => if r.Suicide? then Crash(ServiceExitCodeFor(r)) else Report(ServiceExitCodeFor(r))
  }

  // -- A pause or continue transition ---------------------------------------------------------

  datatype Outcome = Applied | Cancelled | Rejected | Degraded

  datatype Phase = Queued | Executing | Finished(outcome: Outcome)

  datatype Access = CancelIt | BeginIt | CompleteIt(outcome: Outcome)

  function After(phase: Phase, access: Access): Phase {
    match access
    case CancelIt => if phase == Queued then Finished(Cancelled) else phase
    case BeginIt => if phase == Queued then Executing else phase
    case CompleteIt(o) => if phase == Executing then Finished(o) else phase
  }

  function AfterAll(phase: Phase, accesses: seq<Access>): Phase {
    if accesses == [] then phase else After(AfterAll(phase, accesses[..|accesses| - 1]), Last(accesses))
  }

  /** A definite outcome is final: in particular a transition cancelled before it was begun is never begun. */
  lemma {:induction false} DefiniteStays(phase: Phase, accesses: seq<Access>, k: nat)
    requires k <= |accesses| && AfterAll(phase, accesses[..k]).Finished?
    ensures AfterAll(phase, accesses) == AfterAll(phase, accesses[..k])
    decreases |accesses|
  {
    if k < |accesses| {
      assert accesses[..|accesses| - 1][..k] == accesses[..k];
      DefiniteStays(phase, accesses[..|accesses| - 1], k);
    } else {
      assert accesses[..k] == accesses;
    }
  }

  predicate Untouched(accesses: seq<Access>) { forall i :: 0 <= i < |accesses| ==> accesses[i].CompleteIt? }

  predicate Uncompleted(accesses: seq<Access>) { forall i :: 0 <= i < |accesses| ==> !accesses[i].CompleteIt? }

  /** Whoever comes first decides: a transition cancelled first is never carried out, and one begun first is carried
      out until it is completed, with the outcome of that completion. */
  lemma FirstDecides(before: seq<Access>, after: seq<Access>, later: seq<Access>, o: Outcome)
    requires Untouched(before)
    ensures AfterAll(Queued, before) == Queued
    ensures AfterAll(Queued, before + [CancelIt] + after) == Finished(Cancelled)
    ensures Uncompleted(after) ==> AfterAll(Queued, before + [BeginIt] + after) == Executing
    ensures Uncompleted(after) ==> AfterAll(Queued, before + [BeginIt] + after + [CompleteIt(o)] + later) == Finished(o)
  {
    NothingDone(Queued, before);
    AccessOne(Queued, before, CancelIt);
    AccessOne(Queued, before, BeginIt);
    AccessMore(Queued, before + [CancelIt], after);
    NothingDone(Finished(Cancelled), after);
    AccessMore(Queued, before + [BeginIt], after);
    if Uncompleted(after) {
      NothingDone(Executing, after);
      var begun := before + [BeginIt] + after;
      AccessOne(Queued, begun, CompleteIt(o));
      AccessMore(Queued, begun + [CompleteIt(o)], later);
      NothingDone(Finished(o), later);
    }
  }

  lemma AccessOne(phase: Phase, a: seq<Access>, b: Access)
    ensures AfterAll(phase, a + [b]) == After(AfterAll(phase, a), b)
  {
    assert (a + [b])[..|a|] == a;
  }

  lemma {:induction false} AccessMore(phase: Phase, a: seq<Access>, b: seq<Access>)
    ensures AfterAll(phase, a + b) == AfterAll(AfterAll(phase, a), b)
  {
    if b == [] {
      assert a + b == a;
    } else {
      assert (a + b)[..|a + b| - 1] == a + b[..|b| - 1];
      AccessMore(phase, a, b[..|b| - 1]);
    }
  }

  lemma {:induction false} NothingDone(phase: Phase, accesses: seq<Access>)
    requires phase.Finished? || (phase.Queued? && Untouched(accesses)) || (phase.Executing? && Uncompleted(accesses))
    ensures AfterAll(phase, accesses) == phase
  {
    if accesses != [] { NothingDone(phase, accesses[..|accesses| - 1]); }
  }

  /** Shared between the bridge, which may cancel it, and the supervisor, which executes it; each access is made
      under the transition's own lock. */
  class Transition {
    var phase: Phase
    var cancelled: bool

    constructor ()
      ensures phase == Queued && !cancelled
    {
      phase, cancelled := Queued, false;
    }

    method Cancel() returns (outcome: Option<Outcome>)
      modifies this
      ensures phase == After(old(phase), CancelIt) && cancelled
      ensures outcome == OutcomeOf(phase)
    {
      cancelled := true;
      if phase == Queued { phase := Finished(Cancelled); }
      outcome := OutcomeOf(phase);
    }

    /** The supervisor takes it up; only if `refused` is `None` may it carry the operation out. */
    method Begin() returns (refused: Option<Outcome>)
      modifies this
      ensures phase == After(old(phase), BeginIt) && cancelled == old(cancelled)
      ensures refused.None? <==> old(phase) == Queued
      ensures old(phase).Finished? ==> refused == Some(old(phase).outcome)
    {
      match phase {
        case Queued =>
          phase := Executing;
          refused := None;
        case Finished(o) => refused := Some(o);
        case Executing => refused := Some(Degraded);
      }
    }

    /** The operation is over, or its thread has gone: then it counts as degraded. */
    method Complete(outcome: Option<Outcome>)
      requires phase == Executing
      modifies this
      ensures phase == After(old(phase), CompleteIt(if outcome.Some? then outcome.value else Degraded))
      ensures cancelled == old(cancelled)
    {
      phase := Finished(if outcome.Some? then outcome.value else Degraded);
    }
  }

  function OutcomeOf(phase: Phase): Option<Outcome> { if phase.Finished? then Some(phase.outcome) else None }

  // -- State and observations -------------------------------------------------------------------

  /** The program sets these to 250, 2,000, 60,000, 15,000 and 120,000 milliseconds. */
  datatype Timing = Timing(poll: nat, checkpoint: nat, startup: nat, transition: nat, stop: nat)

  const CONTROL_BATCH: nat := 32

  datatype Pending = Pending(pause: bool, started: Instant)

  /** What the bridge does to the outside world. `Dropped` is a transition cancelled and no longer waited for. */
  datatype Event =
    | Reported(status: Status)
    | StopSent
    | GateReleased(explicitStop: bool)
    | Requested(pause: bool)
    | CancelAsked
    | Dropped
    | Observed(outcome: Outcome, pause: bool)
    | Forwarded(control: Control)

  datatype State = State(
    started: Instant, checkpoint: Instant, running: bool, paused: bool, stopping: Option<Instant>, explicitStop: bool,
    failureCode: Option<nat>, pending: Option<Pending>, deferred: Option<bool>, firstControl: Option<Control>,
    terminalClaimed: bool, log: seq<Event>)

  /** The places where an iteration looks at the clock. */
  datatype Point =
    | GateStop | GateCheck | ExplicitStop | ExplicitCheck
    | RunningCheck | StartupTest | StartupStop | StartupCheck
    | TransitionTest | DegradedStop | SettledCheck | HardTest | HardStop | RequestStart | RequestCheck
    | StopTest | CheckpointTest | CheckpointCheck

  datatype StartupStatus = Live | Quiesced

  datatype Received = Got(control: Control) | Timeout | Disconnected

  /** Everything one iteration gets to see: what the control channel yields, the answers of the stop decision each
      time it is asked, the supervisor's gate, thread and startup channel, the transition's phase, the clock. */
  datatype Env = Env(
    controls: seq<Control>, disconnected: bool, stopSeen: bool,
    gateReady: bool, claim: bool,
    finished: Option<Option<ExitReason>>, stopAtExit: bool,
    startup: Option<StartupStatus>, phase: Phase,
    stopAtDeadline: bool, received: Received,
    from: Instant, to: Instant, at: Point -> Instant)

  /** All readings of an iteration lie within it. */
  ghost predicate WellTimed(env: Env) { forall p :: env.from <= env.at(p) <= env.to }

  function Elapsed(now: Instant, since: Instant): nat { Max(0, now - since) }

  function Start(now: Instant): State {
    State(now, now, false, false, None, false, None, None, None, None, false, [Reported(StartPending)])
  }

  // -- The parts of one iteration -------------------------------------------------------------------

  predicate IsStop(c: Control) { c == Stop || c == Shutdown }

  function Batch(s: State, env: Env): seq<Control> {
    (if s.firstControl.Some? then [s.firstControl.value] else []) +
    (if |env.controls| > CONTROL_BATCH then env.controls[..CONTROL_BATCH] else env.controls)
  }

  function Collect(s: State, env: Env): State {
    s.(firstControl := None,
       explicitStop := s.explicitStop || (env.disconnected && |env.controls| < CONTROL_BATCH) || env.stopSeen
                       || exists c :: c in Batch(s, env) && IsStop(c))
  }

  function DropPending(s: State): State {
    s.(pending := None, deferred := None, log := s.log + if s.pending.Some? then [Dropped] else [])
  }

  function BeginStop(s: State, now: Instant, checked: Instant): State {
    s.(stopping := Some(now), checkpoint := checked, log := s.log + [Reported(StopPending)])
  }

  function Gate(s: State, env: Env): State {
    if s.terminalClaimed || !env.gateReady then s
    else
      var explicit := s.explicitStop || env.claim;
      var sent := s.log + if explicit then [StopSent] else [];
      var t := DropPending(s.(explicitStop := explicit, terminalClaimed := true, log := sent + [GateReleased(explicit)]));
      if t.stopping.None? then BeginStop(t, env.at(GateStop), env.at(GateCheck)) else t
  }

  function Explicit(s: State, env: Env): State {
    if !s.explicitStop || s.stopping.Some? then s
    else BeginStop(DropPending(s.(log := s.log + [StopSent])), env.at(ExplicitStop), env.at(ExplicitCheck))
  }

  function ExitOnFinish(s: State, env: Env): Option<BridgeExit> {
    if env.finished.None? then None
    else
      var terminal :=
        if s.explicitStop || env.stopAtExit then Report(0)
        else if s.failureCode.Some? then Report(s.failureCode.value)
        else TerminalFor(env.finished.value, false);
      Some(BridgeExit(terminal, env.finished.value.None?))
  }

  function Startup(timing: Timing, s: State, env: Env): State {
    if s.running || s.stopping.Some? then s
    else if env.startup.Some? then
      s.(running := true, checkpoint := env.at(RunningCheck), log := s.log + [Reported(Running)])
    else if Elapsed(env.at(StartupTest), s.started) >= timing.startup then
      BeginStop(s.(failureCode := Some(STARTUP_FAILURE), log := s.log + [StopSent]), env.at(StartupStop), env.at(StartupCheck))
    else s
  }

  function DispatchOne(s: State, c: Control): State {
    match c
    case Pause => if s.running then s.(deferred := Some(true)) else s
    case Continue => if s.running then s.(deferred := Some(false)) else s
    case PowerEvent(_) => s.(log := s.log + [Forwarded(c)])
    case Rotate => s.(log := s.log + [Forwarded(c)])
    case _ => s
  }

  function Dispatch(s: State, controls: seq<Control>): State {
    if controls == [] then s else DispatchOne(Dispatch(s, controls[..|controls| - 1]), Last(controls))
  }

  /** What the bridge finds when it looks at the transition, having asked for its cancellation or not. */
  function Look(phase: Phase, cancelling: bool): Option<Outcome> {
    if cancelling && phase == Queued then Some(Cancelled) else OutcomeOf(phase)
  }

  function Conclude(s: State, outcome: Outcome, env: Env): State
    requires s.pending.Some?
  {
    var t := s.(pending := None, checkpoint := env.at(SettledCheck), log := s.log + [Observed(outcome, s.pending.value.pause)]);
    match outcome
    case Applied => ReportSettled(t.(paused := s.pending.value.pause))
    case Cancelled => ReportSettled(t)
    case Rejected => ReportSettled(t)
    case Degraded => BeginStop(t.(failureCode := Some(SUPERVISOR_ERROR)), env.at(DegradedStop), env.at(SettledCheck))
  }

  function ReportSettled(s: State): State { s.(log := s.log + [Reported(if s.paused then Paused else Running)]) }

  function Settle(timing: Timing, s: State, env: Env): State {
    if s.pending.None? then s
    else
      var p := s.pending.value;
      var cancelling := Elapsed(env.at(TransitionTest), p.started) >= timing.transition;
      var t := s.(log := s.log + if cancelling then [CancelAsked] else []);
      match Look(env.phase, cancelling)
      case Some(outcome) => Conclude(t, outcome, env)
      case None =>
        if Elapsed(env.at(HardTest), p.started) >= timing.stop then
          BeginStop(t.(failureCode := Some(SUPERVISOR_ERROR), log := t.log + [StopSent]), env.at(HardStop), t.checkpoint)
        else t
  }

  function Request(s: State, env: Env): State {
    if s.pending.Some? || s.stopping.Some? || s.deferred.None? then s
    else
      var pause := s.deferred.value;
      s.(deferred := None, pending := Some(Pending(pause, env.at(RequestStart))), checkpoint := env.at(RequestCheck),
         log := s.log + [Requested(pause), Reported(if pause then PausePending else ContinuePending)])
  }

  function Controls(timing: Timing, s: State, controls: seq<Control>, env: Env): State {
    if s.stopping.Some? then s else Request(Settle(timing, Dispatch(s, controls), env), env)
  }

  function ExitOnDeadline(timing: Timing, s: State, env: Env): Option<BridgeExit> {
    if s.stopping.Some? && Elapsed(env.at(StopTest), s.stopping.value) >= timing.stop then
      Some(BridgeExit(Report(if s.explicitStop || env.stopAtDeadline then 0
                             else if s.failureCode.Some? then s.failureCode.value else SUPERVISOR_ERROR), true))
    else None
  }

  /** What a pending status is repeated as; settled ones are not repeated. */
  function Repeated(s: State): Option<Status> {
    if s.stopping.Some? then Some(StopPending)
    else if s.pending.Some? then Some(if s.pending.value.pause then PausePending else ContinuePending)
    else if !s.running then Some(StartPending)
    else None
  }

  function Checkpoint(timing: Timing, s: State, env: Env): State {
    if Elapsed(env.at(CheckpointTest), s.checkpoint) < timing.checkpoint then s
    else
      var status := Repeated(s);
      s.(checkpoint := env.at(CheckpointCheck), log := s.log + if status.Some? then [Reported(status.value)] else [])
  }

  function Receive(s: State, env: Env): State {
    match env.received
    case Got(c) => s.(firstControl := Some(c))
    case Timeout => s
    case Disconnected => s.(explicitStop := true)
  }

  // -- One iteration, and runs of them -----------------------------------------------------------------

  datatype Loop = Going(s: State) | Exited(s: State, exit: BridgeExit)

  function Step(timing: Timing, s: State, env: Env): Loop {
    var stopped := Explicit(Gate(Collect(s, env), env), env);
    var finish := ExitOnFinish(stopped, env);
    if finish.Some? then Exited(stopped, finish.value)
    else
      var t := Controls(timing, Startup(timing, stopped, env), Batch(s, env), env);
      var late := ExitOnDeadline(timing, t, env);
      if late.Some? then Exited(t, late.value) else Going(Receive(Checkpoint(timing, t, env), env))
  }

  function Run(timing: Timing, start: Instant, envs: seq<Env>): Loop {
    if envs == [] then Going(Start(start))
    else
      match Run(timing, start, envs[..|envs| - 1])
      case Going(s) => Step(timing, s, Last(envs))
      case Exited(s, e) => Exited(s, e)
  }
}
