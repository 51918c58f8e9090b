/** What the bridge owes its environment in every iteration: timely reports and every control passed on. */
module BridgeProgress {
  import opened Prelude
  import opened Bridge
  import opened BridgeLaws

  predicate HasReport(log: seq<Event>, from: nat) { exists i :: from <= i < |log| && log[i].Reported? }

  /** The controls passed on to the supervisor, in order. */
  function Forwards(log: seq<Event>): seq<Control> {
    if log == [] then []
    else Forwards(log[..|log| - 1]) + if Last(log).Forwarded? then [Last(log).control] else []
  }

  /** Those of `controls` the supervisor is to get. */
  function ToForward(controls: seq<Control>): seq<Control> {
    if controls == [] then []
    else
      ToForward(controls[..|controls| - 1]) + if Last(controls).PowerEvent? || Last(controls).Rotate? then [Last(controls)] else []
  }

  /** A part of the iteration that passes no control on, and restarts the checkpoint clock only with a report. */
  predicate Keeps(s: State, t: State) {
    && s.log <= t.log
    && (forall i :: |s.log| <= i < |t.log| ==> !t.log[i].Forwarded?)
    && (t.checkpoint != s.checkpoint ==> HasReport(t.log, |s.log|))
  }

  lemma KeepsBoth(s: State, t: State, u: State)
    requires Keeps(s, t) && Keeps(t, u)
    ensures Keeps(s, u)
  {
    if HasReport(t.log, |s.log|) {
      var i :| |s.log| <= i < |t.log| && t.log[i].Reported?;
      assert u.log[i] == t.log[i];
    }
    forall i | |s.log| <= i < |u.log|
      ensures !u.log[i].Forwarded?
    {
      if i < |t.log| { assert u.log[i] == t.log[i]; }
    }
  }

  lemma KeepsForwards(s: State, t: State)
    requires Keeps(s, t)
    ensures Forwards(t.log) == Forwards(s.log)
  {
    SameForwards(s.log, t.log);
  }

  lemma {:induction false} SameForwards(a: seq<Event>, b: seq<Event>)
    requires a <= b && forall i :: |a| <= i < |b| ==> !b[i].Forwarded?
    ensures Forwards(b) == Forwards(a)
    decreases |b|
  {
    if |b| > |a| {
      SameForwards(a, b[..|b| - 1]);
    } else {
      assert a == b;
    }
  }

  lemma StopKeeps(s: State, env: Env)
    ensures Keeps(s, Explicit(Gate(Collect(s, env), env), env))
  {
    hide Batch, IsStop;
    var c := Collect(s, env);
    var g := Gate(c, env);
    assert Keeps(s, c);
    GateOnlyKeeps(c, env);
    ExplicitOnlyKeeps(g, env);
    KeepsBoth(s, c, g);
    KeepsBoth(s, g, Explicit(g, env));
  }

  lemma GateOnlyKeeps(s: State, env: Env)
    ensures Keeps(s, Gate(s, env))
  {
    var t := Gate(s, env);
    if t.checkpoint != s.checkpoint { assert Last(t.log) == Reported(StopPending); }
  }

  lemma ExplicitOnlyKeeps(s: State, env: Env)
    ensures Keeps(s, Explicit(s, env))
  {
    var t := Explicit(s, env);
    if t.checkpoint != s.checkpoint { assert Last(t.log) == Reported(StopPending); }
  }

  lemma StartupOnlyKeeps(timing: Timing, s: State, env: Env)
    ensures Keeps(s, Startup(timing, s, env))
  {
    var t := Startup(timing, s, env);
    if t.checkpoint != s.checkpoint { assert Last(t.log).Reported?; }
  }

  lemma ConcludeOnlyKeeps(s: State, outcome: Outcome, env: Env)
    requires s.pending.Some?
    ensures Keeps(s, Conclude(s, outcome, env))
  {
    var t := Conclude(s, outcome, env);
    assert Last(t.log).Reported? && |t.log| == |s.log| + 2;
  }

  lemma SettleOnlyKeeps(timing: Timing, s: State, env: Env)
    ensures Keeps(s, Settle(timing, s, env))
  {
    if s.pending.Some? {
      var cancelling := Elapsed(env.at(TransitionTest), s.pending.value.started) >= timing.transition;
      var t := s.(log := s.log + if cancelling then [CancelAsked] else []);
      assert Keeps(s, t);
      hide Conclude;
      match Look(env.phase, cancelling) {
        case Some(outcome) => ConcludeOnlyKeeps(t, outcome, env);
        case None => assert Keeps(t, Settle(timing, s, env));
      }
      KeepsBoth(s, t, Settle(timing, s, env));
    }
  }

  lemma RequestOnlyKeeps(s: State, env: Env)
    ensures Keeps(s, Request(s, env))
  {
    var t := Request(s, env);
    if t.checkpoint != s.checkpoint { assert Last(t.log).Reported?; }
  }

  lemma {:induction false} DispatchForwards(s: State, controls: seq<Control>)
    ensures var t := Dispatch(s, controls);
            && s.log <= t.log && t.checkpoint == s.checkpoint && t.stopping == s.stopping
            && Forwards(t.log) == Forwards(s.log) + ToForward(controls)
  {
    if controls != [] {
      var rest, c := controls[..|controls| - 1], Last(controls);
      DispatchForwards(s, rest);
      var t := Dispatch(s, rest);
      if c.PowerEvent? || c.Rotate? {
        assert (t.log + [Forwarded(c)])[..|t.log|] == t.log;
      }
    }
  }

  /** The state before the checkpoint, and the state the controls are dispatched in. */
  ghost function Confirmed(timing: Timing, s: State, env: Env): State {
    Startup(timing, Explicit(Gate(Collect(s, env), env), env), env)
  }

  lemma ControlsForward(timing: Timing, s: State, env: Env)
    ensures var (up, t) := (Confirmed(timing, s, env), Controls(timing, Confirmed(timing, s, env), Batch(s, env), env));
            && s.log <= t.log && (t.checkpoint != s.checkpoint ==> HasReport(t.log, |s.log|))
            && Forwards(t.log) == Forwards(s.log) + if up.stopping.None? then ToForward(Batch(s, env)) else []
  {
    hide Collect, Gate, Explicit, Startup, Dispatch, Settle, Request, Batch, Forwards, ToForward;
    var stopped := Explicit(Gate(Collect(s, env), env), env);
    var up := Confirmed(timing, s, env);
    StopKeeps(s, env);
    StartupOnlyKeeps(timing, stopped, env);
    KeepsBoth(s, stopped, up);
    KeepsForwards(s, up);
    if up.stopping.None? {
      var d := Dispatch(up, Batch(s, env));
      var r := Request(Settle(timing, d, env), env);
      DispatchForwards(up, Batch(s, env));
      SettleOnlyKeeps(timing, d, env);
      RequestOnlyKeeps(Settle(timing, d, env), env);
      KeepsBoth(d, Settle(timing, d, env), r);
      KeepsForwards(d, r);
      ReportsLater(s, up, d, r);
    } else {
      assert Forwards(s.log) + [] == Forwards(s.log);
    }
  }

  lemma ReportsLater(s: State, up: State, d: State, r: State)
    requires Keeps(s, up) && up.log <= d.log && d.checkpoint == up.checkpoint && Keeps(d, r)
    ensures s.log <= r.log && (r.checkpoint != s.checkpoint ==> HasReport(r.log, |s.log|))
  {
    if r.checkpoint != d.checkpoint {
      var i :| |d.log| <= i < |r.log| && r.log[i].Reported?;
    } else if up.checkpoint != s.checkpoint {
      var i :| |s.log| <= i < |up.log| && up.log[i].Reported?;
      assert r.log[i] == up.log[i];
    }
  }

  /** Every power event and rotation request taken in before stopping begins is passed on once and in order, and
      nothing else ever is. */
  lemma ControlsReachSupervisor(timing: Timing, s: State, env: Env)
    requires Step(timing, s, env).Going?
    ensures var t := Step(timing, s, env).s;
            Forwards(t.log) == Forwards(s.log) + if Confirmed(timing, s, env).stopping.None? then ToForward(Batch(s, env)) else []
  {
    hide Collect, Gate, Explicit, Startup, Controls, Batch, Forwards, ToForward, ExitOnFinish, ExitOnDeadline;
    ControlsForward(timing, s, env);
    var t := Controls(timing, Confirmed(timing, s, env), Batch(s, env), env);
    CheckpointOnlyKeeps(timing, t, env);
  }

  lemma CheckpointOnlyKeeps(timing: Timing, s: State, env: Env)
    ensures var t := Receive(Checkpoint(timing, s, env), env);
            s.log <= t.log && Keeps(s.(checkpoint := t.checkpoint), t) && Forwards(t.log) == Forwards(s.log)
  {
    var t := Receive(Checkpoint(timing, s, env), env);
    KeepsForwards(s.(checkpoint := t.checkpoint), t);
  }

  /** A pending status is never left unreported for longer than the checkpoint interval: an iteration that begins
      that long after the last report and ends with something pending has reported that it is. */
  lemma CheckpointsInTime(timing: Timing, s: State, env: Env)
    requires WellTimed(env) && Inv(s) && Step(timing, s, env).Going?
    requires env.from >= s.checkpoint + timing.checkpoint
    ensures var t := Step(timing, s, env).s;
            && LastStatus(t.log) == Some(StatusOf(t))
            && (StatusOf(t) !in {Running, Paused} ==> HasReport(t.log, |s.log|))
  {
    StepKeeps(timing, s, env);
    InvSays(Step(timing, s, env).s);
    hide Collect, Gate, Explicit, Startup, Controls, Checkpoint, Receive, Batch, ExitOnFinish, ExitOnDeadline, LastStatus,
         Inv, StatusOf, WellTimed, HasReport, Forwards;
    ControlsForward(timing, s, env);
    CheckpointReports(timing, Controls(timing, Confirmed(timing, s, env), Batch(s, env), env), env, s.checkpoint, |s.log|);
  }

  lemma CheckpointReports(timing: Timing, s: State, env: Env, last: Instant, from: nat)
    requires WellTimed(env) && env.from >= last + timing.checkpoint && from <= |s.log|
    requires s.checkpoint != last ==> HasReport(s.log, from)
    ensures var t := Receive(Checkpoint(timing, s, env), env);
            StatusOf(t) !in {Running, Paused} ==> HasReport(t.log, from)
  {
    var t := Receive(Checkpoint(timing, s, env), env);
    assert env.from <= env.at(CheckpointTest);
    assert Repeated(s).Some? <==> StatusOf(t) !in {Running, Paused};
    if HasReport(s.log, from) {
      var i :| from <= i < |s.log| && s.log[i].Reported?;
      assert t.log[i] == s.log[i];
    } else if Repeated(s).Some? {
      assert t.log[|s.log|] == Reported(Repeated(s).value);
    }
  }

  lemma InvSays(s: State)
    requires Inv(s)
    ensures LastStatus(s.log) == Some(StatusOf(s))
  {
  }

  // -- Pause and continue -----------------------------------------------------------------------

  /** What the last pause or continue control among `controls` asks for. */
  function Wish(controls: seq<Control>): Option<bool> {
    if controls == [] then None
    else if Last(controls) == Pause then Some(true)
    else if Last(controls) == Continue then Some(false)
    else Wish(controls[..|controls| - 1])
  }

  lemma {:induction false} DispatchWish(s: State, controls: seq<Control>)
    ensures var t := Dispatch(s, controls);
            && t.running == s.running && t.pending == s.pending && t.stopping == s.stopping
            && t.deferred == if s.running && Wish(controls).Some? then Wish(controls) else s.deferred
  {
    if controls != [] { DispatchWish(s, controls[..|controls| - 1]); }
  }

  /** What is still to be asked for when the controls of an iteration have been looked at. */
  ghost function Wanted(timing: Timing, s: State, env: Env): Option<bool> {
    if Confirmed(timing, s, env).running && Wish(Batch(s, env)).Some? then Wish(Batch(s, env)) else s.deferred
  }

  /** A wish is not lost before stopping begins: in the same iteration it is asked for, as what it is, or it waits
      for the transition that is pending. Without a wish nothing is asked for. */
  lemma WishIsServed(timing: Timing, s: State, env: Env)
    requires Step(timing, s, env).Going? && Step(timing, s, env).s.stopping.None?
    ensures var (t, wanted) := (Step(timing, s, env).s, Wanted(timing, s, env));
            && (wanted.Some? ==>
                  if t.deferred.Some? then t.deferred == wanted && t.pending.Some? && t.pending == s.pending
                  else t.pending.Some? && t.pending.value.pause == wanted.value)
            && (wanted.None? ==> t.deferred.None? && (t.pending.Some? ==> t.pending == s.pending))
  {
    var stopped := Explicit(Gate(Collect(s, env), env), env);
    DeferredKept(timing, s, env);
    hide Collect, Gate, Explicit, Startup, Dispatch, Settle, Request, Batch, Wish, ExitOnFinish, ExitOnDeadline;
    var up := Confirmed(timing, s, env);
    DispatchWish(up, Batch(s, env));
    AskOrWait(timing, Dispatch(up, Batch(s, env)), env);
    EndFrame(timing, Controls(timing, up, Batch(s, env), env), env);
  }

  lemma DeferredKept(timing: Timing, s: State, env: Env)
    ensures var up := Confirmed(timing, s, env);
            up.stopping.None? ==> up.deferred == s.deferred && up.pending == s.pending
  {
    hide Batch, IsStop;
  }

  lemma AskOrWait(timing: Timing, s: State, env: Env)
    requires s.stopping.None?
    ensures var t := Request(Settle(timing, s, env), env);
            && (t.stopping.None? && s.deferred.Some? ==>
                  if t.deferred.Some? then t.deferred == s.deferred && t.pending.Some? && t.pending == s.pending
                  else t.pending.Some? && t.pending.value.pause == s.deferred.value)
            && (t.stopping.None? && s.deferred.None? ==> t.deferred.None? && (t.pending.Some? ==> t.pending == s.pending))
  {
    SettleFrame(timing, s, env);
    hide Settle;
  }

  lemma SettleFrame(timing: Timing, s: State, env: Env)
    requires s.stopping.None?
    ensures var t := Settle(timing, s, env); t.deferred == s.deferred && (t.pending.Some? ==> t.pending == s.pending)
  {
    if s.pending.Some? {
      var cancelling := Elapsed(env.at(TransitionTest), s.pending.value.started) >= timing.transition;
      var t := s.(log := s.log + if cancelling then [CancelAsked] else []);
      match Look(env.phase, cancelling) {
        case Some(outcome) =>
          ConcludeFrame(t, outcome, env);
          hide Conclude;
        case None =>
      }
    }
  }

  lemma ConcludeFrame(s: State, outcome: Outcome, env: Env)
    requires s.pending.Some?
    ensures var t := Conclude(s, outcome, env); t.deferred == s.deferred && t.pending.None?
  {
  }

  lemma EndFrame(timing: Timing, s: State, env: Env)
    ensures var t := Receive(Checkpoint(timing, s, env), env);
            t.stopping == s.stopping && t.deferred == s.deferred && t.pending == s.pending
  {
  }
}
