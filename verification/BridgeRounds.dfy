/** One round of the bridge, told from what it is given: when it ends, what begins a stop, what confirms a startup or
    concludes a transition, and what is done to the outside world. */
module BridgeRounds {
  import opened Prelude
  import opened Bridge
  import opened BridgeLaws

  // -- What a round is given ----------------------------------------------------------------------------

  predicate TakesIn(s: State, env: Env, c: Control) {
    || s.firstControl == Some(c)
    || exists i :: 0 <= i < |env.controls| && i < 32 && env.controls[i] == c
  }

  /** The supervisor is at its terminal gate and the gate is still closed. */
  predicate Opens(s: State, env: Env) { !s.terminalClaimed && env.gateReady }

  /** A stop is known before the supervisor is looked at. */
  predicate Knows(s: State, env: Env) {
    || s.explicitStop || env.stopSeen || (env.disconnected && |env.controls| < 32)
    || TakesIn(s, env, Stop) || TakesIn(s, env, Shutdown) || (Opens(s, env) && env.claim)
  }

  /** There is nothing left to do but stop. */
  predicate Interrupted(s: State, env: Env) { s.stopping.Some? || Opens(s, env) || Knows(s, env) }

  /** `after` milliseconds have passed since then; none always have. */
  predicate Due(now: Instant, since: Instant, after: nat) { now >= since + after || after == 0 }

  lemma ElapsedDue(now: Instant, since: Instant, after: nat)
    ensures Elapsed(now, since) >= after <==> Due(now, since, after)
  {
  }

  predicate StartupFails(timing: Timing, s: State, env: Env) {
    && !Interrupted(s, env) && !s.running && env.startup.None?
    && Due(env.at(StartupTest), s.started, timing.startup)
  }

  /** What is found out about the pending transition: one that nobody has begun is cancelled when its time is up. */
  function Seen(timing: Timing, p: Pending, env: Env): Option<Outcome> {
    match env.phase
    case Finished(o) => Some(o)
    case Executing => None
    case Queued => if Due(env.at(TransitionTest), p.started, timing.transition) then Some(Cancelled) else None
  }

  predicate Degrades(timing: Timing, s: State, env: Env) {
    !Interrupted(s, env) && s.pending.Some? && Seen(timing, s.pending.value, env) == Some(Degraded)
  }

  predicate Overruns(timing: Timing, s: State, env: Env) {
    && !Interrupted(s, env) && s.pending.Some? && Seen(timing, s.pending.value, env).None?
    && Due(env.at(HardTest), s.pending.value.started, timing.stop)
  }

  /** `e` is among what is done between `s` and `t`. */
  predicate Adds(s: State, t: State, e: Event) { exists i :: |s.log| <= i < |t.log| && t.log[i] == e }

  // -- The parts ------------------------------------------------------------------------------------------

  /** The controls of a round: the one received while waiting, then what is polled, in order and at most a batch. */
  lemma BatchInOrder(s: State, env: Env)
    ensures var first := if s.firstControl.Some? then 1 else 0;
            && |Batch(s, env)| == first + Min(|env.controls|, 32)
            && (s.firstControl.Some? ==> Batch(s, env)[0] == s.firstControl.value)
            && forall i :: first <= i < |Batch(s, env)| ==> Batch(s, env)[i] == env.controls[i - first]
  {
  }

  lemma CollectKnows(s: State, env: Env)
    ensures Collect(s, env) == s.(firstControl := None, explicitStop := Collect(s, env).explicitStop)
    ensures Collect(s, env).explicitStop || (Opens(s, env) && env.claim) <==> Knows(s, env)
    ensures s.explicitStop ==> Knows(s, env)
  {
    BatchInOrder(s, env);
    var batch := Batch(s, env);
    var first := if s.firstControl.Some? then 1 else 0;
    hide Batch;
    if c :| c in batch && IsStop(c) {
      var i :| 0 <= i < |batch| && batch[i] == c;
      assert i < first || env.controls[i - first] == c;
      assert TakesIn(s, env, c);
    }
    if c :| TakesIn(s, env, c) && IsStop(c) {
      if s.firstControl == Some(c) {
        assert batch[0] == c;
      } else {
        var i :| 0 <= i < |env.controls| && i < 32 && env.controls[i] == c;
        assert batch[first + i] == c;
      }
    }
  }

  lemma StopPart(s: State, env: Env)
    ensures var u := Explicit(Gate(Collect(s, env), env), env);
            && u.explicitStop == Knows(s, env) && u.terminalClaimed == (s.terminalClaimed || env.gateReady)
            && u.firstControl.None? && u.failureCode == s.failureCode
            && u.started == s.started && u.running == s.running && u.paused == s.paused
            && u.stopping == (if s.stopping.Some? then s.stopping else if Opens(s, env) then Some(env.at(GateStop))
                              else if Knows(s, env) then Some(env.at(ExplicitStop)) else None)
            && (!Interrupted(s, env) ==> u == s.(firstControl := None))
            && s.log <= u.log
  {
    CollectKnows(s, env);
    hide Collect, Knows;
  }

  /** What is done for a stop, in order: it is sent before the gate is released, and reported last. */
  function StopSteps(s: State, env: Env): seq<Event> {
    if Opens(s, env) then
      (if Knows(s, env) then [StopSent] else []) + [GateReleased(Knows(s, env))]
      + (if s.pending.Some? then [Dropped] else []) + (if s.stopping.None? then [Reported(StopPending)] else [])
    else if Knows(s, env) && s.stopping.None? then
      [StopSent] + (if s.pending.Some? then [Dropped] else []) + [Reported(StopPending)]
    else []
  }

  lemma StopLog(s: State, env: Env)
    ensures Explicit(Gate(Collect(s, env), env), env).log == s.log + StopSteps(s, env)
  {
    CollectKnows(s, env);
    hide Collect, Knows;
    var c := Collect(s, env);
    var g := Gate(c, env);
    if Opens(s, env) {
      assert g.log == s.log + StopSteps(s, env);
    }
  }

  lemma StopStepsAre(s: State, env: Env, e: Event)
    ensures e in StopSteps(s, env) <==>
              || (Opens(s, env) && e == GateReleased(Knows(s, env)))
              || (e == StopSent && Knows(s, env) && (Opens(s, env) || s.stopping.None?))
              || (e == Dropped && s.pending.Some? && (Opens(s, env) || (Knows(s, env) && s.stopping.None?)))
              || (e == Reported(StopPending) && s.stopping.None? && (Opens(s, env) || Knows(s, env)))
  {
    hide Knows, Opens;
  }

  function StartSteps(timing: Timing, s: State, env: Env): seq<Event> {
    if s.running then []
    else if env.startup.Some? then [Reported(Running)]
    else if StartupFails(timing, s, env) then [StopSent, Reported(StopPending)]
    else []
  }

  /** The status reported for what was found out: the state restored or reached, or stopping. */
  function Settled(s: State, p: Pending, outcome: Outcome): Status {
    if outcome == Degraded then StopPending
    else if (if outcome == Applied then p.pause else s.paused) then Paused
    else Running
  }

  function SettleSteps(timing: Timing, s: State, env: Env): seq<Event> {
    if s.pending.None? then []
    else
      var p := s.pending.value;
      (if Due(env.at(TransitionTest), p.started, timing.transition) then [CancelAsked] else [])
      + match Seen(timing, p, env)
        case Some(o) => [Observed(o, p.pause), Reported(Settled(s, p, o))]
        case None => if Overruns(timing, s, env) then [StopSent, Reported(StopPending)] else []
  }

  lemma ConcludePart(s: State, o: Outcome, env: Env)
    requires s.pending.Some?
    ensures var (t, p) := (Conclude(s, o, env), s.pending.value);
            && t.log == s.log + [Observed(o, p.pause), Reported(Settled(s, p, o))]
            && t == s.(pending := None, paused := t.paused, stopping := t.stopping, failureCode := t.failureCode,
                       checkpoint := t.checkpoint, log := t.log)
            && t.paused == (if o == Applied then p.pause else s.paused)
            && t.stopping == (if o == Degraded then Some(env.at(DegradedStop)) else s.stopping)
            && t.failureCode == if o == Degraded then Some(2) else s.failureCode
  {
    var p := s.pending.value;
    assert s.log + [Observed(o, p.pause)] + [Reported(Settled(s, p, o))] == s.log + [Observed(o, p.pause), Reported(Settled(s, p, o))];
  }

  /** `d` is `s` after its controls have been looked at. */
  predicate Dispatched(s: State, d: State) { d == s.(deferred := d.deferred, log := d.log, firstControl := None) }

  lemma SettlePart(timing: Timing, s: State, env: Env, d: State)
    requires !Interrupted(s, env) && s.pending.Some? && Dispatched(s, d)
    ensures var (t, p) := (Settle(timing, d, env), s.pending.value);
            && t == d.(pending := t.pending, paused := t.paused, stopping := t.stopping, failureCode := t.failureCode,
                       checkpoint := t.checkpoint, log := t.log)
            && t.paused == (if Seen(timing, p, env) == Some(Applied) then p.pause else s.paused)
            && t.pending == (if Seen(timing, p, env).Some? then None else s.pending)
            && t.stopping == (if Degrades(timing, s, env) then Some(env.at(DegradedStop))
                              else if Overruns(timing, s, env) then Some(env.at(HardStop)) else None)
            && t.failureCode == if Degrades(timing, s, env) || Overruns(timing, s, env) then Some(2) else s.failureCode
  {
    hide Knows, Opens, Conclude, Settled;
    var p := s.pending.value;
    var cancelling := Elapsed(env.at(TransitionTest), p.started) >= timing.transition;
    LookSees(timing, p, env);
    ElapsedDue(env.at(TransitionTest), p.started, timing.transition);
    ElapsedDue(env.at(HardTest), p.started, timing.stop);
    hide Elapsed, Due, Look, Seen;
    if Seen(timing, p, env).Some? {
      ConcludePart(d.(log := d.log + if cancelling then [CancelAsked] else []), Seen(timing, p, env).value, env);
    }
  }

  lemma SettleLog(timing: Timing, s: State, env: Env, d: State)
    requires !Interrupted(s, env) && s.pending.Some? && Dispatched(s, d)
    ensures Settle(timing, d, env).log == d.log + SettleSteps(timing, s, env)
  {
    hide Knows, Opens, Conclude, Settled;
    var p := s.pending.value;
    var cancelling := Elapsed(env.at(TransitionTest), p.started) >= timing.transition;
    LookSees(timing, p, env);
    ElapsedDue(env.at(TransitionTest), p.started, timing.transition);
    ElapsedDue(env.at(HardTest), p.started, timing.stop);
    hide Elapsed, Due, Look, Seen;
    var asked := d.(log := d.log + if cancelling then [CancelAsked] else []);
    if Seen(timing, p, env).Some? {
      var o := Seen(timing, p, env).value;
      ConcludePart(asked, o, env);
      SettledSame(asked, s, p, o);
      Regroup(d.log, if cancelling then [CancelAsked] else [], [Observed(o, p.pause), Reported(Settled(s, p, o))]);
    } else if Overruns(timing, s, env) {
      Regroup(d.log, if cancelling then [CancelAsked] else [], [StopSent, Reported(StopPending)]);
      Regroup(asked.log, [StopSent], [Reported(StopPending)]);
      assert [StopSent] + [Reported(StopPending)] == [StopSent, Reported(StopPending)];
    } else {
      Regroup(d.log, if cancelling then [CancelAsked] else [], []);
      assert asked.log + [] == asked.log;
    }
  }

  lemma LookSees(timing: Timing, p: Pending, env: Env)
    ensures Look(env.phase, Elapsed(env.at(TransitionTest), p.started) >= timing.transition) == Seen(timing, p, env)
  {
  }

  lemma SettledSame(a: State, b: State, p: Pending, o: Outcome)
    requires a.paused == b.paused
    ensures Settled(a, p, o) == Settled(b, p, o)
  {
  }

  lemma Regroup(a: seq<Event>, b: seq<Event>, c: seq<Event>)
    ensures a + (b + c) == a + b + c
  {
  }

  lemma StartPart(timing: Timing, s: State, env: Env)
    requires !Interrupted(s, env)
    ensures var up := Startup(timing, s.(firstControl := None), env);
            && up == s.(firstControl := None, running := up.running, stopping := up.stopping, failureCode := up.failureCode,
                        checkpoint := up.checkpoint, log := up.log)
            && up.running == (s.running || env.startup.Some?)
            && up.stopping == (if StartupFails(timing, s, env) then Some(env.at(StartupStop)) else None)
            && up.failureCode == (if StartupFails(timing, s, env) then Some(3) else s.failureCode)
            && up.log == s.log + StartSteps(timing, s, env)
  {
    hide Knows, Opens;
    assert s.log + [] == s.log;
    assert s.log + [StopSent] + [Reported(StopPending)] == s.log + [StopSent, Reported(StopPending)];
  }

  predicate AllForwarded(events: seq<Event>) { forall i :: 0 <= i < |events| ==> events[i].Forwarded? }

  lemma {:induction false} DispatchAdds(s: State, controls: seq<Control>) returns (fw: seq<Event>)
    ensures Dispatch(s, controls).log == s.log + fw && AllForwarded(fw)
  {
    if controls == [] {
      fw := [];
    } else {
      fw := DispatchAdds(s, controls[..|controls| - 1]);
      var c := Last(controls);
      if c.PowerEvent? || c.Rotate? {
        Regroup(s.log, fw, [Forwarded(c)]);
        fw := fw + [Forwarded(c)];
      }
    }
  }

  /** What may follow a request for a transition. */
  predicate Asking(events: seq<Event>) {
    events == [] || exists pause :: events == [Requested(pause), Reported(if pause then PausePending else ContinuePending)]
  }

  lemma RequestPart(s: State, env: Env) returns (rq: seq<Event>)
    ensures var t := Request(s, env);
            && t.log == s.log + rq && Asking(rq)
            && t == s.(deferred := t.deferred, pending := t.pending, checkpoint := t.checkpoint, log := t.log)
            && (rq == [] ==> t.pending == s.pending) && (rq != [] ==> s.pending.None? && s.stopping.None?)
  {
    if s.pending.Some? || s.stopping.Some? || s.deferred.None? {
      rq := [];
    } else {
      var pause := s.deferred.value;
      rq := [Requested(pause), Reported(if pause then PausePending else ContinuePending)];
    }
  }

  /** The state after the controls, before deadlines and checkpoints. */
  ghost function Middle(timing: Timing, s: State, env: Env): State {
    Controls(timing, Startup(timing, Explicit(Gate(Collect(s, env), env), env), env), Batch(s, env), env)
  }

  lemma MiddleStopped(timing: Timing, s: State, env: Env)
    requires Interrupted(s, env)
    ensures Middle(timing, s, env) == Explicit(Gate(Collect(s, env), env), env)
  {
    StopPart(s, env);
    hide Collect, Gate, Explicit, Batch;
  }

  lemma MiddleUndisturbed(timing: Timing, s: State, env: Env) returns (fw: seq<Event>, rq: seq<Event>)
    requires !Interrupted(s, env) && Shape(s)
    ensures var m := Middle(timing, s, env);
            && m.explicitStop == s.explicitStop && m.started == s.started && m.terminalClaimed == s.terminalClaimed
            && m.firstControl.None?
            && m.running == (s.running || env.startup.Some?)
            && m.paused == (if s.pending.Some? && Seen(timing, s.pending.value, env) == Some(Applied) then s.pending.value.pause
                            else s.paused)
            && m.stopping == (if StartupFails(timing, s, env) then Some(env.at(StartupStop))
                              else if Degrades(timing, s, env) then Some(env.at(DegradedStop))
                              else if Overruns(timing, s, env) then Some(env.at(HardStop)) else None)
            && m.failureCode == (if StartupFails(timing, s, env) then Some(3)
                                 else if Degrades(timing, s, env) || Overruns(timing, s, env) then Some(2) else s.failureCode)
            && (s.pending.Some? && Seen(timing, s.pending.value, env).None? ==> m.pending == s.pending && rq == [])
            && m.log == s.log + StartSteps(timing, s, env) + fw + SettleSteps(timing, s, env) + rq
            && AllForwarded(fw) && Asking(rq) && (rq != [] ==> m.stopping.None?)
  {
    StopPart(s, env);
    StartPart(timing, s, env);
    hide Collect, Gate, Explicit, Batch, Startup, Interrupted, Seen;
    var up := Startup(timing, s.(firstControl := None), env);
    if StartupFails(timing, s, env) {
      fw, rq := [], [];
      assert SettleSteps(timing, s, env) == [];
      assert up.log + [] + [] + [] == up.log;
    } else {
      fw := DispatchAdds(up, Batch(s, env));
      DispatchFrame(up, Batch(s, env));
      var d := Dispatch(up, Batch(s, env));
      hide Dispatch;
      if s.pending.Some? {
        assert Dispatched(s, d);
        SettlePart(timing, s, env, d);
        SettleLog(timing, s, env, d);
      } else {
        assert d.log + SettleSteps(timing, s, env) == d.log;
      }
      hide Settle, Request, SettleSteps, StartSteps;
      rq := RequestPart(Settle(timing, d, env), env);
    }
  }

  lemma EndPart(timing: Timing, s: State, env: Env) returns (ck: seq<Event>)
    ensures var t := Receive(Checkpoint(timing, s, env), env);
            && t == s.(checkpoint := t.checkpoint, firstControl := t.firstControl, explicitStop := t.explicitStop, log := t.log)
            && t.firstControl == (if env.received.Got? then Some(env.received.control) else s.firstControl)
            && t.explicitStop == (s.explicitStop || env.received.Disconnected?)
            && t.log == s.log + ck
            && ck == if Due(env.at(CheckpointTest), s.checkpoint, timing.checkpoint) && StatusOf(s) !in {Running, Paused}
                     then [Reported(StatusOf(s))] else []
  {
    ck := if Due(env.at(CheckpointTest), s.checkpoint, timing.checkpoint) && StatusOf(s) !in {Running, Paused}
          then [Reported(StatusOf(s))] else [];
    assert s.log + [] == s.log;
  }

  lemma AddsThose(s: State, t: State, added: seq<Event>)
    requires t.log == s.log + added
    ensures forall e :: Adds(s, t, e) <==> e in added
  {
    forall e
      ensures Adds(s, t, e) <==> e in added
    {
      if e in added {
        var i :| 0 <= i < |added| && added[i] == e;
        assert t.log[|s.log| + i] == e;
      }
    }
  }

  // -- The round as a whole -----------------------------------------------------------------------------------

  /** Why and how a round is the last one: the supervisor has finished, or a stop has met its deadline. The code is 0
      for a stop somebody asked for, the bridge's own failure if there is one, and otherwise what the supervisor says. */
  lemma RoundEnds(timing: Timing, s: State, env: Env)
    ensures var l := Step(timing, s, env);
            && (env.finished.Some? ==> l.Exited?)
            && (env.finished.None? ==>
                  (l.Exited? <==> l.s.stopping.Some? && Due(env.at(StopTest), l.s.stopping.value, timing.stop)))
            && (l.Exited? ==> l.exit.forceExit == (env.finished in {None, Some(None)}))
            && (l.Exited? && (Knows(s, env) || (if env.finished.Some? then env.stopAtExit else env.stopAtDeadline)) ==>
                  l.exit.terminal == Report(0))
            && (l.Exited? && !Knows(s, env) && !(if env.finished.Some? then env.stopAtExit else env.stopAtDeadline) ==>
                  l.exit.terminal ==
                  if l.s.failureCode.Some? then Report(l.s.failureCode.value)
                  else
                    match env.finished
                    case None => Report(2)
                    case Some(None) => Report(2)
                    case Some(Some(Stopped)) => Report(0)
                    case Some(Some(ChildExited)) => Report(0)
                    case Some(Some(SpawnFailed)) => Report(2)
                    case Some(Some(Suicide(code))) => Crash(if code > 0 then code else 1))
  {
    StopPart(s, env);
    var ck := EndPart(timing, Middle(timing, s, env), env);
    KnownStays(timing, Explicit(Gate(Collect(s, env), env), env), Batch(s, env), env);
    hide Collect, Gate, Explicit, Batch, Startup, Controls, Checkpoint, Receive, Knows;
  }

  lemma RoundParts(timing: Timing, s: State, env: Env)
    ensures var (l, m) := (Step(timing, s, env), Middle(timing, s, env));
            if env.finished.Some? then l.s == Explicit(Gate(Collect(s, env), env), env)
            else if l.Exited? then l.s == m
            else l.s == Receive(Checkpoint(timing, m, env), env)
  {
    hide Collect, Gate, Explicit, Batch, Startup, Controls, Checkpoint, Receive, ExitOnDeadline;
  }

  /** What a round does to the state: when it is confirmed running, which pause or continue it counts as done, exactly
      what makes it stop, and with which failure of the bridge's own. */
  lemma RoundState(timing: Timing, s: State, env: Env)
    requires Shape(s) && env.finished.None?
    ensures var (t, going) := (Step(timing, s, env).s, !Interrupted(s, env));
            && t.started == s.started && t.terminalClaimed == (s.terminalClaimed || env.gateReady)
            && t.running == (s.running || (going && env.startup.Some?))
            && t.paused == (if going && s.pending.Some? && Seen(timing, s.pending.value, env) == Some(Applied)
                            then s.pending.value.pause else s.paused)
            && t.stopping == (if s.stopping.Some? then s.stopping
                              else if Opens(s, env) then Some(env.at(GateStop))
                              else if Knows(s, env) then Some(env.at(ExplicitStop))
                              else if StartupFails(timing, s, env) then Some(env.at(StartupStop))
                              else if Degrades(timing, s, env) then Some(env.at(DegradedStop))
                              else if Overruns(timing, s, env) then Some(env.at(HardStop))
                              else None)
            && t.failureCode == (if StartupFails(timing, s, env) then Some(3)
                                 else if Degrades(timing, s, env) || Overruns(timing, s, env) then Some(2)
                                 else s.failureCode)
            && (going && s.pending.Some? && Seen(timing, s.pending.value, env).None? ==> t.pending == s.pending)
  {
    StopPart(s, env);
    RoundParts(timing, s, env);
    var ck := EndPart(timing, Middle(timing, s, env), env);
    if Interrupted(s, env) {
      MiddleStopped(timing, s, env);
    } else {
      var fw, rq := MiddleUndisturbed(timing, s, env);
    }
    hide Collect, Gate, Explicit, Batch, Middle, Checkpoint, Receive, Step, Knows, Opens, Seen, StopSteps;
  }

  /** What is known and received is carried into the next round. */
  lemma RoundCarries(timing: Timing, s: State, env: Env)
    requires Shape(s) && Step(timing, s, env).Going?
    ensures var t := Step(timing, s, env).s;
            && t.explicitStop == (Knows(s, env) || env.received.Disconnected?)
            && t.firstControl == (if env.received.Got? then Some(env.received.control) else None)
  {
    StopPart(s, env);
    RoundParts(timing, s, env);
    var ck := EndPart(timing, Middle(timing, s, env), env);
    if Interrupted(s, env) {
      MiddleStopped(timing, s, env);
    } else {
      var fw, rq := MiddleUndisturbed(timing, s, env);
    }
    RoundEnds(timing, s, env);
    hide Collect, Gate, Explicit, Batch, Middle, Checkpoint, Receive, Step, Opens, Seen, StopSteps;
  }

  lemma RoundLog(timing: Timing, s: State, env: Env) returns (fw: seq<Event>, rq: seq<Event>, ck: seq<Event>)
    requires Shape(s)
    ensures AllForwarded(fw) && Asking(rq) && |ck| <= 1
    ensures rq != [] ==> !Interrupted(s, env) && Step(timing, s, env).s.stopping.None?
    ensures forall e :: e in ck ==> e in {Reported(StartPending), Reported(PausePending), Reported(ContinuePending), Reported(StopPending)}
    ensures ck != [] ==> Due(env.at(CheckpointTest), Middle(timing, s, env).checkpoint, timing.checkpoint)
    ensures var t := Step(timing, s, env).s;
            if env.finished.Some? then t.log == s.log + StopSteps(s, env)
            else if Interrupted(s, env) then t.log == s.log + (StopSteps(s, env) + ck)
            else t.log == s.log + (StartSteps(timing, s, env) + fw + SettleSteps(timing, s, env) + rq + ck)
  {
    StopLog(s, env);
    RoundParts(timing, s, env);
    ck := EndPart(timing, Middle(timing, s, env), env);
    if Step(timing, s, env).Exited? { ck := []; }
    fw, rq := [], [];
    if env.finished.None? {
      if Interrupted(s, env) {
        MiddleStopped(timing, s, env);
        hide Collect, Gate, Explicit, Batch, Middle, Checkpoint, Receive, Step, StopSteps;
        Regroup(s.log, StopSteps(s, env), ck);
        assert StopSteps(s, env) + [] == StopSteps(s, env);
      } else {
        fw, rq := MiddleUndisturbed(timing, s, env);
        hide Collect, Gate, Explicit, Batch, Middle, Checkpoint, Receive, Step, StopSteps, StartSteps, SettleSteps;
        FiveParts(s.log, StartSteps(timing, s, env), fw, SettleSteps(timing, s, env), rq, ck);
      }
    }
  }

  lemma FiveParts(log: seq<Event>, a: seq<Event>, b: seq<Event>, c: seq<Event>, d: seq<Event>, e: seq<Event>)
    ensures log + a + b + c + d + e == log + (a + b + c + d + e)
    ensures log + a + b + c + d == log + (a + b + c + d + [])
  {
  }

  /** A round in which startup is confirmed and nothing asks for a stop makes the service running, and says so; and
      nothing but a confirmation does. */
  lemma ConfirmedRuns(timing: Timing, s: State, env: Env)
    requires Shape(s) && Step(timing, s, env).Going?
    ensures var t := Step(timing, s, env).s;
            && (env.startup.Some? && t.stopping.None? ==> t.running)
            && (t.running && !s.running ==> env.startup.Some? && Adds(s, t, Reported(Running)))
  {
    RoundState(timing, s, env) by { assert env.finished.None? by { RoundEnds(timing, s, env); } }
    RoundDoes(timing, s, env, Reported(Running));
    hide Step, Knows, Opens;
  }

  /** Exactly when a round of the loop does what. */
  lemma RoundDoes(timing: Timing, s: State, env: Env, e: Event)
    requires Shape(s) && env.finished.None?
    ensures var (t, going) := (Step(timing, s, env).s, !Interrupted(s, env));
            var seen := if going && s.pending.Some? then Seen(timing, s.pending.value, env) else None;
            && s.log <= t.log
            && (e.GateReleased? ==> (Adds(s, t, e) <==> Opens(s, env) && e.explicitStop == Knows(s, env)))
            && (e.Dropped? ==> (Adds(s, t, e) <==> s.pending.Some? && (Opens(s, env) || (Knows(s, env) && s.stopping.None?))))
            && (e.StopSent? ==>
                  (Adds(s, t, e) <==>
                   || (Knows(s, env) && (Opens(s, env) || s.stopping.None?))
                   || StartupFails(timing, s, env) || Overruns(timing, s, env)))
            && (e.CancelAsked? ==>
                  (Adds(s, t, e) <==>
                   going && s.pending.Some? && Due(env.at(TransitionTest), s.pending.value.started, timing.transition)))
            && (e.Observed? ==> (Adds(s, t, e) <==> seen == Some(e.outcome) && s.pending.value.pause == e.pause))
            && (e.Reported? && e.status in {Running, Paused} ==>
                  (Adds(s, t, e) <==>
                   || (going && !s.running && env.startup.Some? && e.status == Running)
                   || (seen.Some? && Settled(s, s.pending.value, seen.value) == e.status)))
            && (e.Requested? && Adds(s, t, e) ==> going && t.stopping.None?)
  {
    var fw, rq, ck := RoundLog(timing, s, env);
    var t := Step(timing, s, env).s;
    StopStepsAre(s, env, e);
    RoundState(timing, s, env);
    StartStepsAre(timing, s, env, e);
    if !Interrupted(s, env) { SettleStepsAre(timing, s, env, e); }
    if e in rq { AskingAre(rq, e); }
    hide Step, Knows, Opens, StopSteps, StartSteps, SettleSteps, Seen, Asking, Settled, Adds, Elapsed, Due;
    if Interrupted(s, env) {
      AddsThose(s, t, StopSteps(s, env) + ck);
    } else {
      var start, settle := StartSteps(timing, s, env), SettleSteps(timing, s, env);
      AddsThose(s, t, start + fw + settle + rq + ck);
      assert e in start + fw + settle + rq + ck <==> e in start || e in fw || e in settle || e in rq || e in ck;
      assert e in fw ==> e.Forwarded?;
    }
  }

  lemma StartStepsAre(timing: Timing, s: State, env: Env, e: Event)
    ensures e in StartSteps(timing, s, env) <==>
              || (e == Reported(Running) && !s.running && env.startup.Some?)
              || (e in {StopSent, Reported(StopPending)} && StartupFails(timing, s, env))
  {
    hide Knows, Opens;
  }

  lemma SettleStepsAre(timing: Timing, s: State, env: Env, e: Event)
    requires !Interrupted(s, env)
    ensures e in SettleSteps(timing, s, env) <==>
              && s.pending.Some?
              && var p := s.pending.value;
                 var seen := Seen(timing, p, env);
                 || (e == CancelAsked && Due(env.at(TransitionTest), p.started, timing.transition))
                 || (seen.Some? && e in {Observed(seen.value, p.pause), Reported(Settled(s, p, seen.value))})
                 || (Overruns(timing, s, env) && e in {StopSent, Reported(StopPending)})
  {
    hide Knows, Opens, Seen, Settled, Elapsed, Due;
  }

  lemma AskingAre(rq: seq<Event>, e: Event)
    requires Asking(rq) && e in rq
    ensures e.Requested? || e in {Reported(PausePending), Reported(ContinuePending)}
  {
  }

  // -- Checkpoints are not early -------------------------------------------------------------------------------

  lemma MiddleClock(timing: Timing, s: State, env: Env)
    requires WellTimed(env)
    ensures var m := Middle(timing, s, env); m.checkpoint == s.checkpoint || env.from <= m.checkpoint
  {
    hide Batch, IsStop;
    var u := Explicit(Gate(Collect(s, env), env), env);
    assert u.checkpoint in {s.checkpoint, env.at(GateCheck), env.at(ExplicitCheck)};
    hide Collect, Gate, Explicit;
    var up := Startup(timing, u, env);
    assert up.checkpoint in {u.checkpoint, env.at(RunningCheck), env.at(StartupCheck)};
    hide Startup;
    DispatchFrame(up, Batch(s, env));
    hide Dispatch;
    if up.stopping.None? {
      SettleClock(timing, Dispatch(up, Batch(s, env)), env);
      hide Settle;
    }
  }

  lemma SettleClock(timing: Timing, s: State, env: Env)
    ensures Settle(timing, s, env).checkpoint in {s.checkpoint, env.at(SettledCheck)}
  {
  }

  /** Nothing is repeated too soon: in a round that is over less than the checkpoint interval after the clock was last
      restarted, and no longer than that itself, pending statuses are only reported when they begin. */
  lemma NoRepeatTooSoon(timing: Timing, s: State, env: Env, b: bool)
    requires Shape(s) && env.finished.None? && WellTimed(env)
    requires env.to < s.checkpoint + timing.checkpoint && env.to < env.from + timing.checkpoint
    ensures var t := Step(timing, s, env).s;
            && !Adds(s, t, Reported(StartPending))
            && (Adds(s, t, Reported(if b then PausePending else ContinuePending)) <==> Adds(s, t, Requested(b)))
            && (Adds(s, t, Reported(StopPending)) <==> s.stopping.None? && t.stopping.Some?)
  {
    var fw, rq, ck := RoundLog(timing, s, env);
    var t := Step(timing, s, env).s;
    RoundState(timing, s, env);
    MiddleClock(timing, s, env);
    assert ck == [] by { assert env.from <= env.at(CheckpointTest) <= env.to; }
    var report := Reported(if b then PausePending else ContinuePending);
    Reports(timing, s, env, Reported(StopPending));
    Reports(timing, s, env, Reported(StartPending));
    Reports(timing, s, env, report);
    Reports(timing, s, env, Requested(b));
    RequestsReported(rq, b);
    hide Step, Knows, Opens, StopSteps, StartSteps, SettleSteps, Seen, Asking, Settled, Adds, Elapsed, Due, Middle;
    if Interrupted(s, env) {
      AddsThose(s, t, StopSteps(s, env) + ck);
    } else {
      var start, settle := StartSteps(timing, s, env), SettleSteps(timing, s, env);
      AddsThose(s, t, start + fw + settle + rq + ck);
      assert forall e :: e in start + fw + settle + rq + ck <==> e in start || e in fw || e in settle || e in rq || e in ck;
      assert forall e :: e in fw ==> e.Forwarded?;
    }
  }

  /** What stopping, startup and a transition report and ask for. */
  lemma Reports(timing: Timing, s: State, env: Env, e: Event)
    requires e in {Reported(StopPending), Reported(StartPending), Reported(PausePending), Reported(ContinuePending)} || e.Requested?
    ensures e in StopSteps(s, env) <==> e == Reported(StopPending) && s.stopping.None? && (Opens(s, env) || Knows(s, env))
    ensures !Interrupted(s, env) ==>
              (e in StartSteps(timing, s, env) <==> e == Reported(StopPending) && StartupFails(timing, s, env))
    ensures !Interrupted(s, env) ==>
              (e in SettleSteps(timing, s, env) <==>
               e == Reported(StopPending) && (Degrades(timing, s, env) || Overruns(timing, s, env)))
  {
    StopStepsAre(s, env, e);
    StartStepsAre(timing, s, env, e);
    if !Interrupted(s, env) { SettleStepsAre(timing, s, env, e); }
    hide Knows, Opens, StopSteps, StartSteps, SettleSteps, Seen, Elapsed, Due;
  }

  lemma RequestsReported(rq: seq<Event>, b: bool)
    requires Asking(rq)
    ensures Requested(b) in rq <==> Reported(if b then PausePending else ContinuePending) in rq
    ensures Reported(StartPending) !in rq && Reported(StopPending) !in rq
  {
  }
}
