/** Admission to the broker, its idle shutdown and the bound on its pipe instances. */
module Broker {
  import opened Prelude

  type Instant = int

  // -- The shared activity record ------------------------------------------------------------------

  datatype ActivityState = ActivityState(
    lastActivity: Instant, activeWork: nat, authenticatedWork: nat, draining: bool, shutdownClaimed: bool)

  function Fresh(now: Instant): ActivityState { ActivityState(now, 0, 0, false, false) }

  predicate Admits(a: ActivityState) { !a.draining && !a.shutdownClaimed }

  function Admitted(a: ActivityState, authenticated: bool, now: Instant): ActivityState {
    var b := a.(activeWork := a.activeWork + 1);
    if authenticated then b.(authenticatedWork := a.authenticatedWork + 1, lastActivity := now) else b
  }

  /** The counters hold what is to be taken away. */
  predicate CanFinish(a: ActivityState, authenticated: bool) {
    a.activeWork > 0 && (authenticated ==> a.authenticatedWork > 0)
  }

  function Finished(a: ActivityState, authenticated: bool, now: Instant): ActivityState
    requires CanFinish(a, authenticated)
  {
    var b := a.(activeWork := a.activeWork - 1);
    if authenticated then b.(authenticatedWork := a.authenticatedWork - 1, lastActivity := now) else b
  }

  function IdleFor(a: ActivityState, now: Instant): nat { Max(0, now - a.lastActivity) }

  /** The new state, and whether the shutdown has been claimed by this very call. */
  function Claimed(a: ActivityState, now: Instant, timeout: nat): (ActivityState, bool) {
    if a.shutdownClaimed || a.authenticatedWork != 0 then (a, false)
    else
      var b := if IdleFor(a, now) >= timeout then a.(draining := true) else a;
      if b.draining && b.activeWork == 0 then (b.(shutdownClaimed := true), true) else (b, false)
  }

  class Activity {
    var state: ActivityState

    constructor (now: Instant)
      ensures state == Fresh(now)
    {
      state := Fresh(now);
    }

    /** A guard for the admitted work, which counts until the guard is dropped. */
    method AdmitAt(authenticated: bool, now: Instant) returns (admitted: bool)
      modifies this
      ensures admitted <==> !old(state).draining && !old(state).shutdownClaimed
      ensures state == if admitted then Admitted(old(state), authenticated, now) else old(state)
    {
      if state.draining || state.shutdownClaimed { return false; }
      state := state.(activeWork := state.activeWork + 1);
      if authenticated {
        state := state.(authenticatedWork := state.authenticatedWork + 1);
        state := state.(lastActivity := now);
      }
      return true;
    }

    method Finish(authenticated: bool, now: Instant)
      requires CanFinish(state, authenticated)
      modifies this
      ensures state == Finished(old(state), authenticated, now)
    {
      if authenticated {
        state := state.(lastActivity := now);
        state := state.(authenticatedWork := state.authenticatedWork - 1);
      }
      state := state.(activeWork := state.activeWork - 1);
    }

    method ClaimIdleShutdown(now: Instant, timeout: nat) returns (claimed: bool)
      modifies this
      ensures (state, claimed) == Claimed(old(state), now, timeout)
    {
      if state.shutdownClaimed || state.authenticatedWork != 0 { return false; }
      if IdleFor(state, now) >= timeout { state := state.(draining := true); }
      if state.draining && state.activeWork == 0 {
        state := state.(shutdownClaimed := true);
        return true;
      }
      return false;
    }
  }

  // -- All interleavings of guards and claims ----------------------------------------------------------

  /** One access to the record under its lock. `Leave` drops the `guard`th live guard. */
  datatype Event =
    | Enter(authenticated: bool, now: Instant)
    | Leave(guard: nat, now: Instant)
    | Claim(now: Instant)

  /** `guards` are the live guards, `claims` counts the claims that succeeded, `busiest` is when authenticated
      work was last admitted or finished. */
  datatype Server = Server(activity: ActivityState, guards: seq<bool>, claims: nat, busiest: Instant)

  predicate Possible(s: Server, e: Event) { e.Leave? ==> e.guard < |s.guards| }

  function Without(guards: seq<bool>, i: nat): seq<bool>
    requires i < |guards|
  {
    guards[..i] + guards[i + 1..]
  }

  function CountTrue(guards: seq<bool>): nat {
    if guards == [] then 0 else CountTrue(guards[..|guards| - 1]) + if Last(guards) then 1 else 0
  }

  lemma {:induction false} CountAppend(a: seq<bool>, b: seq<bool>)
    ensures CountTrue(a + b) == CountTrue(a) + CountTrue(b)
  {
    if b == [] {
      assert a + b == a;
    } else {
      assert (a + b)[..|a + b| - 1] == a + b[..|b| - 1];
      CountAppend(a, b[..|b| - 1]);
    }
  }

  lemma CountOne(b: bool)
    ensures CountTrue([b]) == if b then 1 else 0
  {
    assert [b][..0] == [];
  }

  lemma CountGrown(guards: seq<bool>, b: bool)
    ensures CountTrue(guards + [b]) == CountTrue(guards) + if b then 1 else 0
    ensures |guards + [b]| == |guards| + 1
  {
    hide CountTrue;
    CountAppend(guards, [b]);
    CountOne(b);
  }

  lemma CountWithout(guards: seq<bool>, i: nat)
    requires i < |guards|
    ensures CountTrue(guards) == CountTrue(Without(guards, i)) + if guards[i] then 1 else 0
    ensures |Without(guards, i)| == |guards| - 1
  {
    hide CountTrue;
    var before, after := guards[..i], guards[i + 1..];
    assert guards == before + [guards[i]] + after;
    CountAppend(before + [guards[i]], after);
    CountAppend(before, [guards[i]]);
    CountAppend(before, after);
    CountOne(guards[i]);
  }

  /** The counters are exactly the live guards. */
  predicate Balanced(s: Server) {
    && s.activity.activeWork == |s.guards|
    && s.activity.authenticatedWork == CountTrue(s.guards)
    && (s.activity.draining ==> s.activity.authenticatedWork == 0)
    && (s.activity.shutdownClaimed ==> s.activity.draining && |s.guards| == 0)
    && s.claims == (if s.activity.shutdownClaimed then 1 else 0)
    && s.activity.lastActivity == s.busiest
  }

  /** Dropping the guard takes no counter below zero. */
  predicate NoUnderflow(s: Server, e: Event)
    requires Possible(s, e)
  {
    e.Leave? ==> CanFinish(s.activity, s.guards[e.guard])
  }

  function Step(timeout: nat, s: Server, e: Event): Server
    requires Possible(s, e) && NoUnderflow(s, e)
  {
    match e
    case Enter(authenticated, now) =>
      if Admits(s.activity) then
        s.(activity := Admitted(s.activity, authenticated, now), guards := s.guards + [authenticated],
           busiest := if authenticated then now else s.busiest)
      else s
    case Leave(i, now) =>
      s.(activity := Finished(s.activity, s.guards[i], now), guards := Without(s.guards, i),
         busiest := if s.guards[i] then now else s.busiest)
    case Claim(now) =>
      var (after, success) := Claimed(s.activity, now, timeout);
      s.(activity := after, claims := s.claims + if success then 1 else 0)
  }

  lemma StepBalanced(timeout: nat, s: Server, e: Event)
    requires Balanced(s) && Possible(s, e)
    ensures NoUnderflow(s, e) && Balanced(Step(timeout, s, e))
  {
    match e {
      case Enter(authenticated, now) =>
        CountGrown(s.guards, authenticated);
        hide CountTrue;
        var t := Step(timeout, s, e);
        assert t == s || t.guards == s.guards + [authenticated];
      case Leave(i, now) =>
        CountWithout(s.guards, i);
        hide CountTrue, Without;
        assert Step(timeout, s, e).guards == Without(s.guards, i);
      case Claim(now) =>
        hide CountTrue;
        assert Step(timeout, s, e).guards == s.guards;
    }
  }

  /** `states` are the server before and after each event of a run. Only live guards are dropped; nothing is said of
      what follows an underflow. */
  ghost predicate Run(timeout: nat, events: seq<Event>, states: seq<Server>) {
    && |states| == |events| + 1
    && (exists now :: states[0] == Server(Fresh(now), [], 0, now))
    && forall k :: 0 <= k < |events| ==>
         Possible(states[k], events[k]) &&
         (NoUnderflow(states[k], events[k]) ==> states[k + 1] == Step(timeout, states[k], events[k]))
  }

  lemma {:induction false} RunBalanced(timeout: nat, events: seq<Event>, states: seq<Server>, k: nat)
    requires Run(timeout, events, states) && k < |states|
    ensures Balanced(states[k])
  {
    if k > 0 {
      RunBalanced(timeout, events, states, k - 1);
      StepBalanced(timeout, states[k - 1], events[k - 1]);
    }
  }

  lemma {:induction false} Stays(timeout: nat, events: seq<Event>, states: seq<Server>, i: nat, j: nat)
    requires Run(timeout, events, states) && i <= j < |states|
    ensures states[i].activity.draining ==> states[j].activity.draining && |states[j].guards| <= |states[i].guards|
    ensures states[i].activity.shutdownClaimed ==> states[j].activity.shutdownClaimed
    decreases j - i
  {
    if i < j {
      Stays(timeout, events, states, i, j - 1);
      RunBalanced(timeout, events, states, j - 1);
      StepBalanced(timeout, states[j - 1], events[j - 1]);
    }
  }

  /** Over every interleaving: whoever comes before draining is let in and nobody after it; no counter ever underflows,
      the counters are the live guards; draining begins exactly when a claim finds no authenticated work and the idle
      time over; the shutdown is claimed at most once, exactly when a claim finds draining and nobody inside. */
  lemma ShutdownIsSafe(timeout: nat, events: seq<Event>, states: seq<Server>, k: nat)
    requires Run(timeout, events, states) && k < |events|
    ensures NoUnderflow(states[k], events[k]) && states[k + 1] == Step(timeout, states[k], events[k])
    ensures var (s, t) := (states[k], states[k + 1]);
            && s.activity.activeWork == |s.guards| && s.activity.authenticatedWork == CountTrue(s.guards)
            && t.claims <= 1
            && (t.claims > s.claims <==>
                events[k].Claim? && s.guards == [] && t.activity.draining && !s.activity.shutdownClaimed)
            && (t.activity.draining <==>
                || s.activity.draining
                || (events[k].Claim? && CountTrue(s.guards) == 0 && Max(0, events[k].now - s.busiest) >= timeout))
            && (events[k].Enter? ==>
                  t.guards == s.guards + if s.activity.draining then [] else [events[k].authenticated])
    ensures forall j :: k <= j < |events| && states[k].activity.draining && events[j].Enter? ==> states[j + 1] == states[j]
    ensures forall j :: k <= j < |states| && states[k].activity.shutdownClaimed ==> states[j].guards == []
  {
    RunBalanced(timeout, events, states, k);
    StepBalanced(timeout, states[k], events[k]);
    forall j | k <= j < |events| && states[k].activity.draining && events[j].Enter?
      ensures states[j + 1] == states[j]
    {
      Stays(timeout, events, states, k, j);
      RunBalanced(timeout, events, states, j);
      StepBalanced(timeout, states[j], events[j]);
    }
    forall j | k <= j < |states| && states[k].activity.shutdownClaimed
      ensures states[j].guards == []
    {
      Stays(timeout, events, states, k, j);
      RunBalanced(timeout, events, states, j);
    }
  }

  /** How many guards events `i` to `j` drop. */
  function Leaves(events: seq<Event>, i: nat, j: nat): nat
    requires i <= j <= |events|
    decreases j
  {
    if i == j then 0 else Leaves(events, i, j - 1) + if events[j - 1].Leave? then 1 else 0
  }

  lemma DrainStep(timeout: nat, s: Server, e: Event)
    requires Possible(s, e) && NoUnderflow(s, e) && s.activity.draining
    ensures |Step(timeout, s, e).guards| + (if e.Leave? then 1 else 0) == |s.guards|
  {
  }

  lemma {:induction false} DrainCount(timeout: nat, events: seq<Event>, states: seq<Server>, i: nat, j: nat)
    requires Run(timeout, events, states) && i <= j < |states| && states[i].activity.draining
    ensures |states[j].guards| + Leaves(events, i, j) == |states[i].guards|
    decreases j
  {
    hide Step, Balanced;
    if i < j {
      DrainCount(timeout, events, states, i, j - 1);
      Stays(timeout, events, states, i, j - 1);
      RunBalanced(timeout, events, states, j - 1);
      StepBalanced(timeout, states[j - 1], events[j - 1]);
      DrainStep(timeout, states[j - 1], events[j - 1]);
    }
  }

  /** Draining ends in shutdown: each guard that was live is dropped once and none is added, and once all have
      been dropped the next claim, at whatever time, finds the shutdown claimed or claims it. */
  lemma DrainingEnds(timeout: nat, events: seq<Event>, states: seq<Server>, i: nat, j: nat)
    requires Run(timeout, events, states) && i <= j < |events| && states[i].activity.draining && events[j].Claim?
    ensures states[j + 1].activity.shutdownClaimed <==> Leaves(events, i, j) == |states[i].guards|
  {
    RunBalanced(timeout, events, states, j);
    Stays(timeout, events, states, i, j);
    DrainCount(timeout, events, states, i, j);
  }

  /** What unauthenticated work does: its admission, and the dropping of its guard. */
  predicate IsUnauthenticated(s: Server, e: Event) {
    (e.Enter? && !e.authenticated) || (e.Leave? && e.guard < |s.guards| && !s.guards[e.guard])
  }

  /** A client that keeps sending unauthenticated requests cannot put the shutdown off: neither taking its work in
      nor finishing it touches the idle clock or what draining waits for. */
  lemma UnauthenticatedDoesNotPostpone(timeout: nat, s: Server, e: Event, later: Instant)
    requires Balanced(s) && Possible(s, e) && IsUnauthenticated(s, e)
    ensures NoUnderflow(s, e)
    ensures var t := Step(timeout, s, e);
            && t.busiest == s.busiest && t.activity.lastActivity == s.activity.lastActivity
            && t.activity.authenticatedWork == s.activity.authenticatedWork
            && t.activity.draining == s.activity.draining
            && Claimed(t.activity, later, timeout).0.draining == Claimed(s.activity, later, timeout).0.draining
            && (CountTrue(s.guards) == 0 && Max(0, later - s.busiest) >= timeout ==>
                  Claimed(t.activity, later, timeout).0.draining || s.activity.shutdownClaimed)
  {
    StepBalanced(timeout, s, e);
  }

  // -- Connection slots and pipe instances ------------------------------------------------------------

  const MAX_CONCURRENT_CONNECTIONS: nat := 16
  const MAX_BUSY_CONNECTIONS: nat := 1
  const MAX_PIPE_INSTANCES: nat := MAX_CONCURRENT_CONNECTIONS + MAX_BUSY_CONNECTIONS + 1

  /** A connection's thread: it owns the pipe handle, its watchdog for a time a duplicate of it, and a slot. */
  datatype Worker = Worker(busy: bool, owns: bool, duplicated: bool)

  /** `listening` is the instance the accept loop has created and not handed on. */
  datatype Listener = Listener(listening: bool, active: nat, busy: nat, workers: seq<Worker>)

  datatype Move =
    | Create
    | Abandon
    | Accept
    | Duplicate(worker: nat)
    | CloseDuplicate(worker: nat)
    | Close(worker: nat)
    | Release(worker: nat)

  /** The slot of a connection outlives its handles, and its own handle the duplicate. */
  predicate Allowed(l: Listener, m: Move) {
    match m
    case Create => !l.listening
    case Abandon => l.listening
    case Accept => l.listening
    case Duplicate(i) => i < |l.workers| && l.workers[i].owns && !l.workers[i].duplicated
    case CloseDuplicate(i) => i < |l.workers| && l.workers[i].duplicated
    case Close(i) => i < |l.workers| && l.workers[i].owns && !l.workers[i].duplicated
    case Release(i) => i < |l.workers| && !l.workers[i].owns && !l.workers[i].duplicated
  }

  function Others(workers: seq<Worker>, i: nat): seq<Worker>
    requires i < |workers|
  {
    workers[..i] + workers[i + 1..]
  }

  function Moved(l: Listener, m: Move): Listener
    requires Allowed(l, m)
  {
    match m
    case Create => l.(listening := true)
    case Abandon => l.(listening := false)
    case Accept =>
      if l.active < MAX_CONCURRENT_CONNECTIONS then
        l.(listening := false, active := l.active + 1, workers := l.workers + [Worker(false, true, false)])
      else if l.busy < MAX_BUSY_CONNECTIONS then
        l.(listening := false, busy := l.busy + 1, workers := l.workers + [Worker(true, true, false)])
      else l.(listening := false)
    case Duplicate(i) => l.(workers := l.workers[i := l.workers[i].(duplicated := true)])
    case CloseDuplicate(i) => l.(workers := l.workers[i := l.workers[i].(duplicated := false)])
    case Close(i) => l.(workers := l.workers[i := l.workers[i].(owns := false)])
    case Release(i) =>
      var w := l.workers[i];
      l.(workers := Others(l.workers, i),
         active := if w.busy then l.active else Max(0, l.active - 1),
         busy := if w.busy then Max(0, l.busy - 1) else l.busy)
  }

  predicate IsOpen(w: Worker) { w.owns || w.duplicated }

  predicate IsBusy(w: Worker) { w.busy }

  function Open(l: Listener): nat { |Filter(IsOpen, l.workers)| + if l.listening then 1 else 0 }

  /** The slot counters are the workers that hold a slot, and both stay within their limits. */
  predicate SlotsRight(l: Listener) {
    && l.busy == |Filter(IsBusy, l.workers)| && l.active + l.busy == |l.workers|
    && l.active <= MAX_CONCURRENT_CONNECTIONS && l.busy <= MAX_BUSY_CONNECTIONS
  }

  lemma FilterBound<T>(p: T -> bool, s: seq<T>)
    ensures |Filter(p, s)| <= |s|
  {
  }

  lemma FilterWithout(p: Worker -> bool, workers: seq<Worker>, i: nat)
    requires i < |workers|
    ensures |Filter(p, workers)| == |Filter(p, Others(workers, i))| + if p(workers[i]) then 1 else 0
  {
    assert workers == workers[..i] + [workers[i]] + workers[i + 1..];
    FilterAppend(p, workers[..i] + [workers[i]], workers[i + 1..]);
    FilterAppend(p, workers[..i], [workers[i]]);
    FilterAppend(p, workers[..i], workers[i + 1..]);
    assert [workers[i]][..0] == [];
  }

  lemma FilterChanged(p: Worker -> bool, workers: seq<Worker>, i: nat, w: Worker)
    requires i < |workers| && p(w) == p(workers[i])
    ensures |Filter(p, workers[i := w])| == |Filter(p, workers)|
  {
    FilterWithout(p, workers, i);
    FilterWithout(p, workers[i := w], i);
    assert Others(workers[i := w], i) == Others(workers, i);
  }

  lemma MovedRight(l: Listener, m: Move)
    requires SlotsRight(l) && Allowed(l, m)
    ensures SlotsRight(Moved(l, m))
  {
    match m {
      case Create =>
      case Abandon =>
      case Accept =>
        FilterAppend(IsBusy, l.workers, [Worker(false, true, false)]);
        FilterAppend(IsBusy, l.workers, [Worker(true, true, false)]);
        assert [Worker(false, true, false)][..0] == [] == [Worker(true, true, false)][..0];
      case Duplicate(i) => FilterChanged(IsBusy, l.workers, i, l.workers[i].(duplicated := true));
      case CloseDuplicate(i) => FilterChanged(IsBusy, l.workers, i, l.workers[i].(duplicated := false));
      case Close(i) => FilterChanged(IsBusy, l.workers, i, l.workers[i].(owns := false));
      case Release(i) => FilterWithout(IsBusy, l.workers, i);
        FilterBound(IsBusy, Others(l.workers, i));
    }
  }

  ghost predicate Serving(moves: seq<Move>, states: seq<Listener>) {
    && |states| == |moves| + 1 && states[0] == Listener(false, 0, 0, [])
    && forall k :: 0 <= k < |moves| ==> Allowed(states[k], moves[k]) && states[k + 1] == Moved(states[k], moves[k])
  }

  lemma {:induction false} ServingRight(moves: seq<Move>, states: seq<Listener>, k: nat)
    requires Serving(moves, states) && k < |states|
    ensures SlotsRight(states[k])
  {
    hide SlotsRight, Moved, Allowed;
    if k > 0 {
      ServingRight(moves, states, k - 1);
      MovedRight(states[k - 1], moves[k - 1]);
    } else {
      NobodyServed();
    }
  }

  lemma NobodyServed()
    ensures SlotsRight(Listener(false, 0, 0, []))
  {
  }

  /** A client is served while fewer than 16 are, told that the broker is busy while nobody else is told so, and let go
      otherwise. In every interleaving of the accept loop with its workers and their watchdogs: at most `MAX_PIPE_INSTANCES`
      instances are open, so one for the next client can always be created, and the counters never go below zero. */
  lemma InstancesBounded(moves: seq<Move>, states: seq<Listener>, k: nat)
    requires Serving(moves, states) && k < |states|
    ensures Open(states[k]) <= MAX_PIPE_INSTANCES
    ensures !states[k].listening ==> Open(states[k]) < MAX_PIPE_INSTANCES
    ensures k < |moves| && moves[k].Accept? ==>
              var (s, t) := (states[k], states[k + 1]);
              var working := |s.workers| - |Filter(IsBusy, s.workers)|;
              && !t.listening
              && t.workers == s.workers + if working < 16 then [Worker(false, true, false)]
                                          else if Filter(IsBusy, s.workers) == [] then [Worker(true, true, false)]
                                          else []
    ensures k < |moves| && moves[k].Release? ==>
              if states[k].workers[moves[k].worker].busy then states[k].busy > 0 else states[k].active > 0
  {
    ServingRight(moves, states, k);
    var s := states[k];
    FilterBound(IsOpen, s.workers);
    if k < |moves| && moves[k].Release? {
      FilterWithout(IsBusy, s.workers, moves[k].worker);
      FilterBound(IsBusy, Others(s.workers, moves[k].worker));
    }
  }
}
