/** Concurrent edits and recovery updates of one service, step by step, under its reentrant lock. */
module Writers {
  import opened Prelude
  import opened RecoveryForm
  import opened Config
  import opened Registry
  import opened RegistryRead
  import opened Transactions

  type Store = KeyState

  datatype Change = EditBy(spec: EditSpec) | PolicyBy(name: string, update: RecoverySpec -> Option<RecoverySpec>)

  type Reader = Store -> Result<ManagedConfig, Failure>

  /** What a write leaves in the key, and whether it succeeded. */
  type Write = (Store, ManagedConfig) -> (Store, bool)

  /** One writer's request and all that the environment decides for it: a refusal of its input, a wait for the
      lock that times out, the listing orders and failures of its readings, what its write and its rollback come to,
      and whether the native update succeeds. */
  datatype Job = Job(change: Change, acceptable: bool, timesOut: bool, read: Reader, reread: Reader, write: Write,
                     rollback: Write, native: Store -> bool)

  /** Between its locked steps a writer only knows what it has read. The policy update locks once more for the
      save (`Inner`) and reads again. */
  datatype Phase =
    | Waiting
    | Reading
    | Computing(first: ManagedConfig)
    | Inner(policy: RecoverySpec)
    | Rereading(policy: RecoverySpec)
    | Merging(original: ManagedConfig, policies: Option<RecoverySpec>)
    | Writing(original: ManagedConfig, merged: ManagedConfig)
    | Native(original: ManagedConfig, wrote: bool)
    | RollingBack(original: ManagedConfig, afterNative: bool)
    | Leaving(verdict: Outcome)
    | Done(verdict: Outcome)

  datatype Client = Client(phase: Phase, depth: nat)

  datatype Sys = Sys(store: Store, clients: seq<Client>, order: seq<nat>)

  type Checker = ManagedConfig -> bool

  /** Refusals before the lock is asked for, and a wait for it that times out. */
  function Early(job: Job): Option<Failure> {
    if job.change.EditBy? && !TouchesManaged(job.change.spec) && !job.change.spec.native then Some(NoChange)
    else if job.change.EditBy? && !job.acceptable then Some(Unacceptable)
    else if job.timesOut then Some(NoLock)
    else None
  }

  function Wanted(job: Job, first: ManagedConfig): Option<RecoverySpec>
    requires job.change.PolicyBy?
  {
    var spec := job.change.update(RecoveryOf(job.change.name, first));
    if spec.Some? && spec.value.name == job.change.name && ValidSpec(spec.value) then spec else None
  }

  predicate WritesManaged(job: Job) { job.change.EditBy? ==> TouchesManaged(job.change.spec) }

  predicate UpdatesNative(job: Job) { job.change.EditBy? && job.change.spec.native }

  /** The configuration to be written, if it can be. */
  function Merge(accepted: Checker, job: Job, original: ManagedConfig, policy: Option<RecoverySpec>): Option<ManagedConfig> {
    var m := if policy.Some? then Some(MergeRecovery(original, policy.value))
             else if job.change.EditBy? then MergeEdit(original, job.change.spec)
             else None;
    if m.Some? && accepted(m.value) then m else None
  }

  // -- One step -----------------------------------------------------------------------------

  predicate Free(clients: seq<Client>, i: nat) { forall j :: 0 <= j < |clients| && j != i ==> clients[j].depth == 0 }

  predicate Enabled(s: Sys, i: nat) {
    && i < |s.clients|
    && !s.clients[i].phase.Done?
    && (s.clients[i].phase.Waiting? || s.clients[i].phase.Inner? ==> Free(s.clients, i))
  }

  /** The next step inside the lock: where the writer goes on, and the new contents of the key. */
  function Next(accepted: Checker, job: Job, phase: Phase, store: Store): (Phase, Store) {
    match phase
    case Reading =>
      var r := job.read(store);
      if r.Err? then (Leaving(Err(r.error)), store)
      else if job.change.PolicyBy? then (Computing(r.value), store)
      else (Merging(r.value, None), store)
    case Computing(first) =>
      if !job.change.PolicyBy? || Wanted(job, first).None? then (Leaving(Err(Unacceptable)), store)
      else (Inner(Wanted(job, first).value), store)
    case Inner(policy) => (Rereading(policy), store)
    case Rereading(policy) =>
      var r := job.reread(store);
      if r.Err? then (Leaving(Err(r.error)), store) else (Merging(r.value, Some(policy)), store)
    case Merging(original, policy) =>
      if !WritesManaged(job) then (Native(original, false), store)
      else
        var m := Merge(accepted, job, original, policy);
        (if m.Some? then Writing(original, m.value) else Leaving(Err(InvalidResult)), store)
    case Writing(original, merged) =>
      var (after, ok) := job.write(store, merged);
      (if ok then Native(original, true) else RollingBack(original, false), after)
    case Native(original, wrote) =>
      if !UpdatesNative(job) || job.native(store) then (Leaving(Ok(())), store)
      else if wrote then (RollingBack(original, true), store)
      else (Leaving(Err(NativeFailed(None))), store)
    case RollingBack(original, afterNative) =>
      var (after, ok) := job.rollback(store, original);
      (Leaving(Err(if afterNative then NativeFailed(Some(ok)) else WriteFailed(ok))), after)
    case Waiting => (phase, store)
    case Leaving(_) => (phase, store)
    case Done(_) => (phase, store)
  }

  /** Taking the lock, one step inside it, or giving it back once. */
  function Advance(accepted: Checker, job: Job, c: Client, store: Store): (Client, Store) {
    if c.phase.Waiting? then (Client(Reading, c.depth + 1), store)
    else if c.phase.Leaving? then
      if c.depth > 1 then (c.(depth := c.depth - 1), store) else (Client(Done(c.phase.verdict), 0), store)
    else
      var (phase, after) := Next(accepted, job, c.phase, store);
      (Client(phase, if c.phase.Inner? then c.depth + 1 else c.depth), after)
  }

  function Step(accepted: Checker, jobs: seq<Job>, s: Sys, i: nat): Sys
    requires |jobs| == |s.clients| && Enabled(s, i)
  {
    var c := s.clients[i];
    if c.phase.Waiting? && Early(jobs[i]).Some? then
      s.(clients := s.clients[i := Client(Done(Err(Early(jobs[i]).value)), 0)])
    else
      var (next, store) := Advance(accepted, jobs[i], c, s.store);
      Sys(store, s.clients[i := next], if c.phase.Waiting? then s.order + [i] else s.order)
  }

  function Initial(jobs: seq<Job>, store: Store): Sys {
    Sys(store, seq(|jobs|, i => Client(Waiting, 0)), [])
  }

  /** `s` is reached by some interleaving of the writers' steps. */
  ghost predicate Reaches(accepted: Checker, jobs: seq<Job>, start: Store, schedule: seq<nat>, s: Sys) {
    if schedule == [] then s == Initial(jobs, start)
    else
      exists before :: Reaches(accepted, jobs, start, schedule[..|schedule| - 1], before) && |before.clients| == |jobs|
        && Enabled(before, Last(schedule)) && s == Step(accepted, jobs, before, Last(schedule))
  }

  // -- One transaction on its own ---------------------------------------------------------------

  /** How far a phase is from the end. */
  function Rank(phase: Phase): nat {
    match phase
    case Waiting => 0
    case Reading => 8
    case Computing(_) => 7
    case Inner(_) => 6
    case Rereading(_) => 5
    case Merging(_, _) => 4
    case Writing(_, _) => 3
    case Native(_, _) => 2
    case RollingBack(_, _) => 1
    case Leaving(_) => 0
    case Done(_) => 0
  }

  /** What comes of going on from a phase without interruption. */
  function Rest(accepted: Checker, job: Job, phase: Phase, store: Store): (Outcome, Store)
    decreases Rank(phase)
  {
    if phase.Leaving? || phase.Done? then (phase.verdict, store)
    else if phase.Waiting? then (Err(NoLock), store)
    else var (next, after) := Next(accepted, job, phase, store); Rest(accepted, job, next, after)
  }

  /** What one request, run alone, comes to. */
  function Apply(accepted: Checker, job: Job, store: Store): (Outcome, Store) { Rest(accepted, job, Reading, store) }

  predicate Within(order: seq<nat>, n: nat) { forall k :: 0 <= k < |order| ==> order[k] < n }

  /** The requests of `order`, one after the other. */
  function Serial(accepted: Checker, jobs: seq<Job>, order: seq<nat>, store: Store): Store
    requires Within(order, |jobs|)
  {
    if order == [] then store
    else Apply(accepted, jobs[Last(order)], Serial(accepted, jobs, order[..|order| - 1], store)).1
  }

  // -- A request on its own is the transaction it stands for -------------------------------------------

  function Found(r: Result<ManagedConfig, Failure>): Option<ManagedConfig> { if r.Ok? then Some(r.value) else None }

  /** A reading gives what some listing order of the key reads as, or fails. */
  ghost predicate Reads(st: Store, r: Result<ManagedConfig, Failure>) {
    if r.Ok? then exists order :: OrderOf(order, st) && Current(st, order) == Some(r.value)
    else r.error in {ReadFailed, NotManaged}
  }

  /** What whole writes promise. */
  ghost predicate Writes(up: CaseMap, before: Store, cfg: ManagedConfig, after: Store, ok: bool) {
    && (WellNamed(up, before) ==> Kept(up, before, after))
    && (ok ==> HasMarker(before) && Holding(up, cfg, after))
  }

  /** The environment's decisions are possible ones. */
  ghost predicate Realistic(up: CaseMap, accepted: Checker, job: Job) {
    && (forall cfg :: accepted(cfg) <==> Accepts(up, cfg))
    && (forall st :: Reads(st, job.read(st)) && Reads(st, job.reread(st)))
    && (forall st, cfg :: Writes(up, st, cfg, job.write(st, cfg).0, job.write(st, cfg).1))
    && (forall st, cfg :: Writes(up, st, cfg, job.rollback(st, cfg).0, job.rollback(st, cfg).1))
  }

  lemma KeptTwice(up: CaseMap, a: KeyState, b: KeyState, c: KeyState)
    requires Kept(up, a, b) && Kept(up, b, c)
    ensures Kept(up, a, c)
  {
    hide HasMarker, WellNamed;
  }

  lemma KeptAlone(up: CaseMap, st: KeyState)
    requires WellNamed(up, st)
    ensures Kept(up, st, st)
  {
  }

  lemma RollbackMeets(up: CaseMap, accepted: Checker, job: Job, before: Store, original: ManagedConfig, afterNative: bool, st: Store)
    requires Realistic(up, accepted, job) && Kept(up, before, st)
    ensures var (r, after) := Rest(accepted, job, RollingBack(original, afterNative), st);
            Kept(up, before, after) && r.Err? && FailsSafely(up, before, Some(original), r, after)
  {
    hide HasMarker, WellNamed, Holding, Merge;
    var (after, ok) := job.rollback(st, original);
    assert Writes(up, st, original, after, ok);
    KeptTwice(up, before, st, after);
    hide Kept;
    assert Rest(accepted, job, RollingBack(original, afterNative), st) ==
           (Err(if afterNative then NativeFailed(Some(ok)) else WriteFailed(ok)), after);
  }

  /** What is left to do after the managed write, or without one. */
  lemma NativeMeets(up: CaseMap, accepted: Checker, job: Job, before: Store, original: ManagedConfig, wrote: bool, st: Store)
    requires Realistic(up, accepted, job) && Kept(up, before, st) && (!wrote ==> st == before)
    ensures var (r, after) := Rest(accepted, job, Native(original, wrote), st);
            && Kept(up, before, after) && (r.Ok? ==> after == st)
            && FailsSafely(up, before, Some(original), r, after)
  {
    hide HasMarker, WellNamed, Holding, Merge, Kept, Realistic;
    if wrote { RollbackMeets(up, accepted, job, before, original, true, st); }
  }

  lemma WriteMeets(up: CaseMap, accepted: Checker, job: Job, st: Store, original: ManagedConfig, merged: ManagedConfig)
    requires Realistic(up, accepted, job) && WellNamed(up, st)
    ensures var (r, after) := Rest(accepted, job, Writing(original, merged), st);
            && Kept(up, st, after) && (r.Ok? ==> Holding(up, merged, after))
            && FailsSafely(up, st, Some(original), r, after)
  {
    hide HasMarker, Holding, Merge, Rest;
    var (after, ok) := job.write(st, merged);
    assert Writes(up, st, merged, after, ok);
    RestWrite(accepted, job, st, original, merged);
    hide Kept, FailsSafely;
    if ok { NativeMeets(up, accepted, job, st, original, true, after); }
    else { RollbackMeets(up, accepted, job, st, original, false, after); }
  }

  lemma RestWrite(accepted: Checker, job: Job, st: Store, original: ManagedConfig, merged: ManagedConfig)
    ensures var (after, ok) := job.write(st, merged);
            Rest(accepted, job, Writing(original, merged), st) ==
            Rest(accepted, job, if ok then Native(original, true) else RollingBack(original, false), after)
  {
  }

  /** An edit run alone keeps the promises of the transaction, whatever the environment decides. */
  lemma AloneIsEdit(up: CaseMap, accepted: Checker, job: Job, st: Store)
    requires Realistic(up, accepted, job) && WellNamed(up, st) && job.change.EditBy?
    ensures var (r, after) := Apply(accepted, job, st);
            Kept(up, st, after) && EditMeets(up, st, Found(job.read(st)), job.change.spec, r, after)
  {
    hide HasMarker, WellNamed, Holding, MergeEdit, Kept, FailsSafely;
    var spec, r := job.change.spec, job.read(st);
    KeptAlone(up, st);
    assert Reads(st, r);
    if r.Err? {
      RestLeaves(accepted, job, st, r.error);
      Untouched(up, st, Found(r), r.error);
    } else if !TouchesManaged(spec) {
      NativeMeets(up, accepted, job, st, r.value, false, st);
      RestUnmanaged(accepted, job, st, r.value);
    } else {
      var m := Merge(accepted, job, r.value, None);
      RestEdit(accepted, job, st, r.value);
      if m.Some? { WriteMeets(up, accepted, job, st, r.value, m.value); } else { Untouched(up, st, Found(r), InvalidResult); }
    }
  }

  lemma Untouched(up: CaseMap, st: Store, original: Option<ManagedConfig>, f: Failure)
    requires !RollbackFailed(Err(f)) && !Restored(Err(f))
    ensures FailsSafely(up, st, original, Err(f), st)
  {
  }

  lemma RestLeaves(accepted: Checker, job: Job, st: Store, f: Failure)
    requires job.read(st) == Err(f)
    ensures Apply(accepted, job, st) == (Err(f), st)
  {
  }

  lemma RestUnmanaged(accepted: Checker, job: Job, st: Store, original: ManagedConfig)
    requires job.change.EditBy? && !TouchesManaged(job.change.spec) && job.read(st) == Ok(original)
    ensures Apply(accepted, job, st) == Rest(accepted, job, Native(original, false), st)
  {
    hide TouchesManaged;
    assert Next(accepted, job, Reading, st) == (Merging(original, None), st);
    assert Next(accepted, job, Merging(original, None), st) == (Native(original, false), st);
  }

  lemma RestEdit(accepted: Checker, job: Job, st: Store, original: ManagedConfig)
    requires job.change.EditBy? && TouchesManaged(job.change.spec) && job.read(st) == Ok(original)
    ensures var m := Merge(accepted, job, original, None);
            Apply(accepted, job, st) ==
            if m.Some? then Rest(accepted, job, Writing(original, m.value), st) else (Err(InvalidResult), st)
  {
    hide TouchesManaged, Merge, Rest;
    GoesOn(accepted, job, Reading, st);
    GoesOn(accepted, job, Merging(original, None), st);
    RestOfLeaving(accepted, job, Leaving(Err(InvalidResult)), st);
  }

  /** The rest after one step inside the lock. */
  lemma GoesOn(accepted: Checker, job: Job, phase: Phase, store: Store)
    requires !phase.Waiting? && !phase.Done? && !phase.Leaving?
    ensures var (next, after) := Next(accepted, job, phase, store);
            Rest(accepted, job, phase, store) == Rest(accepted, job, next, after)
  {
    hide Next;
    assert Rank(Next(accepted, job, phase, store).0) < Rank(phase) by { NextRank(accepted, job, phase, store); }
  }

  lemma NextRank(accepted: Checker, job: Job, phase: Phase, store: Store)
    requires !phase.Waiting? && !phase.Done? && !phase.Leaving?
    ensures Rank(Next(accepted, job, phase, store).0) < Rank(phase)
  {
    hide Merge, Wanted;
  }

  /** A recovery update run alone keeps the promises of its transaction. */
  lemma AloneIsUpdate(up: CaseMap, accepted: Checker, job: Job, st: Store)
    requires Realistic(up, accepted, job) && WellNamed(up, st) && job.change.PolicyBy?
    ensures var (r, after) := Apply(accepted, job, st);
            && Kept(up, st, after)
            && UpdateMeets(up, st, Found(job.read(st)), Found(job.reread(st)), job.change.name, job.change.update, r, after)
  {
    hide HasMarker, WellNamed, Holding, MergeRecovery, Kept, FailsSafely, ValidSpec;
    var first, again := job.read(st), job.reread(st);
    KeptAlone(up, st);
    assert Reads(st, first) && Reads(st, again);
    RestUpdate(accepted, job, st);
    if first.Err? {
      Untouched(up, st, Found(again), first.error);
    } else if Wanted(job, first.value).None? {
      Untouched(up, st, Found(again), Unacceptable);
    } else if again.Err? {
      Untouched(up, st, Found(again), again.error);
    } else {
      var m := Merge(accepted, job, again.value, Wanted(job, first.value));
      if m.Some? { WriteMeets(up, accepted, job, st, again.value, m.value); } else { Untouched(up, st, Found(again), InvalidResult); }
    }
  }

  lemma RestUpdate(accepted: Checker, job: Job, st: Store)
    requires job.change.PolicyBy?
    ensures var first := job.read(st);
            Apply(accepted, job, st) ==
            if first.Err? then (Err(first.error), st)
            else if Wanted(job, first.value).None? then (Err(Unacceptable), st)
            else RestSave(accepted, job, st, Wanted(job, first.value).value)
  {
    hide Wanted, Merge, Rest, RestSave;
    var first := job.read(st);
    GoesOn(accepted, job, Reading, st);
    if first.Err? {
      RestOfLeaving(accepted, job, Leaving(Err(first.error)), st);
    } else {
      GoesOn(accepted, job, Computing(first.value), st);
      if Wanted(job, first.value).Some? {
        SaveIsRest(accepted, job, st, Wanted(job, first.value).value);
      } else {
        RestOfLeaving(accepted, job, Leaving(Err(Unacceptable)), st);
      }
    }
  }

  function RestSave(accepted: Checker, job: Job, st: Store, policy: RecoverySpec): (Outcome, Store) {
    var again := job.reread(st);
    if again.Err? then (Err(again.error), st)
    else
      var m := Merge(accepted, job, again.value, Some(policy));
      if m.Some? then Rest(accepted, job, Writing(again.value, m.value), st) else (Err(InvalidResult), st)
  }

  lemma SaveIsRest(accepted: Checker, job: Job, st: Store, policy: RecoverySpec)
    requires job.change.PolicyBy?
    ensures Rest(accepted, job, Inner(policy), st) == RestSave(accepted, job, st, policy)
  {
    hide Merge, Rest;
    var again := job.reread(st);
    GoesOn(accepted, job, Inner(policy), st);
    GoesOn(accepted, job, Rereading(policy), st);
    if again.Err? {
      RestOfLeaving(accepted, job, Leaving(Err(again.error)), st);
    } else {
      GoesOn(accepted, job, Merging(again.value, Some(policy)), st);
      RestOfLeaving(accepted, job, Leaving(Err(InvalidResult)), st);
    }
  }

  /** The original is written back, and the verdict says whether that succeeded. */
  function PutBack(job: Job, store: Store, original: ManagedConfig, afterNative: bool): (Outcome, Store) {
    var (after, ok) := job.rollback(store, original);
    (Err(if afterNative then NativeFailed(Some(ok)) else WriteFailed(ok)), after)
  }

  /** From the write on: an edit that updates the service manager's record does so last; whatever fails after the write
      is put back. */
  lemma WriteCourse(accepted: Checker, job: Job, st: Store, original: ManagedConfig, merged: ManagedConfig)
    ensures var (mid, ok) := job.write(st, merged);
            Rest(accepted, job, Writing(original, merged), st) ==
            if !ok then PutBack(job, mid, original, false)
            else if UpdatesNative(job) && !job.native(mid) then PutBack(job, mid, original, true)
            else (Ok(()), mid)
  {
    hide Rest;
    var (mid, ok) := job.write(st, merged);
    GoesOn(accepted, job, Writing(original, merged), st);
    if ok { GoesOn(accepted, job, Native(original, true), mid); }
    var back := job.rollback(mid, original);
    GoesOn(accepted, job, RollingBack(original, ok), mid);
    RestOfLeaving(accepted, job, Leaving(Ok(())), mid);
    RestOfLeaving(accepted, job, Leaving(PutBack(job, mid, original, ok).0), back.0);
  }

  /** The course of an edit run alone, for every decision of its environment. */
  lemma EditCourse(accepted: Checker, job: Job, st: Store)
    requires job.change.EditBy?
    ensures var (read, spec) := (job.read(st), job.change.spec);
            Apply(accepted, job, st) ==
            if read.Err? then (Err(read.error), st)
            else if !TouchesManaged(spec) then
              (if spec.native && !job.native(st) then Err(NativeFailed(None)) else Ok(()), st)
            else
              var m := MergeEdit(read.value, spec);
              if m.None? || !accepted(m.value) then (Err(InvalidResult), st)
              else Rest(accepted, job, Writing(read.value, m.value), st)
  {
    hide Rest, TouchesManaged, MergeEdit;
    var read := job.read(st);
    if read.Err? {
      RestLeaves(accepted, job, st, read.error);
    } else if !TouchesManaged(job.change.spec) {
      RestUnmanaged(accepted, job, st, read.value);
      GoesOn(accepted, job, Native(read.value, false), st);
      RestOfLeaving(accepted, job, Leaving(Ok(())), st);
      RestOfLeaving(accepted, job, Leaving(Err(NativeFailed(None))), st);
    } else {
      RestEdit(accepted, job, st, read.value);
    }
  }

  /** The course of a recovery update run alone: the policy is computed from the first reading and merged into the
      second. */
  lemma UpdateCourse(accepted: Checker, job: Job, st: Store)
    requires job.change.PolicyBy?
    ensures var (first, again, name) := (job.read(st), job.reread(st), job.change.name);
            Apply(accepted, job, st) ==
            if first.Err? then (Err(first.error), st)
            else
              var spec := job.change.update(RecoveryOf(name, first.value));
              if spec.None? || spec.value.name != name || !ValidSpec(spec.value) then (Err(Unacceptable), st)
              else if again.Err? then (Err(again.error), st)
              else if !accepted(MergeRecovery(again.value, spec.value)) then (Err(InvalidResult), st)
              else Rest(accepted, job, Writing(again.value, MergeRecovery(again.value, spec.value)), st)
  {
    hide Rest, MergeRecovery, RecoveryOf, ValidSpec;
    RestUpdate(accepted, job, st);
  }

  // -- What every interleaving keeps --------------------------------------------------------------

  /** The holder of the lock is on its way to what running alone from `base` comes to. */
  predicate OnTrack(accepted: Checker, job: Job, c: Client, store: Store, base: Store) {
    !c.phase.Waiting? && !c.phase.Done? && Rest(accepted, job, c.phase, store) == Apply(accepted, job, base)
  }

  /** The verdict of a writer that is through: that of its turn in the serial order. */
  ghost predicate Served(accepted: Checker, jobs: seq<Job>, order: seq<nat>, start: Store, i: nat, v: Outcome)
    requires i < |jobs| && Within(order, |jobs|)
  {
    if i !in order then Early(jobs[i]).Some? && v == Err(Early(jobs[i]).value)
    else exists k :: 0 <= k < |order| && order[k] == i &&
           Apply(accepted, jobs[i], Serial(accepted, jobs, order[..k], start)).0 == v
  }

  predicate Quiet(clients: seq<Client>) { forall i :: 0 <= i < |clients| ==> clients[i].depth == 0 }

  ghost predicate InOrder(jobs: seq<Job>, s: Sys) {
    && |s.clients| == |jobs|
    && Within(s.order, |jobs|)
    && (forall k, l :: 0 <= k < l < |s.order| ==> s.order[k] != s.order[l])
    && (forall i :: 0 <= i < |jobs| && s.clients[i].phase.Waiting? ==> i !in s.order)
    && (forall i :: 0 <= i < |jobs| && s.clients[i].depth == 0 ==> s.clients[i].phase.Waiting? || s.clients[i].phase.Done?)
    && (forall i :: 0 <= i < |jobs| && s.clients[i].depth > 0 ==> Free(s.clients, i) && s.order != [] && Last(s.order) == i)
  }

  ghost predicate Consistent(accepted: Checker, jobs: seq<Job>, start: Store, s: Sys) {
    && InOrder(jobs, s)
    && (forall i :: 0 <= i < |jobs| && s.clients[i].phase.Done? ==>
          s.clients[i].depth == 0 && Served(accepted, jobs, s.order, start, i, s.clients[i].phase.verdict))
    && (Quiet(s.clients) ==> s.store == Serial(accepted, jobs, s.order, start))
    && (forall i :: 0 <= i < |jobs| && s.clients[i].depth > 0 ==>
          OnTrack(accepted, jobs[i], s.clients[i], s.store, Serial(accepted, jobs, s.order[..|s.order| - 1], start)))
  }

  lemma AdvanceOnTrack(accepted: Checker, job: Job, c: Client, store: Store, base: Store)
    requires c.depth > 0 && OnTrack(accepted, job, c, store, base)
    ensures var (next, after) := Advance(accepted, job, c, store);
            if next.depth > 0 then OnTrack(accepted, job, next, after, base)
            else next.phase.Done? && Apply(accepted, job, base) == (next.phase.verdict, after)
  {
    hide Apply;
    NextGoesOn(accepted, job, c.phase, store);
    hide Next, Rest;
    if c.phase.Leaving? { RestOfLeaving(accepted, job, c.phase, store); }
  }

  lemma NextGoesOn(accepted: Checker, job: Job, phase: Phase, store: Store)
    requires !phase.Waiting? && !phase.Done?
    ensures !phase.Leaving? ==>
              var (next, after) := Next(accepted, job, phase, store);
              !next.Waiting? && !next.Done? && Rest(accepted, job, next, after) == Rest(accepted, job, phase, store)
  {
    hide Merge, Wanted;
  }

  lemma RestOfLeaving(accepted: Checker, job: Job, phase: Phase, store: Store)
    requires phase.Leaving?
    ensures Rest(accepted, job, phase, store) == (phase.verdict, store)
  {
  }

  lemma ServedLater(accepted: Checker, jobs: seq<Job>, order: seq<nat>, start: Store, i: nat, v: Outcome, next: nat)
    requires i < |jobs| && next < |jobs| && i != next && Within(order, |jobs|)
    requires Served(accepted, jobs, order, start, i, v)
    ensures Served(accepted, jobs, order + [next], start, i, v)
  {
    hide Serial, Apply, Early;
    if i in order {
      var k :| 0 <= k < |order| && order[k] == i && Apply(accepted, jobs[i], Serial(accepted, jobs, order[..k], start)).0 == v;
      assert (order + [next])[..k] == order[..k] && (order + [next])[k] == i;
    }
  }

  lemma StepConsistent(accepted: Checker, jobs: seq<Job>, start: Store, s: Sys, i: nat)
    requires Consistent(accepted, jobs, start, s) && Enabled(s, i)
    ensures Consistent(accepted, jobs, start, Step(accepted, jobs, s, i))
  {
    hide Apply, Serial, Advance, Early, Step, OnTrack;
    if s.clients[i].phase.Waiting? {
      if Early(jobs[i]).Some? { Refused(accepted, jobs, start, s, i); } else { Entered(accepted, jobs, start, s, i); }
    } else {
      Held(accepted, jobs, start, s, i);
    }
  }

  lemma Refused(accepted: Checker, jobs: seq<Job>, start: Store, s: Sys, i: nat)
    requires Consistent(accepted, jobs, start, s) && Enabled(s, i) && s.clients[i].phase.Waiting? && Early(jobs[i]).Some?
    ensures Consistent(accepted, jobs, start, Step(accepted, jobs, s, i))
  {
    hide Apply, Serial, Advance, OnTrack, Early;
    var t := Step(accepted, jobs, s, i);
    assert s.clients[i].depth == 0;
    assert forall j :: 0 <= j < |jobs| && j != i ==> t.clients[j] == s.clients[j];
    assert Quiet(t.clients) ==> Quiet(s.clients);
  }

  lemma Entered(accepted: Checker, jobs: seq<Job>, start: Store, s: Sys, i: nat)
    requires Consistent(accepted, jobs, start, s) && Enabled(s, i) && s.clients[i].phase.Waiting? && Early(jobs[i]).None?
    ensures Consistent(accepted, jobs, start, Step(accepted, jobs, s, i))
  {
    hide Serial, Served, OnTrack;
    var t := Step(accepted, jobs, s, i);
    assert s.clients[i].depth == 0 && Quiet(s.clients);
    assert t == Sys(s.store, s.clients[i := Client(Reading, 1)], s.order + [i]) by { hide Early; }
    hide Step, Early;
    assert t.order[..|t.order| - 1] == s.order;
    assert OnTrack(accepted, jobs[i], t.clients[i], t.store, s.store) by { Started(accepted, jobs[i], s.store); }
    hide Apply;
    forall j | 0 <= j < |jobs| && t.clients[j].phase.Done?
      ensures Served(accepted, jobs, t.order, start, j, t.clients[j].phase.verdict)
    {
      ServedLater(accepted, jobs, s.order, start, j, t.clients[j].phase.verdict, i);
    }
    assert !Quiet(t.clients);
  }

  lemma Started(accepted: Checker, job: Job, store: Store)
    ensures OnTrack(accepted, job, Client(Reading, 1), store, store)
  {
  }

  lemma ServedLast(accepted: Checker, jobs: seq<Job>, order: seq<nat>, start: Store, v: Outcome, store: Store)
    requires Within(order, |jobs|) && order != []
    requires Apply(accepted, jobs[Last(order)], Serial(accepted, jobs, order[..|order| - 1], start)) == (v, store)
    ensures Serial(accepted, jobs, order, start) == store && Served(accepted, jobs, order, start, Last(order), v)
  {
    hide Apply;
    assert order[|order| - 1] == Last(order);
  }

  lemma Held(accepted: Checker, jobs: seq<Job>, start: Store, s: Sys, i: nat)
    requires Consistent(accepted, jobs, start, s) && Enabled(s, i) && !s.clients[i].phase.Waiting?
    ensures Consistent(accepted, jobs, start, Step(accepted, jobs, s, i))
  {
    hide Apply, Advance, OnTrack, Serial, Served, Early;
    var c, t := s.clients[i], Step(accepted, jobs, s, i);
    assert c.depth > 0 && Last(s.order) == i && t.order == s.order;
    var base := Serial(accepted, jobs, s.order[..|s.order| - 1], start);
    AdvanceOnTrack(accepted, jobs[i], c, s.store, base);
    AdvanceLeaves(accepted, jobs[i], c, s.store);
    assert forall j :: 0 <= j < |jobs| && j != i ==> t.clients[j] == s.clients[j] && t.clients[j].depth == 0;
    if t.clients[i].depth == 0 {
      ServedLast(accepted, jobs, s.order, start, t.clients[i].phase.verdict, t.store);
    } else {
      assert !Quiet(t.clients);
    }
  }

  lemma AdvanceLeaves(accepted: Checker, job: Job, c: Client, store: Store)
    requires c.depth > 0 && !c.phase.Waiting? && !c.phase.Done?
    ensures var (next, after) := Advance(accepted, job, c, store);
            !next.phase.Waiting? && (next.phase.Done? <==> next.depth == 0)
  {
    hide Merge, Wanted;
  }

  lemma {:induction false} AlwaysConsistent(accepted: Checker, jobs: seq<Job>, start: Store, schedule: seq<nat>, s: Sys)
    requires Reaches(accepted, jobs, start, schedule, s)
    ensures Consistent(accepted, jobs, start, s)
  {
    hide Consistent, Step;
    if schedule == [] {
      Begin(accepted, jobs, start);
    } else {
      var before :| Reaches(accepted, jobs, start, schedule[..|schedule| - 1], before) && |before.clients| == |jobs|
                    && Enabled(before, Last(schedule)) && s == Step(accepted, jobs, before, Last(schedule));
      AlwaysConsistent(accepted, jobs, start, schedule[..|schedule| - 1], before);
      StepConsistent(accepted, jobs, start, before, Last(schedule));
    }
  }

  lemma Begin(accepted: Checker, jobs: seq<Job>, start: Store)
    ensures Consistent(accepted, jobs, start, Initial(jobs, start))
  {
  }

  /** However edits and policy updates interleave, and whichever of their readings, writes, native updates and
      rollbacks fail: once nobody holds the lock, the key holds what the requests make of it one after the other, in
      the order they got the lock, and every writer that is through reports what it would have reported then. */
  lemma Serializable(accepted: Checker, jobs: seq<Job>, start: Store, schedule: seq<nat>, s: Sys)
    requires Reaches(accepted, jobs, start, schedule, s) && Quiet(s.clients)
    ensures Within(s.order, |jobs|) && s.store == Serial(accepted, jobs, s.order, start)
    ensures forall k, l :: 0 <= k < l < |s.order| ==> s.order[k] != s.order[l]
    ensures |s.clients| == |jobs| && forall i :: 0 <= i < |jobs| && s.clients[i].phase.Done? ==>
              Served(accepted, jobs, s.order, start, i, s.clients[i].phase.verdict)
  {
    hide Serial, Apply, Reaches, OnTrack, Early;
    AlwaysConsistent(accepted, jobs, start, schedule, s);
  }

  /** Through any serial order, and so through any interleaving, unowned values and the marker survive. */
  lemma {:induction false} SerialKeeps(up: CaseMap, accepted: Checker, jobs: seq<Job>, order: seq<nat>, start: Store)
    requires Within(order, |jobs|) && WellNamed(up, start)
    requires forall i :: 0 <= i < |jobs| ==> Realistic(up, accepted, jobs[i])
    ensures Kept(up, start, Serial(accepted, jobs, order, start))
  {
    hide Kept, WellNamed, Realistic, Apply, EditMeets, UpdateMeets;
    if order == [] {
      KeptAlone(up, start);
    } else {
      var before, job := Serial(accepted, jobs, order[..|order| - 1], start), jobs[Last(order)];
      SerialKeeps(up, accepted, jobs, order[..|order| - 1], start);
      KeptIsNamed(up, start, before);
      AloneMeets(up, accepted, job, before);
      KeptTwice(up, start, before, Serial(accepted, jobs, order, start));
    }
  }

  /** What the transaction of a request promises of its outcome. */
  ghost predicate Meets(up: CaseMap, job: Job, before: Store, r: Outcome, after: Store) {
    && Kept(up, before, after)
    && (job.change.EditBy? ==> EditMeets(up, before, Found(job.read(before)), job.change.spec, r, after))
    && (job.change.PolicyBy? ==>
          UpdateMeets(up, before, Found(job.read(before)), Found(job.reread(before)), job.change.name, job.change.update,
                      r, after))
  }

  /** Whatever the interleaving: what a writer reports meets the promises of its transaction, from what the requests
      before it left to what the next one finds. */
  lemma EachMeetsItsPromise(up: CaseMap, accepted: Checker, jobs: seq<Job>, start: Store, schedule: seq<nat>, s: Sys, i: nat)
    requires Reaches(accepted, jobs, start, schedule, s) && Quiet(s.clients) && WellNamed(up, start)
    requires forall j :: 0 <= j < |jobs| ==> Realistic(up, accepted, jobs[j])
    requires i in s.order && i < |jobs| && i < |s.clients| && s.clients[i].phase.Done?
    ensures Within(s.order, |jobs|)
    ensures exists k :: 0 <= k < |s.order| && s.order[k] == i &&
              Meets(up, jobs[i], Serial(accepted, jobs, s.order[..k], start), s.clients[i].phase.verdict,
                    Serial(accepted, jobs, s.order[..k + 1], start))
  {
    hide Reaches, Apply, Kept, EditMeets, UpdateMeets, Realistic, WellNamed, Quiet, Serial, Meets;
    Serializable(accepted, jobs, start, schedule, s);
    var v := s.clients[i].phase.verdict;
    var k :| 0 <= k < |s.order| && s.order[k] == i
             && Apply(accepted, jobs[i], Serial(accepted, jobs, s.order[..k], start)).0 == v;
    SerialKeeps(up, accepted, jobs, s.order[..k], start);
    var before := Serial(accepted, jobs, s.order[..k], start);
    KeptIsNamed(up, start, before);
    SerialNext(accepted, jobs, s.order, k, start);
    AloneMeets(up, accepted, jobs[i], before);
  }

  lemma AloneMeets(up: CaseMap, accepted: Checker, job: Job, st: Store)
    requires Realistic(up, accepted, job) && WellNamed(up, st)
    ensures Meets(up, job, st, Apply(accepted, job, st).0, Apply(accepted, job, st).1)
  {
    hide Kept, WellNamed, Realistic, Apply, EditMeets, UpdateMeets;
    if job.change.EditBy? { AloneIsEdit(up, accepted, job, st); } else { AloneIsUpdate(up, accepted, job, st); }
  }

  lemma SerialNext(accepted: Checker, jobs: seq<Job>, order: seq<nat>, k: nat, start: Store)
    requires Within(order, |jobs|) && k < |order|
    ensures Serial(accepted, jobs, order[..k + 1], start) ==
            Apply(accepted, jobs[order[k]], Serial(accepted, jobs, order[..k], start)).1
  {
    hide Apply;
    assert order[..k + 1][..k] == order[..k];
  }

  lemma KeptIsNamed(up: CaseMap, before: KeyState, after: KeyState)
    requires Kept(up, before, after)
    ensures WellNamed(up, after)
  {
  }

  /** A writer holding the lock is never kept waiting, not even by its own inner lock. */
  lemma HolderProceeds(accepted: Checker, jobs: seq<Job>, start: Store, schedule: seq<nat>, s: Sys, i: nat)
    requires Reaches(accepted, jobs, start, schedule, s) && i < |s.clients| && s.clients[i].depth > 0
    ensures Enabled(s, i)
  {
    hide Serial, Apply, Reaches, OnTrack, Early;
    AlwaysConsistent(accepted, jobs, start, schedule, s);
  }
}
