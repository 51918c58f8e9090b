/** Edits and recovery updates of a managed service: read, merge, check, write, and put back on failure. */
module Transactions {
  import opened Prelude
  import opened Text
  import opened ExitCodes
  import opened RecoveryForm
  import opened Config
  import opened Registry
  import opened Reconcile
  import opened RegistryRead
  import opened RoundTrip

  /** `restored` and `rollback` say whether the original was written back; `None` when nothing had been written. */
  datatype Failure =
    | NoChange | Unacceptable | NoLock | ReadFailed | NotManaged | InvalidResult
    | WriteFailed(restored: bool)
    | NativeFailed(rollback: Option<bool>)

  datatype WriteFailure = NoMarker | Refusal(error: WriteError) | Unavailable

  type Outcome = Result<(), Failure>

  predicate RollbackFailed(r: Outcome) { r in {Err(WriteFailed(false)), Err(NativeFailed(Some(false)))} }

  predicate Restored(r: Outcome) { r in {Err(WriteFailed(true)), Err(NativeFailed(Some(true)))} }

  // -- The store ---------------------------------------------------------------------------

  /** The marker that makes a service a managed one. */
  predicate HasMarker(st: KeyState) {
    var t := ReadText(st, Application);
    t.Ok? && t.value.Some? && Trim(t.value.value.0) != ""
  }

  /** What a reader of the key sees when it is a managed configuration. */
  function Current(st: KeyState, order: Order): Option<ManagedConfig>
    requires OrderOf(order, st)
  {
    var r := ReadConfig(st, order);
    if r.Ok? && r.value.Some? then r.value else None
  }

  /** The store holds `cfg`. */
  ghost predicate Holding(up: CaseMap, cfg: ManagedConfig, st: KeyState) {
    Accepts(up, cfg) && Reflects(up, cfg, Merged(cfg).value, st)
  }

  lemma HoldingHasMarker(up: CaseMap, cfg: ManagedConfig, st: KeyState)
    requires Holding(up, cfg, st)
    ensures HasMarker(st)
  {
    AcceptedShape(up, cfg);
    assert Get(st.values, Application) == WantData(up, cfg, Application);
    hide Accepts, Trim, Marked, TextOf, DataOf, Merged, Reflects;
    TextBack(cfg.application.value, Marked(up, cfg, "Application"));
  }

  /** Writes a whole configuration over a key that carries the marker. */
  method WriteManaged(key: RegKey, cfg: ManagedConfig) returns (r: Result<(), WriteFailure>)
    requires SoundCase(key.up) && WellNamed(key.up, key.st)
    modifies key
    ensures Kept(key.up, old(key.st), key.st)
    ensures r.Ok? ==> HasMarker(old(key.st)) && Holding(key.up, cfg, key.st)
    ensures r.Err? && r.error != Refusal(Fault) ==> key.st == old(key.st)
    ensures !HasMarker(old(key.st)) ==> r.Err? && key.st == old(key.st)
    ensures Readable(old(key.st)) ==> Readable(key.st)
    ensures old(key.faults) <= key.faults <= old(key.faults) + 1
    ensures key.faults == old(key.faults) ==>
              (r.Ok? <==> Accepts(key.up, cfg) && HasMarker(old(key.st)) && Readable(old(key.st)))
    ensures r.Ok? ==> key.faults == old(key.faults)
  {
    var checked := Preflight(key.up, cfg);
    if checked.Err? { return Err(Refusal(Rejected)); }
    var unavailable := key.Fails();
    if unavailable { return Err(Unavailable); }
    if !HasMarker(key.st) { return Err(NoMarker); }
    hide Accepts, Reflects, Between, HasMarker, WellNamed, SoundCase, Merged, Trim;
    ghost var before := key.st;
    var w := WriteIntoKey(key, cfg);
    if w.Err? {
      if key.st != before { MarkerSurvives(key.up, cfg, before, key.st); }
      return Err(Refusal(w.error));
    }
    HoldingHasMarker(key.up, cfg, key.st);
    return Ok(());
  }

  lemma MarkerSurvives(up: CaseMap, cfg: ManagedConfig, before: KeyState, st: KeyState)
    requires Accepts(up, cfg) && Merged(cfg).Ok? && Between(up, cfg, Merged(cfg).value, before, st)
    ensures HasMarker(before) ==> HasMarker(st)
    ensures st.foreign == before.foreign
  {
    hide Accepts, Merged;
    if HasMarker(before) { ApplicationSurvives(up, cfg, Merged(cfg).value, before, st); }
  }

  // -- What the operations promise ---------------------------------------------------------------

  /** Unowned values and the marker outlive every operation. */
  ghost predicate Kept(up: CaseMap, before: KeyState, after: KeyState) {
    WellNamed(up, after) && after.foreign == before.foreign && (HasMarker(before) ==> HasMarker(after))
  }

  /** Unless it says that putting back failed, an error means that the original is in the store. */
  ghost predicate FailsSafely(up: CaseMap, before: KeyState, original: Option<ManagedConfig>, r: Outcome, after: KeyState) {
    && (r.Err? && !RollbackFailed(r) && !Restored(r) ==> after == before)
    && (Restored(r) ==> original.Some? && Holding(up, original.value, after))
  }

  /** Writes the original back. That succeeds unless an operation fails once more, if the original passes the checks. */
  method Rollback(key: RegKey, original: ManagedConfig) returns (restored: bool)
    requires SoundCase(key.up) && WellNamed(key.up, key.st)
    modifies key
    ensures Kept(key.up, old(key.st), key.st)
    ensures restored ==> Holding(key.up, original, key.st)
    ensures old(key.faults) <= key.faults <= old(key.faults) + 1
    ensures restored <==>
            key.faults == old(key.faults) && Accepts(key.up, original) && HasMarker(old(key.st)) && Readable(old(key.st))
  {
    hide Accepts, HasMarker, Readable, Kept, Holding;
    var r := WriteManaged(key, original);
    return r.Ok?;
  }

  /** A rollback of something that passes the checks only fails if something fails a second time. */
  ghost predicate TwiceFailed(up: CaseMap, original: Option<ManagedConfig>, r: Outcome, failures: int) {
    RollbackFailed(r) ==> original.Some? && (Accepts(up, original.value) ==> failures >= 2)
  }

  // -- Editing -------------------------------------------------------------------------------

  datatype EditSpec = EditSpec(
    application: Option<string>,
    appParameters: Option<string>,
    appDirectory: Option<string>,
    stdout: Option<string>,
    stderr: Option<string>,
    native: bool)

  predicate TouchesManaged(spec: EditSpec) {
    spec.application.Some? || spec.appParameters.Some? || spec.appDirectory.Some? || spec.stdout.Some? || spec.stderr.Some?
  }

  function MergeStream(s: Option<IoStream>, path: Option<string>): Option<IoStream> {
    match path
    case None => s
    case Some(p) =>
      if p == "" then None
      else if s.Some? then Some(s.value.(path := p))
      else Some(IoStream(p, None, None, None, None))
  }

  function Or<T>(a: Option<T>, b: Option<T>): Option<T> { if a.Some? then a else b }

  /** The marks that stay when the paths `cleared` says so are taken away. */
  function KeepMarks(marks: set<string>, spec: EditSpec): set<string> {
    set m | m in marks && !(spec.stdout == Some("") && EqIgnoreAsciiCase(m, "AppStdout"))
            && !(spec.stderr == Some("") && EqIgnoreAsciiCase(m, "AppStderr"))
  }

  /** `None` if the edit would blank the application. */
  function MergeEdit(cfg: ManagedConfig, spec: EditSpec): Option<ManagedConfig> {
    if spec.application.Some? && Trim(spec.application.value) == "" then None
    else Some(cfg.(application := Or(spec.application, cfg.application),
                   appParameters := Or(spec.appParameters, cfg.appParameters),
                   appDirectory := Or(spec.appDirectory, cfg.appDirectory),
                   stdout := MergeStream(cfg.stdout, spec.stdout),
                   stderr := MergeStream(cfg.stderr, spec.stderr),
                   expandable := KeepMarks(cfg.expandable, spec)))
  }

  /** Updates the edited fields of a copy one after the other. */
  method MergeManagedFields(cfg: ManagedConfig, spec: EditSpec) returns (r: Option<ManagedConfig>)
    ensures r == MergeEdit(cfg, spec)
  {
    var managed := cfg;
    if spec.application.Some? {
      if Trim(spec.application.value) == "" { return None; }
      managed := managed.(application := spec.application);
    }
    if spec.appParameters.Some? { managed := managed.(appParameters := spec.appParameters); }
    if spec.appDirectory.Some? { managed := managed.(appDirectory := spec.appDirectory); }
    managed := managed.(stdout := MergeStream(managed.stdout, spec.stdout));
    managed := managed.(stderr := MergeStream(managed.stderr, spec.stderr));
    var marks := managed.expandable;
    if spec.stdout == Some("") { marks := set m | m in marks && !EqIgnoreAsciiCase(m, "AppStdout"); }
    if spec.stderr == Some("") { marks := set m | m in marks && !EqIgnoreAsciiCase(m, "AppStderr"); }
    assert marks == KeepMarks(cfg.expandable, spec);
    return Some(managed.(expandable := marks));
  }

  /** Only what the edit names changes: a new path keeps the stream's options and its mark, clearing a path takes
      both away, every other mark stays. */
  lemma EditTouchesOnlyNamed(cfg: ManagedConfig, spec: EditSpec, name: string)
    requires MergeEdit(cfg, spec).Some?
    ensures var m := MergeEdit(cfg, spec).value;
            && m == cfg.(application := m.application, appParameters := m.appParameters, appDirectory := m.appDirectory,
                         stdout := m.stdout, stderr := m.stderr, expandable := m.expandable)
            && m.application == (if spec.application.Some? then spec.application else cfg.application)
            && m.appParameters == (if spec.appParameters.Some? then spec.appParameters else cfg.appParameters)
            && m.appDirectory == (if spec.appDirectory.Some? then spec.appDirectory else cfg.appDirectory)
            && StreamEdited(cfg.stdout, spec.stdout, m.stdout) && StreamEdited(cfg.stderr, spec.stderr, m.stderr)
            && (IsExpandable(m, name) <==>
                  && IsExpandable(cfg, name)
                  && !(spec.stdout == Some("") && EqIgnoreAsciiCase(name, "AppStdout"))
                  && !(spec.stderr == Some("") && EqIgnoreAsciiCase(name, "AppStderr")))
  {
    forall mark: string | EqIgnoreAsciiCase(mark, name)
      ensures EqIgnoreAsciiCase(mark, "AppStdout") == EqIgnoreAsciiCase(name, "AppStdout")
      ensures EqIgnoreAsciiCase(mark, "AppStderr") == EqIgnoreAsciiCase(name, "AppStderr")
    {
      SameCaseSame(mark, name, "AppStdout");
      SameCaseSame(mark, name, "AppStderr");
    }
    hide EqIgnoreAsciiCase;
    var m := MergeEdit(cfg, spec).value;
    if IsExpandable(cfg, name) {
      var mark :| mark in cfg.expandable && EqIgnoreAsciiCase(mark, name);
      assert mark in m.expandable <==> mark in KeepMarks(cfg.expandable, spec);
    }
  }

  predicate StreamEdited(before: Option<IoStream>, path: Option<string>, after: Option<IoStream>) {
    if path.None? then after == before
    else if path.value == "" then after.None?
    else
      && after.Some? && after.value.path == path.value
      && (before.Some? ==> after.value == before.value.(path := path.value))
      && (before.None? ==> after.value == IoStream(path.value, None, None, None, None))
  }

  lemma SameCaseSame(a: string, b: string, c: string)
    requires EqIgnoreAsciiCase(a, b)
    ensures EqIgnoreAsciiCase(a, c) == EqIgnoreAsciiCase(b, c)
  {
  }

  /** Making the same edit again changes nothing. */
  lemma EditTwice(cfg: ManagedConfig, spec: EditSpec)
    requires MergeEdit(cfg, spec).Some?
    ensures MergeEdit(MergeEdit(cfg, spec).value, spec) == MergeEdit(cfg, spec)
  {
    hide EqIgnoreAsciiCase, Trim;
    var marks := KeepMarks(cfg.expandable, spec);
    assert KeepMarks(marks, spec) == marks;
  }

  /** The service manager's own record of a service; an update may be partial and is never undone. */
  class NativeService {
    /** What the managed store held whenever an update was attempted. */
    ghost var attempts: seq<KeyState>
    /** How many of them have failed. */
    ghost var failures: nat

    constructor ()
      ensures attempts == [] && failures == 0
    {
      attempts, failures := [], 0;
    }

    method Update(ghost store: KeyState) returns (ok: bool)
      modifies this
      ensures attempts == old(attempts) + [store] && failures == old(failures) + if ok then 0 else 1
    {
      attempts := attempts + [store];
      ok := *;
      if !ok { failures := failures + 1; }
    }
  }

  /** Success: the store holds the merge of what was read, or is untouched when nothing managed was to change. */
  ghost predicate EditMeets(up: CaseMap, before: KeyState, original: Option<ManagedConfig>, spec: EditSpec, r: Outcome,
                            after: KeyState) {
    && FailsSafely(up, before, original, r, after)
    && (r.Ok? ==> original.Some?)
    && (r.Ok? && !TouchesManaged(spec) ==> after == before)
    && (r.Ok? && TouchesManaged(spec) ==>
          MergeEdit(original.value, spec).Some? && Holding(up, MergeEdit(original.value, spec).value, after))
  }

  /** The answer to an edit when nothing fails. */
  ghost function EditAnswer(up: CaseMap, read: Read<Option<ManagedConfig>>, spec: EditSpec, acceptable: bool): Outcome {
    if !TouchesManaged(spec) && !spec.native then Err(NoChange)
    else if !acceptable then Err(Unacceptable)
    else if read.Err? then Err(ReadFailed)
    else if read.value.None? then Err(NotManaged)
    else if TouchesManaged(spec) && !(MergeEdit(read.value.value, spec).Some? && Accepts(up, MergeEdit(read.value.value, spec).value))
    then Err(InvalidResult)
    else Ok(())
  }

  /** What has been read carries the marker, and all its spellings could be read. */
  lemma ReadIsReadable(st: KeyState, order: Order)
    requires OrderOf(order, st) && Current(st, order).Some?
    ensures HasMarker(st) && Readable(st)
  {
    hide ReadNumber, ReadFlag, ReadBlock, ReadStream, ReadExits, ReadEvents, ReadText, Trim, Join64, MarkOf, Plain;
    assert ReadExits(OrEmpty(st.exit), order.exits).Ok?;
    assert ReadEvents(OrEmpty(st.events), order.events, order.actions).Ok?;
    hide ReadConfig;
    ReadExitsNamed(OrEmpty(st.exit), order.exits);
    ReadEventsNamed(OrEmpty(st.events), order.events, order.actions);
  }

  lemma {:induction false} ReadExitsNamed(values: map<string, Named>, ids: seq<string>)
    requires forall id :: id in ids ==> id in values
    requires ReadExits(values, ids).Ok?
    ensures forall id :: id in ids ==> values[id].name.Some?
  {
    hide Insert, Normalize, TextOf, ParseAction;
    if ids != [] { ReadExitsNamed(values, ids[..|ids| - 1]); }
  }

  lemma {:induction false} ReadActionsNamed(event: string, values: map<string, Named>, ids: seq<string>)
    requires forall id :: id in ids ==> id in values
    requires ReadActions(event, values, ids).Ok?
    ensures forall id :: id in ids ==> values[id].name.Some?
  {
    hide TextOf;
    if ids != [] { ReadActionsNamed(event, values, ids[..|ids| - 1]); }
  }

  lemma {:induction false} ReadEventsNamed(events: map<string, EventKey>, ids: seq<string>, actions: map<string, seq<string>>)
    requires ListsActions(events, ids, actions) && ReadEvents(events, ids, actions).Ok?
    ensures forall e :: e in ids ==> events[e].name.Some? && ReadableValues(events[e].values)
  {
    hide ReadActions;
    if ids != [] {
      var e := Last(ids);
      ReadEventsNamed(events, ids[..|ids| - 1], actions);
      ReadActionsNamed(events[e].name.value, events[e].values, actions[e]);
    }
  }

  /** An update of one service. With one failure at most it never ends with a failed rollback, if what was read passes
      the checks; with none it does what it is asked to. */
  method Edit(key: RegKey, scm: NativeService, spec: EditSpec, order: Order, acceptable: bool) returns (r: Outcome)
    requires SoundCase(key.up) && WellNamed(key.up, key.st) && OrderOf(order, key.st)
    modifies key, scm
    ensures Kept(key.up, old(key.st), key.st)
    ensures EditMeets(key.up, old(key.st), Current(old(key.st), order), spec, r, key.st)
    // The native update is attempted at most once, and only on top of the finished managed write.
    ensures scm.attempts == old(scm.attempts) ||
            exists st :: scm.attempts == old(scm.attempts) + [st] && Current(old(key.st), order).Some? &&
              if TouchesManaged(spec) then
                var merged := MergeEdit(Current(old(key.st), order).value, spec);
                merged.Some? && Holding(key.up, merged.value, st)
              else st == old(key.st)
    ensures scm.attempts == old(scm.attempts) ==> !r.Err? || !r.error.NativeFailed?
    ensures r.Ok? && spec.native ==> scm.attempts != old(scm.attempts)
    ensures key.faults == old(key.faults) && scm.failures == old(scm.failures) ==>
              r == EditAnswer(key.up, ReadConfig(old(key.st), order), spec, acceptable)
    ensures TwiceFailed(key.up, Current(old(key.st), order), r, key.faults - old(key.faults) + scm.failures - old(scm.failures))
  {
    hide WellNamed, SoundCase, HasMarker, Holding, MergeEdit, ReadConfig, TouchesManaged, Accepts, Merged, OrderOf, Readable;
    if !TouchesManaged(spec) && !spec.native { return Err(NoChange); }
    if !acceptable { return Err(Unacceptable); }
    var failed := key.Fails();
    if failed { return Err(NoLock); }
    failed := key.Fails();
    if failed { return Err(ReadFailed); }
    var current := ReadConfig(key.st, order);
    if current.Err? { return Err(ReadFailed); }
    if current.value.None? { return Err(NotManaged); }
    var original := current.value.value;
    ReadIsReadable(key.st, order);
    if TouchesManaged(spec) {
      var managed := MergeManagedFields(original, spec);
      if managed.None? { return Err(InvalidResult); }
      var checked := Preflight(key.up, managed.value);
      if checked.Err? { return Err(InvalidResult); }
      var w := WriteManaged(key, managed.value);
      if w.Err? {
        var restored := Rollback(key, original);
        return Err(WriteFailed(restored));
      }
    }
    if spec.native {
      var ok := scm.Update(key.st);
      if !ok {
        if !TouchesManaged(spec) { return Err(NativeFailed(None)); }
        var restored := Rollback(key, original);
        return Err(NativeFailed(Some(restored)));
      }
    }
    return Ok(());
  }

  // -- Recovery policies -----------------------------------------------------------------------

  function MergeRecovery(cfg: ManagedConfig, spec: RecoverySpec): ManagedConfig {
    cfg.(restartDelay := spec.restartDelay, throttleDelay := spec.throttleDelay,
         defaultAction := Some(spec.defaultAction), exitActions := spec.exitActions)
  }

  /** The policy in a configuration; the mirrored default is not one of its codes. */
  function RecoveryOf(name: string, cfg: ManagedConfig): RecoverySpec {
    RecoverySpec(name, cfg.restartDelay, cfg.throttleDelay,
                 if cfg.defaultAction.Some? then cfg.defaultAction.value else Restart,
                 cfg.exitActions - {DEFAULT})
  }

  predicate ValidSpec(spec: RecoverySpec) { forall code :: code in spec.exitActions ==> ValidateKey(code) }

  ghost function SaveAnswer(up: CaseMap, read: Read<Option<ManagedConfig>>, spec: RecoverySpec): Outcome {
    if !ValidSpec(spec) then Err(Unacceptable)
    else if read.Err? then Err(ReadFailed)
    else if read.value.None? then Err(NotManaged)
    else if !Accepts(up, MergeRecovery(read.value.value, spec)) then Err(InvalidResult)
    else Ok(())
  }

  method SaveRecovery(key: RegKey, spec: RecoverySpec, order: Order) returns (r: Outcome)
    requires SoundCase(key.up) && WellNamed(key.up, key.st) && OrderOf(order, key.st)
    modifies key
    ensures Kept(key.up, old(key.st), key.st)
    ensures FailsSafely(key.up, old(key.st), Current(old(key.st), order), r, key.st)
    ensures r.Ok? ==> ValidSpec(spec) && Current(old(key.st), order).Some?
    ensures r.Ok? ==> Holding(key.up, MergeRecovery(Current(old(key.st), order).value, spec), key.st)
    ensures key.faults == old(key.faults) ==> r == SaveAnswer(key.up, ReadConfig(old(key.st), order), spec)
    ensures TwiceFailed(key.up, Current(old(key.st), order), r, key.faults - old(key.faults))
  {
    hide WellNamed, SoundCase, HasMarker, Holding, ReadConfig, ValidateKey, Accepts, Merged, OrderOf, Readable;
    if exists code :: code in spec.exitActions && !ValidateKey(code) { return Err(Unacceptable); }
    var failed := key.Fails();
    if failed { return Err(NoLock); }
    failed := key.Fails();
    if failed { return Err(ReadFailed); }
    var current := ReadConfig(key.st, order);
    if current.Err? { return Err(ReadFailed); }
    if current.value.None? { return Err(NotManaged); }
    var original := current.value.value;
    ReadIsReadable(key.st, order);
    var managed := original;
    managed := managed.(restartDelay := spec.restartDelay);
    managed := managed.(throttleDelay := spec.throttleDelay);
    managed := managed.(defaultAction := Some(spec.defaultAction));
    managed := managed.(exitActions := spec.exitActions);
    var checked := Preflight(key.up, managed);
    if checked.Err? { return Err(InvalidResult); }
    var w := WriteManaged(key, managed);
    if w.Err? {
      var restored := Rollback(key, original);
      return Err(WriteFailed(restored));
    }
    return Ok(());
  }

  /** Success: the policy computed from what was read first replaces that of what was read under the inner lock. */
  ghost predicate UpdateMeets(up: CaseMap, before: KeyState, first: Option<ManagedConfig>, original: Option<ManagedConfig>,
                              name: string, update: RecoverySpec -> Option<RecoverySpec>, r: Outcome, after: KeyState) {
    && FailsSafely(up, before, original, r, after)
    && (r.Ok? ==> first.Some? && original.Some?)
    && (r.Ok? ==>
          var spec := update(RecoveryOf(name, first.value));
          && spec.Some? && spec.value.name == name && ValidSpec(spec.value)
          && Holding(up, MergeRecovery(original.value, spec.value), after))
  }

  ghost function UpdateAnswer(up: CaseMap, read: Read<Option<ManagedConfig>>, again: Read<Option<ManagedConfig>>, name: string,
                              update: RecoverySpec -> Option<RecoverySpec>): Outcome {
    if read.Err? then Err(ReadFailed)
    else if read.value.None? then Err(NotManaged)
    else
      var spec := update(RecoveryOf(name, read.value.value));
      if spec.None? || spec.value.name != name then Err(Unacceptable) else SaveAnswer(up, again, spec.value)
  }

  /** Reads, lets `update` compute a new policy and saves it, all under one lock. */
  method UpdateRecovery(key: RegKey, name: string, update: RecoverySpec -> Option<RecoverySpec>, order: Order,
                        again: Order)
    returns (r: Outcome)
    requires SoundCase(key.up) && WellNamed(key.up, key.st) && OrderOf(order, key.st) && OrderOf(again, key.st)
    modifies key
    ensures Kept(key.up, old(key.st), key.st)
    ensures UpdateMeets(key.up, old(key.st), Current(old(key.st), order), Current(old(key.st), again), name, update, r, key.st)
    ensures key.faults == old(key.faults) ==>
              r == UpdateAnswer(key.up, ReadConfig(old(key.st), order), ReadConfig(old(key.st), again), name, update)
    ensures TwiceFailed(key.up, Current(old(key.st), again), r, key.faults - old(key.faults))
  {
    hide WellNamed, SoundCase, HasMarker, Holding, ReadConfig, Accepts, Merged, OrderOf, Readable;
    var failed := key.Fails();
    if failed { return Err(NoLock); }
    failed := key.Fails();
    if failed { return Err(ReadFailed); }
    var current := ReadConfig(key.st, order);
    if current.Err? { return Err(ReadFailed); }
    if current.value.None? { return Err(NotManaged); }
    var spec := update(RecoveryOf(name, current.value.value));
    if spec.None? { return Err(Unacceptable); }
    if spec.value.name != name { return Err(Unacceptable); }
    r := SaveRecovery(key, spec.value, again);
  }

  // -- Reading back ----------------------------------------------------------------------------------

  ghost predicate Tabulates(entries: seq<Entry>, all: Actions) {
    && (forall e :: e in entries ==> e.name in all && all[e.name] == e.action && Normalize(e.name) == Ok(e.name))
    && (forall code :: code in all ==> Entry(code, all[code]) in entries)
  }

  lemma TabulatedMerge(entries: seq<Entry>, all: Actions)
    requires Tabulates(entries, all)
    ensures InsertAll(entries) == Ok(all)
  {
    InsertAllExact(entries);
    hide InsertAll, Normalize;
    assert Consistent(entries);
    var out := InsertAll(entries).value;
    forall code | code in all
      ensures code in out && out[code] == all[code]
    {
      assert Entry(code, all[code]) in entries;
    }
    forall code | code in out
      ensures code in all
    {
      var e :| e in entries && Normalize(e.name) == Ok(code);
    }
    assert out == all;
  }

  function WithDefault(cfg: ManagedConfig): Actions {
    if cfg.defaultAction.Some? then cfg.exitActions[DEFAULT := cfg.defaultAction.value] else cfg.exitActions
  }

  /** A table of canonical codes that agrees with the default is already merged. */
  lemma MergedOfCanonical(cfg: ManagedConfig)
    requires AllCodes(cfg.exitActions)
    requires cfg.defaultAction.Some? && DEFAULT in cfg.exitActions ==> cfg.exitActions[DEFAULT] == cfg.defaultAction.value
    ensures Merged(cfg) == Ok(WithDefault(cfg))
  {
    var listed := EntriesFor(Listing(cfg.exitActions), cfg.exitActions);
    var entries, all := listed + DefaultEntry(cfg), WithDefault(cfg);
    ListingEntries(cfg.exitActions);
    hide InsertAll, Normalize, IsCode, EntriesFor, Listing;
    forall e | e in entries
      ensures e.name in all && all[e.name] == e.action && Normalize(e.name) == Ok(e.name)
    {
      if e in listed { CodeFixed(e.name); } else { DefaultFixed(); }
    }
    forall code | code in all
      ensures Entry(code, all[code]) in entries
    {
      var e := Entry(code, all[code]);
      assert e in listed || e in DefaultEntry(cfg);
    }
    TabulatedMerge(entries, all);
  }

  lemma CodeFixed(code: string)
    requires IsCode(code)
    ensures Normalize(code) == Ok(code)
  {
    if code == DEFAULT { DefaultFixed(); } else { CanonicalKeys(code); }
  }

  lemma DefaultFixed()
    ensures Normalize(DEFAULT) == Ok(DEFAULT) && !ValidateKey(DEFAULT)
  {
    if ValidateKey(DEFAULT) { CanonicalKeys(DEFAULT); }
  }

  lemma ReadCode(n: Named)
    requires ReadExitEntry(n).Ok?
    ensures IsCode(ReadExitEntry(n).value.name) && Normalize(ReadExitEntry(n).value.name) == Ok(ReadExitEntry(n).value.name)
  {
    hide Normalize, ValidateKey, TextOf, ParseAction;
    var code := ReadExitEntry(n).value.name;
    NormalizeIdempotent(n.name.value);
    CanonicalKeys(code);
  }

  lemma {:induction false} ReadCodes(values: map<string, Named>, ids: seq<string>)
    requires forall id :: id in ids ==> id in values
    requires ReadExits(values, ids).Ok?
    ensures AllCodes(ReadExits(values, ids).value)
  {
    hide Normalize, IsCode, ReadExitEntry;
    if ids != [] {
      ReadCodes(values, ids[..|ids| - 1]);
      ReadCode(values[Last(ids)]);
    }
  }

  /** Whatever is read has canonical codes, and its default is the mirrored one. */
  lemma ReadIsCanonical(st: KeyState, order: Order)
    requires OrderOf(order, st) && Current(st, order).Some?
    ensures var c := Current(st, order).value;
            AllCodes(c.exitActions) && c.defaultAction == Get(c.exitActions, DEFAULT) && Merged(c) == Ok(c.exitActions)
  {
    hide AllCodes, ReadText, ReadNumber, ReadFlag, ReadBlock, ReadStream, ReadExits, ReadEvents, Merged, Trim, Join64,
         MarkOf, Plain;
    var c := Current(st, order).value;
    assert ReadExits(OrEmpty(st.exit), order.exits) == Ok(c.exitActions);
    ReadCodes(OrEmpty(st.exit), order.exits);
    MergedOfCanonical(c);
    assert c.defaultAction.Some? ==> c.exitActions[DEFAULT := c.defaultAction.value] == c.exitActions;
  }

  /** The same configuration up to the order and the case of hooks; the marks are exactly those of `c` that concern
      something it has. */
  ghost predicate SameUpToHookCase(up: CaseMap, c: ManagedConfig, d: ManagedConfig) {
    && d == c.(hooks := d.hooks, expandable := d.expandable)
    && (forall h :: h in d.hooks ==> StoredHook(up, c, h))
    && (forall g :: g in c.hooks ==> HasId(up, d.hooks, Identity(up, g)))
    && OnceEach(up, d.hooks)
    && (forall m :: m in d.expandable <==> Marked(up, c, m) && (NamesText(up, c, m) || HasMark(d.hooks, m)))
  }

  /** After a rollback that succeeded, everyone reads the original again. */
  lemma RestoredReadsBack(up: CaseMap, before: KeyState, order: Order, st: KeyState, later: Order)
    requires SoundCase(up) && OrderOf(order, before) && Current(before, order).Some?
    requires Holding(up, Current(before, order).value, st) && OrderOf(later, st)
    ensures Current(st, later).Some? && SameUpToHookCase(up, Current(before, order).value, Current(st, later).value)
  {
    hide Accepts, Merged, Reflects, ReadConfig, SoundCase, OrderOf, AllCodes, StoredHook, HasId, OnceEach, Marked;
    var c := Current(before, order).value;
    ReadIsCanonical(before, order);
    AcceptedShape(up, c);
    WriteThenRead(up, c, st, later);
    var d := Current(st, later).value;
    assert c.(exitActions := Merged(c).value, defaultAction := Get(Merged(c).value, DEFAULT)) == c;
  }

  /** After an edit everyone reads what was there before with just what was edited changed. */
  lemma EditReadsBack(up: CaseMap, before: KeyState, order: Order, spec: EditSpec, st: KeyState, later: Order)
    requires SoundCase(up) && OrderOf(order, before) && Current(before, order).Some?
    requires MergeEdit(Current(before, order).value, spec).Some?
    requires Holding(up, MergeEdit(Current(before, order).value, spec).value, st) && OrderOf(later, st)
    ensures Current(st, later).Some?
    ensures SameUpToHookCase(up, MergeEdit(Current(before, order).value, spec).value, Current(st, later).value)
  {
    hide Accepts, Merged, Reflects, ReadConfig, SoundCase, OrderOf, AllCodes, StoredHook, HasId, OnceEach, Marked, Trim,
         MergeStream, KeepMarks;
    var c := Current(before, order).value;
    var e := MergeEdit(c, spec).value;
    ReadIsCanonical(before, order);
    SameCodesMerge(c, e);
    AcceptedShape(up, e);
    WriteThenRead(up, e, st, later);
    assert e.(exitActions := Merged(e).value, defaultAction := Get(Merged(e).value, DEFAULT)) == e;
  }

  lemma SameCodesMerge(c: ManagedConfig, e: ManagedConfig)
    requires c.exitActions == e.exitActions && c.defaultAction == e.defaultAction
    ensures Merged(c) == Merged(e)
  {
  }

  /** After a save everyone reads what was there before with just the two delays, the default action and the codes
      replaced; the default is mirrored as one of the codes. */
  lemma SavedReadsBack(up: CaseMap, before: KeyState, order: Order, spec: RecoverySpec, st: KeyState, later: Order)
    requires SoundCase(up) && OrderOf(order, before) && Current(before, order).Some? && ValidSpec(spec)
    requires Holding(up, MergeRecovery(Current(before, order).value, spec), st) && OrderOf(later, st)
    ensures Current(st, later).Some?
    ensures var c := Current(before, order).value;
            SameUpToHookCase(
              up,
              c.(restartDelay := spec.restartDelay, throttleDelay := spec.throttleDelay,
                 defaultAction := Some(spec.defaultAction),
                 exitActions := spec.exitActions[DEFAULT := spec.defaultAction]),
              Current(st, later).value)
  {
    hide Accepts, Merged, Reflects, ReadConfig, SoundCase, OrderOf, AllCodes, OnceEach, ValidateKey;
    var c := Current(before, order).value;
    var m := MergeRecovery(c, spec);
    DefaultFixed();
    AllAreCodes(spec);
    MergedOfCanonical(m);
    AcceptedShape(up, m);
    WriteThenRead(up, m, st, later);
    hide Identity, HookMark;
  }

  lemma AllAreCodes(spec: RecoverySpec)
    requires ValidSpec(spec)
    ensures AllCodes(spec.exitActions) && DEFAULT !in spec.exitActions
  {
    hide ValidateKey;
    DefaultFixed();
  }

  /** A saved policy is the policy read, whatever was there before and however the key is listed. */
  lemma RecoveryReadsBack(up: CaseMap, original: ManagedConfig, spec: RecoverySpec, st: KeyState, later: Order)
    requires SoundCase(up) && ValidSpec(spec) && Holding(up, MergeRecovery(original, spec), st) && OrderOf(later, st)
    ensures Current(st, later).Some? && RecoveryOf(spec.name, Current(st, later).value) == spec
  {
    hide Accepts, Merged, Reflects, ReadConfig, SoundCase, OrderOf, StoredHook, HasId, OnceEach, Marked, ValidateKey;
    var c := MergeRecovery(original, spec);
    DefaultFixed();
    MergedOfCanonical(c);
    WriteThenRead(up, c, st, later);
    var d := Current(st, later).value;
    assert d.exitActions == spec.exitActions[DEFAULT := spec.defaultAction];
    assert d.exitActions - {DEFAULT} == spec.exitActions;
  }

  /** Reading a policy and saving it back unchanged is always accepted by the checks on its codes. */
  lemma ReadPolicyIsValid(name: string, st: KeyState, order: Order)
    requires OrderOf(order, st) && Current(st, order).Some?
    ensures ValidSpec(RecoveryOf(name, Current(st, order).value))
  {
    hide ReadConfig, OrderOf, ValidateKey;
    ReadIsCanonical(st, order);
  }
}
