/** The write that brings a key in line with a configuration: scalars first, then the two subtrees, then the
    deletion of what is no longer asked for. */
module Reconcile {
  import opened Prelude
  import opened ExitCodes
  import opened RecoveryForm
  import opened Config
  import opened Registry

  /** `b` continues the log `a` with scalar writes only. */
  predicate Writing(a: seq<Op>, b: seq<Op>) { a <= b && forall i :: |a| <= i < |b| ==> b[i].WriteScalar? }

  /** `b` continues the log `a` without any scalar write. */
  predicate Quiet(a: seq<Op>, b: seq<Op>) { a <= b && forall i :: |a| <= i < |b| ==> !b[i].WriteScalar? }

  /** Progress of the exit-code subtree: every value old or asked for, those of `done` asked for. */
  ghost predicate ExitProgress(up: CaseMap, actions: Actions, before: KeyState, st: KeyState, done: set<string>) {
    && st.exit.Some? && st == before.(exit := st.exit)
    && WellNamedValues(up, st.exit.value) && ReadableValues(st.exit.value)
    && ExitBetween(up, actions, before, st)
    && done <= actions.Keys
    && forall code :: code in done ==> ExitAt(st, Fold(up, ExitName(code))) == Some(ExitData(actions[code]))
  }

  lemma ExitWritten(up: CaseMap, actions: Actions, before: KeyState, st: KeyState, done: set<string>, code: string,
                    st': KeyState)
    requires SoundCase(up) && AllCodes(actions) && ExitProgress(up, actions, before, st, done) && code in actions
    requires st' == st.(exit := Some(SetNamed(up, st.exit.value, ExitName(code), ExitData(actions[code]))))
    ensures ExitProgress(up, actions, before, st', done + {code})
  {
    hide Fold, AllCodes, SoundCase, ExitName, ExitData;
    var id := Fold(up, ExitName(code));
    SameCode(up, actions, code, id);
    forall c | c in done + {code}
      ensures ExitAt(st', Fold(up, ExitName(c))) == Some(ExitData(actions[c]))
    {
      SameCode(up, actions, c, Fold(up, ExitName(c)));
    }
  }

  lemma NoExits(up: CaseMap, before: KeyState, st: KeyState)
    requires WellNamed(up, before) && Readable(before)
    requires st == before.(exit := st.exit)
    requires st.exit.Some? ==> before.exit.Some? && Thinned(st.exit.value, before.exit.value)
    ensures WellNamed(up, st) && Readable(st) && ExitBetween(up, map[], before, st)
    ensures st.exit == None ==> forall id :: ExitAt(st, id) == WantExit(up, map[], id)
  {
  }

  lemma ExitStarted(up: CaseMap, actions: Actions, before: KeyState)
    requires WellNamed(up, before) && Readable(before)
    ensures ExitProgress(up, actions, before, before.(exit := Some(OrEmpty(before.exit))), {})
    ensures ExitBetween(up, actions, before, before)
  {
  }

  lemma ExitFrame(up: CaseMap, actions: Actions, before: KeyState, st: KeyState, done: set<string>)
    requires WellNamed(up, before) && Readable(before) && ExitProgress(up, actions, before, st, done)
    ensures WellNamed(up, st) && Readable(st) && ExitBetween(up, actions, before, st)
    ensures st.exit.Some? && st == before.(exit := st.exit)
  {
  }

  /** Identities still present are asked for or among the spellings not yet looked at. */
  ghost predicate ExitLeft(up: CaseMap, actions: Actions, st: KeyState, names: seq<string>)
    requires st.exit.Some?
  {
    forall id :: id in st.exit.value ==> WantExit(up, actions, id).Some? || exists i :: 0 <= i < |names| && Fold(up, names[i]) == id
  }

  function WantedNames(actions: Actions): set<string> { set code | code in actions :: ExitName(code) }

  lemma ExitPruned(up: CaseMap, actions: Actions, before: KeyState, st: KeyState, names: seq<string>, st': KeyState)
    requires SoundCase(up) && AllCodes(actions) && ExitProgress(up, actions, before, st, actions.Keys)
    requires names != [] && ExitLeft(up, actions, st, names)
    requires st' == if names[0] in WantedNames(actions) then st
                    else st.(exit := Some(st.exit.value - {Fold(up, names[0])}))
    ensures ExitProgress(up, actions, before, st', actions.Keys)
    ensures ExitLeft(up, actions, st', names[1..])
  {
    hide Fold, AllCodes, SoundCase, ExitName, ExitData;
    var id := Fold(up, names[0]);
    if names[0] in WantedNames(actions) {
      var code :| code in actions && ExitName(code) == names[0];
      SameCode(up, actions, code, id);
    } else {
      forall code | code in actions
        ensures Fold(up, ExitName(code)) != id
      {
        assert ExitName(code) in WantedNames(actions);
        if Fold(up, ExitName(code)) == id { SameCode(up, actions, code, id); }
      }
      assert WantExit(up, actions, id) == None;
      forall code | code in actions
        ensures ExitAt(st', Fold(up, ExitName(code))) == Some(ExitData(actions[code]))
      {
        assert NamesCode(up, actions, code, Fold(up, ExitName(code)));
      }
    }
    forall x | x in st'.exit.value
      ensures WantExit(up, actions, x).Some? || exists i :: 0 <= i < |names[1..]| && Fold(up, names[1..][i]) == x
    {
      if WantExit(up, actions, x).None? {
        var i :| 0 <= i < |names| && Fold(up, names[i]) == x;
        assert i > 0 ==> names[1..][i - 1] == names[i];
      }
    }
  }

  lemma ExitDone(up: CaseMap, actions: Actions, before: KeyState, st: KeyState)
    requires SoundCase(up) && AllCodes(actions) && ExitProgress(up, actions, before, st, actions.Keys)
    requires ExitLeft(up, actions, st, [])
    ensures forall id :: ExitAt(st, id) == WantExit(up, actions, id)
  {
    hide Fold, AllCodes, SoundCase, ExitName, ExitData;
    forall id
      ensures ExitAt(st, id) == WantExit(up, actions, id)
    {
      if exists code :: NamesCode(up, actions, code, id) {
        var code :| NamesCode(up, actions, code, id);
        SameCode(up, actions, code, id);
      }
    }
  }

  lemma ExitNameOk(actions: Actions, code: string)
    requires AllCodes(actions) && code in actions
    ensures ExitName(code) == "" || Decimal.ParseI32(ExitName(code)).Some?
    ensures NulFree(ActionText(actions[code]))
  {
    ExitNameCaseless(code);
    hide IsCode, ExitName;
    ActionTextNulFree(actions[code]);
  }

  lemma ActionTextNulFree(a: ExitAction)
    ensures NulFree(ActionText(a))
  {
    match a {
      case Restart => assert NulFree("Restart");
      case Ignore => assert NulFree("Ignore");
      case Exit => assert NulFree("Exit");
      case Suicide => assert NulFree("Suicide");
    }
  }

  // ... phase 1: every scalar value the configuration has

  /** From `before` to `st` exactly the fields of `written` were set, each to what is asked for, and of the
      fields of `scope` none that is asked for was left out. */
  ghost predicate Written(up: CaseMap, cfg: ManagedConfig, before: KeyState, st: KeyState, written: set<Field>,
                          scope: set<Field>) {
    && st == before.(values := st.values)
    && (forall f :: f in written ==> Want(up, cfg, f).Some? && Get(st.values, f) == WantData(up, cfg, f))
    && (forall f :: f !in written ==> Get(st.values, f) == Get(before.values, f))
    && (forall f :: f in scope && Want(up, cfg, f).Some? ==> f in written)
  }

  method WriteFields(key: RegKey, cfg: ManagedConfig, fields: seq<Field>, ghost before: KeyState, written: set<Field>,
                     ghost scope: set<Field>)
    returns (r: Status, all: set<Field>)
    requires forall f: Field :: Want(key.up, cfg, f).Some? ==> !Refused(Want(key.up, cfg, f).value)
    requires Written(key.up, cfg, before, key.st, written, scope)
    modifies key
    ensures Counted(r, old(key.faults), key.faults)
    ensures Written(key.up, cfg, before, key.st, all, if r.Ok? then scope + (set f | f in fields) else scope)
    ensures r.Err? ==> r == Err(Fault)
    ensures Writing(old(key.log), key.log)
  {
    hide Want, DataOf, Refused;
    all := written;
    for i := 0 to |fields|
      invariant Written(key.up, cfg, before, key.st, all, scope + set f | f in fields[..i])
      invariant Writing(old(key.log), key.log)
      invariant key.faults == old(key.faults)
    {
      var want := Want(key.up, cfg, fields[i]);
      if want.Some? {
        r := key.SetScalar(fields[i], want.value);
        if r.Err? { return; }
        all := all + {fields[i]};
      }
    }
    assert fields[..|fields|] == fields;
    r := Ok(());
  }

  /** The spellings under `AppExit`, in whatever order the registry lists them. */
  method ExitNames(key: RegKey) returns (names: seq<string>)
    requires key.st.exit.Some? && ReadableValues(key.st.exit.value) && WellNamedValues(key.up, key.st.exit.value)
    ensures forall id :: id in key.st.exit.value ==> exists i :: 0 <= i < |names| && Fold(key.up, names[i]) == id
  {
    names := [];
    var left := key.st.exit.value.Keys;
    while left != {}
      invariant left <= key.st.exit.value.Keys
      invariant forall id :: id in key.st.exit.value && id !in left ==> exists i :: 0 <= i < |names| && Fold(key.up, names[i]) == id
    {
      var id :| id in left;
      left := left - {id};
      ghost var before := names;
      names := names + [key.st.exit.value[id].name.value];
      assert Fold(key.up, names[|before|]) == id;
      assert forall i :: 0 <= i < |before| ==> names[i] == before[i];
    }
  }

  method WriteExits(key: RegKey, actions: Actions, ghost before: KeyState) returns (r: Status)
    requires SoundCase(key.up) && AllCodes(actions) && ExitProgress(key.up, actions, before, key.st, {})
    modifies key
    ensures Counted(r, old(key.faults), key.faults)
    ensures ExitProgress(key.up, actions, before, key.st, if r.Ok? then actions.Keys else {})
    ensures r.Err? ==> r == Err(Fault)
    ensures Quiet(old(key.log), key.log)
  {
    hide Fold, AllCodes, SoundCase, ExitName, ActionText, DataOf;
    var left := actions.Keys;
    while left != {}
      invariant left <= actions.Keys
      invariant ExitProgress(key.up, actions, before, key.st, actions.Keys - left)
      invariant Quiet(old(key.log), key.log)
      invariant key.faults == old(key.faults)
    {
      var code :| code in left;
      ExitNameOk(actions, code);
      ghost var was := key.st;
      r := key.SetExit(ExitName(code), ActionText(actions[code]));
      if r.Err? { return; }
      ExitWritten(key.up, actions, before, was, actions.Keys - left, code, key.st);
      assert actions.Keys - left + {code} == actions.Keys - (left - {code});
      left := left - {code};
    }
    assert actions.Keys - {} == actions.Keys;
    r := Ok(());
  }

  method PruneExits(key: RegKey, actions: Actions, ghost before: KeyState) returns (r: Status)
    requires SoundCase(key.up) && AllCodes(actions) && ExitProgress(key.up, actions, before, key.st, actions.Keys)
    modifies key
    ensures Counted(r, old(key.faults), key.faults)
    ensures ExitProgress(key.up, actions, before, key.st, actions.Keys)
    ensures r.Ok? ==> ExitLeft(key.up, actions, key.st, [])
    ensures r.Err? ==> r == Err(Fault)
    ensures Quiet(old(key.log), key.log)
  {
    hide Fold, AllCodes, SoundCase, ExitName;
    var names := ExitNames(key);
    assert names[0..] == names;
    for i := 0 to |names|
      invariant ExitProgress(key.up, actions, before, key.st, actions.Keys)
      invariant ExitLeft(key.up, actions, key.st, names[i..])
      invariant Quiet(old(key.log), key.log)
      invariant key.faults == old(key.faults)
    {
      ghost var was := key.st;
      if names[i] !in WantedNames(actions) {
        r := key.DeleteExit(names[i]);
        if r.Err? { return; }
      }
      ExitPruned(key.up, actions, before, was, names[i..], key.st);
      assert names[i..][1..] == names[i + 1..];
    }
    assert names[|names|..] == [];
    r := Ok(());
  }

  method ReconcileExit(key: RegKey, actions: Actions) returns (r: Status)
    requires SoundCase(key.up) && AllCodes(actions) && WellNamed(key.up, key.st) && Readable(key.st)
    modifies key
    ensures Counted(r, old(key.faults), key.faults)
    ensures key.st == old(key.st).(exit := key.st.exit) && WellNamed(key.up, key.st) && Readable(key.st)
    ensures ExitBetween(key.up, actions, old(key.st), key.st)
    ensures r.Ok? ==> (key.st.exit == None <==> actions == map[])
    ensures r.Ok? ==> forall id :: ExitAt(key.st, id) == WantExit(key.up, actions, id)
    ensures r.Err? ==> r == Err(Fault)
    ensures Quiet(old(key.log), key.log)
  {
    hide Fold, AllCodes, SoundCase, WantExit, ExitProgress, WellNamed, Readable, ExitBetween;
    ghost var before := key.st;
    if actions == map[] {
      r := key.DeleteExitTree();
      NoExits(key.up, before, key.st);
      return;
    }
    r := key.CreateExit();
    ExitStarted(key.up, actions, before);
    if r.Err? { return; }
    r := WriteExits(key, actions, before);
    ExitFrame(key.up, actions, before, key.st, if r.Ok? then actions.Keys else {});
    if r.Err? { return; }
    r := PruneExits(key, actions, before);
    ExitFrame(key.up, actions, before, key.st, actions.Keys);
    if r.Err? { return; }
    ExitDone(key.up, actions, before, key.st);
  }

  // -- Phase 2b: the hook subtree ------------------------------------------------------

  /** Progress of the hook subtree: every value old or asked for, those of the first `n` hooks asked for. */
  ghost predicate HookProgress(up: CaseMap, cfg: ManagedConfig, before: KeyState, st: KeyState, n: nat)
    requires n <= |cfg.hooks|
  {
    && st.events.Some? && st == before.(events := st.events)
    && WellNamed(up, st) && Readable(st)
    && HooksBetween(up, cfg, before, st)
    && forall h :: h in cfg.hooks[..n] ==>
         Fold(up, h.event) in st.events.value
         && HookAt(st, Fold(up, h.event), Fold(up, h.action)) == Some(HookData(up, cfg, h))
  }

  lemma HooksStarted(up: CaseMap, cfg: ManagedConfig, before: KeyState)
    requires WellNamed(up, before) && Readable(before)
    ensures HookProgress(up, cfg, before, before.(events := Some(OrEmpty(before.events))), 0)
    ensures HooksBetween(up, cfg, before, before)
  {
  }

  lemma HooksFrame(up: CaseMap, cfg: ManagedConfig, before: KeyState, st: KeyState, n: nat)
    requires n <= |cfg.hooks| && HookProgress(up, cfg, before, st, n)
    ensures WellNamed(up, st) && Readable(st) && HooksBetween(up, cfg, before, st)
    ensures st.events.Some? && st == before.(events := st.events)
    ensures forall e :: e in st.events.value ==> st.events.value[e].name.Some? && Fold(up, st.events.value[e].name.value) == e
  {
  }

  lemma NoHooks(up: CaseMap, cfg: ManagedConfig, before: KeyState, st: KeyState)
    requires WellNamed(up, before) && Readable(before) && cfg.hooks == []
    requires st == before.(events := st.events)
    requires st.events.Some? ==> before.events.Some? && ThinnedEvents(st.events.value, before.events.value)
    ensures WellNamed(up, st) && Readable(st) && HooksBetween(up, cfg, before, st)
    ensures st.events == None ==> forall e, a :: HookAt(st, e, a) == WantHook(up, cfg, e, a)
  {
  }

  lemma EventCreated(up: CaseMap, cfg: ManagedConfig, before: KeyState, st: KeyState, n: nat, name: string,
                     st': KeyState)
    requires n <= |cfg.hooks| && HookProgress(up, cfg, before, st, n)
    requires st' == st.(events := Some(WithEvent(up, st.events.value, name)))
    ensures HookProgress(up, cfg, before, st', n) && Fold(up, name) in st'.events.value
  {
    hide Fold, HookData, WantHook;
    forall e, a
      ensures HookAt(st', e, a) == HookAt(st, e, a)
    {
    }
  }

  lemma HookWritten(up: CaseMap, cfg: ManagedConfig, before: KeyState, st: KeyState, n: nat, st': KeyState)
    requires n < |cfg.hooks| && HookProgress(up, cfg, before, st, n) && HooksAgree(up, cfg.hooks)
    requires Fold(up, cfg.hooks[n].event) in st.events.value
    requires var h := cfg.hooks[n];
             st' == st.(events := Some(WithHook(up, st.events.value, h.event, h.action, HookData(up, cfg, h))))
    ensures HookProgress(up, cfg, before, st', n + 1)
  {
    hide Fold, HookData, WantHook, HooksAgree;
    var h := cfg.hooks[n];
    var e, a := Fold(up, h.event), Fold(up, h.action);
    SameHook(up, cfg, h);
    assert cfg.hooks[..n + 1] == cfg.hooks[..n] + [h];
    forall e', a'
      ensures HookAt(st', e', a') == if (e', a') == (e, a) then Some(HookData(up, cfg, h)) else HookAt(st, e', a')
    {
    }
    forall g | g in cfg.hooks[..n + 1]
      ensures Fold(up, g.event) in st'.events.value
      ensures HookAt(st', Fold(up, g.event), Fold(up, g.action)) == Some(HookData(up, cfg, g))
    {
      SameHook(up, cfg, g);
    }
  }

  method WriteHooks(key: RegKey, cfg: ManagedConfig, ghost before: KeyState) returns (r: Status)
    requires HooksAgree(key.up, cfg.hooks) && HookProgress(key.up, cfg, before, key.st, 0)
    requires forall h :: h in cfg.hooks ==> NulFree(h.command)
    modifies key
    ensures Counted(r, old(key.faults), key.faults)
    ensures HookProgress(key.up, cfg, before, key.st, if r.Ok? then |cfg.hooks| else 0)
    ensures r.Err? ==> r == Err(Fault)
    ensures Quiet(old(key.log), key.log)
  {
    hide Fold, HooksAgree, HookProgress, Marked;
    for i := 0 to |cfg.hooks|
      invariant HookProgress(key.up, cfg, before, key.st, i)
      invariant Quiet(old(key.log), key.log)
      invariant key.faults == old(key.faults)
    {
      var h := cfg.hooks[i];
      HooksFrame(key.up, cfg, before, key.st, i);
      ghost var was := key.st;
      r := key.CreateEvent(h.event);
      if r.Err? { LessProgress(key.up, cfg, before, key.st, i); return; }
      EventCreated(key.up, cfg, before, was, i, h.event, key.st);
      HooksFrame(key.up, cfg, before, key.st, i);
      was := key.st;
      r := key.SetHook(h.event, h.action, Text(h.command, Marked(key.up, cfg, HookMark(h.event, h.action))));
      if r.Err? { LessProgress(key.up, cfg, before, key.st, i); return; }
      HookWritten(key.up, cfg, before, was, i, key.st);
    }
    r := Ok(());
  }

  lemma LessProgress(up: CaseMap, cfg: ManagedConfig, before: KeyState, st: KeyState, n: nat)
    requires n <= |cfg.hooks| && HookProgress(up, cfg, before, st, n)
    ensures HookProgress(up, cfg, before, st, 0)
  {
  }

  predicate WantsEvent(up: CaseMap, cfg: ManagedConfig,
                       e: string) { exists h :: h in cfg.hooks && Fold(up, h.event) == e }

  /** Nothing unwanted is left under this event. */
  ghost predicate EventPruned(up: CaseMap, cfg: ManagedConfig, st: KeyState, e: string)
    requires st.events.Some? && e in st.events.value
  {
    WantsEvent(up, cfg, e) && forall a :: a in st.events.value[e].values ==> WantHook(up, cfg, e, a).Some?
  }

  predicate NamesId(up: CaseMap, names: seq<string>,
                    id: string) { exists i :: 0 <= i < |names| && Fold(up, names[i]) == id }

  ghost predicate EventsLeft(up: CaseMap, cfg: ManagedConfig, st: KeyState, names: seq<string>)
    requires st.events.Some?
  {
    forall e :: e in st.events.value ==> EventPruned(up, cfg, st, e) || NamesId(up, names, e)
  }

  lemma NextName(up: CaseMap, names: seq<string>, id: string)
    requires names != []
    ensures NamesId(up, names, id) <==> Fold(up, names[0]) == id || NamesId(up, names[1..], id)
  {
    if NamesId(up, names, id) {
      var i :| 0 <= i < |names| && Fold(up, names[i]) == id;
      assert i > 0 ==> names[1..][i - 1] == names[i];
    }
    if NamesId(up, names[1..], id) {
      var i :| 0 <= i < |names[1..]| && Fold(up, names[1..][i]) == id;
      assert names[i + 1] == names[1..][i];
    }
  }

  /** Deleting values nobody asked for keeps all progress. */
  lemma Unwanted(up: CaseMap, cfg: ManagedConfig, before: KeyState, st: KeyState, st': KeyState)
    requires HooksAgree(up, cfg.hooks) && HookProgress(up, cfg, before, st, |cfg.hooks|)
    requires st'.events.Some? && st' == st.(events := st'.events)
    requires forall e :: e in st'.events.value ==> e in st.events.value && st'.events.value[e].name == st.events.value[e].name
    requires forall e :: e in st.events.value && WantsEvent(up, cfg, e) ==> e in st'.events.value
    requires forall e, a :: HookAt(st', e, a) == HookAt(st, e, a) || (HookAt(st', e, a) == None && WantHook(up, cfg, e, a) == None)
    requires forall e, a :: e in st'.events.value && a in st'.events.value[e].values ==>
               a in st.events.value[e].values && st'.events.value[e].values[a] == st.events.value[e].values[a]
    ensures HookProgress(up, cfg, before, st', |cfg.hooks|)
  {
    hide Fold, HookData, HooksAgree, WantHook;
    assert cfg.hooks[..|cfg.hooks|] == cfg.hooks;
    forall h | h in cfg.hooks
      ensures Fold(up, h.event) in st'.events.value
      ensures HookAt(st', Fold(up, h.event), Fold(up, h.action)) == Some(HookData(up, cfg, h))
    {
      SameHook(up, cfg, h);
      assert WantsEvent(up, cfg, Fold(up, h.event));
    }
  }

  /** The spellings of `values`, in whatever order the registry lists them. */
  method ValueNames(up: CaseMap, values: map<string, Named>) returns (names: seq<string>)
    requires ReadableValues(values) && WellNamedValues(up, values)
    ensures forall id :: id in values ==> NamesId(up, names, id)
  {
    hide Fold;
    names := [];
    var left := values.Keys;
    while left != {}
      invariant left <= values.Keys
      invariant forall id :: id in values && id !in left ==> NamesId(up, names, id)
    {
      var id :| id in left;
      left := left - {id};
      ghost var before := names;
      names := names + [values[id].name.value];
      assert Fold(up, names[|before|]) == id;
      assert forall i :: 0 <= i < |before| ==> names[i] == before[i];
    }
  }

  method EventNames(up: CaseMap, events: map<string, EventKey>) returns (names: seq<string>)
    requires forall e :: e in events ==> events[e].name.Some? && Fold(up, events[e].name.value) == e
    ensures forall e :: e in events ==> NamesId(up, names, e)
  {
    names := ValueNames(up, map e | e in events :: Named(events[e].name, Data(OtherKind, [])));
  }

  /** Actions of `e` still present are asked for or among the spellings not yet looked at. */
  ghost predicate ActionsLeft(up: CaseMap, cfg: ManagedConfig, st: KeyState, e: string, names: seq<string>)
    requires st.events.Some? && e in st.events.value
  {
    forall a :: a in st.events.value[e].values ==> WantHook(up, cfg, e, a).Some? || NamesId(up, names, a)
  }

  ghost predicate OnlyEventChanged(before: KeyState, st: KeyState, e: string) {
    && before.events.Some? && st.events.Some?
    && st.events.value.Keys == before.events.value.Keys
    && forall x :: x in st.events.value && x != e ==> st.events.value[x] == before.events.value[x]
  }

  lemma ActionPruned(up: CaseMap, cfg: ManagedConfig, before: KeyState, st: KeyState, e: string, names: seq<string>,
                     st': KeyState)
    requires HooksAgree(up, cfg.hooks) && HookProgress(up, cfg, before, st, |cfg.hooks|)
    requires e in st.events.value && names != [] && ActionsLeft(up, cfg, st, e, names)
    requires st' == if WantHook(up, cfg, e, Fold(up, names[0])).Some? then st
                    else st.(events := Some(WithoutHook(st.events.value, e, Fold(up, names[0]))))
    ensures HookProgress(up, cfg, before, st', |cfg.hooks|)
    ensures e in st'.events.value && ActionsLeft(up, cfg, st', e, names[1..]) && OnlyEventChanged(st, st', e)
  {
    hide Fold, HooksAgree, WantHook, HookData, NamesId;
    if WantHook(up, cfg, e, Fold(up, names[0])).None? {
      Unwanted(up, cfg, before, st, st');
    }
    forall a | a in st'.events.value[e].values
      ensures WantHook(up, cfg, e, a).Some? || NamesId(up, names[1..], a)
    {
      NextName(up, names, a);
    }
  }

  /** Deletes the actions of one wanted event that no hook asks for. */
  method PruneActions(key: RegKey, cfg: ManagedConfig, event: string, ghost before: KeyState) returns (r: Status)
    requires HooksAgree(key.up, cfg.hooks) && HookProgress(key.up, cfg, before, key.st, |cfg.hooks|)
    requires Fold(key.up, event) in key.st.events.value
    modifies key
    ensures Counted(r, old(key.faults), key.faults)
    ensures HookProgress(key.up, cfg, before, key.st, |cfg.hooks|)
    ensures OnlyEventChanged(old(key.st), key.st, Fold(key.up, event))
    ensures r.Ok? ==> ActionsLeft(key.up, cfg, key.st, Fold(key.up, event), [])
    ensures r.Err? ==> r == Err(Fault)
    ensures Quiet(old(key.log), key.log)
  {
    hide Fold, HooksAgree, WantHook, HookProgress, HookData, NamesId, ActionsLeft;
    var e := Fold(key.up, event);
    HooksFrame(key.up, cfg, before, key.st, |cfg.hooks|);
    EventReadable(key.up, key.st, e);
    var names := ValueNames(key.up, key.st.events.value[e].values);
    assert names[0..] == names;
    var wanted := set h | h in cfg.hooks && Fold(key.up, h.event) == e :: Fold(key.up, h.action);
    WantedActions(key.up, cfg, e, wanted);
    AllNamed(key.up, cfg, key.st, e, names);
    for i := 0 to |names|
      invariant HookProgress(key.up, cfg, before, key.st, |cfg.hooks|)
      invariant OnlyEventChanged(old(key.st), key.st, e)
      invariant ActionsLeft(key.up, cfg, key.st, e, names[i..])
      invariant Quiet(old(key.log), key.log)
      invariant key.faults == old(key.faults)
    {
      ghost var was := key.st;
      if Fold(key.up, names[i]) !in wanted {
        r := key.DeleteHook(event, names[i]);
        if r.Err? { return; }
      }
      ActionPruned(key.up, cfg, before, was, e, names[i..], key.st);
      assert names[i..][1..] == names[i + 1..];
    }
    assert names[|names|..] == [];
    r := Ok(());
  }

  lemma EventReadable(up: CaseMap, st: KeyState, e: string)
    requires WellNamed(up, st) && Readable(st) && st.events.Some? && e in st.events.value
    ensures ReadableValues(st.events.value[e].values) && WellNamedValues(up, st.events.value[e].values)
  {
  }

  lemma AllNamed(up: CaseMap, cfg: ManagedConfig, st: KeyState, e: string, names: seq<string>)
    requires st.events.Some? && e in st.events.value
    requires forall id :: id in st.events.value[e].values ==> NamesId(up, names, id)
    ensures ActionsLeft(up, cfg, st, e, names)
  {
  }

  lemma WantedActions(up: CaseMap, cfg: ManagedConfig, e: string, wanted: set<string>)
    requires wanted == set h | h in cfg.hooks && Fold(up, h.event) == e :: Fold(up, h.action)
    ensures forall a :: a in wanted <==> WantHook(up, cfg, e, a).Some?
  {
    hide Fold, HookData;
  }

  lemma EventStep(up: CaseMap, cfg: ManagedConfig, before: KeyState, st: KeyState, names: seq<string>, st': KeyState)
    requires HooksAgree(up, cfg.hooks) && HookProgress(up, cfg, before, st, |cfg.hooks|)
    requires names != [] && EventsLeft(up, cfg, st, names)
    requires var e := Fold(up, names[0]);
             if !WantsEvent(up, cfg, e) then st' == st.(events := Some(st.events.value - {e}))
             else if e in st.events.value then
               HookProgress(up, cfg, before, st', |cfg.hooks|) && OnlyEventChanged(st, st', e) && ActionsLeft(up, cfg, st', e, [])
             else st' == st
    ensures HookProgress(up, cfg, before, st', |cfg.hooks|) && EventsLeft(up, cfg, st', names[1..])
  {
    hide Fold, HooksAgree, WantHook, HookData, NamesId, WantsEvent, HookProgress;
    var e := Fold(up, names[0]);
    HooksFrame(up, cfg, before, st, |cfg.hooks|);
    EventStepProgress(up, cfg, before, st, names[0], st');
    HooksFrame(up, cfg, before, st', |cfg.hooks|);
    forall x | x in st'.events.value
      ensures EventPruned(up, cfg, st', x) || NamesId(up, names[1..], x)
    {
      NextName(up, names, x);
      if x != e {
        assert st'.events.value[x] == st.events.value[x];
      } else {
        forall a { NoName(up, a); }
      }
    }
  }

  lemma EventStepProgress(up: CaseMap, cfg: ManagedConfig, before: KeyState, st: KeyState, name: string, st': KeyState)
    requires HooksAgree(up, cfg.hooks) && HookProgress(up, cfg, before, st, |cfg.hooks|)
    requires var e := Fold(up, name);
             if !WantsEvent(up, cfg, e) then st' == st.(events := Some(st.events.value - {e}))
             else HookProgress(up, cfg, before, st', |cfg.hooks|) || st' == st
    ensures HookProgress(up, cfg, before, st', |cfg.hooks|)
  {
    hide Fold, HooksAgree, WantHook, HookData;
    if !WantsEvent(up, cfg, Fold(up, name)) {
      NoHookWanted(up, cfg, Fold(up, name));
      Unwanted(up, cfg, before, st, st');
    }
  }

  lemma EventThinned(up: CaseMap, cfg: ManagedConfig, before: KeyState, st: KeyState, name: string, st': KeyState)
    requires HooksAgree(up, cfg.hooks) && HookProgress(up, cfg, before, st, |cfg.hooks|)
    requires !WantsEvent(up, cfg, Fold(up, name)) && st' == st.(events := st'.events) && st'.events.Some?
    requires ThinnedEvent(st'.events.value, st.events.value, Fold(up, name))
    ensures HookProgress(up, cfg, before, st', |cfg.hooks|)
  {
    hide Fold, HooksAgree, WantHook, HookData;
    NoHookWanted(up, cfg, Fold(up, name));
    Unwanted(up, cfg, before, st, st');
  }

  lemma NoName(up: CaseMap, id: string)
    ensures !NamesId(up, [], id)
  {
  }

  method PruneHooks(key: RegKey, cfg: ManagedConfig, ghost before: KeyState) returns (r: Status)
    requires HooksAgree(key.up, cfg.hooks) && HookProgress(key.up, cfg, before, key.st, |cfg.hooks|)
    modifies key
    ensures Counted(r, old(key.faults), key.faults)
    ensures HookProgress(key.up, cfg, before, key.st, |cfg.hooks|)
    ensures r.Ok? ==> key.st.events.Some? && EventsLeft(key.up, cfg, key.st, [])
    ensures r.Err? ==> r == Err(Fault)
    ensures Quiet(old(key.log), key.log)
  {
    hide Fold, HooksAgree, WantHook, HookProgress, HookData, NamesId, EventsLeft, WantsEvent;
    HooksFrame(key.up, cfg, before, key.st, |cfg.hooks|);
    var names := EventNames(key.up, key.st.events.value);
    assert names[0..] == names;
    AllEventsNamed(key.up, cfg, key.st, names);
    for i := 0 to |names|
      invariant HookProgress(key.up, cfg, before, key.st, |cfg.hooks|) && key.st.events.Some?
      invariant EventsLeft(key.up, cfg, key.st, names[i..])
      invariant Quiet(old(key.log), key.log)
      invariant key.faults == old(key.faults)
    {
      ghost var was := key.st;
      if !WantsEvent(key.up, cfg, Fold(key.up, names[i])) {
        r := key.DeleteEvent(names[i]);
        if r.Err? { EventThinned(key.up, cfg, before, was, names[i], key.st); return; }
      } else if Fold(key.up, names[i]) in key.st.events.value {
        r := PruneActions(key, cfg, names[i], before);
        HooksFrame(key.up, cfg, before, key.st, |cfg.hooks|);
        if r.Err? { return; }
      }
      EventStep(key.up, cfg, before, was, names[i..], key.st);
      HooksFrame(key.up, cfg, before, key.st, |cfg.hooks|);
      assert names[i..][1..] == names[i + 1..];
    }
    assert names[|names|..] == [];
    r := Ok(());
  }

  lemma AllEventsNamed(up: CaseMap, cfg: ManagedConfig, st: KeyState, names: seq<string>)
    requires st.events.Some? && forall e :: e in st.events.value ==> NamesId(up, names, e)
    ensures EventsLeft(up, cfg, st, names)
  {
  }

  lemma NoHookWanted(up: CaseMap, cfg: ManagedConfig, e: string)
    requires !WantsEvent(up, cfg, e)
    ensures forall a :: WantHook(up, cfg, e, a) == None
  {
    hide Fold;
  }

  lemma HooksDone(up: CaseMap, cfg: ManagedConfig, before: KeyState, st: KeyState)
    requires HooksAgree(up, cfg.hooks) && HookProgress(up, cfg, before, st, |cfg.hooks|) && EventsLeft(up, cfg, st, [])
    ensures forall e, a :: HookAt(st, e, a) == WantHook(up, cfg, e, a)
    ensures forall e :: e in st.events.value ==> exists h :: h in cfg.hooks && Fold(up, h.event) == e
  {
    hide Fold, HooksAgree, HookData;
    assert cfg.hooks[..|cfg.hooks|] == cfg.hooks;
    forall e, a
      ensures HookAt(st, e, a) == WantHook(up, cfg, e, a)
    {
      if h :| h in cfg.hooks && Identity(up, h) == (e, a) {
        SameHook(up, cfg, h);
      }
    }
  }

  method ReconcileHooks(key: RegKey, cfg: ManagedConfig) returns (r: Status)
    requires HooksAgree(key.up, cfg.hooks) && WellNamed(key.up, key.st) && Readable(key.st)
    requires forall h :: h in cfg.hooks ==> NulFree(h.command)
    modifies key
    ensures Counted(r, old(key.faults), key.faults)
    ensures key.st == old(key.st).(events := key.st.events) && WellNamed(key.up, key.st) && Readable(key.st)
    ensures HooksBetween(key.up, cfg, old(key.st), key.st)
    ensures r.Ok? ==> (key.st.events == None <==> cfg.hooks == [])
    ensures r.Ok? ==> forall e, a :: HookAt(key.st, e, a) == WantHook(key.up, cfg, e, a)
    ensures r.Ok? && key.st.events.Some? ==>
              forall e :: e in key.st.events.value ==> exists h :: h in cfg.hooks && Fold(key.up, h.event) == e
    ensures r.Err? ==> r == Err(Fault)
    ensures Quiet(old(key.log), key.log)
  {
    hide Fold, HooksAgree, WantHook, HooksBetween, HookProgress, WellNamed, Readable;
    ghost var before := key.st;
    if cfg.hooks == [] {
      r := key.DeleteEventsTree();
      NoHooks(key.up, cfg, before, key.st);
      return;
    }
    r := key.CreateEvents();
    HooksStarted(key.up, cfg, before);
    if r.Err? { return; }
    r := WriteHooks(key, cfg, before);
    HooksFrame(key.up, cfg, before, key.st, if r.Ok? then |cfg.hooks| else 0);
    if r.Err? { return; }
    r := PruneHooks(key, cfg, before);
    HooksFrame(key.up, cfg, before, key.st, |cfg.hooks|);
    if r.Err? { return; }
    HooksDone(key.up, cfg, before, key.st);
  }

  // -- The whole write -----------------------------------------------------------------

  /** What the preflight accepts, the store's own checks never refuse. */
  lemma AcceptedIsStorable(up: CaseMap, cfg: ManagedConfig, f: Field)
    requires Accepts(up, cfg)
    ensures Want(up, cfg, f).Some? ==> !Refused(Want(up, cfg, f).value)
  {
    hide Marked, Merged, ValidMark, ValidPaths;
    if f == AppEnvironment {
      assert forall e :: e in cfg.environment ==> NulFree(e) && e != "";
    } else if f == AppEnvironmentExtra {
      assert forall e :: e in cfg.environmentExtra ==> NulFree(e) && e != "";
    }
  }

  lemma MergedCodes(cfg: ManagedConfig)
    requires Merged(cfg).Ok?
    ensures AllCodes(Merged(cfg).value)
  {
    var entries := EntriesFor(Listing(cfg.exitActions), cfg.exitActions) + DefaultEntry(cfg);
    InsertAllExact(entries);
    hide Normalize, InsertAll, ValidateKey;
    var out := Merged(cfg).value;
    forall key | key in out
      ensures IsCode(key)
    {
      var e :| e in entries && Normalize(e.name) == Ok(key);
      NormalizeIdempotent(e.name);
      CanonicalKeys(key);
    }
  }

  /** Reads every spelling the reconciliation will have to compare; changes nothing. */
  method CheckExistingNames(key: RegKey) returns (r: Status)
    modifies key`faults
    ensures Counted(r, old(key.faults), key.faults)
    ensures r.Ok? ==> Readable(key.st)
    ensures r.Err? ==> if r.error == Unreadable then !Readable(key.st) else r.error == Fault
  {
    var failed := key.Fails();
    if failed { return Err(Fault); }
    if !Readable(key.st) { return Err(Unreadable); }
    return Ok(());
  }

  method WriteScalars(key: RegKey, cfg: ManagedConfig) returns (r: Status, written: set<Field>)
    requires Accepts(key.up, cfg)
    modifies key
    ensures Counted(r, old(key.faults), key.faults)
    ensures Written(key.up, cfg, old(key.st), key.st, written, {})
    ensures r.Ok? ==> forall f: Field :: Want(key.up, cfg, f).Some? ==> f in written
    ensures r.Err? ==> r == Err(Fault)
    ensures Writing(old(key.log), key.log)
  {
    forall f ensures Want(key.up, cfg, f).Some? ==> !Refused(Want(key.up, cfg, f).value) { AcceptedIsStorable(key.up, cfg, f); }
    hide Want, Refused, Accepts, Written, StreamFields, PlainFields, Covers, Writing;
    ghost var before, up := key.st, key.up;
    ghost var scope: set<Field> := {};
    NothingWritten(up, cfg, before);
    written := {};
    var lists := [PlainFields(), StreamFields(Stdin), StreamFields(Stdout), StreamFields(Stderr)];
    ghost var log := key.log;
    NothingCovered(lists, log);
    for i := 0 to |lists|
      invariant Written(up, cfg, before, key.st, written, scope)
      invariant Covers(lists, i, scope)
      invariant Writing(log, key.log)
      invariant key.faults == old(key.faults)
    {
      ghost var soFar := key.log;
      r, written := WriteFields(key, cfg, lists[i], before, written, scope);
      WritingOn(log, soFar, key.log);
      if r.Err? { LessScope(up, cfg, before, key.st, written, scope); return; }
      CoversMore(lists, i, scope);
      scope := scope + set f | f in lists[i];
    }
    LessScope(up, cfg, before, key.st, written, scope);
    EverythingCovered(scope);
    r := Ok(());
  }

  /** The first `i` lists are within `scope`. */
  ghost predicate Covers(lists: seq<seq<Field>>, i: nat, scope: set<Field>)
    requires i <= |lists|
  {
    forall j, f :: 0 <= j < i && f in lists[j] ==> f in scope
  }

  lemma NothingCovered(lists: seq<seq<Field>>, log: seq<Op>)
    ensures Covers(lists, 0, {}) && Writing(log, log)
  {
  }

  lemma CoversMore(lists: seq<seq<Field>>, i: nat, scope: set<Field>)
    requires i < |lists| && Covers(lists, i, scope)
    ensures Covers(lists, i + 1, scope + set f | f in lists[i])
  {
  }

  lemma WritingOn(a: seq<Op>, b: seq<Op>, c: seq<Op>)
    requires Writing(a, b) && Writing(b, c)
    ensures Writing(a, c)
  {
  }

  lemma EverythingCovered(scope: set<Field>)
    requires Covers([PlainFields(), StreamFields(Stdin), StreamFields(Stdout), StreamFields(Stderr)], 4, scope)
    ensures forall f: Field :: f in scope
  {
    hide PlainFields, StreamFields;
    var lists := [PlainFields(), StreamFields(Stdin), StreamFields(Stdout), StreamFields(Stderr)];
    forall f: Field
      ensures f in scope
    {
      FieldListed(f);
      assert f in lists[0] || f in lists[1] || f in lists[2] || f in lists[3];
    }
  }

  lemma NothingWritten(up: CaseMap, cfg: ManagedConfig, st: KeyState)
    ensures Written(up, cfg, st, st, {}, {})
  {
  }

  lemma LessScope(up: CaseMap, cfg: ManagedConfig, before: KeyState, st: KeyState, written: set<Field>,
                  scope: set<Field>)
    requires Written(up, cfg, before, st, written, scope)
    ensures Written(up, cfg, before, st, written, {})
    ensures forall f :: f in scope && Want(up, cfg, f).Some? ==> f in written
  {
  }

  /** Names of every owned value, in the order they are scrubbed. */
  method OwnedFields() returns (fields: seq<Field>)
    ensures forall f: Field :: f in fields
  {
    hide PlainFields, StreamFields;
    var plain, stdin, stdout, stderr := PlainFields(), StreamFields(Stdin), StreamFields(Stdout), StreamFields(Stderr);
    forall f: Field
      ensures f in plain || f in stdin || f in stdout || f in stderr
    {
      FieldListed(f);
    }
    fields := plain + stdin + stdout + stderr;
  }

  /** Deletes every owned value this write did not produce. */
  method DeleteUnwritten(key: RegKey, cfg: ManagedConfig, written: set<Field>) returns (r: Status)
    requires forall f: Field :: f in written <==> Want(key.up, cfg, f).Some?
    requires forall f :: f in written ==> Get(key.st.values, f) == WantData(key.up, cfg, f)
    modifies key
    ensures Counted(r, old(key.faults), key.faults)
    ensures key.st == old(key.st).(values := key.st.values)
    ensures ScalarsBetween(key.up, cfg, old(key.st), key.st)
    ensures r.Ok? ==> forall f: Field :: Get(key.st.values, f) == WantData(key.up, cfg, f)
    ensures r.Err? ==> r == Err(Fault)
    ensures Quiet(old(key.log), key.log)
  {
    hide Want, DataOf;
    var fields := OwnedFields();
    for i := 0 to |fields|
      invariant key.st == old(key.st).(values := key.st.values)
      invariant Scrubbed(old(key.st), key.st, written, fields[..i])
      invariant Quiet(old(key.log), key.log)
      invariant key.faults == old(key.faults)
    {
      if fields[i] !in written {
        r := key.DeleteScalar(fields[i]);
        if r.Err? { return; }
      }
    }
    assert fields[..|fields|] == fields;
    r := Ok(());
  }

  /** Only unwritten fields have gone, and those of `done` all have. */
  ghost predicate Scrubbed(before: KeyState, st: KeyState, written: set<Field>, done: seq<Field>) {
    && (forall f :: f in written ==> Get(st.values, f) == Get(before.values, f))
    && (forall f: Field :: Get(st.values, f) == Get(before.values, f) || (f !in written && Get(st.values, f) == None))
    && (forall f :: f in done && f !in written ==> Get(st.values, f) == None)
  }

  /** Reconciles the key with `cfg`. Whatever fails and wherever it fails, every value is still the old one or
      already the one asked for; refusals come before the first change; success leaves exactly what was asked for. */
  method WriteIntoKey(key: RegKey, cfg: ManagedConfig) returns (r: Status)
    requires SoundCase(key.up) && WellNamed(key.up, key.st)
    modifies key
    ensures Counted(r, old(key.faults), key.faults)
    ensures r.Ok? ==> Accepts(key.up, cfg) && Reflects(key.up, cfg, Merged(cfg).value, key.st)
    ensures r.Ok? ==> key.st.foreign == old(key.st).foreign
    ensures r.Err? ==> key.st == old(key.st) || (Merged(cfg).Ok? && Between(key.up, cfg, Merged(cfg).value, old(key.st), key.st))
    ensures r.Err? && r.error != Fault ==> key.st == old(key.st) && key.log == old(key.log)
    ensures r == Err(Rejected) <==> !Accepts(key.up, cfg)
    ensures r == Err(Unreadable) ==> !Readable(old(key.st))
    ensures Readable(old(key.st)) ==> Readable(key.st)
    // Unless an operation fails, an acceptable configuration is written over any contents whose spellings can be read.
    ensures key.faults == old(key.faults) ==> (r.Ok? <==> Accepts(key.up, cfg) && Readable(old(key.st)))
    ensures r != Err(LateCheck)
    ensures ScalarsFirst(old(key.log), key.log)
    ensures WellNamed(key.up, key.st)
  {
    hide Accepts, SoundCase, WellNamed, Readable, HooksAgree, AllCodes, Merged, WantHook, WantExit, HooksBetween,
         ExitBetween, Want, Written;
    ghost var before := key.st;
    var merged := Preflight(key.up, cfg);
    if merged.Err? { return Err(Rejected); }
    r := CheckExistingNames(key);
    if r.Err? { return; }
    AcceptedHooks(key.up, cfg);
    MergedCodes(cfg);
    var written: set<Field>;
    r, written := WriteScalars(key, cfg);
    ghost var scalars := key.st;
    ghost var afterScalars := key.log;
    WrittenBetween(key.up, cfg, before, scalars, written);
    FrameScalars(key.up, before, scalars);
    BetweenSteps(key.up, cfg, merged.value, before, scalars, scalars, scalars, scalars);
    if r.Err? { return; }
    r := ReconcileExit(key, merged.value);
    ghost var exits := key.st;
    BetweenSteps(key.up, cfg, merged.value, before, scalars, exits, exits, exits);
    if r.Err? { return; }
    r := ReconcileHooks(key, cfg);
    ghost var hooks := key.st;
    BetweenSteps(key.up, cfg, merged.value, before, scalars, exits, hooks, hooks);
    if r.Err? { return; }
    r := DeleteUnwritten(key, cfg, written);
    FrameScalars(key.up, hooks, key.st);
    BetweenSteps(key.up, cfg, merged.value, before, scalars, exits, hooks, key.st);
  }

  lemma WrittenBetween(up: CaseMap, cfg: ManagedConfig, before: KeyState, st: KeyState, written: set<Field>)
    requires Written(up, cfg, before, st, written, {})
    ensures st == before.(values := st.values) && ScalarsBetween(up, cfg, before, st)
    ensures forall f :: f in written ==> Want(up, cfg, f).Some? && Get(st.values, f) == WantData(up, cfg, f)
  {
    hide Want, WantData;
  }

  lemma AcceptedHooks(up: CaseMap, cfg: ManagedConfig)
    requires Accepts(up, cfg)
    ensures HooksAgree(up, cfg.hooks) && forall h :: h in cfg.hooks ==> NulFree(h.command)
  {
  }

  lemma FrameScalars(up: CaseMap, before: KeyState, st: KeyState)
    requires st == before.(values := st.values)
    ensures WellNamed(up, before) ==> WellNamed(up, st)
    ensures Readable(before) ==> Readable(st)
  {
  }

  /** The phases touch different parts of the key, so each keeps what the others have established. */
  lemma BetweenSteps(up: CaseMap, cfg: ManagedConfig, actions: Actions, before: KeyState,
                     scalars: KeyState, exits: KeyState, hooks: KeyState, final: KeyState)
    requires scalars == before.(values := scalars.values) && ScalarsBetween(up, cfg, before, scalars)
    requires exits == scalars.(exit := exits.exit) && (exits == scalars || ExitBetween(up, actions, scalars, exits))
    requires hooks == exits.(events := hooks.events) && (hooks == exits || HooksBetween(up, cfg, exits, hooks))
    requires final == hooks.(values := final.values) && ScalarsBetween(up, cfg, hooks, final)
    ensures Between(up, cfg, actions, before, final)
  {
    hide WantData, WantExit, WantHook;
    forall f: Field
      ensures Get(final.values, f) == Get(before.values, f) || Get(final.values, f) == WantData(up, cfg, f)
    {
    }
    forall id
      ensures ExitAt(final, id) == ExitAt(before, id) || ExitAt(final, id) == WantExit(up, actions, id)
    {
      assert ExitAt(final, id) == ExitAt(exits, id) && ExitAt(before, id) == ExitAt(scalars, id);
    }
    forall e, a
      ensures HookAt(final, e, a) == HookAt(before, e, a) || HookAt(final, e, a) == WantHook(up, cfg, e, a)
    {
      assert HookAt(final, e, a) == HookAt(hooks, e, a) && HookAt(before, e, a) == HookAt(exits, e, a);
    }
  }
}
