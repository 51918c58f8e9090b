/** A configuration written over any earlier key contents is the configuration read back, in normal form. */
module RoundTrip {
  import opened Prelude
  import opened Text
  import opened Utf16
  import opened Codecs
  import opened ExitCodes
  import opened RecoveryForm
  import opened Config
  import opened Registry
  import opened Reconcile
  import opened RegistryRead

  // -- Exit actions ---------------------------------------------------------------------

  lemma ExitEntryBack(up: CaseMap, actions: Actions, st: KeyState, id: string) returns (code: string)
    requires SoundCase(up) && AllCodes(actions) && WellNamed(up, st) && Readable(st)
    requires st.exit.Some? && id in st.exit.value && ExitAt(st, id) == WantExit(up, actions, id)
    ensures NamesCode(up, actions, code, id)
    ensures ReadExitEntry(st.exit.value[id]) == Ok(Entry(code, actions[code]))
    ensures Normalize(code) == Ok(code)
  {
    hide Fold, AllCodes, SoundCase, TextOf, ParseAction, DataOf, Normalize, ActionText, ExitName, IsCode;
    code :| NamesCode(up, actions, code, id);
    SameCode(up, actions, code, id);
    var n := st.exit.value[id];
    assert n.name.Some? && Fold(up, n.name.value) == id;
    assert n.name.value == ExitName(code);
    ActionBack(actions[code]);
    TextBack(ActionText(actions[code]), false);
    IsCodeOf(actions, code);
    CodeBack(code);
  }

  lemma IsCodeOf(actions: Actions, code: string)
    requires AllCodes(actions) && code in actions
    ensures IsCode(code)
  {
  }

  lemma CodeBack(code: string)
    requires IsCode(code)
    ensures Normalize(ExitName(code)) == Ok(code) && Normalize(code) == Ok(code)
  {
    if code != DEFAULT {
      CanonicalKeys(code);
    }
  }

  /** Whatever is already merged agrees with `actions`, and every listed identity is merged. */
  ghost predicate PartlyRead(up: CaseMap, actions: Actions, out: Actions, ids: seq<string>) {
    && (forall code :: code in out ==> code in actions && out[code] == actions[code])
    && (forall id, code :: id in ids && NamesCode(up, actions, code, id) ==> code in out)
  }

  lemma {:induction false} ExitsBack(up: CaseMap, actions: Actions, st: KeyState, ids: seq<string>)
    requires SoundCase(up) && AllCodes(actions) && WellNamed(up, st) && Readable(st) && st.exit.Some?
    requires forall id :: id in ids ==> id in st.exit.value
    requires forall id :: ExitAt(st, id) == WantExit(up, actions, id)
    ensures ReadExits(st.exit.value, ids).Ok? && PartlyRead(up, actions, ReadExits(st.exit.value, ids).value, ids)
  {
    hide Fold, AllCodes, SoundCase, WantExit, ReadExitEntry, WellNamed, Readable, ExitName, Normalize;
    if ids != [] {
      var rest, id := ids[..|ids| - 1], Last(ids);
      ExitsBack(up, actions, st, rest);
      assert id in ids;
      var code := ExitEntryBack(up, actions, st, id);
      assert ids == rest + [id];
      forall c | NamesCode(up, actions, c, id)
        ensures c == code
      {
        SameCodeOnly(up, actions, c, code, id);
      }
    }
  }

  lemma SameCodeOnly(up: CaseMap, actions: Actions, c: string, d: string, id: string)
    requires SoundCase(up) && AllCodes(actions) && NamesCode(up, actions, c, id) && NamesCode(up, actions, d, id)
    ensures c == d
  {
    hide Fold;
    SameCode(up, actions, c, id);
    IsCodeOf(actions, c);
    IsCodeOf(actions, d);
    CodeBack(c);
    CodeBack(d);
  }

  lemma ExitActionsBack(up: CaseMap, actions: Actions, st: KeyState, ids: seq<string>)
    requires SoundCase(up) && AllCodes(actions) && WellNamed(up, st) && Readable(st)
    requires st.exit == None <==> actions == map[]
    requires forall id :: ExitAt(st, id) == WantExit(up, actions, id)
    requires ListsIds(ids, OrEmpty(st.exit))
    ensures ReadExits(OrEmpty(st.exit), ids) == Ok(actions)
  {
    hide Fold, AllCodes, SoundCase, ReadExits, WellNamed, Readable, ExitName;
    if st.exit.None? {
      assert ids == [] by { if ids != [] { NoIds(ids); } }
      NothingToRead();
    } else {
      ExitsBack(up, actions, st, ids);
      var out := ReadExits(st.exit.value, ids).value;
      forall code | code in actions
        ensures code in out
      {
        var id := Fold(up, ExitName(code));
        assert NamesCode(up, actions, code, id);
        assert ExitAt(st, id).Some?;
      }
      assert out == actions;
    }
  }

  lemma NoIds(ids: seq<string>)
    requires ids != []
    ensures exists id :: id in ids
  {
    assert ids[0] in ids;
  }

  lemma NothingToRead()
    ensures ReadExits(map[], []) == Ok(map[])
  {
  }

  // -- Hooks --------------------------------------------------------------------------------

  /** Case variants of a valid component are valid components. */
  lemma VariantIsValid(up: CaseMap, s: string, t: string)
    requires SoundCase(up) && ValidComponent(s) && Fold(up, s) == Fold(up, t)
    ensures ValidComponent(t)
  {
    assert |s| == |Fold(up, s)| == |Fold(up, t)| == |t|;
    SameUnits(up, s, t);
    forall c | c in t
      ensures c != '\\' && c != '/' && !IsControl(c)
    {
      var i :| 0 <= i < |t| && t[i] == c;
      assert Fold(up, s)[i] == up(s[i]) && Fold(up, t)[i] == up(t[i]);
      assert s[i] in s;
      SlashListed();
    }
  }

  lemma SlashListed()
    ensures '\\' in "0123456789-\\/" && '/' in "0123456789-\\/"
  {
    var all := "0123456789-\\/";
    assert all[11] == '\\' && all[12] == '/';
  }

  lemma {:induction false} SameUnits(up: CaseMap, s: string, t: string)
    requires SoundCase(up) && Fold(up, s) == Fold(up, t)
    ensures Units(s) == Units(t)
  {
    assert |s| == |Fold(up, s)| == |Fold(up, t)| == |t|;
    if s != [] {
      assert Fold(up, s)[0] == up(s[0]) && Fold(up, t)[0] == up(t[0]);
      assert Fold(up, s)[1..] == Fold(up, s[1..]) && Fold(up, t)[1..] == Fold(up, t[1..]);
      SameUnits(up, s[1..], t[1..]);
    }
  }

  /** The configuration has a hook of this identity and command. */
  ghost predicate StoredHook(up: CaseMap, cfg: ManagedConfig, h: Hook) {
    exists g :: g in cfg.hooks && Identity(up, g) == Identity(up, h) && h.command == g.command
  }

  lemma HookBack(up: CaseMap, cfg: ManagedConfig, e: string, a: string, event: string, n: Named)
    returns (g: Hook, h: Hook, marks: set<string>)
    requires SoundCase(up) && Accepts(up, cfg) && Fold(up, event) == e
    requires n.name.Some? && Fold(up, n.name.value) == a
    requires WantHook(up, cfg, e, a) == Some(n.data)
    ensures ReadHook(event, n) == Ok((h, marks))
    ensures h.event == event && Identity(up, h) == (e, a)
    ensures g in cfg.hooks && Identity(up, g) == (e, a) && h.command == g.command
    ensures marks == if Marked(up, cfg, HookMark(g.event, g.action)) then {HookMark(h.event, h.action)} else {}
  {
    hide SoundCase, HooksAgree, ValidComponent, Accepts;
    g :| g in cfg.hooks && Identity(up, g) == (e, a) && n.data == HookData(up, cfg, g);
    AcceptedHook(up, cfg, g);
    var marked := Marked(up, cfg, HookMark(g.event, g.action));
    assert HookData(up, cfg, g) == DataOf(Text(g.command, marked));
    TextBack(g.command, marked);
    assert TextOf(DataOf(Text(g.command, marked))) == Ok((g.command, marked));
    VariantIsValid(up, g.action, n.name.value);
    h := Hook(event, n.name.value, g.command);
    marks := if marked then {HookMark(h.event, h.action)} else {};
  }

  lemma AcceptedHook(up: CaseMap, cfg: ManagedConfig, g: Hook)
    requires Accepts(up, cfg) && g in cfg.hooks
    ensures NulFree(g.command) && ValidComponent(g.event) && ValidComponent(g.action) && HooksAgree(up, cfg.hooks)
  {
  }

  predicate HasId(up: CaseMap, hooks: seq<Hook>,
                  id: (string, string)) { exists h :: h in hooks && Identity(up, h) == id }

  predicate HasMark(hooks: seq<Hook>, m: string) { exists h :: h in hooks && HookMark(h.event, h.action) == m }

  predicate OnceEach(up: CaseMap, hooks: seq<Hook>) {
    forall i, j :: 0 <= i < j < |hooks| ==> Identity(up, hooks[i]) != Identity(up, hooks[j])
  }

  /** `hooks` are exactly the configured hooks of the identities in `scope`, each once, and `marks` their marks. */
  ghost predicate HooksRead(up: CaseMap, cfg: ManagedConfig, hooks: seq<Hook>, marks: set<string>,
                            scope: set<(string, string)>) {
    && (forall id :: HasId(up, hooks, id) <==> id in scope)
    && (forall h :: h in hooks ==> StoredHook(up, cfg, h))
    && OnceEach(up, hooks)
    && (forall m :: m in marks <==> Marked(up, cfg, m) && HasMark(hooks, m))
  }

  lemma MarkOfVariant(up: CaseMap, cfg: ManagedConfig, g: Hook, h: Hook)
    requires Identity(up, g) == Identity(up, h)
    ensures Marked(up, cfg, HookMark(g.event, g.action)) == Marked(up, cfg, HookMark(h.event, h.action))
  {
    FoldHookMark(up, g, h);
  }

  lemma HooksReadAppend(up: CaseMap, cfg: ManagedConfig, a: seq<Hook>, ma: set<string>, sa: set<(string, string)>,
                        b: seq<Hook>, mb: set<string>, sb: set<(string, string)>)
    requires HooksRead(up, cfg, a, ma, sa) && HooksRead(up, cfg, b, mb, sb) && sa !! sb
    ensures HooksRead(up, cfg, a + b, ma + mb, sa + sb)
  {
    hide Fold, Marked, HookMark, StoredHook, Identity;
    forall id
      ensures HasId(up, a + b, id) <==> HasId(up, a, id) || HasId(up, b, id)
    {
    }
    forall m
      ensures HasMark(a + b, m) <==> HasMark(a, m) || HasMark(b, m)
    {
    }
    OnceEachAppend(up, a, b);
  }

  lemma OnceEachAppend(up: CaseMap, a: seq<Hook>, b: seq<Hook>)
    requires OnceEach(up, a) && OnceEach(up, b)
    requires forall id :: !(HasId(up, a, id) && HasId(up, b, id))
    ensures OnceEach(up, a + b)
  {
    hide Identity;
    var all := a + b;
    forall i, j | 0 <= i < j < |all|
      ensures Identity(up, all[i]) != Identity(up, all[j])
    {
      if i < |a| <= j {
        assert all[i] in a && all[j] in b;
        assert HasId(up, a, Identity(up, all[i])) && HasId(up, b, Identity(up, all[j]));
      }
    }
  }

  lemma OneHookRead(up: CaseMap, cfg: ManagedConfig, g: Hook, h: Hook, marks: set<string>)
    requires g in cfg.hooks && Identity(up, g) == Identity(up, h) && h.command == g.command
    requires marks == if Marked(up, cfg, HookMark(g.event, g.action)) then {HookMark(h.event, h.action)} else {}
    ensures HooksRead(up, cfg, [h], marks, {Identity(up, h)})
  {
    MarkOfVariant(up, cfg, g, h);
    hide Fold, Marked, HookMark;
    assert [h][0] == h;
  }

  function Pairs(e: string, ids: seq<string>): set<(string, string)> { set a | a in ids :: (e, a) }

  lemma {:induction false} ActionsBack(up: CaseMap, cfg: ManagedConfig, e: string, event: string,
                                       values: map<string, Named>, ids: seq<string>)
    requires SoundCase(up) && Accepts(up, cfg) && Fold(up, event) == e
    requires ReadableValues(values) && WellNamedValues(up, values)
    requires forall a :: a in values ==> WantHook(up, cfg, e, a) == Some(values[a].data)
    requires (forall a :: a in ids ==> a in values) && forall i, j :: 0 <= i < j < |ids| ==> ids[i] != ids[j]
    ensures var r := ReadActions(event, values, ids);
            r.Ok? && HooksRead(up, cfg, r.value.0, r.value.1, Pairs(e, ids))
  {
    hide Fold, SoundCase, Accepts, WantHook, ReadHook, HooksRead;
    if ids == [] {
      NoHooksRead(up, cfg);
      assert Pairs(e, ids) == {};
    } else {
      var rest, a := ids[..|ids| - 1], Last(ids);
      ActionsBack(up, cfg, e, event, values, rest);
      var out := ReadActions(event, values, rest).value;
      assert a in ids;
      var g, h, marks := HookBack(up, cfg, e, a, event, values[a]);
      OneHookRead(up, cfg, g, h, marks);
      assert a !in rest;
      HooksReadAppend(up, cfg, out.0, out.1, Pairs(e, rest), [h], marks, {(e, a)});
      assert ids == rest + [a];
      assert Pairs(e, ids) == Pairs(e, rest) + {(e, a)};
    }
  }

  lemma NoHooksRead(up: CaseMap, cfg: ManagedConfig)
    ensures HooksRead(up, cfg, [], {}, {})
  {
  }

  ghost function PairsOf(ids: seq<string>, actions: map<string, seq<string>>): set<(string, string)>
    requires forall e :: e in ids ==> e in actions
  {
    if ids == [] then {} else PairsOf(ids[..|ids| - 1], actions) + Pairs(Last(ids), actions[Last(ids)])
  }

  lemma {:induction false} PairsOfMember(ids: seq<string>, actions: map<string, seq<string>>, e: string, a: string)
    requires forall e :: e in ids ==> e in actions
    ensures (e, a) in PairsOf(ids, actions) <==> e in ids && a in actions[e]
  {
    if ids != [] {
      PairsOfMember(ids[..|ids| - 1], actions, e, a);
      assert ids == ids[..|ids| - 1] + [Last(ids)];
    }
  }

  lemma {:induction false} EventsBack(up: CaseMap, cfg: ManagedConfig, st: KeyState, ids: seq<string>,
                                      actions: map<string, seq<string>>)
    requires SoundCase(up) && Accepts(up, cfg) && WellNamed(up, st) && Readable(st) && st.events.Some?
    requires forall e, a :: HookAt(st, e, a) == WantHook(up, cfg, e, a)
    requires forall e :: e in st.events.value ==> WantsEvent(up, cfg, e)
    requires ListsActions(st.events.value, ids, actions)
    requires forall i, j :: 0 <= i < j < |ids| ==> ids[i] != ids[j]
    ensures var r := ReadEvents(st.events.value, ids, actions);
            r.Ok? && HooksRead(up, cfg, r.value.0, r.value.1, PairsOf(ids, actions))
  {
    hide Fold, SoundCase, Accepts, WantHook, ReadActions, HooksRead, ValidComponent;
    if ids == [] {
      NoHooksRead(up, cfg);
    } else {
      var rest, e := ids[..|ids| - 1], Last(ids);
      EventsBack(up, cfg, st, rest, actions);
      var out := ReadEvents(st.events.value, rest, actions).value;
      assert e in ids;
      var key := st.events.value[e];
      EventNameBack(up, cfg, st, e);
      forall a | a in key.values
        ensures WantHook(up, cfg, e, a) == Some(key.values[a].data)
      {
        assert HookAt(st, e, a) == Some(key.values[a].data);
      }
      ActionsBack(up, cfg, e, key.name.value, key.values, actions[e]);
      var more := ReadActions(key.name.value, key.values, actions[e]).value;
      forall x, a | (x, a) in PairsOf(rest, actions)
        ensures (x, a) !in Pairs(e, actions[e])
      {
        PairsOfMember(rest, actions, x, a);
      }
      HooksReadAppend(up, cfg, out.0, out.1, PairsOf(rest, actions), more.0, more.1, Pairs(e, actions[e]));
    }
  }

  lemma EventNameBack(up: CaseMap, cfg: ManagedConfig, st: KeyState, e: string)
    requires SoundCase(up) && Accepts(up, cfg) && WellNamed(up, st) && Readable(st)
    requires st.events.Some? && e in st.events.value && WantsEvent(up, cfg, e)
    ensures var key := st.events.value[e];
            && key.name.Some? && Fold(up, key.name.value) == e && ValidComponent(key.name.value)
            && ReadableValues(key.values) && WellNamedValues(up, key.values)
  {
    hide Fold, SoundCase, Accepts, ValidComponent;
    var h :| h in cfg.hooks && Fold(up, h.event) == e;
    AcceptedHook(up, cfg, h);
    VariantIsValid(up, h.event, st.events.value[e].name.value);
  }

  lemma HooksBack(up: CaseMap, cfg: ManagedConfig, st: KeyState, order: Order)
    requires SoundCase(up) && Accepts(up, cfg) && Merged(cfg).Ok? && Reflects(up, cfg, Merged(cfg).value, st) && OrderOf(order, st)
    ensures var r := ReadEvents(OrEmpty(st.events), order.events, order.actions);
            && r.Ok?
            && (forall h :: h in r.value.0 ==> StoredHook(up, cfg, h))
            && (forall g :: g in cfg.hooks ==> HasId(up, r.value.0, Identity(up, g)))
            && OnceEach(up, r.value.0)
            && (forall m :: m in r.value.1 <==> Marked(up, cfg, m) && HasMark(r.value.0, m))
  {
    hide Fold, SoundCase, Accepts, Merged, ReadEvents, WantExit, Marked, HookMark, StoredHook, HasMark, HookData;
    if st.events.None? {
      assert order.events == [] by { if order.events != [] { NoIds(order.events); } }
      NoEventsToRead(up, cfg, order.actions);
    } else {
      forall e | e in st.events.value
        ensures WantsEvent(up, cfg, e)
      {
      }
      EventsBack(up, cfg, st, order.events, order.actions);
      forall g | g in cfg.hooks
        ensures Identity(up, g) in PairsOf(order.events, order.actions)
      {
        var e, a := Fold(up, g.event), Fold(up, g.action);
        assert WantHook(up, cfg, e, a).Some?;
        assert HookAt(st, e, a).Some?;
        PairsOfMember(order.events, order.actions, e, a);
      }
    }
  }

  lemma NoEventsToRead(up: CaseMap, cfg: ManagedConfig, actions: map<string, seq<string>>)
    ensures ReadEvents(map[], [], actions) == Ok(([], {}))
    ensures OnceEach(up, []) && forall m :: !HasMark([], m)
  {
  }

  // -- The whole configuration -----------------------------------------------------------

  /** `m` names a text value the configuration has. */
  predicate NamesText(up: CaseMap, cfg: ManagedConfig, m: string) {
    || (m == "Application" && cfg.application.Some?)
    || (m == "AppParameters" && cfg.appParameters.Some?)
    || (m == "AppDirectory" && cfg.appDirectory.Some?)
    || (m == "AppAffinity" && cfg.affinity.Some?)
    || (m == "AppStdin" && cfg.stdin.Some?)
    || (m == "AppStdout" && cfg.stdout.Some?)
    || (m == "AppStderr" && cfg.stderr.Some?)
  }

  /** `c` is `cfg` with canonical exit codes and the default mirrored, one hook for each case identity with its
      command, and exactly the marks that concern something stored. */
  ghost predicate NormalForm(up: CaseMap, cfg: ManagedConfig, c: ManagedConfig)
    requires Merged(cfg).Ok?
  {
    && c == cfg.(exitActions := Merged(cfg).value, defaultAction := Get(Merged(cfg).value, DEFAULT),
                 hooks := c.hooks, expandable := c.expandable)
    && (forall h :: h in c.hooks ==> StoredHook(up, cfg, h))
    && (forall g :: g in cfg.hooks ==> HasId(up, c.hooks, Identity(up, g)))
    && OnceEach(up, c.hooks)
    && (forall m :: m in c.expandable <==> Marked(up, cfg, m) && (NamesText(up, cfg, m) || HasMark(c.hooks, m)))
  }

  lemma AcceptedShape(up: CaseMap, cfg: ManagedConfig)
    requires Accepts(up, cfg)
    ensures Merged(cfg).Ok?
    ensures cfg.application.Some? && Trim(cfg.application.value) != ""
    ensures OptionalNulFree(cfg.application) && OptionalNulFree(cfg.appParameters)
    ensures OptionalNulFree(cfg.appDirectory) && OptionalNulFree(cfg.affinity)
    ensures Storable(cfg.environment) && Storable(cfg.environmentExtra)
    ensures forall std :: StreamNulFree(StreamOf(cfg, std))
    ensures forall std :: StreamOf(cfg, std).Some? ==> StreamOf(cfg, std).value.path != ""
  {
    hide Merged, ValidMark, Trim, HooksAgree, ValidComponent;
    assert forall i :: 0 <= i < |cfg.environment| ==> cfg.environment[i] in cfg.environment && NulFree(cfg.environment[i]);
    assert forall i :: 0 <= i < |cfg.environmentExtra| ==>
             cfg.environmentExtra[i] in cfg.environmentExtra && NulFree(cfg.environmentExtra[i]);
    EmptyPathInvalid(cfg);
    forall std
      ensures StreamOf(cfg, std).Some? ==> StreamOf(cfg, std).value.path != ""
    {
      assert ValidStreamPath(cfg, std);
    }
  }

  lemma EmptyPathInvalid(cfg: ManagedConfig)
    ensures forall name :: !ValidRawPath(cfg, name, "")
  {
    assert !MayExpand("") && !IsAbsolute("");
  }

  ghost function MarkIf(up: CaseMap, cfg: ManagedConfig, name: string, present: bool): set<string> {
    if present && Marked(up, cfg, name) then {name} else {}
  }

  ghost function TextPair(up: CaseMap, cfg: ManagedConfig, name: string, s: Option<string>): Option<(string, bool)> {
    if s.Some? then Some((s.value, Marked(up, cfg, name))) else None
  }

  lemma TextPairs(up: CaseMap, cfg: ManagedConfig, name: string, s: Option<string>)
    ensures Plain(TextPair(up, cfg, name, s)) == s
    ensures MarkOf(name, TextPair(up, cfg, name, s)) == MarkIf(up, cfg, name, s.Some?)
  {
  }

  lemma TextsBack(up: CaseMap, cfg: ManagedConfig, st: KeyState)
    requires Accepts(up, cfg) && Holds(up, cfg, st)
    ensures ReadText(st, Application) == Ok(TextPair(up, cfg, "Application", cfg.application))
    ensures ReadText(st, AppParameters) == Ok(TextPair(up, cfg, "AppParameters", cfg.appParameters))
    ensures ReadText(st, AppDirectory) == Ok(TextPair(up, cfg, "AppDirectory", cfg.appDirectory))
    ensures ReadText(st, AppAffinity) == Ok(TextPair(up, cfg, "AppAffinity", cfg.affinity))
    ensures forall std ::
              ReadStream(st, std) == Ok((StreamOf(cfg, std), MarkIf(up, cfg, StreamName(std), StreamOf(cfg, std).Some?)))
  {
    AcceptedShape(up, cfg);
    hide Accepts, Marked, ReadText, ReadStream, WantData, OptionalNulFree, StreamNulFree;
    TextFieldBack(up, cfg, st, Application, "Application", cfg.application);
    TextFieldBack(up, cfg, st, AppParameters, "AppParameters", cfg.appParameters);
    TextFieldBack(up, cfg, st, AppDirectory, "AppDirectory", cfg.appDirectory);
    TextFieldBack(up, cfg, st, AppAffinity, "AppAffinity", cfg.affinity);
    forall std
      ensures ReadStream(st, std) == Ok((StreamOf(cfg, std), MarkIf(up, cfg, StreamName(std), StreamOf(cfg, std).Some?)))
    {
      StreamBack(up, cfg, st, std);
    }
  }

  ghost predicate Holds(up: CaseMap, cfg: ManagedConfig, st: KeyState) {
    forall f: Field :: Get(st.values, f) == WantData(up, cfg, f)
  }

  lemma BlocksBack(up: CaseMap, cfg: ManagedConfig, st: KeyState)
    requires Holds(up, cfg, st) && Storable(cfg.environment) && Storable(cfg.environmentExtra)
    ensures ReadBlock(st, AppEnvironment) == Ok(cfg.environment) && ReadBlock(st, AppEnvironmentExtra) == Ok(cfg.environmentExtra)
  {
    hide ReadBlock, WantData, Storable;
    BlockFieldBack(up, cfg, st, AppEnvironment, cfg.environment);
    BlockFieldBack(up, cfg, st, AppEnvironmentExtra, cfg.environmentExtra);
  }

  lemma DelaysBack(up: CaseMap, cfg: ManagedConfig, st: KeyState)
    requires Holds(up, cfg, st)
    ensures ReadNumber(st, AppPriority) == Ok(cfg.priority)
    ensures ReadNumber(st, AppRestartDelay) == Ok(cfg.restartDelay) && ReadNumber(st, AppThrottle) == Ok(cfg.throttleDelay)
  {
    hide ReadNumber, WantData;
    NumberFieldBack(up, cfg, st, AppPriority, cfg.priority);
    NumberFieldBack(up, cfg, st, AppRestartDelay, cfg.restartDelay);
    NumberFieldBack(up, cfg, st, AppThrottle, cfg.throttleDelay);
  }

  lemma StopMethodsBack(up: CaseMap, cfg: ManagedConfig, st: KeyState)
    requires Holds(up, cfg, st)
    ensures ReadNumber(st, AppStopMethodSkip) == Ok(cfg.stopMethodSkip)
    ensures ReadNumber(st, AppStopMethodConsole) == Ok(cfg.killConsoleGrace)
    ensures ReadNumber(st, AppStopMethodWindow) == Ok(cfg.killWindowGrace)
    ensures ReadNumber(st, AppStopMethodThreads) == Ok(cfg.killThreadsGrace)
    ensures ReadFlag(st, AppKillProcessTree) == Ok(cfg.killProcessTree)
  {
    hide ReadNumber, ReadFlag, WantData;
    NumberFieldBack(up, cfg, st, AppStopMethodSkip, cfg.stopMethodSkip);
    NumberFieldBack(up, cfg, st, AppStopMethodConsole, cfg.killConsoleGrace);
    NumberFieldBack(up, cfg, st, AppStopMethodWindow, cfg.killWindowGrace);
    NumberFieldBack(up, cfg, st, AppStopMethodThreads, cfg.killThreadsGrace);
    FlagFieldBack(up, cfg, st, AppKillProcessTree, cfg.killProcessTree);
  }

  lemma RotationBack(up: CaseMap, cfg: ManagedConfig, st: KeyState)
    requires Holds(up, cfg, st)
    ensures ReadFlag(st, AppRotateFiles) == Ok(cfg.rotateEnabled) && ReadFlag(st, AppTimestampLog) == Ok(cfg.timestampLog)
    ensures ReadNumber(st, AppRotateOnline) == Ok(cfg.rotateOnline) && ReadNumber(st, AppRotateSeconds) == Ok(cfg.rotateSeconds)
    ensures ReadNumber(st, AppRotateDelay) == Ok(cfg.rotateDelay)
  {
    hide ReadNumber, ReadFlag, WantData;
    FlagFieldBack(up, cfg, st, AppRotateFiles, cfg.rotateEnabled);
    FlagFieldBack(up, cfg, st, AppTimestampLog, cfg.timestampLog);
    NumberFieldBack(up, cfg, st, AppRotateOnline, cfg.rotateOnline);
    NumberFieldBack(up, cfg, st, AppRotateSeconds, cfg.rotateSeconds);
    NumberFieldBack(up, cfg, st, AppRotateDelay, cfg.rotateDelay);
  }

  lemma BytesBack(up: CaseMap, cfg: ManagedConfig, st: KeyState)
    requires Holds(up, cfg, st)
    ensures ReadNumber(st, AppRotateBytes).Ok? && ReadNumber(st, AppRotateBytesHigh).Ok?
    ensures Join64(ReadNumber(st, AppRotateBytes).value, ReadNumber(st, AppRotateBytesHigh).value) == cfg.rotateBytes
  {
    hide ReadNumber, WantData, LowHalf, HighHalf;
    var b := cfg.rotateBytes;
    NumberFieldBack(up, cfg, st, AppRotateBytes, if b.Some? then Some(LowHalf(b.value)) else None);
    NumberFieldBack(up, cfg, st, AppRotateBytesHigh, if b.Some? then Some(HighHalf(b.value)) else None);
    if b.Some? { Halves(b.value); }
  }

  /** The marks of the text values the configuration has. */
  ghost function TextMarks(up: CaseMap, cfg: ManagedConfig): set<string> {
    MarkIf(up, cfg, "Application", cfg.application.Some?) + MarkIf(up, cfg, "AppParameters", cfg.appParameters.Some?)
    + MarkIf(up, cfg, "AppDirectory", cfg.appDirectory.Some?) + MarkIf(up, cfg, "AppAffinity", cfg.affinity.Some?)
    + MarkIf(up, cfg, "AppStdin", cfg.stdin.Some?) + MarkIf(up, cfg, "AppStdout", cfg.stdout.Some?)
    + MarkIf(up, cfg, "AppStderr", cfg.stderr.Some?)
  }

  lemma MarkIfMember(up: CaseMap, cfg: ManagedConfig, name: string, present: bool, m: string)
    ensures m in MarkIf(up, cfg, name, present) <==> m == name && present && Marked(up, cfg, m)
  {
    hide Marked;
  }

  lemma TextMarksAre(up: CaseMap, cfg: ManagedConfig, m: string)
    ensures m in TextMarks(up, cfg) <==> Marked(up, cfg, m) && NamesText(up, cfg, m)
  {
    hide MarkIf, Marked;
    MarkIfMember(up, cfg, "Application", cfg.application.Some?, m);
    MarkIfMember(up, cfg, "AppParameters", cfg.appParameters.Some?, m);
    MarkIfMember(up, cfg, "AppDirectory", cfg.appDirectory.Some?, m);
    MarkIfMember(up, cfg, "AppAffinity", cfg.affinity.Some?, m);
    MarkIfMember(up, cfg, "AppStdin", cfg.stdin.Some?, m);
    MarkIfMember(up, cfg, "AppStdout", cfg.stdout.Some?, m);
    MarkIfMember(up, cfg, "AppStderr", cfg.stderr.Some?, m);
  }

  lemma TextMarksListed(up: CaseMap, cfg: ManagedConfig)
    ensures TextMarks(up, cfg) ==
            MarkIf(up, cfg, "Application", cfg.application.Some?) + MarkIf(up, cfg, "AppParameters", cfg.appParameters.Some?)
            + MarkIf(up, cfg, "AppDirectory", cfg.appDirectory.Some?) + MarkIf(up, cfg, "AppAffinity", cfg.affinity.Some?)
            + MarkIf(up, cfg, StreamName(Stdin), StreamOf(cfg, Stdin).Some?)
            + MarkIf(up, cfg, StreamName(Stdout), StreamOf(cfg, Stdout).Some?)
            + MarkIf(up, cfg, StreamName(Stderr), StreamOf(cfg, Stderr).Some?)
  {
    hide MarkIf;
  }

  /** Everything but the hooks and their marks. */
  lemma ScalarsBack(up: CaseMap, cfg: ManagedConfig, st: KeyState, order: Order, hooks: (seq<Hook>, set<string>))
    requires Accepts(up, cfg) && Merged(cfg).Ok? && Holds(up, cfg, st) && OrderOf(order, st)
    requires ReadExits(OrEmpty(st.exit), order.exits) == Ok(Merged(cfg).value)
    requires ReadEvents(OrEmpty(st.events), order.events, order.actions) == Ok(hooks)
    ensures ReadConfig(st, order) == Ok(Some(cfg.(
              exitActions := Merged(cfg).value, defaultAction := Get(Merged(cfg).value, DEFAULT),
              hooks := hooks.0, expandable := TextMarks(up, cfg) + hooks.1)))
  {
    AcceptedShape(up, cfg);
    hide Holds, ReadText, ReadNumber, ReadFlag, ReadBlock, ReadStream, ReadExits, ReadEvents, Marked, Fold, Accepts, Merged,
         Trim, StreamNulFree, OptionalNulFree, Storable, OrderOf, ListsActions, Join64, MarkIf, MarkOf, TextMarks, Plain;
    TextsBack(up, cfg, st);
    BlocksBack(up, cfg, st);
    DelaysBack(up, cfg, st);
    StopMethodsBack(up, cfg, st);
    RotationBack(up, cfg, st);
    BytesBack(up, cfg, st);
    TextPairs(up, cfg, "Application", cfg.application);
    TextPairs(up, cfg, "AppParameters", cfg.appParameters);
    TextPairs(up, cfg, "AppDirectory", cfg.appDirectory);
    TextPairs(up, cfg, "AppAffinity", cfg.affinity);
    TextMarksListed(up, cfg);
  }

  lemma ReflectsExits(up: CaseMap, cfg: ManagedConfig, st: KeyState, order: Order)
    requires SoundCase(up) && Accepts(up, cfg)
    requires Merged(cfg).Ok? && Reflects(up, cfg, Merged(cfg).value, st) && OrderOf(order, st)
    ensures Holds(up, cfg, st) && ReadExits(OrEmpty(st.exit), order.exits) == Ok(Merged(cfg).value)
  {
    hide ReadExits, Fold, Accepts, SoundCase, Merged, WantExit, WantHook, WantData;
    MergedCodes(cfg);
    ExitActionsBack(up, Merged(cfg).value, st, order.exits);
  }

  /** From any earlier contents, whatever was written over them reads back in normal form, in every listing order. */
  lemma WriteThenRead(up: CaseMap, cfg: ManagedConfig, st: KeyState, order: Order)
    requires SoundCase(up) && Accepts(up, cfg)
    requires Merged(cfg).Ok? && Reflects(up, cfg, Merged(cfg).value, st) && OrderOf(order, st)
    ensures var r := ReadConfig(st, order);
            r.Ok? && r.value.Some? && NormalForm(up, cfg, r.value.value)
  {
    hide ReadConfig, ReadExits, ReadEvents, Marked, Fold, Accepts, SoundCase, Merged, Holds, TextMarks, NamesText,
         Reflects, HookMark, StoredHook, HasId, OnceEach, HasMark, Identity, ListsActions;
    ReflectsExits(up, cfg, st, order);
    HooksBack(up, cfg, st, order);
    var hooks := ReadEvents(OrEmpty(st.events), order.events, order.actions).value;
    ScalarsBack(up, cfg, st, order, hooks);
    forall m
      ensures m in TextMarks(up, cfg) <==> Marked(up, cfg, m) && NamesText(up, cfg, m)
    {
      TextMarksAre(up, cfg, m);
    }
  }

  /** What is stored of a configuration, told in the terms other programs read it in: an action under its code, the
      default action in the unnamed value, each as a plain word; a hook under the identities of its names. */
  lemma StoredAs(up: CaseMap, cfg: ManagedConfig, actions: Actions, st: KeyState, code: string, h: Hook)
    requires SoundCase(up) && AllCodes(actions) && Reflects(up, cfg, actions, st) && HooksAgree(up, cfg.hooks)
    ensures code in actions ==>
              ExitAt(st, Fold(up, if code == "default" then "" else code)) ==
              Some(Data(Sz, EncodeString(
                match actions[code] case Restart => "Restart" case Ignore => "Ignore" case Exit => "Exit" case Suicide => "Suicide")))
    ensures h in cfg.hooks ==>
              HookAt(st, Fold(up, h.event), Fold(up, h.action)) ==
              Some(Data(if Marked(up, cfg, "AppEvents\\" + h.event + "\\" + h.action) then ExpandSz else Sz,
                        EncodeString(h.command)))
  {
    hide Fold, SoundCase, AllCodes, WantExit, WantHook, HooksAgree, EncodeString, Marked;
    if code in actions { SameCode(up, actions, code, Fold(up, ExitName(code))); }
    if h in cfg.hooks { SameHook(up, cfg, h); }
  }

  /** The types and bytes of the stored values: numbers are four bytes, the lowest first. */
  lemma StoredForms(s: string, entries: seq<string>, n: U32)
    ensures DataOf(Text(s, false)) == Data(Sz, EncodeString(s)) && DataOf(Text(s, true)) == Data(ExpandSz, EncodeString(s))
    ensures DataOf(Block(entries)) == Data(MultiSz, EncodeMulti(entries))
    ensures var b := DataOf(Number(n)).bytes;
            && DataOf(Number(n)).kind == Dword && |b| == 4
            && n == b[0] as int + 0x100 * (b[1] as int) + 0x1_0000 * (b[2] as int) + 0x100_0000 * (b[3] as int)
  {
    U32RoundTrip(n);
    hide EncodeString, EncodeMulti;
  }

  /** Wherever a write is cut short, a service that had its marker still has one that is not blank. */
  lemma ApplicationSurvives(up: CaseMap, cfg: ManagedConfig, actions: Actions, before: KeyState, st: KeyState)
    requires Accepts(up, cfg) && Between(up, cfg, actions, before, st)
    requires var t := ReadText(before, Application); t.Ok? && t.value.Some? && Trim(t.value.value.0) != ""
    ensures var t := ReadText(st, Application); t.Ok? && t.value.Some? && Trim(t.value.value.0) != ""
  {
    AcceptedShape(up, cfg);
    hide Accepts, Trim, Marked, ExitBetween, HooksBetween, TextOf, DataOf;
    if Get(st.values, Application) == WantData(up, cfg, Application) {
      TextBack(cfg.application.value, Marked(up, cfg, "Application"));
    }
  }

  // -- None of this is vacuous ---------------------------------------------------------------

  function OnlyApplication(path: string): ManagedConfig {
    ManagedConfig(Some(path), None, None, [], [], None, None, None, None, None, None, None, None, None, None,
                  None, None, None, None, None, None, None, None, None, map[], [], {})
  }

  lemma NothingMerged(path: string)
    ensures Merged(OnlyApplication(path)) == Ok(map[])
  {
    var cfg := OnlyApplication(path);
    ListingEntries(cfg.exitActions);
    assert EntriesFor(Listing(cfg.exitActions), cfg.exitActions) + DefaultEntry(cfg) == [];
  }

  /** A configuration of an application alone is accepted, and a key holding just that value reflects it. */
  lemma SomethingToRead() returns (up: CaseMap, cfg: ManagedConfig, st: KeyState, order: Order)
    ensures SoundCase(up) && Accepts(up, cfg) && Merged(cfg).Ok? && Reflects(up, cfg, Merged(cfg).value, st) && OrderOf(order, st)
  {
    var path := "C:\\a";
    up, cfg, order := AsciiUpper, OnlyApplication(path), Order([], [], map[]);
    st := KeyState(map[Application := DataOf(Text(path, Marked(up, cfg, "Application")))], map[], None, None);
    hide *;
    AsciiIsSound();
    PathIsAccepted();
    PathAloneAccepted(up, path);
    NothingMerged(path);
    PathAloneReflected(up, path);
  }

  lemma PathAloneReflected(up: CaseMap, path: string)
    ensures var cfg := OnlyApplication(path);
            var st := KeyState(map[Application := DataOf(Text(path, Marked(up, cfg, "Application")))], map[], None, None);
            Reflects(up, cfg, map[], st) && OrderOf(Order([], [], map[]), st)
  {
    hide Marked, DataOf;
    var cfg := OnlyApplication(path);
    var st := KeyState(map[Application := DataOf(Text(path, Marked(up, cfg, "Application")))], map[], None, None);
    assert forall f: Field :: Get(st.values, f) == WantData(up, cfg, f);
    hide Want;
    assert cfg.hooks == [];
  }

  lemma AsciiIsSound()
    ensures SoundCase(AsciiUpper)
  {
  }

  lemma PathAloneAccepted(up: CaseMap, path: string)
    requires Trim(path) != "" && NulFree(path) && NoControls(path) && IsAbsolute(path)
    ensures Accepts(up, OnlyApplication(path))
  {
    NothingMerged(path);
    hide Trim, Merged, ValidMark, MayExpand;
    assert ValidRawPath(OnlyApplication(path), "Application", path);
  }

  lemma PathIsAccepted()
    ensures var path := "C:\\a"; Trim(path) != "" && NulFree(path) && NoControls(path) && IsAbsolute(path)
  {
    var path := "C:\\a";
    TrimNothing(path);
  }
}
