/** The `Parameters` key of one managed service and the write that reconciles it with a configuration.
    Every registry operation may fail; a crash between two operations looks the same as a failure of the later one. */
module Registry {
  import opened Prelude
  import opened Codecs
  import opened ExitCodes
  import opened RecoveryForm
  import opened Config

  datatype Kind = Sz | ExpandSz | MultiSz | Dword | Qword | OtherKind

  datatype Data = Data(kind: Kind, bytes: seq<Byte>)

  /** A value or subkey found by case identity keeps the spelling it was created with; a spelling that
      is not valid UTF-16, or holds a NUL, is `None`. */
  datatype Named = Named(name: Option<string>, data: Data)

  datatype EventKey = EventKey(name: Option<string>, values: map<string, Named>)

  datatype KeyState = KeyState(
    values: map<Field, Data>,
    foreign: map<string, Data>,
    exit: Option<map<string, Named>>,
    events: Option<map<string, EventKey>>)

  function Get<K, V>(m: map<K, V>, k: K): Option<V> { if k in m then Some(m[k]) else None }

  predicate Owns(up: CaseMap, name: string, f: Field) { Fold(up, StoredName(f)) == Fold(up, name) }

  /** What a registry query for `name` finds: owned values go by their stored names, all others are foreign. */
  ghost function ValueNamed(up: CaseMap, st: KeyState, name: string): Option<Data> {
    if exists f :: Owns(up, name, f) then
      var f :| Owns(up, name, f);
      Get(st.values, f)
    else Get(st.foreign, Fold(up, name))
  }

  /** Writing or deleting an owned value is writing or deleting the one value of that name, in any spelling; no
      value of another name, owned or not, changes. */
  lemma OneValueOfAName(up: CaseMap, st: KeyState, f: Field, d: Option<Data>, name: string)
    requires SoundCase(up)
    ensures var values := if d.Some? then st.values[f := d.value] else st.values - {f};
            ValueNamed(up, st.(values := values), name) == if Owns(up, name, f) then d else ValueNamed(up, st, name)
  {
    hide StoredName, Fold, SoundCase;
    forall g | Owns(up, name, f) && Owns(up, name, g)
      ensures f == g
    {
      StoredNamesDistinct(up, f, g);
    }
    forall g, h | Owns(up, name, g) && Owns(up, name, h)
      ensures g == h
    {
      StoredNamesDistinct(up, g, h);
    }
  }

  // -- What a configuration asks for ------------------------------------------------

  datatype Payload = Text(text: string, expand: bool) | Block(entries: seq<string>) | Number(n: U32)

  function DataOf(p: Payload): Data {
    match p
    case Text(s, expand) => Data(if expand then ExpandSz else Sz, EncodeString(s))
    case Block(entries) => Data(MultiSz, EncodeMulti(entries))
    case Number(n) => Data(Dword, EncodeU32(n))
  }

  /** What the store refuses on its own, should a check before it have let it through. */
  predicate Refused(p: Payload) {
    match p
    case Text(s, _) => !NulFree(s)
    case Block(entries) => exists e :: e in entries && (!NulFree(e) || e == "")
    case Number(_) => false
  }

  function WantText(up: CaseMap, cfg: ManagedConfig, name: string, s: Option<string>): Option<Payload> {
    if s.Some? then Some(Text(s.value, Marked(up, cfg, name))) else None
  }

  function WantNumber(n: Option<U32>): Option<Payload> { if n.Some? then Some(Number(n.value)) else None }

  function WantFlag(b: Option<bool>): Option<Payload> {
    if b.Some? then Some(Number(if b.value then 1 else 0)) else None
  }

  function WantBlock(entries: seq<string>): Option<Payload> { if entries != [] then Some(Block(entries)) else None }

  function WantStream(up: CaseMap, cfg: ManagedConfig, name: string, s: Option<IoStream>, part: Part): Option<Payload> {
    if s.None? then None
    else
      match part
      case Path => WantText(up, cfg, name, Some(s.value.path))
      case ShareMode => WantNumber(s.value.shareMode)
      case CreationDisposition => WantNumber(s.value.creationDisposition)
      case FlagsAndAttributes => WantNumber(s.value.flagsAndAttributes)
      case CopyAndTruncate => WantFlag(s.value.copyAndTruncate)
  }

  function LowHalf(n: U64): U32 { var m: int := n; m % U32_LIMIT }

  function HighHalf(n: U64): U32 { var m: int := n; m / U32_LIMIT }

  /** The value field `f` gets, if any. */
  function Want(up: CaseMap, cfg: ManagedConfig, f: Field): Option<Payload> {
    match f
    case Application => WantText(up, cfg, "Application", cfg.application)
    case AppParameters => WantText(up, cfg, "AppParameters", cfg.appParameters)
    case AppDirectory => WantText(up, cfg, "AppDirectory", cfg.appDirectory)
    case AppPriority => WantNumber(cfg.priority)
    case AppAffinity => WantText(up, cfg, "AppAffinity", cfg.affinity)
    case AppEnvironment => WantBlock(cfg.environment)
    case AppEnvironmentExtra => WantBlock(cfg.environmentExtra)
    case AppRestartDelay => WantNumber(cfg.restartDelay)
    case AppThrottle => WantNumber(cfg.throttleDelay)
    case AppStopMethodSkip => WantNumber(cfg.stopMethodSkip)
    case AppStopMethodConsole => WantNumber(cfg.killConsoleGrace)
    case AppStopMethodWindow => WantNumber(cfg.killWindowGrace)
    case AppStopMethodThreads => WantNumber(cfg.killThreadsGrace)
    case AppKillProcessTree => WantFlag(cfg.killProcessTree)
    case AppRotateFiles => WantFlag(cfg.rotateEnabled)
    case AppRotateOnline => WantNumber(cfg.rotateOnline)
    case AppRotateSeconds => WantNumber(cfg.rotateSeconds)
    case AppRotateBytes => if cfg.rotateBytes.Some? then Some(Number(LowHalf(cfg.rotateBytes.value))) else None
    case AppRotateBytesHigh => if cfg.rotateBytes.Some? then Some(Number(HighHalf(cfg.rotateBytes.value))) else None
    case AppRotateDelay => WantNumber(cfg.rotateDelay)
    case AppTimestampLog => WantFlag(cfg.timestampLog)
    case Stream(std, part) => WantStream(up, cfg, StreamName(std), StreamOf(cfg, std), part)
  }

  function WantData(up: CaseMap, cfg: ManagedConfig, f: Field): Option<Data> {
    match Want(up, cfg, f)
    case None => None
    case Some(p) => Some(DataOf(p))
  }

  function ActionText(a: ExitAction): string {
    match a
    case Restart => "Restart"
    case Ignore => "Ignore"
    case Exit => "Exit"
    case Suicide => "Suicide"
  }

  /** The default action lives in the unnamed value. */
  function ExitName(code: string): string { if code == DEFAULT then "" else code }

  function ExitData(a: ExitAction): Data { DataOf(Text(ActionText(a), false)) }

  function HookData(up: CaseMap, cfg: ManagedConfig, h: Hook): Data {
    DataOf(Text(h.command, Marked(up, cfg, HookMark(h.event, h.action))))
  }

  // -- Looking at a key, value by value ---------------------------------------------

  function ExitAt(st: KeyState, id: string): Option<Data> {
    if st.exit.Some? && id in st.exit.value then Some(st.exit.value[id].data) else None
  }

  function HookAt(st: KeyState, event: string, action: string): Option<Data> {
    if st.events.Some? && event in st.events.value && action in st.events.value[event].values
    then Some(st.events.value[event].values[action].data) else None
  }

  predicate NamesCode(up: CaseMap, actions: Actions, code: string, id: string) {
    code in actions && Fold(up, ExitName(code)) == id
  }

  ghost function WantExit(up: CaseMap, actions: Actions, id: string): Option<Data> {
    if exists code :: NamesCode(up, actions, code, id) then
      var code :| NamesCode(up, actions, code, id);
      Some(ExitData(actions[code]))
    else None
  }

  ghost function WantHook(up: CaseMap, cfg: ManagedConfig, event: string, action: string): Option<Data> {
    if exists h :: h in cfg.hooks && Identity(up, h) == (event, action) then
      var h :| h in cfg.hooks && Identity(up, h) == (event, action);
      Some(HookData(up, cfg, h))
    else None
  }

  // -- Relations between key states --------------------------------------------------

  /** Stored spellings are variants of the identity they are found under. */
  ghost predicate WellNamed(up: CaseMap, st: KeyState) {
    && (st.exit.Some? ==> WellNamedValues(up, st.exit.value))
    && (st.events.Some? ==> forall id :: id in st.events.value ==>
          (st.events.value[id].name.Some? ==> Fold(up, st.events.value[id].name.value) == id)
          && WellNamedValues(up, st.events.value[id].values))
  }

  ghost predicate WellNamedValues(up: CaseMap, values: map<string, Named>) {
    forall id :: id in values && values[id].name.Some? ==> Fold(up, values[id].name.value) == id
  }

  predicate ReadableValues(values: map<string, Named>) { forall id :: id in values ==> values[id].name.Some? }

  /** Every spelling under the two subtrees can be read. */
  predicate Readable(st: KeyState) {
    && (st.exit.Some? ==> ReadableValues(st.exit.value))
    && (st.events.Some? ==> forall id :: id in st.events.value ==>
          st.events.value[id].name.Some? && ReadableValues(st.events.value[id].values))
  }

  // -- What a deletion that fails half-way leaves ---------------------------------------

  /** Some of the values are left, as they were. */
  predicate Thinned(part: map<string, Named>, values: map<string, Named>) {
    forall id :: id in part ==> id in values && part[id] == values[id]
  }

  predicate ThinnedEvents(part: map<string, EventKey>, events: map<string, EventKey>) {
    forall e :: e in part ==> e in events && part[e].name == events[e].name && Thinned(part[e].values, events[e].values)
  }

  /** Of the events only `id` has lost anything. */
  predicate ThinnedEvent(part: map<string, EventKey>, events: map<string, EventKey>, id: string) {
    ThinnedEvents(part, events) && forall e :: e in events && e != id ==> e in part && part[e] == events[e]
  }

  function Remaining(values: map<string, Named>, ids: set<string>): map<string, Named> {
    map id | id in values && id in ids :: values[id]
  }

  function RemainingEvents(events: map<string, EventKey>, ids: map<string, set<string>>): map<string, EventKey> {
    map e | e in events && e in ids :: events[e].(values := Remaining(events[e].values, ids[e]))
  }

  ghost predicate ScalarsBetween(up: CaseMap, cfg: ManagedConfig, before: KeyState, st: KeyState) {
    forall f: Field :: Get(st.values, f) == Get(before.values, f) || Get(st.values, f) == WantData(up, cfg, f)
  }

  ghost predicate ExitBetween(up: CaseMap, actions: Actions, before: KeyState, st: KeyState) {
    forall id :: ExitAt(st, id) == ExitAt(before, id) || ExitAt(st, id) == WantExit(up, actions, id)
  }

  ghost predicate HooksBetween(up: CaseMap, cfg: ManagedConfig, before: KeyState, st: KeyState) {
    forall e, a :: HookAt(st, e, a) == HookAt(before, e, a) || HookAt(st, e, a) == WantHook(up, cfg, e, a)
  }

  /** Every value is still the old one or already the one asked for (absent only if nothing is asked for);
      values the manager does not own are untouched. */
  ghost predicate Between(up: CaseMap, cfg: ManagedConfig, actions: Actions, before: KeyState, st: KeyState) {
    && st.foreign == before.foreign
    && ScalarsBetween(up, cfg, before, st)
    && ExitBetween(up, actions, before, st)
    && HooksBetween(up, cfg, before, st)
  }

  /** The key holds what the configuration asks for and nothing else that is owned. */
  ghost predicate Reflects(up: CaseMap, cfg: ManagedConfig, actions: Actions, st: KeyState) {
    && WellNamed(up, st) && Readable(st)
    && (forall f: Field :: Get(st.values, f) == WantData(up, cfg, f))
    && (st.exit == None <==> actions == map[])
    && (forall id :: ExitAt(st, id) == WantExit(up, actions, id))
    && (st.events == None <==> cfg.hooks == [])
    && (forall e, a :: HookAt(st, e, a) == WantHook(up, cfg, e, a))
    && (st.events.Some? ==> forall e :: e in st.events.value ==> exists h :: h in cfg.hooks && Fold(up, h.event) == e)
  }

  // -- Names without case variants ----------------------------------------------------

  predicate IsCode(code: string) { code == DEFAULT || ValidateKey(code) }

  predicate AllCodes(actions: Actions) { forall code :: code in actions ==> IsCode(code) }

  predicate Caseless(s: string) { forall i :: 0 <= i < |s| ==> s[i] in "0123456789-\\/" }

  lemma ExitNameCaseless(code: string)
    requires IsCode(code)
    ensures Caseless(ExitName(code))
    ensures ExitName(code) == "" || Decimal.ParseI32(ExitName(code)).Some?
    ensures NulFree(ExitName(code))
  {
    if code != DEFAULT {
      CanonicalKeys(code);
      var n :| Decimal.IsI32(n) && code == Decimal.ToText(n);
      Decimal.I32RoundTrip(n);
      forall i | 0 <= i < |code|
        ensures code[i] in "0123456789-\\/"
      {
        assert code[i] in code;
        DigitListed(code[i]);
      }
    }
  }

  lemma DigitListed(c: char)
    requires Decimal.IsDigit(c) || c == '-'
    ensures c in "0123456789-\\/"
  {
    var all := "0123456789-\\/";
    assert all[if c == '-' then 10 else c as int - '0' as int] == c;
  }

  lemma CaselessName(up: CaseMap, s: string, t: string)
    requires SoundCase(up) && Caseless(s) && Fold(up, s) == Fold(up, t)
    ensures s == t
  {
    assert |Fold(up, s)| == |s| && |Fold(up, t)| == |t|;
    forall i | 0 <= i < |s|
      ensures s[i] == t[i]
    {
      assert Fold(up, s)[i] == up(s[i]) && Fold(up, t)[i] == up(t[i]);
    }
  }

  /** A stored spelling of a code is the code itself. */
  lemma SameCode(up: CaseMap, actions: Actions, code: string, id: string)
    requires SoundCase(up) && AllCodes(actions) && NamesCode(up, actions, code, id)
    ensures WantExit(up, actions, id) == Some(ExitData(actions[code]))
    ensures forall s :: Fold(up, s) == id ==> s == ExitName(code)
  {
    hide Fold, IsCode;
    forall c | NamesCode(up, actions, c, id)
      ensures c == code
    {
      ExitNameCaseless(code);
      ExitNameCaseless(c);
      CaselessName(up, ExitName(code), ExitName(c));
      NotDefaultText(c);
      NotDefaultText(code);
    }
    forall s | Fold(up, s) == id
      ensures s == ExitName(code)
    {
      ExitNameCaseless(code);
      CaselessName(up, ExitName(code), s);
    }
  }

  lemma NotDefaultText(code: string)
    requires IsCode(code)
    ensures code != ""
  {
  }

  lemma FoldHookMark(up: CaseMap, g: Hook, h: Hook)
    requires Identity(up, g) == Identity(up, h)
    ensures Fold(up, HookMark(g.event, g.action)) == Fold(up, HookMark(h.event, h.action))
  {
    FoldAppend(up, "AppEvents\\" + g.event + "\\", g.action);
    FoldAppend(up, "AppEvents\\" + g.event, "\\");
    FoldAppend(up, "AppEvents\\", g.event);
    FoldAppend(up, "AppEvents\\" + h.event + "\\", h.action);
    FoldAppend(up, "AppEvents\\" + h.event, "\\");
    FoldAppend(up, "AppEvents\\", h.event);
  }

  lemma FoldAppend(up: CaseMap, s: string, t: string)
    ensures Fold(up, s + t) == Fold(up, s) + Fold(up, t)
  {
  }

  /** Hooks of one identity ask for one value. */
  lemma SameHook(up: CaseMap, cfg: ManagedConfig, h: Hook)
    requires HooksAgree(up, cfg.hooks) && h in cfg.hooks
    ensures WantHook(up, cfg, Fold(up, h.event), Fold(up, h.action)) == Some(HookData(up, cfg, h))
  {
    hide Fold;
    forall g | g in cfg.hooks && Identity(up, g) == Identity(up, h)
      ensures HookData(up, cfg, g) == HookData(up, cfg, h)
    {
      FoldHookMark(up, g, h);
    }
  }

  // -- The key itself -------------------------------------------------------------------

  /** `Rejected` and `Unreadable` are found before any mutation; `LateCheck` is a refusal by the store's own
      checks; `Fault` is a registry operation that failed. */
  datatype WriteError = Rejected | Unreadable | LateCheck | Fault

  type Status = Result<(), WriteError>

  /** A count of failed operations has grown exactly if the answer is that one has failed. */
  predicate Counted(r: Status, before: nat, after: nat) { after == before + if r == Err(Fault) then 1 else 0 }

  datatype Op = WriteScalar(field: Field) | WriteEntry | CreateSubkey | Delete

  /** In what `log` adds to `before`, nothing is deleted before the last scalar value has been written. */
  predicate ScalarsFirst(before: seq<Op>, log: seq<Op>) {
    before <= log && forall i, j :: |before| <= i < j < |log| && log[i].Delete? ==> !log[j].WriteScalar?
  }

  function SetNamed(up: CaseMap, values: map<string, Named>, name: string, d: Data): map<string, Named> {
    var id := Fold(up, name);
    values[id := Named(if id in values then values[id].name else Some(name), d)]
  }

  /** Writing under a name that exists in another spelling keeps the spelling the value or subkey was created with, and
      nothing else is touched. */
  lemma SpellingStays(up: CaseMap, values: map<string, Named>, events: map<string, EventKey>, name: string, d: Data, id: string)
    ensures var after := SetNamed(up, values, name, d);
            if id != Fold(up, name) then (id in after <==> id in values) && (id in values ==> after[id] == values[id])
            else id in after && after[id].data == d && after[id].name == if id in values then values[id].name else Some(name)
    ensures var after := WithEvent(up, events, name);
            if id in events then id in after && after[id] == events[id]
            else id in after <==> id == Fold(up, name)
    ensures id == Fold(up, name) && id !in events ==> WithEvent(up, events, name)[id] == EventKey(Some(name), map[])
  {
  }

  function OrEmpty<K, V>(m: Option<map<K, V>>): map<K, V> { if m.Some? then m.value else map[] }

  /** The event subkeys once `name` exists; an existing one keeps its spelling and values. */
  function WithEvent(up: CaseMap, events: map<string, EventKey>, name: string): map<string, EventKey> {
    var id := Fold(up, name);
    if id in events then events else events[id := EventKey(Some(name), map[])]
  }

  function WithHook(up: CaseMap, events: map<string, EventKey>, event: string, action: string, d: Data): map<string,
                    EventKey>
    requires Fold(up, event) in events
  {
    var id := Fold(up, event);
    events[id := events[id].(values := SetNamed(up, events[id].values, action, d))]
  }

  function WithoutHook(events: map<string, EventKey>, event: string, action: string): map<string, EventKey>
    requires event in events
  {
    events[event := events[event].(values := events[event].values - {action})]
  }

  class RegKey {
    const up: CaseMap
    var st: KeyState
    ghost var log: seq<Op>
    /** How many operations have failed. */
    ghost var faults: nat

    constructor (up: CaseMap, st: KeyState)
      ensures this.up == up && this.st == st && log == [] && faults == 0
    {
      this.up := up;
      this.st := st;
      log := [];
      faults := 0;
    }

    /** Any operation may fail. */
    method Fails() returns (failed: bool)
      modifies `faults
      ensures faults == old(faults) + if failed then 1 else 0
    {
      failed := *;
      if failed { faults := faults + 1; }
    }

    // ... single operations

    method SetScalar(f: Field, p: Payload) returns (r: Status)
      modifies this
      ensures Counted(r, old(faults), faults)
      ensures r.Ok? ==> st == old(st).(values := old(st).values[f := DataOf(p)]) && log == old(log) + [WriteScalar(f)]
      ensures r.Err? ==> st == old(st) && log == old(log)
      ensures if Refused(p) then r == Err(LateCheck) else r in {Ok(()), Err(Fault)}
    {
      if Refused(p) { return Err(LateCheck); }
      var failed := Fails();
      if failed { return Err(Fault); }
      st := st.(values := st.values[f := DataOf(p)]);
      log := log + [WriteScalar(f)];
      return Ok(());
    }

    /** Deleting a value that is not there is not a failure. */
    method DeleteScalar(f: Field) returns (r: Status)
      modifies this
      ensures Counted(r, old(faults), faults)
      ensures r.Ok? ==> st == old(st).(values := old(st).values - {f}) && log == old(log) + [Delete]
      ensures r.Err? ==> st == old(st) && log == old(log) && r == Err(Fault)
    {
      var failed := Fails();
      if failed { return Err(Fault); }
      st := st.(values := st.values - {f});
      log := log + [Delete];
      return Ok(());
    }

    method CreateExit() returns (r: Status)
      modifies this
      ensures Counted(r, old(faults), faults)
      ensures r.Ok? ==> st == old(st).(exit := Some(OrEmpty(old(st).exit))) && log == old(log) + [CreateSubkey]
      ensures r.Err? ==> st == old(st) && log == old(log) && r == Err(Fault)
    {
      var failed := Fails();
      if failed { return Err(Fault); }
      st := st.(exit := Some(OrEmpty(st.exit)));
      log := log + [CreateSubkey];
      return Ok(());
    }

    /** A named action must be a signed 32-bit code, or it would never match at run time. */
    method SetExit(name: string, text: string) returns (r: Status)
      requires st.exit.Some?
      modifies this
      ensures Counted(r, old(faults), faults)
      ensures r.Ok? ==> st == old(st).(exit := Some(SetNamed(up, old(st).exit.value, name, DataOf(Text(text, false)))))
                        && log == old(log) + [WriteEntry]
      ensures r.Err? ==> st == old(st) && log == old(log)
      ensures if (name == "" || Decimal.ParseI32(name).Some?) && NulFree(text)
              then r in {Ok(()), Err(Fault)} else r == Err(LateCheck)
    {
      if name != "" && Decimal.ParseI32(name).None? { return Err(LateCheck); }
      if !NulFree(text) { return Err(LateCheck); }
      var failed := Fails();
      if failed { return Err(Fault); }
      st := st.(exit := Some(SetNamed(up, st.exit.value, name, DataOf(Text(text, false)))));
      log := log + [WriteEntry];
      return Ok(());
    }

    method DeleteExit(name: string) returns (r: Status)
      requires st.exit.Some?
      modifies this
      ensures Counted(r, old(faults), faults)
      ensures r.Ok? ==> st == old(st).(exit := Some(old(st).exit.value - {Fold(up, name)})) && log == old(log) + [Delete]
      ensures r.Err? ==> st == old(st) && log == old(log) && r == Err(Fault)
    {
      var failed := Fails();
      if failed { return Err(Fault); }
      st := st.(exit := Some(st.exit.value - {Fold(up, name)}));
      log := log + [Delete];
      return Ok(());
    }

    /** A failing deletion of a subtree may have removed any part of it. */
    method DeleteExitTree() returns (r: Status)
      modifies this
      ensures Counted(r, old(faults), faults)
      ensures st == old(st).(exit := st.exit) && log == old(log) + [Delete]
      ensures r.Ok? ==> st.exit == None
      ensures r.Err? ==> r == Err(Fault)
      ensures r.Err? && st.exit.Some? ==> old(st).exit.Some? && Thinned(st.exit.value, old(st).exit.value)
    {
      log := log + [Delete];
      var failed := Fails();
      if failed && st.exit.Some? {
        var kept: set<string> := *;
        st := st.(exit := Some(Remaining(st.exit.value, kept)));
        return Err(Fault);
      }
      st := st.(exit := None);
      return if failed then Err(Fault) else Ok(());
    }

    method CreateEvents() returns (r: Status)
      modifies this
      ensures Counted(r, old(faults), faults)
      ensures r.Ok? ==> st == old(st).(events := Some(OrEmpty(old(st).events))) && log == old(log) + [CreateSubkey]
      ensures r.Err? ==> st == old(st) && log == old(log) && r == Err(Fault)
    {
      var failed := Fails();
      if failed { return Err(Fault); }
      st := st.(events := Some(OrEmpty(st.events)));
      log := log + [CreateSubkey];
      return Ok(());
    }

    method CreateEvent(name: string) returns (r: Status)
      requires st.events.Some?
      modifies this
      ensures Counted(r, old(faults), faults)
      ensures r.Ok? ==> st == old(st).(events := Some(WithEvent(up, old(st).events.value, name)))
                        && log == old(log) + [CreateSubkey]
      ensures r.Err? ==> st == old(st) && log == old(log) && r == Err(Fault)
    {
      var failed := Fails();
      if failed { return Err(Fault); }
      st := st.(events := Some(WithEvent(up, st.events.value, name)));
      log := log + [CreateSubkey];
      return Ok(());
    }

    method SetHook(event: string, action: string, p: Payload) returns (r: Status)
      requires st.events.Some? && Fold(up, event) in st.events.value
      modifies this
      ensures Counted(r, old(faults), faults)
      ensures r.Ok? ==> st == old(st).(events := Some(WithHook(up, old(st).events.value, event, action, DataOf(p))))
                        && log == old(log) + [WriteEntry]
      ensures r.Err? ==> st == old(st) && log == old(log)
      ensures if Refused(p) then r == Err(LateCheck) else r in {Ok(()), Err(Fault)}
    {
      if Refused(p) { return Err(LateCheck); }
      var failed := Fails();
      if failed { return Err(Fault); }
      st := st.(events := Some(WithHook(up, st.events.value, event, action, DataOf(p))));
      log := log + [WriteEntry];
      return Ok(());
    }

    method DeleteHook(event: string, action: string) returns (r: Status)
      requires st.events.Some? && Fold(up, event) in st.events.value
      modifies this
      ensures Counted(r, old(faults), faults)
      ensures r.Ok? ==> st == old(st).(events := Some(WithoutHook(old(st).events.value, Fold(up, event), Fold(up, action))))
                        && log == old(log) + [Delete]
      ensures r.Err? ==> st == old(st) && log == old(log) && r == Err(Fault)
    {
      var failed := Fails();
      if failed { return Err(Fault); }
      st := st.(events := Some(WithoutHook(st.events.value, Fold(up, event), Fold(up, action))));
      log := log + [Delete];
      return Ok(());
    }

    method DeleteEvent(event: string) returns (r: Status)
      requires st.events.Some?
      modifies this
      ensures Counted(r, old(faults), faults)
      ensures log == old(log) + [Delete]
      ensures r.Ok? ==> st == old(st).(events := Some(old(st).events.value - {Fold(up, event)}))
      ensures r.Err? ==> r == Err(Fault) && st == old(st).(events := st.events) && st.events.Some?
      ensures r.Err? ==> ThinnedEvent(st.events.value, old(st).events.value, Fold(up, event))
    {
      log := log + [Delete];
      var failed := Fails();
      var gone: bool, kept: set<string> := *, *;
      var e := Fold(up, event);
      if failed && !gone && e in st.events.value {
        var key := st.events.value[e];
        st := st.(events := Some(st.events.value[e := key.(values := Remaining(key.values, kept))]));
        return Err(Fault);
      }
      st := st.(events := Some(st.events.value - {e}));
      return if failed then Err(Fault) else Ok(());
    }

    method DeleteEventsTree() returns (r: Status)
      modifies this
      ensures Counted(r, old(faults), faults)
      ensures st == old(st).(events := st.events) && log == old(log) + [Delete]
      ensures r.Ok? ==> st.events == None
      ensures r.Err? ==> r == Err(Fault)
      ensures r.Err? && st.events.Some? ==> old(st).events.Some? && ThinnedEvents(st.events.value, old(st).events.value)
    {
      log := log + [Delete];
      var failed := Fails();
      if failed && st.events.Some? {
        var kept: map<string, set<string>> := *;
        st := st.(events := Some(RemainingEvents(st.events.value, kept)));
        return Err(Fault);
      }
      st := st.(events := None);
      return if failed then Err(Fault) else Ok(());
    }
  }
}
