/** Reading a configuration back from a `Parameters` key. The order in which the registry lists values and
    subkeys is a parameter: what is said here holds for every order. */
module RegistryRead {
  import opened Prelude
  import opened Text
  import opened Codecs
  import opened ExitCodes
  import opened RecoveryForm
  import opened Config
  import opened Registry

  datatype ReadError = Corrupt

  type Read<T> = Result<T, ReadError>

  // -- One value ---------------------------------------------------------------------

  /** The text of a value and whether it is stored for later expansion. */
  function TextOf(d: Data): Read<(string, bool)> {
    if d.kind !in {Sz, ExpandSz} then Err(Corrupt)
    else
      match DecodeString(d.bytes)
      case None => Err(Corrupt)
      case Some(s) => Ok((s, d.kind == ExpandSz))
  }

  function NumberOf(d: Data): Read<U32> {
    if d.kind == Dword && |d.bytes| == 4 then Ok(LittleEndian4(d.bytes))
    else if d.kind == Qword && |d.bytes| == 8 && LittleEndian8(d.bytes) < U32_LIMIT then Ok(LittleEndian8(d.bytes))
    else Err(Corrupt)
  }

  function BlockOf(d: Data): Read<seq<string>> {
    if d.kind != MultiSz then Err(Corrupt)
    else
      match DecodeMulti(d.bytes)
      case None => Err(Corrupt)
      case Some(entries) => Ok(entries)
  }

  function ReadText(st: KeyState, f: Field): Read<Option<(string, bool)>> {
    if f !in st.values then Ok(None) else var t :- TextOf(st.values[f]); Ok(Some(t))
  }

  function ReadNumber(st: KeyState, f: Field): Read<Option<U32>> {
    if f !in st.values then Ok(None) else var n :- NumberOf(st.values[f]); Ok(Some(n))
  }

  function ReadFlag(st: KeyState, f: Field): Read<Option<bool>> {
    var n :- ReadNumber(st, f);
    Ok(if n.Some? then Some(n.value != 0) else None)
  }

  function ReadBlock(st: KeyState, f: Field): Read<seq<string>> {
    if f !in st.values then Ok([]) else BlockOf(st.values[f])
  }

  function Plain(t: Option<(string, bool)>): Option<string> { if t.Some? then Some(t.value.0) else None }

  function MarkOf(name: string, t: Option<(string, bool)>): set<string> {
    if t.Some? && t.value.1 then {name} else {}
  }

  function ReadStream(st: KeyState, std: Std): Read<(Option<IoStream>, set<string>)> {
    var path :- ReadText(st, Stream(std, Path));
    var marks := MarkOf(StreamName(std), path);
    if path.None? || path.value.0 == "" then Ok((None, marks))
    else
      var share :- ReadNumber(st, Stream(std, ShareMode));
      var disposition :- ReadNumber(st, Stream(std, CreationDisposition));
      var flags :- ReadNumber(st, Stream(std, FlagsAndAttributes));
      var truncate :- ReadFlag(st, Stream(std, CopyAndTruncate));
      Ok((Some(IoStream(path.value.0, share, disposition, flags, truncate)), marks))
  }

  function Join64(low: Option<U32>, high: Option<U32>): Option<U64> {
    if low.None? && high.None? then None
    else
      var l: int, h: int := if low.Some? then low.value else 0, if high.Some? then high.value else 0;
      Some(h * U32_LIMIT + l)
  }

  // -- The two subtrees -----------------------------------------------------------------

  function LowerText(s: string): string { seq(|s|, i requires 0 <= i < |s| => Lower(s[i])) }

  function ParseAction(s: string): Read<ExitAction> {
    var t := LowerText(Trim(s));
    if t == "restart" then Ok(Restart)
    else if t == "ignore" then Ok(Ignore)
    else if t == "exit" then Ok(Exit)
    else if t == "suicide" then Ok(Suicide)
    else Err(Corrupt)
  }

  function Strict<T>(r: Result<T, ExitCodes.Error>): Read<T> { if r.Ok? then Ok(r.value) else Err(Corrupt) }

  function ReadExitEntry(n: Named): Read<Entry> {
    if n.name.None? then Err(Corrupt)
    else
      var text :- TextOf(n.data);
      var key :- Strict(Normalize(n.name.value));
      var action :- ParseAction(text.0);
      Ok(Entry(key, action))
  }

  function ReadExits(values: map<string, Named>, ids: seq<string>): Read<Actions>
    requires forall id :: id in ids ==> id in values
  {
    if ids == [] then Ok(map[])
    else
      var out :- ReadExits(values, ids[..|ids| - 1]);
      var e :- ReadExitEntry(values[Last(ids)]);
      Strict(Insert(out, e))
  }

  function ReadHook(event: string, n: Named): Read<(Hook, set<string>)> {
    if n.name.None? then Err(Corrupt)
    else
      var text :- TextOf(n.data);
      if !ValidComponent(n.name.value) then Err(Corrupt)
      else Ok((Hook(event, n.name.value, text.0), if text.1 then {HookMark(event, n.name.value)} else {}))
  }

  function ReadActions(event: string, values: map<string, Named>, ids: seq<string>): Read<(seq<Hook>, set<string>)>
    requires forall id :: id in ids ==> id in values
  {
    if ids == [] then Ok(([], {}))
    else
      var out :- ReadActions(event, values, ids[..|ids| - 1]);
      var h :- ReadHook(event, values[Last(ids)]);
      Ok((out.0 + [h.0], out.1 + h.1))
  }

  ghost predicate ListsIds<V>(ids: seq<string>, m: map<string, V>) {
    && (forall id :: id in ids <==> id in m)
    && (forall i, j :: 0 <= i < j < |ids| ==> ids[i] != ids[j])
  }

  /** How the registry happens to list what is below the key. */
  datatype Order = Order(exits: seq<string>, events: seq<string>, actions: map<string, seq<string>>)

  ghost predicate OrderOf(order: Order, st: KeyState) {
    && ListsIds(order.exits, OrEmpty(st.exit))
    && ListsIds(order.events, OrEmpty(st.events))
    && ListsActions(OrEmpty(st.events), order.events, order.actions)
  }

  ghost predicate ListsActions(events: map<string, EventKey>, ids: seq<string>, actions: map<string, seq<string>>) {
    forall e :: e in ids ==> e in events && e in actions && ListsIds(actions[e], events[e].values)
  }

  function ReadEvents(events: map<string, EventKey>, ids: seq<string>, actions: map<string, seq<string>>)
    : Read<(seq<Hook>, set<string>)>
    requires ListsActions(events, ids, actions)
  {
    if ids == [] then Ok(([], {}))
    else
      var out :- ReadEvents(events, ids[..|ids| - 1], actions);
      var e := Last(ids);
      if events[e].name.None? || !ValidComponent(events[e].name.value) then Err(Corrupt)
      else
        var more :- ReadActions(events[e].name.value, events[e].values, actions[e]);
        Ok((out.0 + more.0, out.1 + more.1))
  }

  // -- The whole configuration -------------------------------------------------------------

  /** `None` when the marker value is absent: the service is not managed. A blank marker is corrupt. */
  function ReadConfig(st: KeyState, order: Order): Read<Option<ManagedConfig>>
    requires OrderOf(order, st)
  {
    var application :- ReadText(st, Application);
    if application.None? then Ok(None)
    else if Trim(application.value.0) == "" then Err(Corrupt)
    else
      var low :- ReadNumber(st, AppRotateBytes);
      var high :- ReadNumber(st, AppRotateBytesHigh);
      var exits :- ReadExits(OrEmpty(st.exit), order.exits);
      var parameters :- ReadText(st, AppParameters);
      var directory :- ReadText(st, AppDirectory);
      var environment :- ReadBlock(st, AppEnvironment);
      var extra :- ReadBlock(st, AppEnvironmentExtra);
      var priority :- ReadNumber(st, AppPriority);
      var affinity :- ReadText(st, AppAffinity);
      var restart :- ReadNumber(st, AppRestartDelay);
      var throttle :- ReadNumber(st, AppThrottle);
      var skip :- ReadNumber(st, AppStopMethodSkip);
      var console :- ReadNumber(st, AppStopMethodConsole);
      var window :- ReadNumber(st, AppStopMethodWindow);
      var threads :- ReadNumber(st, AppStopMethodThreads);
      var tree :- ReadFlag(st, AppKillProcessTree);
      var stdin :- ReadStream(st, Stdin);
      var stdout :- ReadStream(st, Stdout);
      var stderr :- ReadStream(st, Stderr);
      var timestamp :- ReadFlag(st, AppTimestampLog);
      var enabled :- ReadFlag(st, AppRotateFiles);
      var online :- ReadNumber(st, AppRotateOnline);
      var seconds :- ReadNumber(st, AppRotateSeconds);
      var delay :- ReadNumber(st, AppRotateDelay);
      var hooks :- ReadEvents(OrEmpty(st.events), order.events, order.actions);
      Ok(Some(ManagedConfig(
        Some(application.value.0), Plain(parameters), Plain(directory), environment, extra, priority, Plain(affinity),
        restart, throttle, Get(exits, DEFAULT), skip, console, window, threads, tree,
        stdin.0, stdout.0, stderr.0, timestamp, enabled, online, seconds, Join64(low, high), delay,
        exits, hooks.0,
        MarkOf("Application", application) + MarkOf("AppParameters", parameters) + MarkOf("AppDirectory", directory)
        + MarkOf("AppAffinity", affinity) + stdin.1 + stdout.1 + stderr.1 + hooks.1)))
  }

  // -- Values come back ---------------------------------------------------------------------

  lemma TextBack(s: string, expand: bool)
    requires NulFree(s)
    ensures TextOf(DataOf(Text(s, expand))) == Ok((s, expand))
  {
    StringRoundTrip(s);
  }

  lemma TextFieldBack(up: CaseMap, cfg: ManagedConfig, st: KeyState, f: Field, name: string, s: Option<string>)
    requires Get(st.values, f) == WantData(up, cfg, f) && Want(up, cfg, f) == WantText(up, cfg, name, s)
    requires OptionalNulFree(s)
    ensures ReadText(st, f) == Ok(if s.Some? then Some((s.value, Marked(up, cfg, name))) else None)
  {
    hide TextOf, DataOf, Marked;
    if s.Some? {
      TextBack(s.value, Marked(up, cfg, name));
    }
  }

  lemma NumberFieldBack(up: CaseMap, cfg: ManagedConfig, st: KeyState, f: Field, n: Option<U32>)
    requires Get(st.values, f) == WantData(up, cfg, f) && Want(up, cfg, f) == WantNumber(n)
    ensures ReadNumber(st, f) == Ok(n)
  {
    if n.Some? {
      U32RoundTrip(n.value);
    }
  }

  lemma FlagFieldBack(up: CaseMap, cfg: ManagedConfig, st: KeyState, f: Field, b: Option<bool>)
    requires Get(st.values, f) == WantData(up, cfg, f) && Want(up, cfg, f) == WantFlag(b)
    ensures ReadFlag(st, f) == Ok(b)
  {
    NumberFieldBack(up, cfg, st, f, if b.Some? then Some(if b.value then 1 else 0) else None);
  }

  lemma BlockFieldBack(up: CaseMap, cfg: ManagedConfig, st: KeyState, f: Field, entries: seq<string>)
    requires Get(st.values, f) == WantData(up, cfg, f) && Want(up, cfg, f) == WantBlock(entries)
    requires Storable(entries)
    ensures ReadBlock(st, f) == Ok(entries)
  {
    MultiRoundTrip(entries);
  }

  lemma StreamBack(up: CaseMap, cfg: ManagedConfig, st: KeyState, std: Std)
    requires forall f: Field :: Get(st.values, f) == WantData(up, cfg, f)
    requires StreamNulFree(StreamOf(cfg, std))
    requires StreamOf(cfg, std).Some? ==> StreamOf(cfg, std).value.path != ""
    ensures ReadStream(st, std) == Ok((StreamOf(cfg, std),
              if StreamOf(cfg, std).Some? && Marked(up, cfg, StreamName(std)) then {StreamName(std)} else {}))
  {
    hide Marked, ReadText, ReadNumber, ReadFlag, WantData;
    var s := StreamOf(cfg, std);
    TextFieldBack(up, cfg, st, Stream(std, Path), StreamName(std), if s.Some? then Some(s.value.path) else None);
    if s.Some? {
      NumberFieldBack(up, cfg, st, Stream(std, ShareMode), s.value.shareMode);
      NumberFieldBack(up, cfg, st, Stream(std, CreationDisposition), s.value.creationDisposition);
      NumberFieldBack(up, cfg, st, Stream(std, FlagsAndAttributes), s.value.flagsAndAttributes);
      FlagFieldBack(up, cfg, st, Stream(std, CopyAndTruncate), s.value.copyAndTruncate);
    }
  }

  lemma Halves(n: U64)
    ensures Join64(Some(LowHalf(n)), Some(HighHalf(n))) == Some(n)
  {
  }

  lemma ActionBack(a: ExitAction)
    ensures ParseAction(ActionText(a)) == Ok(a)
    ensures NulFree(ActionText(a))
  {
    var s := ActionText(a);
    TrimNothing(s);
    match a {
      case Restart => assert LowerText(s) == "restart";
      case Ignore => assert LowerText(s) == "ignore";
      case Exit => assert LowerText(s) == "exit";
      case Suicide => assert LowerText(s) == "suicide";
    }
  }
}
