/** The typed configuration of a managed service and the checks made before any of it is stored. */
module Config {
  import opened Prelude
  import opened Text
  import opened Splitting
  import opened Utf16
  import opened Codecs
  import opened ExitCodes
  import opened RecoveryForm

  datatype IoStream = IoStream(
    path: string,
    shareMode: Option<U32>,
    creationDisposition: Option<U32>,
    flagsAndAttributes: Option<U32>,
    copyAndTruncate: Option<bool>)

  datatype Hook = Hook(event: string, action: string, command: string)

  datatype ManagedConfig = ManagedConfig(
    application: Option<string>,
    appParameters: Option<string>,
    appDirectory: Option<string>,
    environment: seq<string>,
    environmentExtra: seq<string>,
    priority: Option<U32>,
    affinity: Option<string>,
    restartDelay: Option<U32>,
    throttleDelay: Option<U32>,
    defaultAction: Option<ExitAction>,
    stopMethodSkip: Option<U32>,
    killConsoleGrace: Option<U32>,
    killWindowGrace: Option<U32>,
    killThreadsGrace: Option<U32>,
    killProcessTree: Option<bool>,
    stdin: Option<IoStream>,
    stdout: Option<IoStream>,
    stderr: Option<IoStream>,
    timestampLog: Option<bool>,
    rotateEnabled: Option<bool>,
    rotateOnline: Option<U32>,
    rotateSeconds: Option<U32>,
    rotateBytes: Option<U64>,
    rotateDelay: Option<U32>,
    exitActions: Actions,
    hooks: seq<Hook>,
    expandable: set<string>)

  // -- Case identity of names ------------------------------------------------------

  /** One character of the platform's case mapping. */
  type CaseMap = char -> char

  function Fold(up: CaseMap, s: string): string {
    seq(|s|, i requires 0 <= i < |s| => up(s[i]))
  }

  function AsciiUpper(c: char): char { if 'a' <= c <= 'z' then (c as int - 32) as char else c }

  /** What the model relies on: ASCII characters are mapped to their ASCII upper case; digits, minus and path separators
      have no case variants; and case variants are alike in width and in being control characters. */
  ghost predicate SoundCase(up: CaseMap) {
    && (forall c :: c as int < 0x80 ==> up(c) == AsciiUpper(c))
    && (forall c, d :: up(c) == up(d) && c in "0123456789-\\/" ==> c == d)
    && (forall c, d :: up(c) == up(d) ==> |EncodeChar(c)| == |EncodeChar(d)| && IsControl(c) == IsControl(d))
  }

  function HookMark(event: string, action: string): string { "AppEvents\\" + event + "\\" + action }

  /** The stored type of `name` is chosen by case identity with some mark. */
  predicate Marked(up: CaseMap, cfg: ManagedConfig, name: string) {
    exists m :: m in cfg.expandable && Fold(up, m) == Fold(up, name)
  }

  /** The same question as every other component asks it: ASCII case only. */
  predicate IsExpandable(cfg: ManagedConfig, name: string) {
    exists m :: m in cfg.expandable && EqIgnoreAsciiCase(m, name)
  }

  // -- Owned values --------------------------------------------------------------------

  datatype Std = Stdin | Stdout | Stderr

  datatype Part = Path | ShareMode | CreationDisposition | FlagsAndAttributes | CopyAndTruncate

  datatype Field =
    | Application | AppParameters | AppDirectory | AppPriority | AppAffinity
    | AppEnvironment | AppEnvironmentExtra
    | AppRestartDelay | AppThrottle
    | AppStopMethodSkip | AppStopMethodConsole | AppStopMethodWindow | AppStopMethodThreads | AppKillProcessTree
    | AppRotateFiles | AppRotateOnline | AppRotateSeconds | AppRotateBytes | AppRotateBytesHigh | AppRotateDelay
    | AppTimestampLog
    | Stream(std: Std, part: Part)

  /** Everything but the streams, in the order it is written. */
  function PlainFields(): seq<Field> {
    [Application, AppParameters, AppDirectory, AppPriority, AppAffinity, AppEnvironment, AppEnvironmentExtra,
     AppRestartDelay, AppThrottle, AppStopMethodSkip, AppStopMethodConsole, AppStopMethodWindow,
     AppStopMethodThreads, AppKillProcessTree, AppRotateFiles, AppRotateOnline, AppRotateSeconds,
     AppRotateBytes, AppRotateBytesHigh, AppRotateDelay, AppTimestampLog]
  }

  const PARTS: seq<Part> := [Path, ShareMode, CreationDisposition, FlagsAndAttributes, CopyAndTruncate]

  function StreamFields(std: Std): seq<Field> { seq(|PARTS|, i requires 0 <= i < |PARTS| => Stream(std, PARTS[i])) }

  function PlainIndex(f: Field): nat
    requires !f.Stream?
  {
    match f
    case Application => 0
    case AppParameters => 1
    case AppDirectory => 2
    case AppPriority => 3
    case AppAffinity => 4
    case AppEnvironment => 5
    case AppEnvironmentExtra => 6
    case AppRestartDelay => 7
    case AppThrottle => 8
    case AppStopMethodSkip => 9
    case AppStopMethodConsole => 10
    case AppStopMethodWindow => 11
    case AppStopMethodThreads => 12
    case AppKillProcessTree => 13
    case AppRotateFiles => 14
    case AppRotateOnline => 15
    case AppRotateSeconds => 16
    case AppRotateBytes => 17
    case AppRotateBytesHigh => 18
    case AppRotateDelay => 19
    case AppTimestampLog => 20
  }

  /** Every owned value that is not part of a stream is listed. */
  lemma PlainFieldsComplete(f: Field)
    requires !f.Stream?
    ensures f in PlainFields()
  {
    assert PlainFields()[PlainIndex(f)] == f;
  }

  lemma StreamFieldsComplete(std: Std, part: Part)
    ensures Stream(std, part) in StreamFields(std)
  {
    assert StreamFields(std)[if part.Path? then 0 else if part.ShareMode? then 1 else if part.CreationDisposition? then 2
                             else if part.FlagsAndAttributes? then 3 else 4] == Stream(std, part);
  }

  /** Every owned value is in one of the four lists. */
  lemma FieldListed(f: Field)
    ensures f in PlainFields() || f in StreamFields(Stdin) || f in StreamFields(Stdout) || f in StreamFields(Stderr)
  {
    hide PlainFields, StreamFields;
    match f {
      case Stream(std, part) =>
        StreamFieldsComplete(std, part);
        assert std == Stdin || std == Stdout || std == Stderr;
      case _ => PlainFieldsComplete(f);
    }
  }

  function StreamOf(cfg: ManagedConfig, std: Std): Option<IoStream> {
    match std
    case Stdin => cfg.stdin
    case Stdout => cfg.stdout
    case Stderr => cfg.stderr
  }

  function StreamName(std: Std): string {
    match std
    case Stdin => "AppStdin"
    case Stdout => "AppStdout"
    case Stderr => "AppStderr"
  }

  function PartName(part: Part): string {
    match part
    case Path => ""
    case ShareMode => "ShareMode"
    case CreationDisposition => "CreationDisposition"
    case FlagsAndAttributes => "FlagsAndAttributes"
    case CopyAndTruncate => "CopyAndTruncate"
  }

  /** The name a field is stored under. */
  function StoredName(f: Field): string {
    match f
    case Application => "Application"
    case AppParameters => "AppParameters"
    case AppDirectory => "AppDirectory"
    case AppPriority => "AppPriority"
    case AppAffinity => "AppAffinity"
    case AppEnvironment => "AppEnvironment"
    case AppEnvironmentExtra => "AppEnvironmentExtra"
    case AppRestartDelay => "AppRestartDelay"
    case AppThrottle => "AppThrottle"
    case AppStopMethodSkip => "AppStopMethodSkip"
    case AppStopMethodConsole => "AppStopMethodConsole"
    case AppStopMethodWindow => "AppStopMethodWindow"
    case AppStopMethodThreads => "AppStopMethodThreads"
    case AppKillProcessTree => "AppKillProcessTree"
    case AppRotateFiles => "AppRotateFiles"
    case AppRotateOnline => "AppRotateOnline"
    case AppRotateSeconds => "AppRotateSeconds"
    case AppRotateBytes => "AppRotateBytes"
    case AppRotateBytesHigh => "AppRotateBytesHigh"
    case AppRotateDelay => "AppRotateDelay"
    case AppTimestampLog => "AppTimestampLog"
    case Stream(std, part) => StreamName(std) + PartName(part)
  }

  /** The upper-case character at position `i`, a blank behind the end. */
  function UpperAt(s: string, i: nat): char { if i < |s| then AsciiUpper(s[i]) else ' ' }

  /** The length and five characters are enough to tell the names apart. */
  function FieldOf(n: nat, c3: char, c5: char, c6: char, c9: char, c13: char): Field {
    var std := if c6 == 'I' then Stdin else if c6 == 'O' then Stdout else Stderr;
    if n == 8 || n == 9 then Stream(std, Path)
    else if n == 11 then
      if c3 == 'L' then Application else if c3 == 'P' then AppPriority else if c3 == 'A' then AppAffinity else AppThrottle
    else if n == 12 then AppDirectory
    else if n == 13 then AppParameters
    else if n == 14 then
      if c3 == 'E' then AppEnvironment
      else if c9 == 'F' then AppRotateFiles else if c9 == 'B' then AppRotateBytes else AppRotateDelay
    else if n == 15 then
      if c3 == 'T' then AppTimestampLog else if c5 == 'S' then AppRestartDelay else AppRotateOnline
    else if n == 16 then AppRotateSeconds
    else if n == 17 then if c5 == 'D' then Stream(std, ShareMode) else AppStopMethodSkip
    else if n == 18 then
      if c3 == 'K' then AppKillProcessTree else if c3 == 'R' then AppRotateBytesHigh else Stream(std, ShareMode)
    else if n == 19 then if c3 == 'E' then AppEnvironmentExtra else AppStopMethodWindow
    else if n == 20 then if c13 == 'C' then AppStopMethodConsole else AppStopMethodThreads
    else if n == 23 || n == 24 then Stream(std, CopyAndTruncate)
    else if n == 26 then Stream(std, FlagsAndAttributes)
    else if n == 27 then Stream(std, if c6 == 'I' then CreationDisposition else FlagsAndAttributes)
    else Stream(std, CreationDisposition)
  }

  function FieldNamed(s: string): Field {
    FieldOf(|s|, UpperAt(s, 3), UpperAt(s, 5), UpperAt(s, 6), UpperAt(s, 9), UpperAt(s, 13))
  }

  predicate AsciiAt(s: string, i: nat) { i < |s| ==> s[i] as int < 0x80 }

  predicate AsciiKey(s: string) { AsciiAt(s, 3) && AsciiAt(s, 5) && AsciiAt(s, 6) && AsciiAt(s, 9) && AsciiAt(s, 13) }

  lemma PlainNamed(f: Field)
    requires !f.Stream?
    ensures FieldNamed(StoredName(f)) == f
  {
    hide FieldNamed, StoredName;
    if PlainIndex(f) < 10 { EarlyNamed(f); } else { LateNamed(f); }
  }

  lemma EarlyNamed(f: Field)
    requires !f.Stream? && PlainIndex(f) < 10
    ensures FieldNamed(StoredName(f)) == f
  {
  }

  lemma LateNamed(f: Field)
    requires !f.Stream? && PlainIndex(f) >= 10
    ensures FieldNamed(StoredName(f)) == f
  {
  }

  lemma PlainIsAscii(f: Field)
    requires !f.Stream?
    ensures AsciiKey(StoredName(f))
  {
  }

  lemma StreamNamed(std: Std, part: Part)
    ensures FieldNamed(StoredName(Stream(std, part))) == Stream(std, part) && AsciiKey(StoredName(Stream(std, part)))
  {
    var name := StoredName(Stream(std, part));
    match std
    case Stdin => assert name == "AppStdin" + PartName(part);
    case Stdout => assert name == "AppStdout" + PartName(part);
    case Stderr => assert name == "AppStderr" + PartName(part);
  }

  lemma SameUpper(up: CaseMap, s: string, t: string, i: nat)
    requires SoundCase(up) && Fold(up, s) == Fold(up, t) && AsciiAt(s, i) && AsciiAt(t, i)
    ensures |s| == |t| && UpperAt(s, i) == UpperAt(t, i)
  {
    assert |Fold(up, s)| == |s| && |Fold(up, t)| == |t|;
    if i < |s| { assert Fold(up, s)[i] == up(s[i]) && Fold(up, t)[i] == up(t[i]); }
  }

  /** No two owned values share a name, whatever the spelling: the registry cannot confuse them. */
  lemma StoredNamesDistinct(up: CaseMap, f: Field, g: Field)
    requires SoundCase(up) && Fold(up, StoredName(f)) == Fold(up, StoredName(g))
    ensures f == g
  {
    hide StoredName, Fold, FieldOf, SoundCase, AsciiAt, UpperAt;
    if f.Stream? { StreamNamed(f.std, f.part); } else { PlainNamed(f); PlainIsAscii(f); }
    if g.Stream? { StreamNamed(g.std, g.part); } else { PlainNamed(g); PlainIsAscii(g); }
    SameUpper(up, StoredName(f), StoredName(g), 3);
    SameUpper(up, StoredName(f), StoredName(g), 5);
    SameUpper(up, StoredName(f), StoredName(g), 6);
    SameUpper(up, StoredName(f), StoredName(g), 9);
    SameUpper(up, StoredName(f), StoredName(g), 13);
  }

  // -- Checks before the first mutation ------------------------------------------------

  predicate NulFree(s: string) { '\0' !in s }

  predicate OptionalNulFree(s: Option<string>) { s.Some? ==> NulFree(s.value) }

  predicate StreamNulFree(s: Option<IoStream>) { s.Some? ==> NulFree(s.value.path) }

  predicate NoEmbeddedNuls(cfg: ManagedConfig) {
    && OptionalNulFree(cfg.application) && OptionalNulFree(cfg.appParameters)
    && OptionalNulFree(cfg.appDirectory) && OptionalNulFree(cfg.affinity)
    && (forall e :: e in cfg.environment ==> NulFree(e))
    && (forall e :: e in cfg.environmentExtra ==> NulFree(e))
    && StreamNulFree(cfg.stdin) && StreamNulFree(cfg.stdout) && StreamNulFree(cfg.stderr)
    && (forall k :: k in cfg.exitActions ==> NulFree(k))
    && (forall h :: h in cfg.hooks ==> NulFree(h.event) && NulFree(h.action) && NulFree(h.command))
  }

  predicate ValidComponent(name: string) {
    && name != "" && Units(name) <= 255
    && forall c :: c in name ==> c != '\\' && c != '/' && !IsControl(c)
  }

  const TEXT_NAMES := ["Application", "AppParameters", "AppDirectory", "AppAffinity", "AppStdin", "AppStdout", "AppStderr"]

  predicate ValidMark(m: string) {
    || (exists name :: name in TEXT_NAMES && EqIgnoreAsciiCase(m, name))
    || var parts := SplitOn(m, '\\');
       |parts| == 3 && EqIgnoreAsciiCase(parts[0], "AppEvents") && ValidComponent(parts[1]) && ValidComponent(parts[2])
  }

  /** Case variants of one hook carry one command. */
  ghost predicate HooksAgree(up: CaseMap, hooks: seq<Hook>) {
    forall g, h :: g in hooks && h in hooks && Identity(up, g) == Identity(up, h) ==> g.command == h.command
  }

  predicate IsSlash(c: char) { c == '\\' || c == '/' }

  function FirstSlash(s: string): (i: nat)
    ensures i <= |s|
    ensures i < |s| ==> IsSlash(s[i])
    ensures forall k :: 0 <= k < i ==> !IsSlash(s[k])
  {
    if s == [] || IsSlash(s[0]) then 0 else 1 + FirstSlash(s[1..])
  }

  /** Drive-rooted, or a share with non-empty server and share names. */
  predicate IsAbsolute(s: string) {
    if |s| >= 2 && IsSlash(s[0]) && IsSlash(s[1]) then
      var rest := s[2..];
      var server := FirstSlash(rest);
      0 < server < |rest| && FirstSlash(rest[server + 1..]) > 0
    else
      |s| >= 3 && ('a' <= s[0] <= 'z' || 'A' <= s[0] <= 'Z') && s[1] == ':' && IsSlash(s[2])
  }

  /** A path is absolute exactly if it is a drive letter, a colon and a slash, whatever follows, or two slashes, a server
      name, a slash and the beginning of a share name. */
  lemma AbsoluteForms(s: string)
    ensures IsAbsolute(s) <==>
            || (|s| >= 3 && ('a' <= s[0] <= 'z' || 'A' <= s[0] <= 'Z') && s[1] == ':' && s[2] in {'\\', '/'})
            || exists n: nat :: IsShare(s, n)
  {
    if |s| >= 2 && s[0] in {'\\', '/'} && s[1] in {'\\', '/'} {
      var rest := s[2..];
      var server := FirstSlash(rest);
      if IsAbsolute(s) {
        assert s[2 + server] == rest[server] && s[2 + server + 1] == rest[server + 1..][0];
        assert forall k :: 2 <= k < 2 + server ==> s[k] == rest[k - 2];
        assert IsShare(s, server);
      }
      if n: nat :| IsShare(s, n) {
        assert forall k :: 0 <= k < n ==> rest[k] == s[k + 2];
        assert rest[n] == s[2 + n];
        assert server == n;
        assert rest[server + 1..][0] == s[n + 3];
      }
    }
  }

  /** Two slashes, a server name of `n` characters, a slash, and then something other than a slash. */
  predicate IsShare(s: string, n: nat) {
    && n > 0 && |s| > n + 3 && s[0] in {'\\', '/'} && s[1] in {'\\', '/'}
    && (forall k :: 2 <= k < n + 2 ==> s[k] !in {'\\', '/'})
    && s[n + 2] in {'\\', '/'} && s[n + 3] !in {'\\', '/'}
  }

  predicate NoControls(s: string) { forall c :: c in s ==> !IsControl(c) }

  predicate ValidAbsolutePath(s: string) { NoControls(s) && IsAbsolute(s) }

  /** Some text between percent signs, and at least two of them. */
  predicate MayExpand(s: string) {
    var parts := SplitOn(s, '%');
    |parts| > 2 && exists i :: 0 <= i < |parts| && i % 2 == 1 && parts[i] != ""
  }

  predicate ValidRawPath(cfg: ManagedConfig, name: string, s: string) {
    if IsExpandable(cfg, name) then NoControls(s) && (MayExpand(s) || ValidAbsolutePath(s))
    else ValidAbsolutePath(s)
  }

  predicate ValidStreamPath(cfg: ManagedConfig, std: Std) {
    var s := StreamOf(cfg, std);
    s.Some? ==> ValidRawPath(cfg, StreamName(std), s.value.path)
  }

  predicate ValidPaths(cfg: ManagedConfig) {
    && (cfg.application.Some? ==> ValidRawPath(cfg, "Application", cfg.application.value))
    && (cfg.appDirectory.Some? && cfg.appDirectory.value != "" ==>
          ValidRawPath(cfg, "AppDirectory", cfg.appDirectory.value))
    && ValidStreamPath(cfg, Stdin) && ValidStreamPath(cfg, Stdout) && ValidStreamPath(cfg, Stderr)
  }

  const PATH_NAMES := ["Application", "AppDirectory", "AppStdin", "AppStdout", "AppStderr"]

  /** The path configured under a name; a blank directory is none. */
  function PathAt(cfg: ManagedConfig, name: string): Option<string> {
    if name == "Application" then cfg.application
    else if name == "AppDirectory" then if cfg.appDirectory == Some("") then None else cfg.appDirectory
    else
      var s := if name == "AppStdin" then cfg.stdin else if name == "AppStdout" then cfg.stdout
               else if name == "AppStderr" then cfg.stderr else None;
      if s.Some? then Some(s.value.path) else None
  }

  /** The paths pass exactly if each one that is configured is free of control characters and absolute, or marked
      and possibly made so by a variable. */
  lemma PathsAccepted(cfg: ManagedConfig)
    ensures ValidPaths(cfg) <==> forall i :: 0 <= i < |PATH_NAMES| && PathAt(cfg, PATH_NAMES[i]).Some? ==>
              var s := PathAt(cfg, PATH_NAMES[i]).value;
              (forall c :: c in s ==> !IsControl(c))
              && (IsAbsolute(s) || (IsExpandable(cfg, PATH_NAMES[i]) && MayExpand(s)))
  {
    hide IsAbsolute, MayExpand, IsExpandable, IsControl;
    assert PATH_NAMES[0] == "Application" && PATH_NAMES[1] == "AppDirectory" && PATH_NAMES[2] == "AppStdin"
        && PATH_NAMES[3] == "AppStdout" && PATH_NAMES[4] == "AppStderr";
  }

  /** A name of a hook has 1 to 255 units, none of them a slash or a control character; so whatever is joined to it with
      a backslash can be told apart from it again. */
  lemma ComponentSplits(name: string, other: string)
    ensures ValidComponent(name) <==>
            0 < |Encode(name)| <= 255 && '\\' !in name && '/' !in name && forall c :: c in name ==> !IsControl(c)
    ensures ValidComponent(name) && ValidComponent(other) ==> SplitOn(name + ['\\'] + other, '\\') == [name, other]
  {
    if name != "" { assert EncodeChar(name[0]) <= Encode(name); }
    hide Encode, SplitOn;
    if ValidComponent(name) && ValidComponent(other) {
      SplitPrefix(name, other, '\\');
      SplitWhole(other, '\\');
      assert [name] + [other] == [name, other];
    }
  }

  /** The mark of a hook is a valid one exactly if both names of the hook are. */
  lemma MarkOfHook(event: string, action: string)
    requires '\\' !in event && '\\' !in action
    ensures ValidMark(HookMark(event, action)) <==> ValidComponent(event) && ValidComponent(action)
  {
    hide ValidComponent, SplitOn;
    var m := HookMark(event, action);
    assert m == "AppEvents" + ['\\'] + (event + ['\\'] + action);
    SplitPrefix("AppEvents", event + ['\\'] + action, '\\');
    SplitPrefix(event, action, '\\');
    SplitWhole(action, '\\');
    var parts := SplitOn(m, '\\');
    assert parts == ["AppEvents"] + ([event] + [action]) == ["AppEvents", event, action];
    forall name | name in TEXT_NAMES
      ensures !EqIgnoreAsciiCase(m, name)
    {
      assert m[9] == '\\';
      var i :| 0 <= i < |TEXT_NAMES| && TEXT_NAMES[i] == name;
    }
  }

  predicate HasApplication(cfg: ManagedConfig) {
    cfg.application.Some? && Trim(cfg.application.value) != ""
  }

  // -- Exit actions merged with the default ----------------------------------------------

  ghost function Listing(m: Actions): (keys: seq<string>)
    ensures Lists(keys, m)
    decreases |m|
  {
    if m == map[] then []
    else
      var k :| k in m;
      var rest := Listing(m - {k});
      assert forall x :: x in rest <==> x in m && x != k;
      [k] + rest
  }

  function DefaultEntry(cfg: ManagedConfig): seq<Entry> {
    match cfg.defaultAction
    case None => []
    case Some(a) => [Entry(DEFAULT, a)]
  }

  /** The canonical actions of a configuration; the order its table is walked in does not matter. */
  ghost function Merged(cfg: ManagedConfig): Result<Actions, Error> {
    InsertAll(EntriesFor(Listing(cfg.exitActions), cfg.exitActions) + DefaultEntry(cfg))
  }

  method MergeExitActions(cfg: ManagedConfig) returns (r: Result<Actions, Error>)
    ensures r == Merged(cfg)
  {
    r := Ok(map[]);
    var left := cfg.exitActions.Keys;
    ghost var done: seq<Entry> := [];
    while left != {} && r.Ok?
      invariant left <= cfg.exitActions.Keys
      invariant r == InsertAll(done)
      invariant forall e :: e in done <==> e.name in cfg.exitActions && e.name !in left && e.action == cfg.exitActions[e.name]
      decreases left, r.Ok?
    {
      var k :| k in left;
      left := left - {k};
      ghost var before := done;
      done := done + [Entry(k, cfg.exitActions[k])];
      assert done[..|before|] == before;
      r := Insert(r.value, Entry(k, cfg.exitActions[k]));
    }
    ghost var all := EntriesFor(Listing(cfg.exitActions), cfg.exitActions);
    ListingEntries(cfg.exitActions);
    if r.Err? {
      FailureSticks(done, all + DefaultEntry(cfg));
      return;
    }
    ghost var before := done;
    match cfg.defaultAction {
      case None =>
      case Some(a) =>
        done := done + [Entry(DEFAULT, a)];
        assert done[..|before|] == before;
        r := Insert(r.value, Entry(DEFAULT, a));
    }
    MergeOrderIrrelevant(done, all + DefaultEntry(cfg));
  }

  lemma ListingEntries(m: Actions)
    ensures forall e :: e in EntriesFor(Listing(m), m) <==> e.name in m && e.action == m[e.name]
  {
    var keys := Listing(m);
    forall e: Entry | e.name in m && e.action == m[e.name]
      ensures e in EntriesFor(keys, m)
    {
      var i :| 0 <= i < |keys| && keys[i] == e.name;
      assert EntriesFor(keys, m)[i] == e;
    }
  }

  lemma FailureSticks(a: seq<Entry>, b: seq<Entry>)
    requires InsertAll(a).Err? && forall e :: e in a ==> e in b
    ensures InsertAll(b) == InsertAll(a)
  {
    InsertAllExact(a);
    InsertAllExact(b);
    hide InsertAll;
    if Consistent(b) { SameConsistency(b, a); }
    assert InsertAll(b).error == InvalidConfig == InsertAll(a).error;
  }

  /** What is checked before the hooks. */
  predicate PlainChecks(cfg: ManagedConfig) {
    && HasApplication(cfg)
    && (forall m :: m in cfg.expandable ==> ValidMark(m))
    && NoEmbeddedNuls(cfg)
    && "" !in cfg.environment && "" !in cfg.environmentExtra
  }

  /** Accepted configurations. */
  ghost predicate Accepts(up: CaseMap, cfg: ManagedConfig) {
    && PlainChecks(cfg)
    && (forall h :: h in cfg.hooks ==> ValidComponent(h.event) && ValidComponent(h.action))
    && HooksAgree(up, cfg.hooks)
    && ValidPaths(cfg)
    && Merged(cfg).Ok?
  }

  function Identity(up: CaseMap, h: Hook): (string, string) { (Fold(up, h.event), Fold(up, h.action)) }

  /** `seen` is the one table of commands that fits all of `hooks`. */
  ghost predicate SeenExactly(up: CaseMap, hooks: seq<Hook>, seen: map<(string, string), string>) {
    && (forall h :: h in hooks ==> Identity(up, h) in seen && seen[Identity(up, h)] == h.command)
    && (forall id :: id in seen ==> exists h :: h in hooks && Identity(up, h) == id)
  }

  lemma SeenStep(up: CaseMap, hooks: seq<Hook>, i: nat, seen: map<(string, string), string>)
    requires i < |hooks| && SeenExactly(up, hooks[..i], seen)
    ensures var id := Identity(up, hooks[i]);
            if id in seen && seen[id] != hooks[i].command then !HooksAgree(up, hooks)
            else SeenExactly(up, hooks[..i + 1], seen[id := hooks[i].command])
  {
    hide Fold;
    var id := Identity(up, hooks[i]);
    assert hooks[..i + 1] == hooks[..i] + [hooks[i]];
    if id in seen && seen[id] != hooks[i].command {
      var g :| g in hooks[..i] && Identity(up, g) == id;
      assert g in hooks && hooks[i] in hooks;
    }
  }

  method CheckHooks(up: CaseMap, hooks: seq<Hook>) returns (ok: bool)
    ensures ok <==> (forall h :: h in hooks ==> ValidComponent(h.event) && ValidComponent(h.action))
                    && HooksAgree(up, hooks)
  {
    hide ValidComponent, Fold, HooksAgree, Identity;
    var seen: map<(string, string), string> := map[];
    for i := 0 to |hooks|
      invariant forall h :: h in hooks[..i] ==> ValidComponent(h.event) && ValidComponent(h.action)
      invariant SeenExactly(up, hooks[..i], seen)
    {
      var h := hooks[i];
      assert h in hooks && hooks[..i + 1] == hooks[..i] + [h];
      if !ValidComponent(h.event) || !ValidComponent(h.action) { return false; }
      SeenStep(up, hooks, i, seen);
      var id := Identity(up, h);
      if id in seen && seen[id] != h.command { return false; }
      seen := seen[id := h.command];
    }
    assert hooks[..|hooks|] == hooks;
    SeenAgrees(up, hooks, seen);
    return true;
  }

  lemma SeenAgrees(up: CaseMap, hooks: seq<Hook>, seen: map<(string, string), string>)
    requires SeenExactly(up, hooks, seen)
    ensures HooksAgree(up, hooks)
  {
    hide Fold;
    forall g, h | g in hooks && h in hooks && Identity(up, g) == Identity(up, h)
      ensures g.command == h.command
    {
    }
  }

  /** All checks, in the order they are made; none of them touches the store. */
  method Preflight(up: CaseMap, cfg: ManagedConfig) returns (r: Result<Actions, Error>)
    ensures r.Ok? <==> Accepts(up, cfg)
    ensures r.Ok? ==> r == Merged(cfg)
  {
    hide HasApplication, ValidMark, NoEmbeddedNuls, ValidComponent, HooksAgree, ValidPaths, Merged;
    if !PlainChecks(cfg) { return Err(InvalidConfig); }
    var hooksOk := CheckHooks(up, cfg.hooks);
    if !hooksOk || !ValidPaths(cfg) { return Err(InvalidConfig); }
    r := MergeExitActions(cfg);
  }
}
