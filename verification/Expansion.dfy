/** Single-pass expansion of `%name%` references, and the log viewer's test for texts that depend on it. */
module Expansion {
  import opened Prelude
  import opened Splitting
  import opened Utf16
  import opened Config

  const LIMIT := 32_767

  datatype Error = InvalidConfig

  /** The environment of the service. */
  type Lookup = string -> Option<string>

  // -- The text between percent signs --------------------------------------------------------

  /** What stands for `%name%`. */
  function Value(lookup: Lookup, name: string): string {
    if name != "" && lookup(name).Some? then lookup(name).value else "%" + name + "%"
  }

  /** Of the segments between percent signs, every second one that is closed is looked up; an unclosed one,
      like everything else, is literal. */
  function ExpandParts(parts: seq<string>, lookup: Lookup): string {
    if parts == [] then ""
    else if |parts| == 1 then parts[0]
    else if |parts| == 2 then parts[0] + "%" + parts[1]
    else parts[0] + Value(lookup, parts[1]) + ExpandParts(parts[2..], lookup)
  }

  function Expanded(text: string, lookup: Lookup): string { ExpandParts(SplitOn(text, '%'), lookup) }

  /** NUL-free and below the platform's limit. */
  predicate Fits(s: string) { NulFree(s) && Units(s) < LIMIT }

  function Expansion(text: string, lookup: Lookup): Result<string, Error> {
    if Fits(Expanded(text, lookup)) then Ok(Expanded(text, lookup)) else Err(InvalidConfig)
  }

  /** The names a full pass looks up, in order. */
  function Names(parts: seq<string>): seq<string> {
    if |parts| < 3 then [] else (if parts[1] != "" then [parts[1]] else []) + Names(parts[2..])
  }

  /** The position of the first `c`, or the length. */
  function Find(s: string, c: char): (i: nat)
    ensures i <= |s|
    ensures i < |s| ==> s[i] == c
    ensures c !in s[..i]
    ensures i == |s| <==> c !in s
  {
    if s == "" || s[0] == c then 0
    else
      var i := 1 + Find(s[1..], c);
      assert s[..i] == [s[0]] + s[1..][..i - 1];
      assert s == [s[0]] + s[1..];
      i
  }

  lemma Bare(s: string, lookup: Lookup)
    requires '%' !in s
    ensures Expanded(s, lookup) == s && Names(SplitOn(s, '%')) == []
  {
    SplitWhole(s, '%');
  }

  lemma Unclosed(a: string, b: string, lookup: Lookup)
    requires '%' !in a && '%' !in b
    ensures Expanded(a + "%" + b, lookup) == a + "%" + b && Names(SplitOn(a + "%" + b, '%')) == []
  {
    SplitPrefix(a, b, '%');
    SplitWhole(b, '%');
    assert SplitOn(a + "%" + b, '%') == [a, b];
  }

  lemma Closed(a: string, name: string, rest: string, lookup: Lookup)
    requires '%' !in a && '%' !in name
    ensures var text := a + "%" + (name + "%" + rest);
            && SplitOn(text, '%') == [a, name] + SplitOn(rest, '%')
            && Expanded(text, lookup) == a + Value(lookup, name) + Expanded(rest, lookup)
            && Names(SplitOn(text, '%')) == (if name != "" then [name] else []) + Names(SplitOn(rest, '%'))
  {
    SplitPrefix(a, name + "%" + rest, '%');
    SplitPrefix(name, rest, '%');
    var parts := SplitOn(rest, '%');
    assert [a] + ([name] + parts) == [a, name] + parts;
    assert ([a, name] + parts)[2..] == parts;
  }

  /** What is too much already stays too much. */
  lemma Overflow(a: string, all: string)
    requires a <= all && !Fits(a)
    ensures !Fits(all)
  {
    EncodeAppend(a, all[|a|..]);
    assert all == a + all[|a|..];
  }

  lemma Cut(s: string, i: nat)
    requires i < |s| && s[i] == '%'
    ensures s == s[..i] + "%" + s[i + 1..] && s == s[..i] + s[i..]
  {
  }

  lemma ReferenceText(s: string, i: nat, n: nat)
    requires i < |s| && s[i] == '%' && n < |s[i + 1..]| && s[i + 1..][n] == '%'
    ensures s[i..i + n + 2] == "%" + s[i + 1..][..n] + "%"
  {
  }

  lemma Regroup(a: string, b: string, c: string, d: string)
    ensures a + (b + c + d) == a + b + c + d
    ensures a + b <= a + b + c <= a + b + c + d
  {
  }

  /** The reference that starts at the first percent sign of `rest`, when it is closed. */
  lemma ClosedStep(goal: string, out: string, rest: string, start: nat, end: nat, lookup: Lookup)
    requires start == Find(rest, '%') < |rest| && end == Find(rest[start + 1..], '%') < |rest| - start - 1
    requires goal == out + Expanded(rest, lookup)
    ensures var name, after := rest[start + 1..][..end], rest[start + 1..][end + 1..];
            && out + rest[..start] <= out + rest[..start] + Value(lookup, name) <= goal
            && goal == out + rest[..start] + Value(lookup, name) + Expanded(after, lookup)
            && Value(lookup, name) == (if name != "" && lookup(name).Some? then lookup(name).value else rest[start..start + end + 2])
            && Names(SplitOn(rest, '%')) == (if name != "" then [name] else []) + Names(SplitOn(after, '%'))
  {
    hide SplitOn, Expanded, Names, Find;
    var name, after := rest[start + 1..][..end], rest[start + 1..][end + 1..];
    Cut(rest, start);
    Cut(rest[start + 1..], end);
    Closed(rest[..start], name, after, lookup);
    ReferenceText(rest, start, end);
    Regroup(out, rest[..start], Value(lookup, name), Expanded(after, lookup));
  }

  lemma UnclosedStep(goal: string, out: string, rest: string, start: nat, lookup: Lookup)
    requires start == Find(rest, '%') < |rest| && Find(rest[start + 1..], '%') == |rest| - start - 1
    requires goal == out + Expanded(rest, lookup)
    ensures out + rest[..start] <= goal && goal == out + rest[..start] + rest[start..] + Expanded("", lookup)
    ensures Names(SplitOn(rest, '%')) == [] == Names(SplitOn("", '%'))
  {
    hide SplitOn, Expanded, Names, Find;
    Cut(rest, start);
    Unclosed(rest[..start], rest[start + 1..], lookup);
    Bare("", lookup);
    Regroup(out, rest[..start], rest[start..], "");
    assert rest[..start] + rest[start..] + "" == rest;
  }

  /** Appends `value`, unless what has been put together so far would no longer fit. */
  method AppendExpanded(out: string, units: nat, value: string) returns (r: Result<(string, nat), Error>)
    requires Fits(out) && units == Units(out)
    ensures r.Ok? <==> Fits(out + value)
    ensures r.Ok? ==> r.value == (out + value, Units(out + value))
  {
    EncodeAppend(out, value);
    if !NulFree(value) { return Err(InvalidConfig); }
    var total := units + |Encode(value)|;
    if total >= LIMIT { return Err(InvalidConfig); }
    return Ok((out + value, total));
  }

  /** One pass from left to right; `asked` records the lookups made. */
  method Expand(text: string, lookup: Lookup) returns (r: Result<string, Error>, ghost asked: seq<string>)
    ensures r == Expansion(text, lookup)
    ensures r.Ok? ==> asked == Names(SplitOn(text, '%'))
  {
    hide SplitOn, Expanded, Encode, NulFree, Units, Fits, Names, Find, Value;
    ghost var goal := Expanded(text, lookup);
    var out, units, rest := "", 0, text;
    asked := [];
    NothingYet();
    assert "" + goal == goal;
    assert asked + Names(SplitOn(text, '%')) == Names(SplitOn(text, '%'));
    while Find(rest, '%') < |rest|
      invariant goal == out + Expanded(rest, lookup)
      invariant Names(SplitOn(text, '%')) == asked + Names(SplitOn(rest, '%'))
      invariant Fits(out) && units == Units(out)
      decreases |rest|
    {
      var start := Find(rest, '%');
      var candidate := rest[start + 1..];
      var end := Find(candidate, '%');
      if end == |candidate| {
        UnclosedStep(goal, out, rest, start, lookup);
      } else {
        ClosedStep(goal, out, rest, start, end, lookup);
      }
      var first := AppendExpanded(out, units, rest[..start]);
      if first.Err? {
        Overflow(out + rest[..start], goal);
        return Err(InvalidConfig), asked;
      }
      if end == |candidate| {
        var second := AppendExpanded(first.value.0, first.value.1, rest[start..]);
        if second.Err? {
          Overflow(out + rest[..start] + rest[start..], goal);
          return Err(InvalidConfig), asked;
        }
        out, units, rest := second.value.0, second.value.1, "";
        break;
      }
      var name := candidate[..end];
      var found := if name == "" then None else lookup(name);
      if name != "" { asked := asked + [name]; }
      var value := if found.Some? then found.value else rest[start..start + end + 2];
      var second := AppendExpanded(first.value.0, first.value.1, value);
      if second.Err? {
        Overflow(out + rest[..start] + value, goal);
        return Err(InvalidConfig), asked;
      }
      out, units, rest := second.value.0, second.value.1, candidate[end + 1..];
    }
    Bare(rest, lookup);
    var last := AppendExpanded(out, units, rest);
    return if last.Ok? then Ok(last.value.0) else Err(InvalidConfig), asked;
  }

  lemma NothingYet()
    ensures Fits("") && Units("") == 0
  {
  }

  // -- Which texts depend on the environment ---------------------------------------------------

  /** The log viewer's question: does the path of `field` refer to the service's environment? */
  method LogNeedsServiceEnvironment(cfg: ManagedConfig, field: string, path: string) returns (needs: bool)
    ensures needs <==> IsExpandable(cfg, field) && Names(SplitOn(path, '%')) != []
  {
    if !IsExpandable(cfg, field) { return false; }
    hide SplitOn, Names, Find, Expanded;
    var signs := path;
    while Find(signs, '%') < |signs|
      invariant Names(SplitOn(path, '%')) == Names(SplitOn(signs, '%'))
      decreases |signs|
    {
      var start := Find(signs, '%');
      var candidate := signs[start + 1..];
      var end := Find(candidate, '%');
      if end == |candidate| {
        UnclosedStep(Expanded(signs, NoVariables), "", signs, start, NoVariables);
        return false;
      }
      ClosedStep(Expanded(signs, NoVariables), "", signs, start, end, NoVariables);
      if end > 0 { return true; }
      signs := candidate[end + 1..];
    }
    Bare(signs, NoVariables);
    return false;
  }

  function NoVariables(name: string): Option<string> { None }

  function AllBlank(name: string): Option<string> { Some("") }

  lemma {:induction false} LiteralParts(parts: seq<string>, lookup: Lookup)
    requires parts != [] && Names(parts) == []
    ensures ExpandParts(parts, lookup) == JoinWith(parts, '%')
  {
    if |parts| > 2 {
      LiteralParts(parts[2..], lookup);
      var rest := JoinWith(parts[2..], '%');
      assert JoinWith(parts, '%') == parts[0] + "%" + (parts[1] + "%" + rest);
      assert parts[0] + "%" + (parts[1] + "%" + rest) == parts[0] + ("%" + parts[1] + "%") + rest;
    } else if |parts| == 2 {
      assert parts[1..][0] == parts[1];
    }
  }

  /** If every variable is blank, each reference makes the text shorter. */
  lemma {:induction false} BlankedParts(parts: seq<string>)
    requires parts != []
    ensures |ExpandParts(parts, AllBlank)| + |Names(parts)| <= |JoinWith(parts, '%')|
  {
    if |parts| > 2 {
      BlankedParts(parts[2..]);
      assert JoinWith(parts, '%') == parts[0] + "%" + (parts[1] + "%" + JoinWith(parts[2..], '%'));
    } else if |parts| == 2 {
      assert parts[1..][0] == parts[1];
    }
  }

  /** A text is its own expansion in every environment exactly when it fits and nothing in it is looked up. */
  lemma IndependentTexts(text: string)
    ensures (forall lookup :: Expansion(text, lookup) == Ok(text)) <==> Fits(text) && Names(SplitOn(text, '%')) == []
  {
    hide SplitOn, Names, ExpandParts, Fits;
    var parts := SplitOn(text, '%');
    SplitJoins(text, '%');
    if Names(parts) == [] {
      forall lookup
        ensures Expanded(text, lookup) == text
      {
        LiteralParts(parts, lookup);
      }
      assert Expansion(text, NoVariables) == Ok(text) <==> Fits(text);
    } else {
      BlankedParts(parts);
      assert Expansion(text, AllBlank) != Ok(text);
    }
  }

  // -- What the path check defers ------------------------------------------------------------------

  predicate HasReference(parts: seq<string>) { exists i :: 0 < i < |parts| - 1 && i % 2 == 1 && parts[i] != "" }

  lemma {:induction false} NamesAreReferences(parts: seq<string>)
    ensures Names(parts) != [] <==> HasReference(parts)
  {
    if |parts| >= 3 {
      var rest := parts[2..];
      NamesAreReferences(rest);
      if HasReference(rest) {
        var i :| 0 < i < |rest| - 1 && i % 2 == 1 && rest[i] != "";
        assert parts[i + 2] == rest[i];
      }
      if HasReference(parts) && parts[1] == "" {
        var i :| 0 < i < |parts| - 1 && i % 2 == 1 && parts[i] != "";
        assert rest[i - 2] == parts[i];
      }
    }
  }

  /** The path check treats a text as expandable exactly when something in it is looked up or, after at least
      one closed pair of signs, an unclosed sign is followed by some text. */
  lemma DeferredPaths(text: string)
    ensures var parts := SplitOn(text, '%');
            MayExpand(text) <==> Names(parts) != [] || (|parts| > 2 && |parts| % 2 == 0 && Last(parts) != "")
  {
    hide SplitOn, Names;
    var parts := SplitOn(text, '%');
    NamesAreReferences(parts);
    if HasReference(parts) {
      var i :| 0 < i < |parts| - 1 && i % 2 == 1 && parts[i] != "";
    }
    if |parts| > 2 && |parts| % 2 == 0 && Last(parts) != "" {
      assert (|parts| - 1) % 2 == 1 && parts[|parts| - 1] != "";
    }
  }

  /** The second case exists: such a path is accepted although it is relative in every environment. */
  lemma DeferredLiteral(cfg: ManagedConfig, name: string, lookup: Lookup)
    requires IsExpandable(cfg, name)
    ensures ValidRawPath(cfg, name, "%%a%b")
    ensures Expansion("%%a%b", lookup) == Ok("%%a%b") && !IsAbsolute("%%a%b")
  {
    hide SplitOn, Names, Expanded;
    LiteralParts4(lookup);
    DeferredPaths("%%a%b");
    FiveUnits();
  }

  lemma LiteralParts4(lookup: Lookup)
    ensures SplitOn("%%a%b", '%') == ["", "", "a", "b"]
    ensures Expanded("%%a%b", lookup) == "%%a%b"
  {
    hide SplitOn;
    SplitPrefix("", "%a%b", '%');
    SplitPrefix("", "a%b", '%');
    SplitPrefix("a", "b", '%');
    SplitWhole("b", '%');
    assert "" + "%" + "%a%b" == "%%a%b" && "" + "%" + "a%b" == "%a%b" && "a" + "%" + "b" == "a%b";
    assert ["", "", "a", "b"][2..] == ["a", "b"];
  }

  lemma FiveUnits()
    ensures Units("%%a%b") == 5
  {
    assert "%%a%b"[1..] == "%a%b" && "%a%b"[1..] == "a%b" && "a%b"[1..] == "%b" && "%b"[1..] == "b" && "b"[1..] == "";
  }

  // -- The effective configuration -------------------------------------------------------------------

  function EffectiveText(cfg: ManagedConfig, name: string, s: string, lookup: Lookup): Result<string, Error> {
    if IsExpandable(cfg, name) then Expansion(s, lookup) else Ok(s)
  }

  function EffectiveOption(cfg: ManagedConfig, name: string, s: Option<string>, lookup: Lookup): Result<Option<string>,
                           Error> {
    if s.None? then Ok(None) else var t :- EffectiveText(cfg, name, s.value, lookup); Ok(Some(t))
  }

  function EffectiveStream(cfg: ManagedConfig, std: Std, lookup: Lookup): Result<Option<IoStream>, Error> {
    var s := StreamOf(cfg, std);
    if s.None? then Ok(None)
    else var path :- EffectiveText(cfg, StreamName(std), s.value.path, lookup); Ok(Some(s.value.(path := path)))
  }

  function EffectiveHooks(cfg: ManagedConfig, hooks: seq<Hook>, lookup: Lookup): Result<seq<Hook>, Error> {
    if hooks == [] then Ok([])
    else
      var rest :- EffectiveHooks(cfg, hooks[..|hooks| - 1], lookup);
      var h := Last(hooks);
      var command :- EffectiveText(cfg, HookMark(h.event, h.action), h.command, lookup);
      Ok(rest + [h.(command := command)])
  }

  /** The configuration the service runs with; the raw one is what stays stored. */
  function Effective(cfg: ManagedConfig, lookup: Lookup): Result<ManagedConfig, Error> {
    var application :- EffectiveOption(cfg, "Application", cfg.application, lookup);
    var parameters :- EffectiveOption(cfg, "AppParameters", cfg.appParameters, lookup);
    var directory :- EffectiveOption(cfg, "AppDirectory", cfg.appDirectory, lookup);
    var affinity :- EffectiveOption(cfg, "AppAffinity", cfg.affinity, lookup);
    var stdin :- EffectiveStream(cfg, Stdin, lookup);
    var stdout :- EffectiveStream(cfg, Stdout, lookup);
    var stderr :- EffectiveStream(cfg, Stderr, lookup);
    var hooks :- EffectiveHooks(cfg, cfg.hooks, lookup);
    Ok(cfg.(application := application, appParameters := parameters, appDirectory := directory, affinity := affinity,
            stdin := stdin, stdout := stdout, stderr := stderr, hooks := hooks, expandable := {}))
  }

  method ResolveText(cfg: ManagedConfig, name: string, s: string, lookup: Lookup) returns (r: Result<string, Error>)
    ensures r == EffectiveText(cfg, name, s, lookup)
  {
    if !IsExpandable(cfg, name) { return Ok(s); }
    ghost var asked;
    r, asked := Expand(s, lookup);
  }

  method ResolveHooks(cfg: ManagedConfig, lookup: Lookup) returns (r: Result<seq<Hook>, Error>)
    ensures r == EffectiveHooks(cfg, cfg.hooks, lookup)
  {
    hide EffectiveText, HookMark;
    var hooks := cfg.hooks;
    for i := 0 to |hooks|
      invariant |hooks| == |cfg.hooks| && hooks[i..] == cfg.hooks[i..]
      invariant EffectiveHooks(cfg, cfg.hooks[..i], lookup) == Ok(hooks[..i])
    {
      var h := hooks[i];
      assert h == cfg.hooks[i] && cfg.hooks[..i + 1][..i] == cfg.hooks[..i];
      assert cfg.hooks[..i + 1] != [] && Last(cfg.hooks[..i + 1]) == h;
      var command := ResolveText(cfg, HookMark(h.event, h.action), h.command, lookup);
      if command.Err? {
        assert cfg.hooks[..i + 1] != [];
        HooksFail(cfg, cfg.hooks, i + 1, lookup);
        assert EffectiveHooks(cfg, cfg.hooks, lookup).error == InvalidConfig;
        return Err(InvalidConfig);
      }
      ghost var before := hooks;
      hooks := hooks[i := h.(command := command.value)];
      assert hooks[..i + 1] == before[..i] + [h.(command := command.value)];
    }
    assert cfg.hooks[..|hooks|] == cfg.hooks && hooks[..|hooks|] == hooks;
    return Ok(hooks);
  }

  lemma {:induction false} HooksFail(cfg: ManagedConfig, hooks: seq<Hook>, n: nat, lookup: Lookup)
    requires n <= |hooks| && EffectiveHooks(cfg, hooks[..n], lookup).Err?
    ensures EffectiveHooks(cfg, hooks, lookup).Err?
    decreases |hooks|
  {
    if n == |hooks| {
      assert hooks[..n] == hooks;
    } else {
      assert hooks[..|hooks| - 1][..n] == hooks[..n];
      HooksFail(cfg, hooks[..|hooks| - 1], n, lookup);
    }
  }

  method ResolveOption(cfg: ManagedConfig, name: string, s: Option<string>,
                       lookup: Lookup) returns (r: Result<Option<string>, Error>)
    ensures r == EffectiveOption(cfg, name, s, lookup)
  {
    if s.None? { return Ok(None); }
    var t :- ResolveText(cfg, name, s.value, lookup);
    return Ok(Some(t));
  }

  method ResolveStream(cfg: ManagedConfig, std: Std, lookup: Lookup) returns (r: Result<Option<IoStream>, Error>)
    ensures r == EffectiveStream(cfg, std, lookup)
  {
    var s := StreamOf(cfg, std);
    if s.None? { return Ok(None); }
    var path :- ResolveText(cfg, StreamName(std), s.value.path, lookup);
    return Ok(Some(s.value.(path := path)));
  }

  /** Rewrites the marked texts of a copy, one after the other, and clears the marks. */
  method ResolveExpandableStrings(cfg: ManagedConfig, lookup: Lookup) returns (r: Result<ManagedConfig, Error>)
    ensures r == Effective(cfg, lookup)
  {
    hide EffectiveOption, EffectiveStream, EffectiveHooks;
    var effective := cfg;
    var application :- ResolveOption(cfg, "Application", cfg.application, lookup);
    effective := effective.(application := application);
    var parameters :- ResolveOption(cfg, "AppParameters", cfg.appParameters, lookup);
    effective := effective.(appParameters := parameters);
    var directory :- ResolveOption(cfg, "AppDirectory", cfg.appDirectory, lookup);
    effective := effective.(appDirectory := directory);
    var affinity :- ResolveOption(cfg, "AppAffinity", cfg.affinity, lookup);
    effective := effective.(affinity := affinity);
    var stdin :- ResolveStream(cfg, Stdin, lookup);
    effective := effective.(stdin := stdin);
    var stdout :- ResolveStream(cfg, Stdout, lookup);
    effective := effective.(stdout := stdout);
    var stderr :- ResolveStream(cfg, Stderr, lookup);
    effective := effective.(stderr := stderr);
    var hooks :- ResolveHooks(cfg, lookup);
    effective := effective.(hooks := hooks);
    return Ok(effective.(expandable := {}));
  }

  lemma {:induction false} UnmarkedHooks(cfg: ManagedConfig, hooks: seq<Hook>, lookup: Lookup)
    requires cfg.expandable == {}
    ensures EffectiveHooks(cfg, hooks, lookup) == Ok(hooks)
  {
    if hooks != [] {
      UnmarkedHooks(cfg, hooks[..|hooks| - 1], lookup);
      assert Last(hooks).(command := Last(hooks).command) == Last(hooks);
      assert hooks == hooks[..|hooks| - 1] + [Last(hooks)];
    }
  }

  /** Resolving is one pass: whatever the substituted values contain, resolving again changes nothing. */
  lemma EffectiveIsFinal(cfg: ManagedConfig, lookup: Lookup, later: Lookup)
    requires Effective(cfg, lookup).Ok?
    ensures var c := Effective(cfg, lookup).value; Effective(c, later) == Ok(c)
  {
    hide EffectiveHooks, Expansion;
    var c := Effective(cfg, lookup).value;
    assert c.expandable == {};
    UnmarkedHooks(c, c.hooks, later);
  }

  /** The log viewer opens a configured path unasked exactly when that is the file the service writes to,
      whatever the service's environment. */
  lemma ViewerOpensTheRightFile(cfg: ManagedConfig, std: Std)
    requires StreamOf(cfg, std).Some? && Fits(StreamOf(cfg, std).value.path)
    ensures var path := StreamOf(cfg, std).value.path;
            !(IsExpandable(cfg, StreamName(std)) && Names(SplitOn(path, '%')) != []) <==>
            (forall lookup :: EffectiveStream(cfg, std, lookup) == Ok(StreamOf(cfg, std)))
  {
    hide Expansion, Names, Fits;
    var s := StreamOf(cfg, std).value;
    IndependentTexts(s.path);
    assert s.(path := s.path) == s;
    if IsExpandable(cfg, StreamName(std)) {
      forall lookup
        ensures EffectiveStream(cfg, std, lookup) == Ok(Some(s)) <==> Expansion(s.path, lookup) == Ok(s.path)
      {
      }
      if forall lookup :: EffectiveStream(cfg, std, lookup) == Ok(StreamOf(cfg, std)) {
        forall lookup
          ensures Expansion(s.path, lookup) == Ok(s.path)
        {
          assert EffectiveStream(cfg, std, lookup) == Ok(StreamOf(cfg, std));
        }
      }
    }
  }

  // -- What expansion means for a text and for a configuration ------------------------------------------

  /** One reference: what is found stands for it, what is not stays as it is written, signs included, and so does the
      name between two signs that is empty. */
  lemma ReferenceRule(a: string, name: string, rest: string, lookup: Lookup)
    requires '%' !in a && '%' !in name
    ensures var all := Expanded(a + "%" + (name + "%" + rest), lookup);
            && (name != "" && lookup(name).Some? ==> all == a + lookup(name).value + Expanded(rest, lookup))
            && (name == "" || lookup(name).None? ==> all == a + ("%" + name + "%") + Expanded(rest, lookup))
  {
    hide Expanded, SplitOn;
    Closed(a, name, rest, lookup);
  }

  /** The result is accepted up to 32,766 units and without NUL, and then it is the whole result. */
  lemma ExpansionLimit(text: string, lookup: Lookup)
    ensures Expansion(text, lookup) ==
            if '\0' !in Expanded(text, lookup) && |Encode(Expanded(text, lookup))| <= 32_766
            then Ok(Expanded(text, lookup)) else Err(InvalidConfig)
  {
    hide Expanded, Encode;
  }

  /** The text of a configuration under each name that can be marked, hooks aside. */
  function TextAt(cfg: ManagedConfig, name: string): Option<string> {
    if name == "Application" then cfg.application
    else if name == "AppParameters" then cfg.appParameters
    else if name == "AppDirectory" then cfg.appDirectory
    else if name == "AppAffinity" then cfg.affinity
    else
      var s := if name == "AppStdin" then cfg.stdin else if name == "AppStdout" then cfg.stdout
               else if name == "AppStderr" then cfg.stderr else None;
      if s.Some? then Some(s.value.path) else None
  }

  /** A text fails to resolve: it is marked and its expansion does not fit. */
  predicate Fails(cfg: ManagedConfig, name: string, s: Option<string>, lookup: Lookup) {
    s.Some? && IsExpandable(cfg, name) && Expansion(s.value, lookup).Err?
  }

  predicate HookFails(cfg: ManagedConfig, h: Hook, lookup: Lookup) {
    Fails(cfg, HookMark(h.event, h.action), Some(h.command), lookup)
  }

  lemma {:induction false} HooksAre(cfg: ManagedConfig, hooks: seq<Hook>, lookup: Lookup)
    ensures var r := EffectiveHooks(cfg, hooks, lookup);
            && (r.Err? <==> exists i :: 0 <= i < |hooks| && HookFails(cfg, hooks[i], lookup))
            && (r.Ok? ==> |r.value| == |hooks| && forall i :: 0 <= i < |hooks| ==>
                  && r.value[i] == hooks[i].(command := r.value[i].command)
                  && Ok(r.value[i].command) ==
                     if IsExpandable(cfg, HookMark(hooks[i].event, hooks[i].action)) then Expansion(hooks[i].command, lookup)
                     else Ok(hooks[i].command))
  {
    hide IsExpandable, Expansion, HookMark;
    if hooks != [] {
      var rest, n := hooks[..|hooks| - 1], |hooks| - 1;
      HooksAre(cfg, rest, lookup);
      if i :| 0 <= i < n && HookFails(cfg, rest[i], lookup) { assert hooks[i] == rest[i]; }
      if i :| 0 <= i <= n && HookFails(cfg, hooks[i], lookup) { assert i < n ==> rest[i] == hooks[i]; }
    }
  }

  /** Resolving fails exactly if the expansion of one of the marked texts does not fit. */
  lemma EffectiveFails(cfg: ManagedConfig, lookup: Lookup)
    ensures Effective(cfg, lookup).Err? <==>
            || (exists i :: 0 <= i < |TEXT_NAMES| && Fails(cfg, TEXT_NAMES[i], TextAt(cfg, TEXT_NAMES[i]), lookup))
            || exists i :: 0 <= i < |cfg.hooks| && HookFails(cfg, cfg.hooks[i], lookup)
  {
    hide IsExpandable, Expansion, EffectiveHooks, HookFails;
    HooksAre(cfg, cfg.hooks, lookup);
    var failing := exists i :: 0 <= i < |TEXT_NAMES| && Fails(cfg, TEXT_NAMES[i], TextAt(cfg, TEXT_NAMES[i]), lookup);
    assert failing <==>
           || Fails(cfg, TEXT_NAMES[0], TextAt(cfg, TEXT_NAMES[0]), lookup)
           || Fails(cfg, TEXT_NAMES[1], TextAt(cfg, TEXT_NAMES[1]), lookup)
           || Fails(cfg, TEXT_NAMES[2], TextAt(cfg, TEXT_NAMES[2]), lookup)
           || Fails(cfg, TEXT_NAMES[3], TextAt(cfg, TEXT_NAMES[3]), lookup)
           || Fails(cfg, TEXT_NAMES[4], TextAt(cfg, TEXT_NAMES[4]), lookup)
           || Fails(cfg, TEXT_NAMES[5], TextAt(cfg, TEXT_NAMES[5]), lookup)
           || Fails(cfg, TEXT_NAMES[6], TextAt(cfg, TEXT_NAMES[6]), lookup);
  }

  /** Exactly the marked texts are expanded, each on its own, everything else stays, and the marks are gone. */
  lemma EffectiveExactly(cfg: ManagedConfig, lookup: Lookup, i: nat)
    requires Effective(cfg, lookup).Ok? && i < |TEXT_NAMES|
    ensures var (c, name) := (Effective(cfg, lookup).value, TEXT_NAMES[i]);
            && c.expandable == {} && RestStays(cfg, c) && EffectiveHooks(cfg, cfg.hooks, lookup) == Ok(c.hooks)
            && (TextAt(cfg, name).None? || !IsExpandable(cfg, name) ==> TextAt(c, name) == TextAt(cfg, name))
            && (TextAt(cfg, name).Some? && IsExpandable(cfg, name) ==>
                  TextAt(c, name).Some? && Expansion(TextAt(cfg, name).value, lookup) == Ok(TextAt(c, name).value))
  {
    hide IsExpandable, Expansion, EffectiveHooks;
  }

  predicate StreamStays(a: Option<IoStream>, b: Option<IoStream>) {
    (a.Some? <==> b.Some?) && (a.Some? ==> b.value == a.value.(path := b.value.path))
  }

  /** Nothing but the texts and the marks is different. */
  predicate RestStays(a: ManagedConfig, b: ManagedConfig) {
    && b == a.(application := b.application, appParameters := b.appParameters, appDirectory := b.appDirectory,
               affinity := b.affinity, stdin := b.stdin, stdout := b.stdout, stderr := b.stderr, hooks := b.hooks,
               expandable := b.expandable)
    && StreamStays(a.stdin, b.stdin) && StreamStays(a.stdout, b.stdout) && StreamStays(a.stderr, b.stderr)
  }
}
