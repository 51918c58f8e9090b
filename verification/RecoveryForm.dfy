/** The recovery-policy editor: text fields and rows, parsed into a policy and printed from one. */
module RecoveryForm {
  import opened Prelude
  import opened Text
  import opened Codecs
  import opened Decimal
  import opened ExitCodes

  datatype RecoverySpec = RecoverySpec(
    name: string,
    restartDelay: Option<U32>,
    throttleDelay: Option<U32>,
    defaultAction: ExitAction,
    exitActions: Actions)

  datatype Row = Row(exitCode: string, action: int)

  datatype Form = Form(service: string, restartDelay: string, throttle: string, defaultAction: int, rows: seq<Row>)

  function ActionToInt(a: ExitAction): int {
    match a
    case Restart => 0
    case Ignore => 1
    case Exit => 2
    case Suicide => 3
  }

  /** Unknown picker positions fall back to a restart. */
  function IntToAction(i: int): ExitAction {
    if i == 1 then Ignore else if i == 2 then Exit else if i == 3 then Suicide else Restart
  }

  function OptionalText(n: Option<U32>): string { if n.Some? then ToText(n.value) else "" }

  /** Blank means absent; anything else must be an unsigned 32-bit number. */
  function ParseOptional(s: string): Option<Option<U32>> {
    var t := Trim(s);
    if t == "" then Some(None)
    else
      match ParseU32(t)
      case Some(n) => Some(Some(n))
      case None => None
  }

  /** The keys of `actions`, each once, in whatever order the table lists them. */
  ghost predicate Lists(keys: seq<string>, actions: Actions) {
    && (forall k :: k in keys <==> k in actions)
    && (forall i, j :: 0 <= i < j < |keys| ==> keys[i] != keys[j])
  }

  function RowsFor(keys: seq<string>, actions: Actions): seq<Row>
    requires forall k :: k in keys ==> k in actions
  {
    seq(|keys|, i requires 0 <= i < |keys| => Row(keys[i], ActionToInt(actions[keys[i]])))
  }

  function FromSpec(spec: RecoverySpec, keys: seq<string>): Form
    requires forall k :: k in keys ==> k in spec.exitActions
  {
    Form(spec.name, OptionalText(spec.restartDelay), OptionalText(spec.throttleDelay),
         ActionToInt(spec.defaultAction), RowsFor(keys, spec.exitActions))
  }

  /** The codes of the filled rows, in order; nothing if one of them is not a signed 32-bit number. */
  function RowCodes(rows: seq<Row>): Option<seq<Entry>> {
    if rows == [] then Some([])
    else
      var rest, code := RowCodes(rows[..|rows| - 1]), Trim(Last(rows).exitCode);
      if rest.None? || code == "" then rest
      else
        match ParseI32(code)
        case None => None
        case Some(n) => Some(rest.value + [Entry(ToText(n), IntToAction(Last(rows).action))])
  }

  predicate NoRepeats(entries: seq<Entry>) {
    forall i, j :: 0 <= i < j < |entries| ==> entries[i].name != entries[j].name
  }

  function ActionsOf(entries: seq<Entry>): Actions {
    if entries == [] then map[] else ActionsOf(entries[..|entries| - 1])[Last(entries).name := Last(entries).action]
  }

  lemma {:induction false} ActionsOfKeys(entries: seq<Entry>)
    ensures forall k :: k in ActionsOf(entries) <==> exists i :: 0 <= i < |entries| && entries[i].name == k
    ensures NoRepeats(entries) ==> forall i :: 0 <= i < |entries| ==>
              entries[i].name in ActionsOf(entries) && ActionsOf(entries)[entries[i].name] == entries[i].action
  {
    if entries != [] {
      var rest := entries[..|entries| - 1];
      ActionsOfKeys(rest);
      assert forall i :: 0 <= i < |rest| ==> rest[i] == entries[i];
      forall k | exists i :: 0 <= i < |entries| && entries[i].name == k
        ensures k in ActionsOf(entries)
      {
        var i :| 0 <= i < |entries| && entries[i].name == k;
        assert i < |rest| ==> rest[i].name == k;
      }
    }
  }

  lemma ParseRange(code: string)
    requires ParseI32(code).Some?
    ensures IsI32(ParseI32(code).value)
  {
  }

  /** The rows make sense exactly if every filled one is a number, and then they say what the filled ones say. */
  lemma {:induction false} RowCodesAre(rows: seq<Row>)
    ensures RowCodes(rows).Some? <==>
            forall i :: 0 <= i < |rows| && Trim(rows[i].exitCode) != "" ==> ParseI32(Trim(rows[i].exitCode)).Some?
    ensures RowCodes(rows).Some? ==> forall e :: e in RowCodes(rows).value <==> SaidBy(rows, e)
  {
    hide Trim, ParseI32, ToText;
    if rows != [] {
      var rest, n := rows[..|rows| - 1], |rows| - 1;
      RowCodesAre(rest);
      if RowCodes(rest).None? {
        var i :| 0 <= i < |rest| && Trim(rest[i].exitCode) != "" && ParseI32(Trim(rest[i].exitCode)).None?;
        assert rows[i] == rest[i];
      } else {
        forall e
          ensures SaidBy(rows, e) <==> SaidBy(rest, e) || Says(rows[n], e)
        {
          if i :| 0 <= i < |rest| && Says(rest[i], e) { assert rows[i] == rest[i]; }
        }
      }
    }
  }

  /** A filled row with a code stands for the action at its picker position, a restart for unknown positions. */
  predicate Says(row: Row, e: Entry) {
    && Trim(row.exitCode) != "" && ParseI32(Trim(row.exitCode)).Some?
    && e.name == ToText(ParseI32(Trim(row.exitCode)).value)
    && e.action == if row.action == 1 then Ignore else if row.action == 2 then Exit else if row.action == 3 then Suicide else Restart
  }

  predicate SaidBy(rows: seq<Row>, e: Entry) { exists i :: 0 <= i < |rows| && Says(rows[i], e) }

  /** What the first `i` rows have contributed. */
  ghost predicate Parsed(rows: seq<Row>, i: nat, done: seq<Entry>, actions: Actions)
    requires i <= |rows|
  {
    && RowCodes(rows[..i]) == Some(done)
    && NoRepeats(done) && actions == ActionsOf(done)
    && forall k :: k in actions ==> ValidateKey(k)
  }

  /** The entry row `i` stands for, when it stands for one. */
  ghost function EntryAt(rows: seq<Row>, i: nat): Entry
    requires i < |rows| && ParseI32(Trim(rows[i].exitCode)).Some?
  {
    Entry(ToText(ParseI32(Trim(rows[i].exitCode)).value), IntToAction(rows[i].action))
  }

  lemma ParsedRow(rows: seq<Row>, i: nat, done: seq<Entry>, actions: Actions)
    requires i < |rows| && Parsed(rows, i, done, actions)
    ensures var code := Trim(rows[i].exitCode);
            && (code == "" ==> Parsed(rows, i + 1, done, actions))
            && (code != "" && ParseI32(code).None? ==> RowCodes(rows).None?)
            && (code != "" && ParseI32(code).Some? ==>
                  var e := EntryAt(rows, i);
                  if e.name in actions then RowCodes(rows).Some? ==> !NoRepeats(RowCodes(rows).value)
                  else Parsed(rows, i + 1, done + [e], actions[e.name := e.action]))
  {
    hide Trim, ParseI32, ToText, ValidateKey, IntToAction, RowCodes, ActionsOf, NoRepeats;
    RowCodesStep(rows, i, done);
    var code := Trim(rows[i].exitCode);
    if code != "" && ParseI32(code).None? {
      BadRow(rows, i + 1);
    } else if code != "" {
      ParseRange(code);
      PrintedIsValid(ParseI32(code).value);
      var e := EntryAt(rows, i);
      AppendEntry(done, actions, e);
      if e.name in actions {
        RepeatedRow(rows, i + 1, done + [e]);
      }
    }
  }

  lemma RowCodesStep(rows: seq<Row>, i: nat, done: seq<Entry>)
    requires i < |rows| && RowCodes(rows[..i]) == Some(done)
    ensures var code := Trim(rows[i].exitCode);
            RowCodes(rows[..i + 1]) ==
            if code == "" then Some(done)
            else if ParseI32(code).None? then None
            else Some(done + [EntryAt(rows, i)])
  {
    hide Trim, ParseI32, ToText, IntToAction;
    assert rows[..i + 1][..i] == rows[..i];
  }

  lemma AppendEntry(done: seq<Entry>, actions: Actions, e: Entry)
    requires NoRepeats(done) && actions == ActionsOf(done)
    ensures NoRepeats(done + [e]) <==> e.name !in actions
    ensures ActionsOf(done + [e]) == actions[e.name := e.action]
  {
    var next := done + [e];
    assert next[..|done|] == done;
    ActionsOfKeys(done);
    if e.name in actions {
      var j :| 0 <= j < |done| && done[j].name == e.name;
      assert next[j].name == next[|done|].name;
    }
  }

  /** Parses every row; a malformed or repeated code is an error, a blank one is skipped. */
  method ParseRows(rows: seq<Row>) returns (r: Option<Actions>)
    ensures r.Some? <==> RowCodes(rows).Some? && NoRepeats(RowCodes(rows).value)
    ensures r.Some? ==> r.value == ActionsOf(RowCodes(rows).value)
    ensures r.Some? ==> forall k :: k in r.value ==> ValidateKey(k)
  {
    hide RowCodes, Trim, ParseI32, ToText, ValidateKey, IntToAction, ActionsOf;
    var actions: Actions := map[];
    ghost var done: seq<Entry> := [];
    NothingParsed(rows);
    for i := 0 to |rows|
      invariant Parsed(rows, i, done, actions)
    {
      ParsedRow(rows, i, done, actions);
      var code := Trim(rows[i].exitCode);
      if code == "" { continue; }
      var parsed := ParseI32(code);
      if parsed.None? { return None; }
      var key := ToText(parsed.value);
      if key in actions { return None; }
      done := done + [EntryAt(rows, i)];
      actions := actions[key := IntToAction(rows[i].action)];
    }
    assert rows[..|rows|] == rows;
    return Some(actions);
  }

  lemma NothingParsed(rows: seq<Row>)
    ensures Parsed(rows, 0, [], map[])
  {
  }

  lemma {:induction false} BadRow(rows: seq<Row>, n: nat)
    requires n <= |rows| && RowCodes(rows[..n]).None?
    ensures RowCodes(rows).None?
    decreases |rows|
  {
    if n < |rows| {
      assert rows[..|rows| - 1][..n] == rows[..n];
      BadRow(rows[..|rows| - 1], n);
    } else {
      assert rows[..n] == rows;
    }
  }

  lemma {:induction false} RepeatedRow(rows: seq<Row>, n: nat, entries: seq<Entry>)
    requires n <= |rows| && RowCodes(rows[..n]) == Some(entries) && !NoRepeats(entries)
    ensures RowCodes(rows).Some? ==> !NoRepeats(RowCodes(rows).value)
    decreases |rows|
  {
    if n < |rows| {
      var rest := rows[..|rows| - 1];
      assert rest[..n] == rows[..n];
      RepeatedRow(rest, n, entries);
      if RowCodes(rows).Some? {
        var before := RowCodes(rest).value;
        var i, j :| 0 <= i < j < |before| && before[i].name == before[j].name;
        assert RowCodes(rows).value[i] == before[i] && RowCodes(rows).value[j] == before[j];
      }
    } else {
      assert rows[..n] == rows;
    }
  }

  method ToSpec(form: Form) returns (r: Option<RecoverySpec>)
    ensures r.Some? <==>
            && ParseOptional(form.restartDelay).Some? && ParseOptional(form.throttle).Some?
            && RowCodes(form.rows).Some? && NoRepeats(RowCodes(form.rows).value)
    ensures r.Some? ==> r.value == RecoverySpec(
              form.service, ParseOptional(form.restartDelay).value, ParseOptional(form.throttle).value,
              IntToAction(form.defaultAction), ActionsOf(RowCodes(form.rows).value))
    ensures r.Some? ==> forall k :: k in r.value.exitActions ==> ValidateKey(k)
  {
    var restart, throttle := ParseOptional(form.restartDelay), ParseOptional(form.throttle);
    if restart.None? || throttle.None? { return None; }
    var actions := ParseRows(form.rows);
    if actions.None? { return None; }
    return Some(RecoverySpec(form.service, restart.value, throttle.value, IntToAction(form.defaultAction), actions.value));
  }

  // -- Printing a policy and parsing it back -----------------------------------------

  lemma OptionalRoundTrip(n: Option<U32>)
    ensures ParseOptional(OptionalText(n)) == Some(n)
  {
    if n.Some? {
      Decimal.U32RoundTrip(n.value);
      hide ToText, ParseU32, Trim;
      forall c | c in ToText(n.value)
        ensures !IsWhitespace(c)
      {
        assert IsDigit(c);
      }
      TrimNothing(ToText(n.value));
    }
  }

  lemma ValidKeyIsPlain(k: string)
    requires ValidateKey(k)
    ensures Trim(k) == k && k != ""
    ensures ParseI32(k).Some? && ToText(ParseI32(k).value) == k
  {
    TrimNothing(k);
  }

  lemma {:induction false} RowsRoundTrip(keys: seq<string>, actions: Actions)
    requires forall k :: k in keys ==> k in actions && ValidateKey(k)
    ensures RowCodes(RowsFor(keys, actions)) == Some(EntriesFor(keys, actions))
  {
    hide ToText, ParseI32, Trim, ValidateKey;
    if keys != [] {
      var rest, k := keys[..|keys| - 1], Last(keys);
      RowsRoundTrip(rest, actions);
      assert RowsFor(keys, actions)[..|keys| - 1] == RowsFor(rest, actions);
      assert k in keys;
      ValidKeyIsPlain(k);
      assert EntriesFor(keys, actions) == EntriesFor(rest, actions) + [Entry(k, actions[k])];
      assert IntToAction(ActionToInt(actions[k])) == actions[k];
    }
  }

  function EntriesFor(keys: seq<string>, actions: Actions): seq<Entry>
    requires forall k :: k in keys ==> k in actions
  {
    seq(|keys|, i requires 0 <= i < |keys| => Entry(keys[i], actions[keys[i]]))
  }

  lemma EntriesRoundTrip(keys: seq<string>, actions: Actions)
    requires Lists(keys, actions)
    ensures NoRepeats(EntriesFor(keys, actions)) && ActionsOf(EntriesFor(keys, actions)) == actions
  {
    var entries := EntriesFor(keys, actions);
    ActionsOfKeys(entries);
    hide ActionsOf;
    forall k
      ensures k in ActionsOf(entries) <==> k in actions
      ensures k in actions ==> k in ActionsOf(entries) && ActionsOf(entries)[k] == actions[k]
    {
      if k in actions {
        var i :| 0 <= i < |keys| && keys[i] == k;
        assert entries[i] == Entry(k, actions[k]);
      }
    }
  }

  /** Every form that prints a valid policy parses back to that policy. */
  lemma FormRoundTrip(spec: RecoverySpec, keys: seq<string>)
    requires Lists(keys, spec.exitActions)
    requires forall k :: k in spec.exitActions ==> ValidateKey(k)
    ensures var form := FromSpec(spec, keys);
            && ParseOptional(form.restartDelay) == Some(spec.restartDelay)
            && ParseOptional(form.throttle) == Some(spec.throttleDelay)
            && IntToAction(form.defaultAction) == spec.defaultAction
            && RowCodes(form.rows).Some? && NoRepeats(RowCodes(form.rows).value)
            && ActionsOf(RowCodes(form.rows).value) == spec.exitActions
  {
    OptionalRoundTrip(spec.restartDelay);
    OptionalRoundTrip(spec.throttleDelay);
    RowsRoundTrip(keys, spec.exitActions);
    EntriesRoundTrip(keys, spec.exitActions);
  }

  /** Loading a policy into the editor and saving it untouched hands on the same policy. */
  method EditUntouched(spec: RecoverySpec, ghost keys: seq<string>, form: Form) returns (r: Option<RecoverySpec>)
    requires Lists(keys, spec.exitActions) && forall k :: k in spec.exitActions ==> ValidateKey(k)
    requires form == FromSpec(spec, keys)
    ensures r == Some(spec)
  {
    FormRoundTrip(spec, keys);
    r := ToSpec(form);
  }
}
