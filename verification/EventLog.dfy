/** The shared event log: one active file, four numbered backups, appended to and rotated under one lock. */
module EventLog {
  import opened Prelude
  import opened Codecs

  const BACKUPS: nat := 4
  const BACKUP_NUMBERS: set<nat> := {1, 2, 3, 4}
  const THRESHOLD: nat := 8 * 1024 * 1024

  /** File 0 is the active log, file `n` the backup numbered `n`. */
  type Files = map<nat, seq<Byte>>

  function Content(files: Files, n: nat): seq<Byte> { if n in files then files[n] else [] }

  /** Oldest first: everything the log still holds. */
  function Joined(files: Files): seq<Byte> {
    Content(files, 4) + Content(files, 3) + Content(files, 2) + Content(files, 1) + Content(files, 0)
  }

  predicate OnlyLogs(files: Files) { forall n :: n in files ==> n <= BACKUPS }

  /** No gaps, and every backup was big enough to be rotated. */
  ghost predicate Packed(files: Files) {
    forall n :: 1 <= n && n in files ==> |files[n]| >= THRESHOLD && forall m :: 1 <= m <= n ==> m in files
  }

  /** Big enough to be rotated. */
  predicate Due(files: Files) { |Content(files, 0)| >= THRESHOLD }

  function Appended(files: Files, bytes: seq<Byte>): Files { files[0 := Content(files, 0) + bytes] }

  function Renamed(files: Files, from: nat, to: nat): Files
    requires from in files
  {
    (files - {from})[to := files[from]]
  }

  /** Every file under the next number, the oldest gone. */
  function Rotation(files: Files): Files { map n: nat | n in BACKUP_NUMBERS && n - 1 in files :: files[n - 1] }

  function At(files: Files, n: nat): Option<seq<Byte>> { if n in files then Some(files[n]) else None }

  /** Where a shift that has come down to number `i` has left file `n`: the number above `i` is free. */
  function Moved(before: Files, i: nat, n: nat): Option<seq<Byte>> {
    if n <= i then At(before, n) else if n == i + 1 then None else At(before, n - 1)
  }

  ghost predicate ShiftedDown(before: Files, files: Files, i: nat) {
    OnlyLogs(files) && forall n :: 0 <= n <= BACKUPS ==> At(files, n) == Moved(before, i, n)
  }

  lemma ShiftStep(before: Files, files: Files, i: nat)
    requires 1 <= i < BACKUPS && ShiftedDown(before, files, i)
    ensures i + 1 !in files
    ensures i !in files ==> ShiftedDown(before, files, i - 1)
    ensures i in files ==> ShiftedDown(before, Renamed(files, i, i + 1), i - 1)
  {
    assert At(files, i) == Moved(before, i, i) == At(before, i) && At(files, i + 1) == None;
    var after := if i in files then Renamed(files, i, i + 1) else files;
    forall n | 0 <= n <= BACKUPS
      ensures At(after, n) == Moved(before, i - 1, n)
    {
      assert At(files, n) == Moved(before, i, n);
    }
  }

  lemma ShiftComplete(before: Files, files: Files)
    requires ShiftedDown(before, files, 0) && 0 in files
    ensures 1 !in files && Renamed(files, 0, 1) == Rotation(before)
  {
    var after := Renamed(files, 0, 1);
    assert At(files, 1) == None && At(files, 0) == Moved(before, 0, 0);
    forall n
      ensures n in after <==> n in Rotation(before)
      ensures n in after ==> after[n] == Rotation(before)[n]
    {
      if 1 < n <= BACKUPS { assert At(files, n) == Moved(before, 0, n); }
    }
  }

  // -- One append-and-rotate cycle, as seen from outside -----------------------------------------

  /** The append failed; it went through and the rotation failed; or nothing failed. */
  datatype Fate = Torn | Stuck | Clean

  function FateOf(appended: bool, rotated: bool): Fate { if !appended then Torn else if rotated then Clean else Stuck }

  /** Exactly what a cycle can leave behind: `written` is appended, and if that makes the active file big enough, and
      only then, the files are shifted: completely, or as far as the rotation got. */
  ghost predicate Cycle(before: Files, after: Files, written: seq<Byte>, fate: Fate) {
    var middle := Appended(before, written);
    match fate
    case Torn => after == middle || (after == before && written == [])
    case Stuck => after == middle || (Due(middle) && exists i :: 0 <= i < BACKUPS && ShiftedDown(middle, after, i))
    case Clean => after == if Due(middle) then Rotation(middle) else middle
  }

  lemma AppendedJoined(files: Files, bytes: seq<Byte>)
    ensures Joined(Appended(files, bytes)) == Joined(files) + bytes
  {
    var older := Content(files, 4) + Content(files, 3) + Content(files, 2) + Content(files, 1);
    assert older + (Content(files, 0) + bytes) == older + Content(files, 0) + bytes;
  }

  /** A free number anywhere in the row makes no difference to the text. */
  lemma Gaps(a: seq<Byte>, b: seq<Byte>, c: seq<Byte>, d: seq<Byte>, e: seq<Byte>)
    ensures a + b + c + d + e == a + (b + c + d + e)
    ensures [] + b + c + d + e == b + c + d + e
    ensures b + [] + c + d + e == b + c + d + e
    ensures b + c + [] + d + e == b + c + d + e
    ensures b + c + d + [] + e == b + c + d + e
    ensures b + c + d + e + [] == b + c + d + e
  {
    assert [] + b == b && b + [] == b;
    assert b + c + [] == b + c;
    assert b + c + d + [] == b + c + d;
  }

  lemma ShiftedJoined(before: Files, files: Files, i: nat)
    requires i < BACKUPS && ShiftedDown(before, files, i)
    ensures Joined(before) == Content(before, BACKUPS) + Joined(files)
  {
    assert At(files, 0) == Moved(before, i, 0) && At(files, 1) == Moved(before, i, 1) && At(files, 2) == Moved(before, i, 2);
    assert At(files, 3) == Moved(before, i, 3) && At(files, 4) == Moved(before, i, 4);
    Gaps(Content(before, 4), Content(before, 3), Content(before, 2), Content(before, 1), Content(before, 0));
  }

  lemma RotationJoined(before: Files)
    ensures Joined(before) == Content(before, BACKUPS) + Joined(Rotation(before))
  {
    Gaps(Content(before, 4), Content(before, 3), Content(before, 2), Content(before, 1), Content(before, 0));
  }

  /** Whatever fails, a cycle adds what was written at the end of the text and takes nothing, or the whole oldest
      backup, from its beginning; the latter only if the active file has become big enough. */
  lemma CycleDrops(before: Files, after: Files, written: seq<Byte>, fate: Fate) returns (dropped: seq<Byte>)
    requires OnlyLogs(before) && Cycle(before, after, written, fate)
    ensures OnlyLogs(after)
    ensures Joined(before) + written == dropped + Joined(after)
    ensures dropped == [] || (dropped == Content(before, BACKUPS) && Due(Appended(before, written)) && fate != Torn)
  {
    hide Joined;
    var middle := Appended(before, written);
    AppendedJoined(before, written);
    assert Content(middle, BACKUPS) == Content(before, BACKUPS);
    if after == middle || fate == Torn {
      dropped := [];
      assert [] + Joined(after) == Joined(after) && Joined(before) + [] == Joined(before);
    } else {
      dropped := Content(before, BACKUPS);
      if fate == Clean {
        RotationJoined(middle);
      } else {
        var i :| 0 <= i < BACKUPS && ShiftedDown(middle, after, i);
        ShiftedJoined(middle, after, i);
      }
    }
  }

  /** Every file is what it was or what the one before it was. */
  predicate Sourced(before: Files, files: Files) {
    forall n :: n in files ==> At(files, n) == At(before, n) || (n > 0 && At(files, n) == At(before, n - 1))
  }

  lemma CycleSourced(before: Files, after: Files, written: seq<Byte>, fate: Fate)
    requires fate != Torn && Cycle(before, after, written, fate)
    ensures Sourced(Appended(before, written), after)
  {
    var middle := Appended(before, written);
    if after != middle && fate == Stuck {
      var i :| 0 <= i < BACKUPS && ShiftedDown(middle, after, i);
      forall n | n in after
        ensures At(after, n) == At(middle, n) || (n > 0 && At(after, n) == At(middle, n - 1))
      {
        assert At(after, n) == Moved(middle, i, n);
      }
    }
  }

  lemma CyclePacked(before: Files, after: Files, written: seq<Byte>, fate: Fate)
    requires OnlyLogs(before) && fate != Stuck && Packed(before) && Cycle(before, after, written, fate)
    ensures Packed(after) && (BACKUPS in before ==> BACKUPS in after)
  {
  }

  // -- The directory ---------------------------------------------------------------------------------

  class LogDirectory {
    var files: Files
    /** Every byte ever written, in order. */
    ghost var history: seq<Byte>
    /** How many file operations have failed. */
    ghost var faults: nat

    /** The log holds the end of what has been written. */
    ghost predicate Valid()
      reads this
    {
      OnlyLogs(files) && Suffix(Joined(files), history)
    }

    constructor ()
      ensures Valid() && files == map[] && history == [] && faults == 0
    {
      files := map[];
      history := [];
      faults := 0;
    }

    /** Opens for appending and writes; a failure may leave any part of the bytes behind, or just the new file. */
    method Append(bytes: seq<Byte>) returns (ok: bool, ghost written: seq<Byte>)
      modifies this
      ensures written <= bytes && (ok ==> written == bytes)
      ensures files == Appended(old(files), written) || (!ok && files == old(files) && written == [])
      ensures history == old(history) + written && faults == old(faults) + if ok then 0 else 1
    {
      ok := *;
      if !ok {
        faults := faults + 1;
        var created: bool := *;
        var n :| 0 <= n <= |bytes|;
        var part := if created then bytes[..n] else [];
        if created { files := Appended(files, part); }
        written := part;
      } else {
        written := bytes;
        files := Appended(files, bytes);
      }
      history := history + written;
    }

    /** A missing file counts as removed. */
    method Remove(n: nat) returns (ok: bool)
      modifies `files, `faults
      ensures files == if ok then old(files) - {n} else old(files)
      ensures faults == old(faults) + if ok then 0 else 1
    {
      ok := *;
      if ok { files := files - {n}; } else { faults := faults + 1; }
    }

    /** Never asked to replace an existing file. */
    method Rename(from: nat, to: nat) returns (ok: bool)
      requires from in files && to !in files
      modifies `files, `faults
      ensures files == if ok then Renamed(old(files), from, to) else old(files)
      ensures faults == old(faults) + if ok then 0 else 1
    {
      ok := *;
      if ok { files := Renamed(files, from, to); } else { faults := faults + 1; }
    }

    /** The length of the active file, nothing if it is missing. */
    method ActiveSize() returns (size: Option<nat>)
      modifies `faults
      ensures size.Some? ==> size.value == |Content(files, 0)|
      ensures faults == old(faults) + if size.Some? then 0 else 1
    {
      if * {
        faults := faults + 1;
        return None;
      }
      return Some(|Content(files, 0)|);
    }

    /** Rotates when the active file is big enough; only a failing file operation makes it fail. */
    method MaybeRotate() returns (ok: bool)
      requires OnlyLogs(files)
      modifies `files, `faults
      ensures faults == old(faults) + if ok then 0 else 1
      ensures ok ==> files == if Due(old(files)) then Rotation(old(files)) else old(files)
      ensures !ok ==> files == old(files) ||
                      (Due(old(files)) && exists i :: 0 <= i < BACKUPS && ShiftedDown(old(files), files, i))
      ensures ok ==> |Content(files, 0)| < THRESHOLD
    {
      var size := ActiveSize();
      if size.None? { return false; }
      if size.value < THRESHOLD { return true; }
      ghost var before := files;
      var removed := Remove(BACKUPS);
      if !removed { return false; }
      for i := BACKUPS downto 1
        invariant 1 <= i <= BACKUPS && ShiftedDown(before, files, i - 1) && faults == old(faults)
      {
        ShiftStep(before, files, i);
        if i !in files { continue; }
        var moved := Rename(i, i + 1);
        if !moved { return false; }
      }
      assert At(files, 0) == Moved(before, 0, 0);
      ShiftComplete(before, files);
      ok := Rename(0, 1);
    }

    /** Appends one line and then sees to the rotation, whose failure is not a failure of the append. */
    method TryLog(line: seq<Byte>) returns (ok: bool, rotated: bool, ghost written: seq<Byte>)
      requires Valid()
      modifies this
      ensures Valid()
      ensures history == old(history) + written && written <= line && (ok ==> written == line)
      ensures Cycle(old(files), files, written, FateOf(ok, rotated))
      // Unless a file operation fails, the line is appended and the rotation that is due is made.
      ensures faults == old(faults) + if ok && rotated then 0 else 1
    {
      ghost var start := files;
      ok, written := Append(line);
      rotated := false;
      if ok { rotated := MaybeRotate(); }
      CycleKeepsSuffix(start, files, written, FateOf(ok, rotated), old(history));
    }
  }

  lemma CycleKeepsSuffix(before: Files, after: Files, written: seq<Byte>, fate: Fate, history: seq<Byte>)
    requires OnlyLogs(before) && Cycle(before, after, written, fate)
    requires Suffix(Joined(before), history)
    ensures OnlyLogs(after) && Suffix(Joined(after), history + written)
  {
    hide Joined, Cycle, Suffix;
    var dropped := CycleDrops(before, after, written, fate);
    SuffixStep(Joined(before), history, written, dropped, Joined(after));
  }

  lemma SuffixStep(log: seq<Byte>, history: seq<Byte>, written: seq<Byte>, dropped: seq<Byte>, rest: seq<Byte>)
    requires Suffix(log, history) && log + written == dropped + rest
    ensures Suffix(rest, history + written)
  {
    var lost := history[..|history| - |log|];
    assert history == lost + log;
    assert history + written == lost + (log + written) == lost + (dropped + rest) == lost + dropped + rest;
  }

  // -- Runs ---------------------------------------------------------------------------------------------

  function Total(written: seq<seq<Byte>>): seq<Byte> {
    if written == [] then [] else Total(written[..|written| - 1]) + Last(written)
  }

  /** `states` are the log before and after each of a run of cycles. */
  ghost predicate Run(states: seq<Files>, written: seq<seq<Byte>>, fates: seq<Fate>) {
    && |states| == |written| + 1 && |fates| == |written| && OnlyLogs(states[0])
    && forall k :: 0 <= k < |written| ==> Cycle(states[k], states[k + 1], written[k], fates[k])
  }

  /** After any run, with failures anywhere, the log is the end of what it was plus what has been written. */
  lemma {:induction false} RunKeepsSuffix(states: seq<Files>, written: seq<seq<Byte>>, fates: seq<Fate>)
    requires Run(states, written, fates)
    ensures OnlyLogs(Last(states)) && Suffix(Joined(Last(states)), Joined(states[0]) + Total(written))
  {
    hide Joined, Cycle;
    var n := |written|;
    if n == 0 {
      assert states[0] == Last(states) && Joined(states[0]) + [] == Joined(states[0]);
    } else {
      RunKeepsSuffix(states[..n], written[..n - 1], fates[..n - 1]);
      var first, earlier := Joined(states[0]), Total(written[..n - 1]);
      assert Last(states[..n]) == states[n - 1] && states[..n][0] == states[0];
      hide Suffix, Total;
      CycleKeepsSuffix(states[n - 1], states[n], written[n - 1], fates[n - 1], first + earlier);
      TotalStep(first, written);
    }
  }

  lemma TotalStep(first: seq<Byte>, written: seq<seq<Byte>>)
    requires written != []
    ensures first + Total(written) == first + Total(written[..|written| - 1]) + Last(written)
  {
    assert Total(written) == Total(written[..|written| - 1]) + Last(written);
    Associate(first, Total(written[..|written| - 1]), Last(written));
  }

  lemma Associate(a: seq<Byte>, b: seq<Byte>, c: seq<Byte>)
    ensures a + (b + c) == a + b + c
  {
  }

  /** Either nothing has been dropped yet or every backup is there, each of them full. */
  ghost predicate Retaining(files: Files, total: nat) {
    OnlyLogs(files) && Packed(files) && (|Joined(files)| == total || BACKUPS in files)
  }

  lemma {:induction false} RunRetaining(states: seq<Files>, written: seq<seq<Byte>>, fates: seq<Fate>)
    requires Run(states, written, fates) && states[0] == map[]
    requires forall k :: 0 <= k < |fates| ==> fates[k] != Stuck
    ensures Retaining(Last(states), |Total(written)|)
  {
    var n := |written|;
    if n > 0 {
      RunRetaining(states[..n], written[..n - 1], fates[..n - 1]);
      hide Joined, Cycle;
      assert Cycle(states[n - 1], states[n], written[n - 1], fates[n - 1]);
      RetainingStep(states[n - 1], states[n], written[n - 1], fates[n - 1], |Total(written[..n - 1])|);
    }
  }

  lemma RetainingStep(before: Files, after: Files, written: seq<Byte>, fate: Fate, total: nat)
    requires Retaining(before, total) && fate != Stuck && Cycle(before, after, written, fate)
    ensures Retaining(after, total + |written|)
  {
    hide Joined;
    var dropped := CycleDrops(before, after, written, fate);
    CyclePacked(before, after, written, fate);
    hide Cycle;
    if BACKUPS !in after { assert dropped == []; }
  }

  /** From an empty directory, as long as no rotation fails, only what exceeds four full backups is ever lost. */
  lemma EnoughIsRetained(states: seq<Files>, written: seq<seq<Byte>>, fates: seq<Fate>)
    requires Run(states, written, fates) && states[0] == map[]
    requires forall k :: 0 <= k < |fates| ==> fates[k] != Stuck
    ensures |Joined(Last(states))| >= Min(|Total(written)|, 4 * 8 * 1024 * 1024)
  {
    RunRetaining(states, written, fates);
    var files := Last(states);
    if BACKUPS in files {
      assert 1 in files && 2 in files && 3 in files;
    }
  }

  /** Every file ended less than one line after it had become big enough. */
  predicate Bounded(files: Files, line: nat) {
    |Content(files, 0)| < THRESHOLD && forall n :: n in files ==> |files[n]| < THRESHOLD + line
  }

  /** From an empty directory, as long as nothing fails, no file exceeds the threshold by a whole line, and the
      active one stays below it. */
  lemma {:induction false} SizesAreBounded(states: seq<Files>, written: seq<seq<Byte>>, fates: seq<Fate>, line: nat)
    requires Run(states, written, fates) && states[0] == map[]
    requires forall k :: 0 <= k < |written| ==> fates[k] == Clean && |written[k]| <= line
    ensures Bounded(Last(states), line)
  {
    var n := |written|;
    if n > 0 {
      SizesAreBounded(states[..n], written[..n - 1], fates[..n - 1], line);
      assert Cycle(states[n - 1], states[n], written[n - 1], fates[n - 1]);
    }
  }
}
