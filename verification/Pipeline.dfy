/** From the supervisors' appends to the dashboard's figures. */
module Pipeline {
  import opened Prelude
  import opened Codecs
  import opened Events
  import opened HistoryWindow
  import opened EventLog
  import opened EventReader
  import opened TornAppends
  import opened Dashboard
  import opened DashboardLaws

  /** What a reader of `files` shows: of the records it gets, the window's and one earlier record for each service. */
  ghost function Shown(parse: Parser, read: TimeReader, files: Files, since: Instant, now: Instant): seq<EventRecord> {
    Window(read, Gather(Capped(parse), Blocks(files)), since, now)
  }

  method ReadSince(parse: Parser, read: TimeReader, files: Files, since: Instant, now: Instant)
    returns (r: Result<seq<EventRecord>, ()>)
    requires parse([]) == None
    ensures r.Ok? ==> r.value == Shown(parse, read, files, since, now)
  {
    var records := ReadAll(parse, files);
    if records.Err? { return Err(()); }
    var kept := Truncate(read, records.value, since, now);
    return Ok(kept);
  }

  /** The dashboard computed from what is shown is the one computed directly from `records`. */
  ghost predicate SameDashboard(parse: Parser, read: TimeReader, same: NameEq, defs: seq<ServiceDef>, files: Files,
                                now: Instant, later: Instant, records: seq<EventRecord>) {
    forall shown: ServiceEvents, direct: ServiceEvents ::
      && IsGrouping(same, ManagedNames(defs),
                    Observed(read, Shown(parse, read, files, now - WINDOW_DAYS * DAY_MS, later), now), shown)
      && IsGrouping(same, ManagedNames(defs), Observed(read, records, now), direct)
      ==> MetricsOf(read, defs, shown, now) == MetricsOf(read, defs, direct, now)
  }

  lemma DashboardOfRead(parse: Parser, read: TimeReader, same: NameEq, defs: seq<ServiceDef>, files: Files,
                        now: Instant, later: Instant, records: seq<EventRecord>)
    requires now <= later && Gather(Capped(parse), Blocks(files)) == records
    ensures SameDashboard(parse, read, same, defs, files, now, later, records)
  {
    hide Window, Observed, IsGrouping, MetricsOf, Gather;
    forall shown: ServiceEvents, direct: ServiceEvents |
      && IsGrouping(same, ManagedNames(defs),
                    Observed(read, Shown(parse, read, files, now - WINDOW_DAYS * DAY_MS, later), now), shown)
      && IsGrouping(same, ManagedNames(defs), Observed(read, records, now), direct)
      ensures MetricsOf(read, defs, shown, now) == MetricsOf(read, defs, direct, now)
    {
      TruncationIsLossless(read, same, defs, records, now, later, direct, shown);
    }
  }

  /** Whatever was logged, rotated and truncated on the way, and whichever rotations failed: unless that has let a
      file other than the oldest one grow past what is read of one, the dashboard shows what it would show if it were
      computed directly from the last so many of the records ever logged. */
  lemma DashboardOfTheLog(print_: Printer, parse: Parser, read: TimeReader, same: NameEq, defs: seq<ServiceDef>,
                          states: seq<Files>, records: seq<EventRecord>, fates: seq<Fate>, now: Instant, later: Instant)
    returns (k: nat)
    requires SoundFormat(print_, parse) && LoggedRun(print_, states, records, fates) && now <= later
    requires OnlyOldestExceeds(Blocks(Last(states)))
    ensures k <= |records| && SameDashboard(parse, read, same, defs, Last(states), now, later, records[k..])
  {
    hide Gather, SameDashboard, Cycle;
    k := LoggedThenRead(print_, parse, states, records, fates);
    DashboardOfRead(parse, read, same, defs, Last(states), now, later, records[k..]);
  }

  /** If nothing fails and no line is longer than the threshold, that is so without further conditions, and the
      records it is about make up at least four thresholds of bytes or are all there have been. */
  lemma DashboardOfACleanRun(print_: Printer, parse: Parser, read: TimeReader, same: NameEq, defs: seq<ServiceDef>,
                             states: seq<Files>, records: seq<EventRecord>, fates: seq<Fate>, now: Instant, later: Instant)
    returns (k: nat)
    requires SoundFormat(print_, parse) && LoggedRun(print_, states, records, fates) && now <= later
    requires forall j :: 0 <= j < |records| ==> fates[j] == Clean && |Line(print_, records[j])| <= THRESHOLD
    ensures k <= |records| && SameDashboard(parse, read, same, defs, Last(states), now, later, records[k..])
    ensures |Lines(print_, records[k..])| >= Min(|Lines(print_, records)|, BACKUPS * THRESHOLD)
  {
    hide Gather, SameDashboard, Lines, Line, Cycle;
    k := CleanRunIsRead(print_, parse, states, records, fates);
    DashboardOfRead(parse, read, same, defs, Last(states), now, later, records[k..]);
  }

  /** And if appends were cut short as well: the dashboard is the one of the last so many of the records that were left
      intact, and possibly one whose line lacks nothing but its newline. */
  lemma DashboardOfAttempts(print_: Printer, parse: Parser, read: TimeReader, same: NameEq, defs: seq<ServiceDef>,
                            states: seq<Files>, records: seq<EventRecord>, written: seq<seq<Byte>>, fates: seq<Fate>,
                            now: Instant, later: Instant)
    returns (shown: seq<EventRecord>)
    requires SoundFormat(print_, parse) && Strict(print_, parse) && Attempts(print_, states, records, written, fates)
    requires now <= later && OnlyOldestExceeds(Blocks(Last(states)))
    ensures Suffix(shown, Survivors(print_, records, written) + Trailing(parse, Total(written)))
    ensures SameDashboard(parse, read, same, defs, Last(states), now, later, shown)
  {
    hide Gather, SameDashboard, Cycle, Fragments, Survivors, Trailing, Suffix;
    TornRunIsRead(print_, parse, states, records, written, fates);
    shown := Gather(Capped(parse), Blocks(Last(states)));
    DashboardOfRead(parse, read, same, defs, Last(states), now, later, shown);
  }
}
