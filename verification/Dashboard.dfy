/** Dashboard figures computed from service definitions and recorded events. */
module Dashboard {
  import opened Prelude
  import opened Utf16
  import opened Events
  import opened Uptime

  datatype StartupType = Boot | System | Automatic | AutomaticDelayed | Manual | Disabled | UnknownStartup

  datatype ServiceDef = ServiceDef(
    name: string, managed: bool, startup: StartupType, state: Option<ServiceState>)

  /** Case-insensitive ordinal comparison of two names, as the platform defines it. */
  type NameEq = (string, string) -> bool

  const DAY_MS := 86_400_000
  const HOUR_MS := 3_600_000
  const WINDOW_DAYS := 30
  const MAX_NAME_UNITS := 256

  // -- Grouping -------------------------------------------------------------

  function ManagedNames(defs: seq<ServiceDef>): seq<string> {
    if defs == [] then []
    else ManagedNames(defs[..|defs| - 1]) + if Last(defs).managed then [Last(defs).name] else []
  }

  function FirstMatch(same: NameEq, names: seq<string>, spelling: string): Option<string> {
    if names == [] then None
    else if same(spelling, names[0]) then Some(names[0])
    else FirstMatch(same, names[1..], spelling)
  }

  /** The managed name a recorded spelling stands for. */
  function Canonical(same: NameEq, names: seq<string>, spelling: string): Option<string> {
    if spelling in names then Some(spelling)
    else if spelling == "" || Units(spelling) > MAX_NAME_UNITS then None
    else FirstMatch(same, names, spelling)
  }

  function IsFor(same: NameEq, names: seq<string>, name: string): Timed -> bool {
    (e: Timed) => Canonical(same, names, e.rec.service) == Some(name)
  }

  function EventsOf(same: NameEq, names: seq<string>, events: seq<Timed>, name: string): seq<Timed> {
    Filter(IsFor(same, names, name), events)
  }

  type ServiceEvents = map<string, seq<Timed>>

  function EventsFor(grouped: ServiceEvents, name: string): seq<Timed> {
    if name in grouped then grouped[name] else []
  }

  /** `grouped` holds exactly the services with events, each with its own events in order. */
  ghost predicate IsGrouping(same: NameEq, names: seq<string>, events: seq<Timed>, grouped: ServiceEvents) {
    && (forall name :: EventsFor(grouped, name) == EventsOf(same, names, events, name))
    && (forall name :: name in grouped ==> grouped[name] != [])
  }

  function Regroup(grouped: ServiceEvents, canonical: Option<string>, e: Timed): ServiceEvents {
    match canonical
    case None => grouped
    case Some(name) => grouped[name := EventsFor(grouped, name) + [e]]
  }

  lemma RegroupStep(same: NameEq, names: seq<string>, events: seq<Timed>, grouped: ServiceEvents, e: Timed)
    requires IsGrouping(same, names, events, grouped)
    ensures IsGrouping(same, names, events + [e], Regroup(grouped, Canonical(same, names, e.rec.service), e))
  {
    var next := Regroup(grouped, Canonical(same, names, e.rec.service), e);
    forall name
      ensures EventsFor(next, name) == EventsOf(same, names, events + [e], name)
    {
      var p := IsFor(same, names, name);
      FilterAppend(p, events, [e]);
      assert Filter(p, [e]) == if p(e) then [e] else [];
      assert EventsOf(same, names, events, name) + [] == EventsOf(same, names, events, name);
    }
  }

  lemma NoEvents(same: NameEq, names: seq<string>, events: seq<Timed>)
    requires events == [] || names == []
    ensures IsGrouping(same, names, events, map[])
  {
    forall name
      ensures EventsOf(same, names, events, name) == []
    {
      FilterNone(IsFor(same, names, name), events);
    }
  }

  ghost predicate Remembered(same: NameEq, names: seq<string>, aliases: map<string, Option<string>>) {
    && (forall s :: s in aliases ==> aliases[s] == Canonical(same, names, s))
    && (forall s :: s in names ==> s in aliases)
  }

  lemma RememberStep(same: NameEq, names: seq<string>, aliases: map<string, Option<string>>, s: string)
    requires Remembered(same, names, aliases) && s !in aliases
    ensures Canonical(same, names, s) ==
            if s == "" || Units(s) > MAX_NAME_UNITS then None else FirstMatch(same, names, s)
    ensures Remembered(same, names, aliases[s := Canonical(same, names, s)])
  {
  }

  /** One pass; the answer for each spelling is looked up once and remembered. */
  method GroupServiceEvents(defs: seq<ServiceDef>, events: seq<Timed>, same: NameEq)
    returns (grouped: ServiceEvents)
    ensures IsGrouping(same, ManagedNames(defs), events, grouped)
  {
    hide IsGrouping;
    var names := ManagedNames(defs);
    grouped := map[];
    if names == [] {
      NoEvents(same, names, events);
      return;
    }
    var aliases: map<string, Option<string>> := map name | name in names :: Some(name);
    NoEvents(same, names, events[..0]);
    for i := 0 to |events|
      invariant Remembered(same, names, aliases)
      invariant IsGrouping(same, names, events[..i], grouped)
    {
      var e := events[i];
      var spelling := e.rec.service;
      if spelling !in aliases {
        var answer: Option<string> :=
          if spelling == "" || Units(spelling) > MAX_NAME_UNITS then None else FirstMatch(same, names, spelling);
        RememberStep(same, names, aliases, spelling);
        aliases := aliases[spelling := answer];
      }
      assert events[..i + 1] == events[..i] + [e];
      RegroupStep(same, names, events[..i], grouped, e);
      match aliases[spelling] {
        case None =>
        case Some(name) => grouped := grouped[name := EventsFor(grouped, name) + [e]];
      }
    }
    assert events[..|events|] == events;
  }

  // -- Timelines --------------------------------------------------------------

  datatype Timeline = Timeline(windowStart: Instant, intervals: seq<Interval>)

  /** The timeline of one service, unless it cannot be built, and whether coverage is unknown. */
  function TimelineOf(def: ServiceDef, events: seq<Timed>, windowStart: Instant, now: Instant): (Option<Timeline>,
                      bool) {
    if events == [] then (None, true)
    else
      var start := Max(events[0].ts, windowStart);
      if start >= now then (None, true)
      else
        var (intervals, uncertain) := UpIntervals(events, start, now, def.state);
        (Some(Timeline(start, intervals)), uncertain)
  }

  function Timelines(defs: seq<ServiceDef>, grouped: ServiceEvents, windowStart: Instant, now: Instant)
    : (seq<Timeline>, bool)
  {
    if defs == [] then ([], false)
    else
      var (out, unknown) := Timelines(defs[..|defs| - 1], grouped, windowStart, now);
      var def := Last(defs);
      if !def.managed then (out, unknown)
      else
        var (t, u) := TimelineOf(def, EventsFor(grouped, def.name), windowStart, now);
        (out + if t.Some? then [t.value] else [], unknown || u)
  }

  method BuildServiceTimelines(defs: seq<ServiceDef>, grouped: ServiceEvents, windowStart: Instant, now: Instant)
    returns (out: seq<Timeline>, unknown: bool)
    requires forall name :: name in grouped ==> grouped[name] != []
    ensures (out, unknown) == Timelines(defs, grouped, windowStart, now)
  {
    out, unknown := [], false;
    for i := 0 to |defs|
      invariant (out, unknown) == Timelines(defs[..i], grouped, windowStart, now)
    {
      assert defs[..i + 1][..i] == defs[..i];
      var def := defs[i];
      if def.managed {
        assert out + [] == out;
        if def.name !in grouped {
          unknown := true;
          continue;
        }
        var start := Max(grouped[def.name][0].ts, windowStart);
        if start >= now {
          unknown := true;
          continue;
        }
        var intervals, uncertain := BuildUpIntervals(grouped[def.name], start, now, def.state);
        unknown := unknown || uncertain;
        out := out + [Timeline(start, intervals)];
      }
    }
    assert defs[..|defs|] == defs;
  }

  // -- Percentages ----------------------------------------------------------------

  function Clamp(x: real, low: real, high: real): real {
    if x < low then low else if x > high then high else x
  }

  function Percent(up: nat, length: int): real {
    Clamp(up as real / Max(length, 1) as real * 100.0, 0.0, 100.0)
  }

  function Sum(xs: seq<real>): real {
    if xs == [] then 0.0 else Sum(xs[..|xs| - 1]) + Last(xs)
  }

  function Mean(xs: seq<real>): real
    requires xs != []
  {
    Sum(xs) / |xs| as real
  }

  predicate AllPercent(xs: seq<real>) { forall i :: 0 <= i < |xs| ==> 0.0 <= xs[i] <= 100.0 }

  lemma {:induction false} SumOfPercents(xs: seq<real>)
    requires AllPercent(xs)
    ensures 0.0 <= Sum(xs) <= |xs| as real * 100.0
  {
    if xs != [] {
      SumOfPercents(xs[..|xs| - 1]);
    }
  }

  lemma MeanOfPercents(xs: seq<real>)
    requires AllPercent(xs) && xs != []
    ensures 0.0 <= Mean(xs) <= 100.0
  {
    SumOfPercents(xs);
    QuotientBound(Sum(xs), |xs| as real);
  }

  lemma QuotientBound(total: real, n: real)
    requires n > 0.0 && 0.0 <= total <= n * 100.0
    ensures 0.0 <= total / n <= 100.0
  {
  }

  // -- Availability over the window -------------------------------------------------

  function Ratios(timelines: seq<Timeline>, now: Instant): seq<real> {
    if timelines == [] then []
    else
      var t := Last(timelines);
      Ratios(timelines[..|timelines| - 1], now) +
      [Percent(UpMs(t.intervals, t.windowStart, now), now - t.windowStart)]
  }

  function Earliest(timelines: seq<Timeline>): Option<Instant> {
    if timelines == [] then None
    else
      match Earliest(timelines[..|timelines| - 1])
      case None => Some(Last(timelines).windowStart)
      case Some(prev) => Some(Min(prev, Last(timelines).windowStart))
  }

  /** Whole days, rounded up, that `span` milliseconds touch; between 1 and the full window. */
  function WindowDays(span: int): nat {
    Max(1, Min((span / 1000 + 86_399) / 86_400, WINDOW_DAYS))
  }

  function Availability(timelines: seq<Timeline>, windowStart: Instant, now: Instant): (real, nat) {
    var ratios := Ratios(timelines, now);
    var pct := if ratios == [] then 100.0 else Mean(ratios);
    match Earliest(timelines)
    case None => (pct, WINDOW_DAYS)
    case Some(ts) => (pct, WindowDays(now - Max(ts, windowStart)))
  }

  method ComputeAvailability(timelines: seq<Timeline>, windowStart: Instant, now: Instant)
    returns (pct: real, days: nat)
    ensures (pct, days) == Availability(timelines, windowStart, now)
    ensures 0.0 <= pct <= 100.0 && 1 <= days <= WINDOW_DAYS
  {
    var ratios: seq<real>, earliest: Option<Instant> := [], None;
    for i := 0 to |timelines|
      invariant ratios == Ratios(timelines[..i], now) && |ratios| == i
      invariant earliest == Earliest(timelines[..i])
      invariant AllPercent(ratios)
    {
      assert timelines[..i + 1][..i] == timelines[..i];
      var t := timelines[i];
      var up := UpMsInWindow(t.intervals, t.windowStart, now);
      ratios := ratios + [Percent(up, now - t.windowStart)];
      earliest := Some(if earliest.None? then t.windowStart else Min(earliest.value, t.windowStart));
    }
    assert timelines[..|timelines|] == timelines;
    if ratios != [] {
      MeanOfPercents(ratios);
    }
    pct := if ratios == [] then 100.0 else Mean(ratios);
    days := if earliest.None? then WINDOW_DAYS else WindowDays(now - Max(earliest.value, windowStart));
  }

  // -- Daily buckets ---------------------------------------------------------------------

  /** Midnight UTC of the day `now` is in. */
  function Midnight(now: Instant): Instant { now - now % DAY_MS }

  /** Bucket `k`, oldest first: the day `WINDOW_DAYS - 1 - k` days ago, the last one cut at `now`. */
  function BucketStart(now: Instant, k: nat): Instant { Midnight(now) - (WINDOW_DAYS - 1 - k) * DAY_MS }

  function BucketEnd(now: Instant, k: nat): Instant { Min(BucketStart(now, k) + DAY_MS, now) }

  function DayRatios(timelines: seq<Timeline>, from: Instant, to: Instant): seq<real> {
    if timelines == [] then []
    else
      var t := Last(timelines);
      var rest := DayRatios(timelines[..|timelines| - 1], from, to);
      if t.windowStart >= to then rest
      else
        var start := Max(from, t.windowStart);
        rest + [Percent(UpMs(t.intervals, start, to), to - start)]
  }

  function Sparkline(timelines: seq<Timeline>, now: Instant, k: nat): seq<real> {
    if k == 0 then []
    else
      var out := Sparkline(timelines, now, k - 1);
      var ratios := DayRatios(timelines, BucketStart(now, k - 1), BucketEnd(now, k - 1));
      out + [if ratios != [] then Mean(ratios) else if out != [] then Last(out) else 0.0]
  }

  /** One day: the services whose history reaches into it. */
  method ComputeDayRatios(timelines: seq<Timeline>, dayStart: Instant, dayEnd: Instant) returns (ratios: seq<real>)
    ensures ratios == DayRatios(timelines, dayStart, dayEnd) && AllPercent(ratios)
  {
    ratios := [];
    for j := 0 to |timelines|
      invariant ratios == DayRatios(timelines[..j], dayStart, dayEnd)
      invariant AllPercent(ratios)
    {
      assert timelines[..j + 1][..j] == timelines[..j];
      var t := timelines[j];
      if t.windowStart >= dayEnd { continue; }
      var start := Max(dayStart, t.windowStart);
      var up := UpMsInWindow(t.intervals, start, dayEnd);
      ratios := ratios + [Percent(up, dayEnd - start)];
    }
    assert timelines[..|timelines|] == timelines;
  }

  method ComputeDailySparkline(timelines: seq<Timeline>, now: Instant) returns (out: seq<real>)
    ensures out == Sparkline(timelines, now, WINDOW_DAYS)
    ensures |out| == WINDOW_DAYS && AllPercent(out)
  {
    hide DayRatios, Mean;
    out := [];
    var today := Midnight(now);
    for i := WINDOW_DAYS downto 0
      invariant out == Sparkline(timelines, now, WINDOW_DAYS - i)
      invariant |out| == WINDOW_DAYS - i && AllPercent(out)
    {
      var dayStart := today - i * DAY_MS;
      var ratios := ComputeDayRatios(timelines, dayStart, Min(dayStart + DAY_MS, now));
      if ratios != [] {
        MeanOfPercents(ratios);
      }
      out := out + [if ratios != [] then Mean(ratios) else if out != [] then Last(out) else 0.0];
    }
  }

  // -- Counts -----------------------------------------------------------------------

  /** Stopped, and the last thing recorded is a recent child exit with a non-zero code. */
  predicate ClassifyFailed(read: TimeReader, state: Option<ServiceState>, last: Option<EventRecord>, now: Instant) {
    && state == Some(ServiceState.Stopped)
    && last.Some?
    && last.value.event.ChildExited?
    && last.value.exitCode !in {None, Some(0)}
    && var ts := read(last.value.ts);
       ts.Some? && ts.value <= now && now - ts.value <= 24 * HOUR_MS
  }

  function RecoveryWait(delay: Option<int>): int {
    match delay
    case None => 5 * 60 * 1000
    case Some(ms) => Min(ms, 0xFFFF_FFFF) + 30_000
  }

  /** Running or starting, and the last thing recorded is a throttle whose wait has not run out. */
  predicate ClassifyAutoRecovering(read: TimeReader, state: Option<ServiceState>, last: Option<EventRecord>,
                                   now: Instant) {
    && state in {Some(Running), Some(StartPending)}
    && last.Some?
    && last.value.event.Throttled?
    && var ts := read(last.value.ts);
       ts.Some? && ts.value <= now && now - ts.value <= RecoveryWait(last.value.delayMs)
  }

  datatype Counts = Counts(total: nat, running: nat, stopped: nat, manualStart: nat, failed: nat, autoRecovering: nat)

  function LastRecord(events: seq<Timed>): Option<EventRecord> {
    if events == [] then None else Some(Last(events).rec)
  }

  function One(b: bool): nat { if b then 1 else 0 }

  function CountOne(read: TimeReader, c: Counts, def: ServiceDef, last: Option<EventRecord>, now: Instant): Counts {
    Counts(
      c.total + 1,
      c.running + One(def.state == Some(Running)),
      c.stopped + One(def.state == Some(ServiceState.Stopped)),
      c.manualStart + One(def.state == Some(ServiceState.Stopped) && def.startup == Manual),
      c.failed + One(ClassifyFailed(read, def.state, last, now)),
      c.autoRecovering + One(ClassifyAutoRecovering(read, def.state, last, now)))
  }

  function CountAll(read: TimeReader, defs: seq<ServiceDef>, grouped: ServiceEvents, now: Instant): Counts {
    if defs == [] then Counts(0, 0, 0, 0, 0, 0)
    else
      var c := CountAll(read, defs[..|defs| - 1], grouped, now);
      var def := Last(defs);
      if def.managed then CountOne(read, c, def, LastRecord(EventsFor(grouped, def.name)), now) else c
  }

  method ComputeCounts(read: TimeReader, defs: seq<ServiceDef>, grouped: ServiceEvents, now: Instant)
    returns (c: Counts)
    ensures c == CountAll(read, defs, grouped, now)
    ensures c.manualStart <= c.stopped && c.failed <= c.stopped && c.running + c.stopped <= c.total
  {
    c := Counts(0, 0, 0, 0, 0, 0);
    for i := 0 to |defs|
      invariant c == CountAll(read, defs[..i], grouped, now)
      invariant c.manualStart <= c.stopped && c.failed <= c.stopped && c.running + c.stopped <= c.total
    {
      assert defs[..i + 1][..i] == defs[..i];
      var def := defs[i];
      if !def.managed { continue; }
      c := c.(total := c.total + 1);
      match def.state {
        case Some(Running) => c := c.(running := c.running + 1);
        case Some(Stopped) =>
          c := c.(stopped := c.stopped + 1);
          if def.startup == Manual { c := c.(manualStart := c.manualStart + 1); }
        case _ =>
      }
      var last := LastRecord(EventsFor(grouped, def.name));
      if ClassifyFailed(read, def.state, last, now) { c := c.(failed := c.failed + 1); }
      if ClassifyAutoRecovering(read, def.state, last, now) { c := c.(autoRecovering := c.autoRecovering + 1); }
    }
    assert defs[..|defs|] == defs;
  }

  // -- All figures ---------------------------------------------------------------------

  datatype DashboardMetrics = DashboardMetrics(
    counts: Counts, availabilityPct: real, windowDays: nat, daily: seq<real>, unknown: bool)

  function TimedOf(items: seq<Item>): seq<Timed> {
    seq(|items|, i requires 0 <= i < |items| => Timed(items[i].ts, items[i].rec))
  }

  /** Readable records not after `now`, in chronological order. */
  function Observed(read: TimeReader, records: seq<EventRecord>, now: Instant): seq<Timed> {
    TimedOf(Sort(Filter((x: Item) => x.ts <= now, Index(read, records))))
  }

  function MetricsOf(read: TimeReader, defs: seq<ServiceDef>, grouped: ServiceEvents, now: Instant): DashboardMetrics {
    var counts := CountAll(read, defs, grouped, now);
    var windowStart := now - WINDOW_DAYS * DAY_MS;
    var (timelines, unknown) := Timelines(defs, grouped, windowStart, now);
    var (pct, days) := Availability(timelines, windowStart, now);
    var unknown' := unknown || counts.total == 0;
    DashboardMetrics(counts, pct, days, if unknown' then [] else Sparkline(timelines, now, WINDOW_DAYS), unknown')
  }

  method ComputeMetrics(read: TimeReader, same: NameEq, defs: seq<ServiceDef>, records: seq<EventRecord>, now: Instant)
    returns (m: DashboardMetrics, ghost grouped: ServiceEvents)
    ensures IsGrouping(same, ManagedNames(defs), Observed(read, records, now), grouped)
    ensures m == MetricsOf(read, defs, grouped, now)
    ensures 0.0 <= m.availabilityPct <= 100.0 && 1 <= m.windowDays <= WINDOW_DAYS
    ensures AllPercent(m.daily) && |m.daily| == if m.unknown then 0 else WINDOW_DAYS
  {
    var events := Observed(read, records, now);
    var groups := GroupServiceEvents(defs, events, same);
    grouped := groups;
    var counts := ComputeCounts(read, defs, groups, now);
    var windowStart := now - WINDOW_DAYS * DAY_MS;
    var timelines, unknown := BuildServiceTimelines(defs, groups, windowStart, now);
    var pct, days := ComputeAvailability(timelines, windowStart, now);
    unknown := unknown || counts.total == 0;
    var daily: seq<real> := [];
    if !unknown {
      daily := ComputeDailySparkline(timelines, now);
    }
    m := DashboardMetrics(counts, pct, days, daily, unknown);
  }
}
