/** What each figure of the dashboard says, told from the records, the timelines and the instants they cover. */
module DashboardFigures {
  import opened Prelude
  import Utf16
  import opened Events
  import opened Uptime
  import opened Dashboard
  import opened DashboardLaws

  // -- Up time is counted instants ------------------------------------------------------------------------

  /** The milliseconds of `[from, to)` some interval covers, counted one by one. */
  function CoveredMs(intervals: seq<Interval>, from: Instant, to: Instant): nat
    decreases Max(0, to - from)
  {
    if to <= from then 0 else CoveredMs(intervals, from, to - 1) + if Covered(intervals, to - 1) then 1 else 0
  }

  lemma {:induction false} OneMillisecond(intervals: seq<Interval>, start: Instant, end: Instant, t: Instant)
    requires WellFormed(intervals, start, end)
    ensures UpMs(intervals, t, t + 1) == if Covered(intervals, t) then 1 else 0
  {
    if intervals != [] {
      var rest, x := intervals[..|intervals| - 1], Last(intervals);
      assert intervals == rest + [x];
      OneMillisecond(rest, start, x.from, t);
      CoveredAppend(rest, x, t);
    }
  }

  /** Of well-formed intervals, the up time in a window is the number of milliseconds they cover. */
  lemma {:induction false} UpMsCounts(intervals: seq<Interval>, start: Instant, end: Instant, from: Instant, to: Instant)
    requires WellFormed(intervals, start, end)
    ensures UpMs(intervals, from, to) == CoveredMs(intervals, from, to)
    decreases Max(0, to - from)
  {
    if to <= from {
      UpMsEmptyWindow(intervals, from, to);
    } else {
      UpMsCounts(intervals, start, end, from, to - 1);
      UpMsSplit(intervals, from, to - 1, to);
      OneMillisecond(intervals, start, end, to - 1);
    }
  }

  // -- Means ------------------------------------------------------------------------------------------------

  /** A mean is the sum shared out: of one value it is that value, each further one enters with its weight, and it
      lies between the smallest and the largest. */
  lemma MeanShares(xs: seq<real>, x: real)
    ensures Mean([x]) == x
    ensures xs != [] ==> Mean(xs + [x]) * (|xs| + 1) as real == Mean(xs) * |xs| as real + x
  {
    var one := [x];
    assert one[..0] == [] && Sum(one) == x;
    assert (xs + [x])[..|xs|] == xs;
    hide Sum;
    if xs != [] {
      TimesQuotient(Sum(xs + [x]), (|xs| + 1) as real);
      TimesQuotient(Sum(xs), |xs| as real);
    }
  }

  lemma TimesQuotient(a: real, n: real)
    requires n > 0.0
    ensures a / n * n == a
  {
  }

  lemma {:induction false} MeanOfEqual(xs: seq<real>, x: real)
    requires xs != [] && forall i :: 0 <= i < |xs| ==> xs[i] == x
    ensures Mean(xs) == x
  {
    hide Mean;
    var rest := xs[..|xs| - 1];
    assert xs == rest + [x];
    MeanShares(rest, x);
    if rest == [] {
      assert xs == [x];
    } else {
      MeanOfEqual(rest, x);
      Weighted(Mean(xs), x, |rest| as real);
    }
  }

  lemma Weighted(m: real, x: real, n: real)
    requires n > 0.0 && m * (n + 1.0) == x * n + x
    ensures m == x
  {
    assert (m - x) * (n + 1.0) == 0.0;
  }

  // -- Availability -------------------------------------------------------------------------------------------

  /** The percentage of its own window a service has been up. */
  function Share(t: Timeline, now: Instant): real {
    if now <= t.windowStart then 0.0
    else CoveredMs(t.intervals, t.windowStart, now) as real / (now - t.windowStart) as real * 100.0
  }

  function Shares(timelines: seq<Timeline>, now: Instant): seq<real> {
    seq(|timelines|, i requires 0 <= i < |timelines| => Share(timelines[i], now))
  }

  ghost predicate AllSound(timelines: seq<Timeline>, windowStart: Instant, now: Instant) {
    forall i :: 0 <= i < |timelines| ==> Sound(timelines[i], windowStart, now)
  }

  lemma {:induction false} RatiosAreShares(timelines: seq<Timeline>, windowStart: Instant, now: Instant)
    requires AllSound(timelines, windowStart, now)
    ensures Ratios(timelines, now) == Shares(timelines, now)
  {
    if timelines != [] {
      var rest, t := timelines[..|timelines| - 1], Last(timelines);
      RatiosAreShares(rest, windowStart, now);
      RatioIsShare(t, windowStart, now);
      hide Percent, UpMs, Share, Sound;
      assert Ratios(timelines, now) == Ratios(rest, now) + [Share(t, now)];
      hide Ratios;
      SharesMore(timelines, now);
    }
  }

  lemma RatioIsShare(t: Timeline, windowStart: Instant, now: Instant)
    requires Sound(t, windowStart, now)
    ensures Percent(UpMs(t.intervals, t.windowStart, now), now - t.windowStart) == Share(t, now)
  {
    PercentIsExact(t, windowStart, now, t.windowStart, now);
    UpMsCounts(t.intervals, t.windowStart, now, t.windowStart, now);
    hide Percent, UpMs, CoveredMs;
  }

  lemma SharesMore(timelines: seq<Timeline>, now: Instant)
    requires timelines != []
    ensures Shares(timelines, now) == Shares(timelines[..|timelines| - 1], now) + [Share(Last(timelines), now)]
  {
    hide Share;
  }

  /** The availability is the mean of the services' own shares, each of its own window; with no service it is 100. */
  lemma AvailabilityIsMean(timelines: seq<Timeline>, windowStart: Instant, now: Instant)
    requires AllSound(timelines, windowStart, now)
    ensures Availability(timelines, windowStart, now).0 ==
            if timelines == [] then 100.0
            else Mean(Shares(timelines, now))
  {
    RatiosAreShares(timelines, windowStart, now);
    hide Ratios, Mean, Share, Earliest, WindowDays;
  }

  /** A service that has been up over its whole window counts 100, one that has never been up counts 0. */
  lemma FullAndEmptyShare(t: Timeline, windowStart: Instant, now: Instant)
    requires Sound(t, windowStart, now)
    ensures t.intervals == [Interval(t.windowStart, now)] ==> Share(t, now) == 100.0
    ensures t.intervals == [] ==> Share(t, now) == 0.0
  {
    UpMsCounts(t.intervals, t.windowStart, now, t.windowStart, now);
    if t.intervals == [Interval(t.windowStart, now)] {
      assert t.intervals[..0] == [];
      assert UpMs(t.intervals, t.windowStart, now) == now - t.windowStart;
      WholeShare((now - t.windowStart) as real);
    }
  }

  lemma {:induction false} EarliestIs(timelines: seq<Timeline>)
    ensures Earliest(timelines).None? <==> timelines == []
    ensures timelines != [] ==>
              && (forall i :: 0 <= i < |timelines| ==> Earliest(timelines).value <= timelines[i].windowStart)
              && exists i :: 0 <= i < |timelines| && timelines[i].windowStart == Earliest(timelines).value
  {
    if timelines != [] {
      var rest := timelines[..|timelines| - 1];
      EarliestIs(rest);
      if rest != [] {
        var i :| 0 <= i < |rest| && rest[i].windowStart == Earliest(rest).value;
        assert timelines[i] == rest[i];
      }
    }
  }

  /** The days it covers: the fewest whole days, of 86,400 seconds, that reach back to the earliest window, part
      seconds aside; one at least, and thirty without any service. */
  lemma DaysCovered(timelines: seq<Timeline>, windowStart: Instant, now: Instant, earliest: Instant)
    requires AllSound(timelines, windowStart, now) && now - windowStart == WINDOW_DAYS * DAY_MS
    requires timelines != [] ==>
               && (forall i :: 0 <= i < |timelines| ==> earliest <= timelines[i].windowStart)
               && exists i :: 0 <= i < |timelines| && timelines[i].windowStart == earliest
    ensures var days := Availability(timelines, windowStart, now).1;
            && (timelines == [] ==> days == 30)
            && (timelines != [] ==>
                  var seconds := (now - earliest) / 1000;
                  1 <= days <= 30 && seconds <= days * 86_400 && (days > 1 ==> (days - 1) * 86_400 < seconds))
  {
    EarliestIs(timelines);
    hide Ratios, Mean, Earliest;
    if timelines != [] { assert Earliest(timelines) == Some(earliest); }
  }

  // -- Timelines and what is known ------------------------------------------------------------------------------

  /** The history of a service is usable: something is recorded before now, and its end is not ambiguous. */
  predicate Usable(def: ServiceDef, events: seq<Timed>, now: Instant) {
    && events != [] && events[0].ts < now
    && (Last(events).rec.event in {EventKind.Started, Restarted} ==>
          def.state in {Some(ServiceState.Running), Some(Paused), Some(PausePending), Some(ContinuePending),
                        Some(ServiceState.StopPending)})
  }

  /** A timeline starts with the first record or the window, whichever is later, and coverage is unknown exactly if
      the history is not usable. */
  lemma TimelineKnown(def: ServiceDef, events: seq<Timed>, windowStart: Instant, now: Instant)
    requires Chronological(events) && windowStart < now && forall i :: 0 <= i < |events| ==> events[i].ts <= now
    ensures var (t, unknown) := TimelineOf(def, events, windowStart, now);
            && (unknown <==> !Usable(def, events, now))
            && (t.Some? <==> events != [] && events[0].ts < now)
            && (t.Some? ==> t.value.windowStart == Max(events[0].ts, windowStart))
            && (t.Some? ==> forall at :: t.value.windowStart <= at < now ==>
                  (Covered(t.value.intervals, at) <==>
                   UpAt(events, t.value.windowStart, at)
                   && (HostLive(def.state) || ClosedAfter(events, t.value.windowStart, at))))
  {
    if events != [] && events[0].ts < now {
      IntervalSemantics(events, Max(events[0].ts, windowStart), now, def.state);
    }
    hide UpIntervals, Covered, UpAt, ClosedAfter;
  }

  /** The managed services whose history has begun, in order, each with its timeline; and coverage is unknown exactly
      if it is for one of the managed services. */
  lemma {:induction false} TimelinesAre(defs: seq<ServiceDef>, grouped: ServiceEvents, windowStart: Instant, now: Instant)
    ensures var (out, unknown) := Timelines(defs, grouped, windowStart, now);
            && (unknown <==>
                exists i :: 0 <= i < |defs| && defs[i].managed
                            && TimelineOf(defs[i], EventsFor(grouped, defs[i].name), windowStart, now).1)
            && out == Started(defs, grouped, windowStart, now)
  {
    hide TimelineOf;
    if defs != [] {
      var rest := defs[..|defs| - 1];
      TimelinesAre(rest, grouped, windowStart, now);
      var n := |rest|;
      if i :| 0 <= i < n && rest[i].managed && TimelineOf(rest[i], EventsFor(grouped, rest[i].name), windowStart, now).1 {
        assert defs[i] == rest[i];
      }
      assert Started(rest, grouped, windowStart, now) + [] == Started(rest, grouped, windowStart, now);
    }
  }

  function Started(defs: seq<ServiceDef>, grouped: ServiceEvents, windowStart: Instant, now: Instant): seq<Timeline> {
    if defs == [] then []
    else
      var t := TimelineOf(Last(defs), EventsFor(grouped, Last(defs).name), windowStart, now).0;
      Started(defs[..|defs| - 1], grouped, windowStart, now) + if Last(defs).managed && t.Some? then [t.value] else []
  }

  // -- Days ---------------------------------------------------------------------------------------------------------

  /** The thirty buckets are the UTC days up to now: each begins at a midnight and ends where the next begins, and the
      last one, the day `now` is in, ends now. */
  lemma BucketsAreDays(now: Instant, k: nat)
    requires k < WINDOW_DAYS
    ensures BucketStart(now, k) % DAY_MS == 0
    ensures k + 1 < WINDOW_DAYS ==> BucketEnd(now, k) == BucketStart(now, k + 1) == BucketStart(now, k) + DAY_MS
    ensures k + 1 == WINDOW_DAYS ==> BucketStart(now, k) <= now < BucketStart(now, k) + DAY_MS && BucketEnd(now, k) == now
  {
    assert (now - now % DAY_MS) % DAY_MS == 0;
    assert BucketStart(now, k) == (now / DAY_MS - (WINDOW_DAYS - 1 - k)) * DAY_MS;
    Multiple(now / DAY_MS - (WINDOW_DAYS - 1 - k));
  }

  lemma Multiple(n: int)
    ensures n * DAY_MS % DAY_MS == 0
  {
  }

  /** What a service counts for on a day: the share of its part of that day in which it was up. */
  lemma BucketShare(t: Timeline, windowStart: Instant, now: Instant, k: nat)
    requires Sound(t, windowStart, now)
    requires Max(BucketStart(now, k), t.windowStart) < BucketEnd(now, k)
    ensures var from, to := Max(BucketStart(now, k), t.windowStart), BucketEnd(now, k);
            BucketRatio(t, now, k) == CoveredMs(t.intervals, from, to) as real / (to - from) as real * 100.0
  {
    var from, to := Max(BucketStart(now, k), t.windowStart), BucketEnd(now, k);
    PercentIsExact(t, windowStart, now, from, to);
    UpMsCounts(t.intervals, t.windowStart, now, from, to);
    hide Percent, UpMs, CoveredMs, BucketStart, BucketEnd;
  }

  // -- Failed and recovering services ---------------------------------------------------------------------------------

  /** A stopped service counts as failed from the moment its last record, an exit with a code other than 0, is made and
      for 24 hours; nothing else ever does. */
  lemma FailedForADay(read: TimeReader, state: Option<ServiceState>, last: Option<EventRecord>, now: Instant)
    ensures state != Some(ServiceState.Stopped) || last.None? ==> !ClassifyFailed(read, state, last, now)
    ensures last.Some? && !last.value.event.ChildExited? ==> !ClassifyFailed(read, state, last, now)
    ensures last.Some? && last.value.exitCode in {None, Some(0)} ==> !ClassifyFailed(read, state, last, now)
    ensures last.Some? && read(last.value.ts).None? ==> !ClassifyFailed(read, state, last, now)
    ensures forall record, at, code ::
              && state == Some(ServiceState.Stopped) && last == Some(record) && record.event.ChildExited?
              && record.exitCode == Some(code) && code != 0 && read(record.ts) == Some(at)
              ==> (ClassifyFailed(read, state, last, now) <==> at <= now <= at + 86_400_000)
  {
  }

  /** A running or starting service counts as recovering from the moment its last record, a throttled restart, is made
      until half a minute after the recorded delay, cut at 2^32 - 1 milliseconds, or for five minutes if there is none. */
  lemma RecoveringUntilDue(read: TimeReader, state: Option<ServiceState>, last: Option<EventRecord>, now: Instant)
    ensures (state !in {Some(ServiceState.Running), Some(ServiceState.StartPending)} || last.None?) ==>
              !ClassifyAutoRecovering(read, state, last, now)
    ensures last.Some? && (!last.value.event.Throttled? || read(last.value.ts).None?) ==>
              !ClassifyAutoRecovering(read, state, last, now)
    ensures forall record, at ::
              && state in {Some(ServiceState.Running), Some(ServiceState.StartPending)} && last == Some(record)
              && record.event.Throttled? && read(record.ts) == Some(at)
              ==> (ClassifyAutoRecovering(read, state, last, now) <==>
                   && at <= now && (record.delayMs.None? ==> now <= at + 300_000)
                   && (record.delayMs.Some? ==> now <= at + record.delayMs.value + 30_000 && now <= at + 4_294_967_295 + 30_000))
  {
  }

  // -- What is observed --------------------------------------------------------------------------------------------------

  lemma {:induction false} IndexIs(read: TimeReader, records: seq<EventRecord>, x: Item)
    ensures x in Index(read, records) <==>
              x.order < |records| && records[x.order] == x.rec && read(x.rec.ts) == Some(x.ts)
  {
    if records != [] { IndexIs(read, records[..|records| - 1], x); }
  }

  /** Exactly the readable records up to now are looked at, ordered by instant and, at one instant, as recorded. */
  lemma ObservedIs(read: TimeReader, records: seq<EventRecord>, now: Instant) returns (items: seq<Item>)
    ensures Observed(read, records, now) == TimedOf(items) && Sorted(items)
    ensures forall x :: x in items <==>
              x.order < |records| && records[x.order] == x.rec && read(x.rec.ts) == Some(x.ts) && x.ts <= now
  {
    var index := Index(read, records);
    var seen := Filter((x: Item) => x.ts <= now, index);
    items := Sort(seen);
    IndexNumbered(read, records);
    FilterNumbered((x: Item) => x.ts <= now, index, |records|);
    SortSorted(seen);
    SortKeeps(seen);
    forall x
      ensures x in items <==>
                x.order < |records| && records[x.order] == x.rec && read(x.rec.ts) == Some(x.ts) && x.ts <= now
    {
      IndexIs(read, records, x);
      FilterMember((x: Item) => x.ts <= now, index, x);
    }
  }

  lemma {:induction false} FilterNumbered(p: Item -> bool, items: seq<Item>, bound: nat)
    requires Numbered(items, bound)
    ensures Numbered(Filter(p, items), bound)
  {
    if items != [] {
      var rest := items[..|items| - 1];
      FilterNumbered(p, rest, Last(items).order);
    }
  }

  /** The managed name a spelling stands for: itself if it is one, else the first one it equals, if it has 1 to 256 units. */
  lemma {:induction false} CanonicalIs(same: NameEq, names: seq<string>, spelling: string, name: string)
    ensures Canonical(same, names, spelling) == Some(name) <==>
              if spelling in names then name == spelling
              else spelling != "" && Utf16.Units(spelling) <= 256
                   && exists i :: 0 <= i < |names| && names[i] == name && same(spelling, name)
                                  && forall j :: 0 <= j < i ==> !same(spelling, names[j])
  {
    FirstMatchIs(same, names, spelling, name);
  }

  lemma {:induction false} FirstMatchIs(same: NameEq, names: seq<string>, spelling: string, name: string)
    ensures FirstMatch(same, names, spelling) == Some(name) <==>
              exists i :: 0 <= i < |names| && names[i] == name && same(spelling, name)
                          && forall j :: 0 <= j < i ==> !same(spelling, names[j])
  {
    if names != [] && !same(spelling, names[0]) {
      var rest := names[1..];
      FirstMatchIs(same, rest, spelling, name);
      if i :| 0 <= i < |rest| && rest[i] == name && same(spelling, name) && forall j :: 0 <= j < i ==> !same(spelling, rest[j]) {
        assert names[i + 1] == name;
        forall j | 0 <= j < i + 1
          ensures !same(spelling, names[j])
        {
          if j > 0 { assert names[j] == rest[j - 1]; }
        }
      }
      if i :| 0 <= i < |names| && names[i] == name && same(spelling, name) && forall j :: 0 <= j < i ==> !same(spelling, names[j]) {
        assert rest[i - 1] == name;
        forall j | 0 <= j < i - 1
          ensures !same(spelling, rest[j])
        {
          assert rest[j] == names[j + 1];
        }
      }
    }
  }

  // -- All figures ---------------------------------------------------------------------------------------------------------

  /** Coverage is unknown exactly if there is no managed service or one without usable history; then there is no chart.
      The figures are those of the thirty days up to now. */
  lemma FiguresOfTheFleet(read: TimeReader, same: NameEq, defs: seq<ServiceDef>, records: seq<EventRecord>, now: Instant,
                          grouped: ServiceEvents)
    requires IsGrouping(same, ManagedNames(defs), Observed(read, records, now), grouped)
    ensures var m := MetricsOf(read, defs, grouped, now);
            var window := now - 30 * 86_400_000;
            var timelines := Started(defs, grouped, window, now);
            && AllSound(timelines, window, now)
            && (m.unknown <==>
                || (forall i :: 0 <= i < |defs| ==> !defs[i].managed)
                || exists i :: 0 <= i < |defs| && defs[i].managed && !Usable(defs[i], EventsFor(grouped, defs[i].name), now))
            && m.counts == CountAll(read, defs, grouped, now)
            && m.availabilityPct == (if timelines == [] then 100.0 else Mean(Shares(timelines, now)))
            && m.windowDays == Availability(timelines, window, now).1
            && m.daily == if m.unknown then [] else Sparkline(timelines, now, 30)
  {
    var window := now - WINDOW_DAYS * DAY_MS;
    TimelinesAre(defs, grouped, window, now);
    forall i | 0 <= i < |Started(defs, grouped, window, now)|
      ensures Sound(Started(defs, grouped, window, now)[i], window, now)
    {
      DashboardTimelinesSound(read, same, defs, records, now, grouped, Started(defs, grouped, window, now)[i]);
    }
    AvailabilityIsMean(Started(defs, grouped, window, now), window, now);
    TotalIsManaged(read, defs, grouped, now);
    hide Timelines, Started, Availability, Sparkline, CountAll, TimelineOf, Usable, IsGrouping, Observed, Mean, Shares;
    forall i | 0 <= i < |defs|
      ensures TimelineOf(defs[i], EventsFor(grouped, defs[i].name), window, now).1 <==>
              !Usable(defs[i], EventsFor(grouped, defs[i].name), now)
    {
      OwnEvents(read, same, defs, records, now, grouped, defs[i].name);
      TimelineKnown(defs[i], EventsFor(grouped, defs[i].name), window, now);
    }
  }

  lemma OwnEvents(read: TimeReader, same: NameEq, defs: seq<ServiceDef>, records: seq<EventRecord>, now: Instant,
                  grouped: ServiceEvents, name: string)
    requires IsGrouping(same, ManagedNames(defs), Observed(read, records, now), grouped)
    ensures Chronological(EventsFor(grouped, name))
    ensures forall i :: 0 <= i < |EventsFor(grouped, name)| ==> EventsFor(grouped, name)[i].ts <= now
  {
    EventsInOrder(read, same, ManagedNames(defs), records, now, name);
  }

  lemma {:induction false} TotalIsManaged(read: TimeReader, defs: seq<ServiceDef>, grouped: ServiceEvents, now: Instant)
    ensures CountAll(read, defs, grouped, now).total == 0 <==> forall i :: 0 <= i < |defs| ==> !defs[i].managed
  {
    if defs != [] { TotalIsManaged(read, defs[..|defs| - 1], grouped, now); }
  }
}
