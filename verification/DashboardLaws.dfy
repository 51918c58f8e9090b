/** What the dashboard figures mean: truncating history to the window changes none of them, and the
    daily buckets share out exactly the recorded up time. */
module DashboardLaws {
  import opened Prelude
  import opened Events
  import opened HistoryWindow
  import opened Uptime
  import opened Dashboard

  // -- Truncation is lossless -----------------------------------------------------

  /** Two event lists of one service that agree from `since` on and in their last event before it. */
  ghost predicate SameView(a: seq<Timed>, b: seq<Timed>, older: seq<Timed>, older': seq<Timed>, recent: seq<Timed>,
                           since: Instant) {
    && a == older + recent && b == older' + recent
    && (forall e :: e in older || e in older' ==> e.ts < since)
    && (older == [] <==> older' == [])
    && (older != [] ==> Last(older) == Last(older'))
  }

  /** Events before the window leave only the boundary state behind. */
  lemma {:induction false} OlderEvents(older: seq<Timed>, start: Instant)
    requires forall e :: e in older ==> e.ts <= start
    ensures ScanEvents(Scan([], None), older, start) ==
            Scan([], if older != [] && IsUp(Last(older).rec.event) then Some(start) else None)
  {
    if older != [] {
      OlderEvents(older[..|older| - 1], start);
    }
  }

  lemma {:induction false} ScanAppend(s: Scan, a: seq<Timed>, b: seq<Timed>, start: Instant)
    ensures ScanEvents(s, a + b, start) == ScanEvents(ScanEvents(s, a, start), b, start)
  {
    if b == [] {
      assert a + b == a;
    } else {
      assert (a + b)[..|a + b| - 1] == a + b[..|b| - 1];
      ScanAppend(s, a, b[..|b| - 1], start);
    }
  }

  lemma SameTimeline(def: ServiceDef, a: seq<Timed>, b: seq<Timed>, older: seq<Timed>, older': seq<Timed>,
                     recent: seq<Timed>, since: Instant, now: Instant)
    requires SameView(a, b, older, older', recent, since)
    ensures TimelineOf(def, a, since, now) == TimelineOf(def, b, since, now)
    ensures LastRecord(a) == LastRecord(b)
  {
    if older == [] {
      assert a == recent && b == recent;
    } else {
      assert a[0] == older[0] && b[0] == older'[0];
      assert a[0] in older && b[0] in older';
      OlderEvents(older, since);
      OlderEvents(older', since);
      ScanAppend(Scan([], None), older, recent, since);
      ScanAppend(Scan([], None), older', recent, since);
    }
  }

  // ... the window keeps such a view for every service

  function UpTo(now: Instant): Item -> bool { (x: Item) => x.ts <= now }

  function ItemIsFor(same: NameEq, names: seq<string>, name: string): Item -> bool {
    (x: Item) => Canonical(same, names, x.rec.service) == Some(name)
  }

  ghost function KeptFrom(items: seq<Item>, since: Instant, now: Instant): Item -> bool {
    (x: Item) => Kept(items, since, now, x)
  }

  /** One service's items up to `now`, in order. */
  function ServiceItems(same: NameEq, names: seq<string>, name: string, items: seq<Item>, now: Instant): seq<Item> {
    Filter(ItemIsFor(same, names, name), Filter(UpTo(now), items))
  }

  lemma {:induction false} EventsOfItems(same: NameEq, names: seq<string>, items: seq<Item>, name: string)
    ensures EventsOf(same, names, TimedOf(items), name) == TimedOf(Filter(ItemIsFor(same, names, name), items))
  {
    if items != [] {
      EventsOfItems(same, names, items[..|items| - 1], name);
      assert TimedOf(items)[..|items| - 1] == TimedOf(items[..|items| - 1]);
    }
  }

  lemma ObservedEvents(read: TimeReader, same: NameEq, names: seq<string>, records: seq<EventRecord>, now: Instant,
                       name: string)
    ensures EventsOf(same, names, Observed(read, records, now), name) ==
            TimedOf(ServiceItems(same, names, name, Sort(Index(read, records)), now))
  {
    var items := Index(read, records);
    IndexNumbered(read, records);
    FilterSort(UpTo(now), items);
    FilterCongruence((x: Item) => x.ts <= now, UpTo(now), items);
    EventsOfItems(same, names, Filter(UpTo(now), Sort(items)), name);
  }

  /** Reading a sorted list of records back numbers them afresh and changes nothing else. */
  lemma {:induction false} Reindex(read: TimeReader, items: seq<Item>)
    requires forall i :: 0 <= i < |items| ==> read(items[i].rec.ts) == Some(items[i].ts)
    ensures var again := Index(read, Records(items));
            |again| == |items| && forall i :: 0 <= i < |items| ==> again[i] == Item(items[i].ts, i, items[i].rec)
  {
    if items != [] {
      Reindex(read, items[..|items| - 1]);
      assert Records(items)[..|items| - 1] == Records(items[..|items| - 1]);
    }
  }

  /** The same instants and records, whatever the numbering. */
  predicate Alike(a: seq<Item>, b: seq<Item>) {
    |a| == |b| && forall i :: 0 <= i < |a| ==> a[i].ts == b[i].ts && a[i].rec == b[i].rec
  }

  /** A filter that looks only at instant and record ignores the numbering. */
  lemma {:induction false} FilterAlike(p: Item -> bool, a: seq<Item>, b: seq<Item>)
    requires Alike(a, b)
    requires forall x: Item, y: Item {:trigger p(x), p(y)} :: x.ts == y.ts && x.rec == y.rec ==> p(x) == p(y)
    ensures Alike(Filter(p, a), Filter(p, b))
  {
    if a != [] {
      FilterAlike(p, a[..|a| - 1], b[..|b| - 1]);
      assert p(Last(a)) == p(Last(b));
    }
  }

  /** The figures computed from a list of records that is already in order see its own events. */
  lemma ReadBack(read: TimeReader, same: NameEq, names: seq<string>, items: seq<Item>, now: Instant, name: string)
    requires Sorted(items)
    requires forall i :: 0 <= i < |items| ==> read(items[i].rec.ts) == Some(items[i].ts)
    ensures EventsOf(same, names, Observed(read, Records(items), now), name) ==
            TimedOf(ServiceItems(same, names, name, items, now))
  {
    hide Canonical;
    Reindex(read, items);
    var again := Index(read, Records(items));
    SortOfSorted(again);
    ObservedEvents(read, same, names, Records(items), now, name);
    FilterAlike(UpTo(now), again, items);
    FilterAlike(ItemIsFor(same, names, name), Filter(UpTo(now), again), Filter(UpTo(now), items));
  }

  /** What a service's events look like after truncation: the kept ones among its own. */
  lemma WindowEvents(read: TimeReader, same: NameEq, names: seq<string>, records: seq<EventRecord>,
                     since: Instant, now: Instant, later: Instant, name: string)
    ensures var items := Index(read, records);
            EventsOf(same, names, Observed(read, Window(read, records, since, later), now), name) ==
            TimedOf(Filter(KeptFrom(items, since, later), ServiceItems(same, names, name, Sort(items), now)))
  {
    var items := Index(read, records);
    var kept := KeptFrom(items, since, later);
    IndexNumbered(read, records);
    FilterCongruence((x: Item) => Kept(items, since, later, x), kept, items);
    FilterSort(kept, items);
    SortSorted(items);
    SortKeeps(items);
    var window := Filter(kept, Sort(items));
    FilterSorted(kept, Sort(items));
    forall i | 0 <= i < |window|
      ensures read(window[i].rec.ts) == Some(window[i].ts)
    {
      FilterMember(kept, Sort(items), window[i]);
    }
    ReadBack(read, same, names, window, now, name);
    FilterCommute(UpTo(now), kept, Sort(items));
    FilterCommute(ItemIsFor(same, names, name), kept, Filter(UpTo(now), Sort(items)));
  }

  function Older(since: Instant): Item -> bool { (x: Item) => x.ts < since }

  function Recent(since: Instant): Item -> bool { (x: Item) => x.ts >= since }

  lemma {:induction false} SplitAt(items: seq<Item>, since: Instant)
    requires Sorted(items)
    ensures items == Filter(Older(since), items) + Filter(Recent(since), items)
  {
    if items != [] {
      var rest := items[..|items| - 1];
      SplitAt(rest, since);
      if Last(items).ts < since {
        FilterNone(Recent(since), rest);
      }
    }
  }

  /** The newest older event of a service is never dropped. */
  lemma NewestIsKept(same: NameEq, names: seq<string>, name: string, items: seq<Item>, since: Instant, now: Instant,
                     later: Instant)
    requires DistinctOrders(items) && since <= now <= later
    ensures var older := Filter(Older(since), ServiceItems(same, names, name, Sort(items), now));
            older != [] ==> Kept(items, since, later, Last(older))
  {
    var mine := ItemIsFor(same, names, name);
    var observed := Filter(UpTo(now), Sort(items));
    var own := ServiceItems(same, names, name, Sort(items), now);
    var older := Filter(Older(since), own);
    SortSorted(items);
    SortKeeps(items);
    FilterSorted(UpTo(now), Sort(items));
    FilterSorted(mine, observed);
    FilterSorted(Older(since), own);
    if older != [] {
      var x := Last(older);
      FilterMember(Older(since), own, x);
      FilterMember(mine, observed, x);
      forall y | y in items && Candidate(y, since, later) && y.rec.service == x.rec.service
        ensures !Before(x, y)
      {
        FilterMember(UpTo(now), Sort(items), y);
        FilterMember(mine, observed, y);
        FilterMember(Older(since), own, y);
        var i :| 0 <= i < |older| && older[i] == y;
      }
    }
  }

  lemma TimedAppend(a: seq<Item>, b: seq<Item>)
    ensures TimedOf(a + b) == TimedOf(a) + TimedOf(b)
  {
  }

  /** What truncation does to one service's items: some older ones go, but not the last of them. */
  lemma WindowSplit(same: NameEq, names: seq<string>, name: string, items: seq<Item>, since: Instant, now: Instant,
                    later: Instant)
    requires DistinctOrders(items) && since <= now <= later
    ensures var own := ServiceItems(same, names, name, Sort(items), now);
            var kept := KeptFrom(items, since, later);
            var older, recent := Filter(Older(since), own), Filter(Recent(since), own);
            && own == older + recent
            && Filter(kept, own) == Filter(kept, older) + recent
            && (older != [] ==> Filter(kept, older) != [] && Last(Filter(kept, older)) == Last(older))
  {
    var kept, mine := KeptFrom(items, since, later), ItemIsFor(same, names, name);
    var observed := Filter(UpTo(now), Sort(items));
    var own := ServiceItems(same, names, name, Sort(items), now);
    SortSorted(items);
    FilterSorted(UpTo(now), Sort(items));
    FilterSorted(mine, observed);
    SplitAt(own, since);
    var older, recent := Filter(Older(since), own), Filter(Recent(since), own);
    FilterAppend(kept, older, recent);
    forall x | x in recent
      ensures kept(x)
    {
      FilterMember(Recent(since), own, x);
      FilterMember(mine, observed, x);
      FilterMember(UpTo(now), Sort(items), x);
    }
    FilterAll(kept, recent);
    NewestIsKept(same, names, name, items, since, now, later);
  }

  /** Every service sees the same from the window as from the whole history. */
  lemma WindowView(read: TimeReader, same: NameEq, names: seq<string>, records: seq<EventRecord>,
                   since: Instant, now: Instant, later: Instant, name: string)
    returns (older: seq<Timed>, older': seq<Timed>, recent: seq<Timed>)
    requires since <= now <= later
    ensures SameView(EventsOf(same, names, Observed(read, records, now), name),
                     EventsOf(same, names, Observed(read, Window(read, records, since, later), now), name),
                     older, older', recent, since)
  {
    hide SameView;
    var items := Index(read, records);
    var kept := KeptFrom(items, since, later);
    var own := ServiceItems(same, names, name, Sort(items), now);
    var o, r := Filter(Older(since), own), Filter(Recent(since), own);
    older, older', recent := TimedOf(o), TimedOf(Filter(kept, o)), TimedOf(r);
    ObservedEvents(read, same, names, records, now, name);
    WindowEvents(read, same, names, records, since, now, later, name);
    IndexNumbered(read, records);
    WindowSplit(same, names, name, items, since, now, later);
    forall x | x in o || x in Filter(kept, o)
      ensures x.ts < since
    {
      FilterMember(kept, o, x);
      FilterMember(Older(since), own, x);
    }
    TimedView(o, Filter(kept, o), r, since);
  }

  lemma TimedView(o: seq<Item>, k: seq<Item>, r: seq<Item>, since: Instant)
    requires forall x :: x in o || x in k ==> x.ts < since
    requires o == [] ==> k == []
    requires o != [] ==> k != [] && Last(k) == Last(o)
    ensures SameView(TimedOf(o + r), TimedOf(k + r), TimedOf(o), TimedOf(k), TimedOf(r), since)
  {
    TimedAppend(o, r);
    TimedAppend(k, r);
    forall e | e in TimedOf(o) || e in TimedOf(k)
      ensures e.ts < since
    {
      var source := if e in TimedOf(o) then o else k;
      var i :| 0 <= i < |source| && TimedOf(source)[i] == e;
      assert source[i] in source;
    }
  }

  // ... and so every figure is the same

  ghost predicate Agree(a: ServiceEvents, b: ServiceEvents, windowStart: Instant, now: Instant) {
    forall def: ServiceDef {:trigger EventsFor(a, def.name)} ::
      && TimelineOf(def, EventsFor(a, def.name), windowStart, now) == TimelineOf(def, EventsFor(b, def.name), windowStart, now)
      && LastRecord(EventsFor(a, def.name)) == LastRecord(EventsFor(b, def.name))
  }

  lemma {:induction false} AgreeingFigures(read: TimeReader, defs: seq<ServiceDef>, a: ServiceEvents, b: ServiceEvents,
                                           windowStart: Instant, now: Instant)
    requires Agree(a, b, windowStart, now)
    ensures Timelines(defs, a, windowStart, now) == Timelines(defs, b, windowStart, now)
    ensures CountAll(read, defs, a, now) == CountAll(read, defs, b, now)
  {
    if defs != [] {
      AgreeingFigures(read, defs[..|defs| - 1], a, b, windowStart, now);
      assert EventsFor(a, Last(defs).name) == EventsFor(a, Last(defs).name);
    }
  }

  /** The dashboard computed from the truncated history is the dashboard computed from all of it,
      even when the clock has moved on between choosing the window and reading the log. */
  lemma TruncationIsLossless(read: TimeReader, same: NameEq, defs: seq<ServiceDef>, records: seq<EventRecord>,
                             now: Instant, later: Instant, all: ServiceEvents, truncated: ServiceEvents)
    requires now <= later
    requires IsGrouping(same, ManagedNames(defs), Observed(read, records, now), all)
    requires IsGrouping(same, ManagedNames(defs),
                        Observed(read, Window(read, records, now - WINDOW_DAYS * DAY_MS, later), now), truncated)
    ensures MetricsOf(read, defs, truncated, now) == MetricsOf(read, defs, all, now)
  {
    var since := now - WINDOW_DAYS * DAY_MS;
    var names := ManagedNames(defs);
    forall def: ServiceDef
      ensures TimelineOf(def, EventsFor(all, def.name), since, now) == TimelineOf(def, EventsFor(truncated, def.name), since, now)
      ensures LastRecord(EventsFor(all, def.name)) == LastRecord(EventsFor(truncated, def.name))
    {
      var older, older', recent := WindowView(read, same, names, records, since, now, later, def.name);
      SameTimeline(def, EventsFor(all, def.name), EventsFor(truncated, def.name), older, older', recent, since, now);
    }
    AgreeingFigures(read, defs, all, truncated, since, now);
  }

  // -- Up time is shared out exactly -----------------------------------------------

  /** What bucket `k` counts for one service; a service that starts later does not contribute. */
  function BucketUp(t: Timeline, now: Instant, k: nat): nat {
    if t.windowStart >= BucketEnd(now, k) then 0
    else UpMs(t.intervals, Max(BucketStart(now, k), t.windowStart), BucketEnd(now, k))
  }

  function BucketSum(t: Timeline, now: Instant, n: nat): nat {
    if n == 0 then 0 else BucketSum(t, now, n - 1) + BucketUp(t, now, n - 1)
  }

  lemma {:induction false} BucketsSoFar(t: Timeline, now: Instant, n: nat)
    requires 0 < n <= WINDOW_DAYS
    ensures BucketSum(t, now, n) == UpMs(t.intervals, Max(BucketStart(now, 0), t.windowStart), BucketEnd(now, n - 1))
  {
    var first := Max(BucketStart(now, 0), t.windowStart);
    if n == 1 {
      assert BucketSum(t, now, 1) == BucketUp(t, now, 0);
      UpMsEmptyWindowOr(t, first, BucketEnd(now, 0));
    } else {
      BucketsSoFar(t, now, n - 1);
      var prev, end := BucketEnd(now, n - 2), BucketEnd(now, n - 1);
      assert prev == BucketStart(now, n - 1) <= end;
      if t.windowStart >= end {
        UpMsEmptyWindow(t.intervals, first, prev);
        UpMsEmptyWindow(t.intervals, first, end);
      } else if t.windowStart >= prev {
        UpMsEmptyWindow(t.intervals, first, prev);
      } else {
        UpMsSplit(t.intervals, first, prev, end);
      }
    }
  }

  lemma UpMsEmptyWindowOr(t: Timeline, from: Instant, to: Instant)
    ensures t.windowStart >= to && t.windowStart <= from ==> UpMs(t.intervals, from, to) == 0
  {
    if t.windowStart >= to && t.windowStart <= from {
      UpMsEmptyWindow(t.intervals, from, to);
    }
  }

  /** The thirty buckets add up to the service's up time since the first of those days. */
  lemma DailyConservation(t: Timeline, now: Instant)
    ensures BucketSum(t, now, WINDOW_DAYS) ==
            UpMs(t.intervals, Max(Midnight(now) - (WINDOW_DAYS - 1) * DAY_MS, t.windowStart), now)
  {
    BucketsSoFar(t, now, WINDOW_DAYS);
    assert BucketEnd(now, WINDOW_DAYS - 1) == now;
  }

  /** A built timeline lies inside its window, which is never empty. */
  ghost predicate Sound(t: Timeline, windowStart: Instant, now: Instant) {
    windowStart <= t.windowStart < now && WellFormed(t.intervals, t.windowStart, now)
  }

  lemma TimelineSound(def: ServiceDef, events: seq<Timed>, windowStart: Instant, now: Instant)
    requires Chronological(events) && forall i :: 0 <= i < |events| ==> events[i].ts <= now
    ensures var (t, _) := TimelineOf(def, events, windowStart, now);
            t.Some? ==> Sound(t.value, windowStart, now)
  {
    if events != [] && Max(events[0].ts, windowStart) < now {
      IntervalSemantics(events, Max(events[0].ts, windowStart), now, def.state);
    }
  }

  lemma EventsInOrder(read: TimeReader, same: NameEq, names: seq<string>, records: seq<EventRecord>, now: Instant,
                      name: string)
    ensures var events := EventsOf(same, names, Observed(read, records, now), name);
            Chronological(events) && forall i :: 0 <= i < |events| ==> events[i].ts <= now
  {
    hide Chronological;
    var items, mine := Index(read, records), ItemIsFor(same, names, name);
    ObservedEvents(read, same, names, records, now, name);
    IndexNumbered(read, records);
    SortSorted(items);
    var observed := Filter(UpTo(now), Sort(items));
    FilterSorted(UpTo(now), Sort(items));
    FilterSorted(mine, observed);
    var own := Filter(mine, observed);
    forall x | x in own
      ensures x.ts <= now
    {
      FilterMember(mine, observed, x);
      FilterMember(UpTo(now), Sort(items), x);
    }
    TimedInOrder(own, now);
  }

  lemma TimedInOrder(items: seq<Item>, now: Instant)
    requires Sorted(items) && forall x :: x in items ==> x.ts <= now
    ensures Chronological(TimedOf(items))
    ensures forall i :: 0 <= i < |TimedOf(items)| ==> TimedOf(items)[i].ts <= now
  {
    forall i | 0 <= i < |items|
      ensures items[i].ts <= now
    {
      assert items[i] in items;
    }
  }

  lemma {:induction false} TimelinesSound(defs: seq<ServiceDef>, grouped: ServiceEvents, windowStart: Instant,
                                          now: Instant)
    requires forall name :: Chronological(EventsFor(grouped, name))
                            && forall i :: 0 <= i < |EventsFor(grouped, name)| ==> EventsFor(grouped, name)[i].ts <= now
    ensures forall t :: t in Timelines(defs, grouped, windowStart, now).0 ==> Sound(t, windowStart, now)
  {
    if defs != [] {
      TimelinesSound(defs[..|defs| - 1], grouped, windowStart, now);
      TimelineSound(Last(defs), EventsFor(grouped, Last(defs).name), windowStart, now);
    }
  }

  /** Every timeline the dashboard is computed from is a non-empty window of ordered, disjoint up times. */
  lemma DashboardTimelinesSound(read: TimeReader, same: NameEq, defs: seq<ServiceDef>, records: seq<EventRecord>,
                                now: Instant, grouped: ServiceEvents, t: Timeline)
    requires IsGrouping(same, ManagedNames(defs), Observed(read, records, now), grouped)
    requires t in Timelines(defs, grouped, now - WINDOW_DAYS * DAY_MS, now).0
    ensures Sound(t, now - WINDOW_DAYS * DAY_MS, now)
  {
    forall name
      ensures Chronological(EventsFor(grouped, name))
      ensures forall i :: 0 <= i < |EventsFor(grouped, name)| ==> EventsFor(grouped, name)[i].ts <= now
    {
      EventsInOrder(read, same, ManagedNames(defs), records, now, name);
    }
    TimelinesSound(defs, grouped, now - WINDOW_DAYS * DAY_MS, now);
  }

  /** Neither clamp of the percentage ever bites: up time fits the window and every bucket. */
  lemma PercentIsExact(t: Timeline, windowStart: Instant, now: Instant, from: Instant, to: Instant)
    requires Sound(t, windowStart, now) && from < to
    ensures UpMs(t.intervals, from, to) <= to - from
    ensures Percent(UpMs(t.intervals, from, to), to - from) ==
            UpMs(t.intervals, from, to) as real / (to - from) as real * 100.0
  {
    UpMsBound(t.intervals, t.windowStart, now, from, to);
    var up, length := UpMs(t.intervals, from, to), to - from;
    FractionBound(up as real, length as real);
  }

  lemma FractionBound(part: real, whole: real)
    requires 0.0 <= part <= whole && whole > 0.0
    ensures 0.0 <= part / whole * 100.0 <= 100.0
  {
    assert part / whole <= 1.0;
  }

  // -- Daily ratios ------------------------------------------------------------------

  /** A service contributes to bucket `k` exactly with what the bucket counts for it, over its part of the day. */
  ghost function BucketRatio(t: Timeline, now: Instant, k: nat): real {
    Percent(BucketUp(t, now, k), BucketEnd(now, k) - Max(BucketStart(now, k), t.windowStart))
  }

  predicate Contributes(t: Timeline, now: Instant, k: nat) { t.windowStart < BucketEnd(now, k) }

  /** The ratios the sparkline averages for bucket `k` are those of the contributing services, in order. */
  lemma {:induction false} RatiosAreBuckets(timelines: seq<Timeline>, now: Instant, k: nat)
    ensures var ts := Filter(t => Contributes(t, now, k), timelines);
            DayRatios(timelines, BucketStart(now, k), BucketEnd(now, k)) ==
            seq(|ts|, i requires 0 <= i < |ts| => BucketRatio(ts[i], now, k))
  {
    hide BucketStart, BucketEnd, UpMs, Percent;
    if timelines != [] {
      RatiosAreBuckets(timelines[..|timelines| - 1], now, k);
    }
  }

  /** Every figure of the sparkline is the mean of those ratios, or the figure before it when nobody contributes. */
  lemma SparklineFigure(timelines: seq<Timeline>, now: Instant, k: nat)
    ensures var out := Sparkline(timelines, now, k + 1);
            var ts := Filter(t => Contributes(t, now, k), timelines);
            && |out| == k + 1
            && out[k] == if ts != [] then Mean(seq(|ts|, i requires 0 <= i < |ts| => BucketRatio(ts[i], now, k)))
                         else if k > 0 then out[k - 1] else 0.0
  {
    SparklineLength(timelines, now, k);
    RatiosAreBuckets(timelines, now, k);
    hide Filter, Mean, BucketRatio, BucketStart, BucketEnd, DayRatios;
  }

  lemma {:induction false} SparklineLength(timelines: seq<Timeline>, now: Instant, k: nat)
    ensures |Sparkline(timelines, now, k)| == k
  {
    hide Mean, DayRatios;
    if k > 0 { SparklineLength(timelines, now, k - 1); }
  }

  const TODAY: nat := WINDOW_DAYS - 1

  /** Today's bucket covers some of a contributing service's time exactly unless it is midnight to the millisecond. */
  lemma TodayIsEmptyAtMidnight(t: Timeline, windowStart: Instant, now: Instant)
    requires Sound(t, windowStart, now)
    ensures Contributes(t, now, TODAY)
    ensures Max(BucketStart(now, TODAY), t.windowStart) < BucketEnd(now, TODAY) <==> now % DAY_MS != 0
  {
  }

  lemma WholeShare(x: real)
    requires x > 0.0
    ensures x / x == 1.0
  {
  }

  /** Of a service that has been up all the time, today's figure is 100 percent exactly unless it is midnight; then it is 0. */
  lemma TodayOfAnUpService(t: Timeline, windowStart: Instant, now: Instant)
    requires Sound(t, windowStart, now) && t.intervals == [Interval(t.windowStart, now)]
    ensures BucketRatio(t, now, TODAY) == if now % DAY_MS != 0 then 100.0 else 0.0
  {
    TodayIsEmptyAtMidnight(t, windowStart, now);
    var from, to := Max(BucketStart(now, TODAY), t.windowStart), BucketEnd(now, TODAY);
    if from < to {
      PercentIsExact(t, windowStart, now, from, to);
      assert t.intervals[..0] == [];
      assert UpMs(t.intervals, from, to) == to - from;
      WholeShare((to - from) as real);
    } else {
      UpMsEmptyWindow(t.intervals, from, to);
    }
  }

  /** At midnight every service that counts in today's bucket counts as down. */
  lemma {:induction false} MidnightBucket(timelines: seq<Timeline>, now: Instant, r: real)
    requires now % DAY_MS == 0
    requires r in DayRatios(timelines, BucketStart(now, WINDOW_DAYS - 1), BucketEnd(now, WINDOW_DAYS - 1))
    ensures r == 0.0
  {
    var t, rest := Last(timelines), timelines[..|timelines| - 1];
    if t.windowStart < now { UpMsEmptyWindow(t.intervals, now, now); }
    if r in DayRatios(rest, now, now) { MidnightBucket(rest, now, r); }
  }

  // -- Counts ----------------------------------------------------------------------

  predicate IsManaged(def: ServiceDef) { def.managed }

  predicate IsManagedIn(state: ServiceState, def: ServiceDef) { def.managed && def.state == Some(state) }

  predicate WaitsForManualStart(def: ServiceDef) { IsManagedIn(ServiceState.Stopped, def) && def.startup == Manual }

  ghost predicate HasFailed(read: TimeReader, grouped: ServiceEvents, now: Instant, def: ServiceDef) {
    def.managed && ClassifyFailed(read, def.state, LastRecord(EventsFor(grouped, def.name)), now)
  }

  ghost predicate IsRecovering(read: TimeReader, grouped: ServiceEvents, now: Instant, def: ServiceDef) {
    def.managed && ClassifyAutoRecovering(read, def.state, LastRecord(EventsFor(grouped, def.name)), now)
  }

  /** Each count is the number of managed services it is about, and no service is both failed and recovering. */
  lemma {:induction false} CountsCount(read: TimeReader, defs: seq<ServiceDef>, grouped: ServiceEvents, now: Instant)
    ensures var c := CountAll(read, defs, grouped, now);
            && c.total == |Filter(IsManaged, defs)|
            && c.running == |Filter(d => IsManagedIn(ServiceState.Running, d), defs)|
            && c.stopped == |Filter(d => IsManagedIn(ServiceState.Stopped, d), defs)|
            && c.manualStart == |Filter(WaitsForManualStart, defs)|
            && c.failed == |Filter(d => HasFailed(read, grouped, now, d), defs)|
            && c.autoRecovering == |Filter(d => IsRecovering(read, grouped, now, d), defs)|
            && c.failed + c.autoRecovering <= c.total
  {
    hide ClassifyFailed, ClassifyAutoRecovering, EventsFor, LastRecord;
    if defs != [] {
      CountsCount(read, defs[..|defs| - 1], grouped, now);
      Exclusive(read, Last(defs).state, LastRecord(EventsFor(grouped, Last(defs).name)), now);
    }
  }

  lemma Exclusive(read: TimeReader, state: Option<ServiceState>, last: Option<EventRecord>, now: Instant)
    ensures ClassifyFailed(read, state, last, now) ==> state == Some(ServiceState.Stopped)
    ensures ClassifyAutoRecovering(read, state, last, now) ==> state != Some(ServiceState.Stopped)
  {
  }
}
