/** Up-intervals of one service and the time they cover. */
module Uptime {
  import opened Prelude
  import opened Events

  datatype Timed = Timed(ts: Instant, rec: EventRecord)

  datatype Interval = Interval(from: Instant, to: Instant)

  datatype ServiceState =
    Stopped | StartPending | StopPending | Running | ContinuePending | PausePending | Paused | Unknown

  predicate IsUp(kind: EventKind) { kind.Started? || kind.Restarted? }

  /** The host states in which an unclosed start still counts as up. */
  predicate HostLive(state: Option<ServiceState>) {
    state in {Some(Running), Some(Paused), Some(PausePending), Some(ContinuePending), Some(StopPending)}
  }

  datatype Scan = Scan(intervals: seq<Interval>, upSince: Option<Instant>)

  /** One event, its instant clamped to the start of the window. */
  function ScanStep(s: Scan, e: Timed, start: Instant): Scan {
    var ts := Max(e.ts, start);
    if IsUp(e.rec.event) then
      if s.upSince.None? then s.(upSince := Some(ts)) else s
    else
      match s.upSince
      case None => s
      case Some(since) => Scan(s.intervals + if ts > since then [Interval(since, ts)] else [], None)
  }

  function ScanEvents(s: Scan, events: seq<Timed>, start: Instant): Scan {
    if events == [] then s else ScanStep(ScanEvents(s, events[..|events| - 1], start), Last(events), start)
  }

  /** The intervals of `[start, now]` and whether the tail is uncertain. */
  function UpIntervals(events: seq<Timed>, start: Instant, now: Instant, state: Option<ServiceState>)
    : (seq<Interval>, bool)
  {
    var s := ScanEvents(Scan([], None), events, start);
    match s.upSince
    case None => (s.intervals, false)
    case Some(since) =>
      if HostLive(state) then (s.intervals + if now > since then [Interval(since, now)] else [], false)
      else (s.intervals, true)
  }

  method BuildUpIntervals(events: seq<Timed>, start: Instant, now: Instant, state: Option<ServiceState>)
    returns (intervals: seq<Interval>, uncertain: bool)
    ensures (intervals, uncertain) == UpIntervals(events, start, now, state)
  {
    intervals := [];
    var upSince: Option<Instant> := None;
    for i := 0 to |events|
      invariant Scan(intervals, upSince) == ScanEvents(Scan([], None), events[..i], start)
    {
      assert events[..i + 1][..i] == events[..i];
      var ts := Max(events[i].ts, start);
      match events[i].rec.event {
        case Started | Restarted =>
          if upSince.None? { upSince := Some(ts); }
        case ChildExited | Stopped | Throttled =>
          if upSince.Some? {
            if ts > upSince.value { intervals := intervals + [Interval(upSince.value, ts)]; }
            upSince := None;
          }
      }
    }
    assert events[..|events|] == events && intervals + [] == intervals;
    uncertain := false;
    if upSince.Some? {
      if HostLive(state) {
        if now > upSince.value { intervals := intervals + [Interval(upSince.value, now)]; }
      } else {
        uncertain := true;
      }
    }
  }

  // -- What the intervals mean ------------------------------------------------

  predicate Chronological(events: seq<Timed>) {
    forall i, j :: 0 <= i < j < |events| ==> events[i].ts <= events[j].ts
  }

  /** Non-empty, ordered, disjoint, and inside `[start, end]`. */
  predicate WellFormed(intervals: seq<Interval>, start: Instant, end: Instant) {
    && (forall i :: 0 <= i < |intervals| ==> start <= intervals[i].from < intervals[i].to <= end)
    && (forall i, j :: 0 <= i < j < |intervals| ==> intervals[i].to <= intervals[j].from)
  }

  predicate Covered(intervals: seq<Interval>, t: Instant) {
    exists i :: 0 <= i < |intervals| && intervals[i].from <= t < intervals[i].to
  }

  /** Position of the last event at or before `t`, after clamping to `start`. */
  predicate Governs(events: seq<Timed>, start: Instant, t: Instant, i: nat) {
    && i < |events| && Max(events[i].ts, start) <= t
    && (i + 1 < |events| ==> t < Max(events[i + 1].ts, start))
  }

  /** The last event at or before `t` says the child runs. */
  predicate UpAt(events: seq<Timed>, start: Instant, t: Instant) {
    exists i :: 0 <= i < |events| && Governs(events, start, t, i) && IsUp(events[i].rec.event)
  }

  /** A later event ends the run that is up at `t`. */
  predicate ClosedAfter(events: seq<Timed>, start: Instant, t: Instant) {
    exists i :: 0 <= i < |events| && t < Max(events[i].ts, start) && !IsUp(events[i].rec.event)
  }

  /** How far the scan has recorded: to the open run, or to the last event. */
  function Reach(s: Scan, events: seq<Timed>, start: Instant): Instant {
    if s.upSince.Some? then s.upSince.value else if events == [] then start else Max(Last(events).ts, start)
  }

  lemma {:induction false} ScanShape(events: seq<Timed>, start: Instant)
    requires Chronological(events)
    ensures var s := ScanEvents(Scan([], None), events, start);
            && WellFormed(s.intervals, start, Reach(s, events, start))
            && (s.upSince.Some? <==> events != [] && IsUp(Last(events).rec.event))
            && (s.upSince.Some? ==> start <= s.upSince.value <= Max(Last(events).ts, start))
  {
    if events != [] {
      ScanShape(events[..|events| - 1], start);
    }
  }

  /** Before the clamped instant of an added event, nothing about the earlier events changes. */
  lemma UpAtExtend(events: seq<Timed>, e: Timed, start: Instant, t: Instant)
    requires Chronological(events + [e])
    ensures UpAt(events + [e], start, t) <==>
            if Max(e.ts, start) <= t then IsUp(e.rec.event) else UpAt(events, start, t)
  {
    var all := events + [e];
    var n := |events|;
    assert all[n] == e;
    assert forall k :: 0 <= k < |all| ==> all[k].ts <= all[n].ts;
    if Max(e.ts, start) <= t {
      assert Governs(all, start, t, n);
      if UpAt(all, start, t) {
        var i :| 0 <= i < |all| && Governs(all, start, t, i) && IsUp(all[i].rec.event);
        assert i == n;
      }
    } else {
      if UpAt(all, start, t) {
        var i :| 0 <= i < |all| && Governs(all, start, t, i) && IsUp(all[i].rec.event);
        assert i < n && Governs(events, start, t, i) && events[i] == all[i];
      }
      if UpAt(events, start, t) {
        var i :| 0 <= i < |events| && Governs(events, start, t, i) && IsUp(events[i].rec.event);
        assert all[i] == events[i] && Governs(all, start, t, i);
      }
    }
  }

  lemma CoveredAppend(intervals: seq<Interval>, x: Interval, t: Instant)
    ensures Covered(intervals + [x], t) <==> Covered(intervals, t) || x.from <= t < x.to
  {
    var all := intervals + [x];
    assert all[|intervals|] == x;
    if Covered(intervals, t) {
      var i :| 0 <= i < |intervals| && intervals[i].from <= t < intervals[i].to;
      assert all[i] == intervals[i];
    }
  }

  /** An instant is up exactly when a closed interval holds it or the open run has begun. */
  lemma {:induction false} ScanMeaning(events: seq<Timed>, start: Instant, t: Instant)
    requires Chronological(events)
    ensures var s := ScanEvents(Scan([], None), events, start);
            UpAt(events, start, t) <==> Covered(s.intervals, t) || (s.upSince.Some? && s.upSince.value <= t)
  {
    if events != [] {
      var rest, e := events[..|events| - 1], Last(events);
      assert events == rest + [e];
      ScanMeaning(rest, start, t);
      UpAtExtend(rest, e, start, t);
      var s := ScanEvents(Scan([], None), rest, start);
      if Max(e.ts, start) <= t { ScanReach(rest, e, start, t); }
      if s.upSince.Some? && !IsUp(e.rec.event) {
        CoveredAppend(s.intervals, Interval(s.upSince.value, Max(e.ts, start)), t);
        assert s.intervals + [] == s.intervals;
      }
    }
  }

  /** Everything recorded so far ends by the next event. */
  lemma ScanReach(events: seq<Timed>, e: Timed, start: Instant, t: Instant)
    requires Chronological(events + [e]) && Max(e.ts, start) <= t
    ensures var s := ScanEvents(Scan([], None), events, start);
            !Covered(s.intervals, t) && (s.upSince.Some? ==> s.upSince.value <= t)
  {
    var all := events + [e];
    forall i | 0 <= i < |events|
      ensures events[i].ts <= e.ts
    {
      assert all[i] == events[i] && all[|events|] == e;
    }
    forall i, j | 0 <= i < j < |events|
      ensures events[i].ts <= events[j].ts
    {
      assert all[i] == events[i] && all[j] == events[j];
    }
    ScanShape(events, start);
  }

  lemma ClosedLater(rest: seq<Timed>, e: Timed, start: Instant, t: Instant)
    ensures ClosedAfter(rest + [e], start, t) <==> ClosedAfter(rest, start, t) || (t < Max(e.ts, start) && !IsUp(e.rec.event))
  {
    var events := rest + [e];
    if ClosedAfter(rest, start, t) {
      var i :| 0 <= i < |rest| && t < Max(rest[i].ts, start) && !IsUp(rest[i].rec.event);
      assert events[i] == rest[i];
    }
    if t < Max(e.ts, start) && !IsUp(e.rec.event) { assert events[|rest|] == e; }
  }

  lemma NothingLater(events: seq<Timed>, start: Instant, t: Instant)
    requires Chronological(events) && events != [] && Max(Last(events).ts, start) <= t
    ensures !ClosedAfter(events, start, t)
  {
    forall i | 0 <= i < |events|
      ensures Max(events[i].ts, start) <= t
    {
    }
  }

  /** What follows the last run's start never closes it. */
  lemma {:induction false} OpenRun(events: seq<Timed>, start: Instant, t: Instant)
    requires Chronological(events)
    ensures var s := ScanEvents(Scan([], None), events, start);
            && (s.upSince.Some? && s.upSince.value <= t ==> !ClosedAfter(events, start, t))
            && (Covered(s.intervals, t) ==> ClosedAfter(events, start, t))
  {
    if events != [] {
      var rest, e := events[..|events| - 1], Last(events);
      OpenRun(rest, start, t);
      var s := ScanEvents(Scan([], None), rest, start);
      var ts := Max(e.ts, start);
      assert events == rest + [e];
      ClosedLater(rest, e, start, t);
      if ts <= t { NothingLater(events, start, t); }
      hide ClosedAfter, Covered, Chronological, ScanEvents;
      assert ScanEvents(Scan([], None), events, start) == ScanStep(s, e, start) by { ScanLast(events, start); }
      if s.upSince.Some? {
        CoveredAppend(s.intervals, Interval(s.upSince.value, ts), t);
      }
    }
  }

  lemma ScanLast(events: seq<Timed>, start: Instant)
    requires events != []
    ensures ScanEvents(Scan([], None), events, start) ==
            ScanStep(ScanEvents(Scan([], None), events[..|events| - 1], start), Last(events), start)
  {
  }

  /** The meaning of the result: shape, exact coverage of every instant, and exactly when the tail is uncertain. */
  lemma IntervalSemantics(events: seq<Timed>, start: Instant, now: Instant, state: Option<ServiceState>)
    requires Chronological(events) && start <= now
    requires forall i :: 0 <= i < |events| ==> events[i].ts <= now
    ensures var (intervals, uncertain) := UpIntervals(events, start, now, state);
            && WellFormed(intervals, start, now)
            && (uncertain <==> events != [] && IsUp(Last(events).rec.event) && !HostLive(state))
            && forall t :: start <= t < now ==>
                 (Covered(intervals, t) <==>
                  UpAt(events, start, t) && (HostLive(state) || ClosedAfter(events, start, t)))
  {
    ScanShape(events, start);
    var s := ScanEvents(Scan([], None), events, start);
    var (intervals, uncertain) := UpIntervals(events, start, now, state);
    forall t | start <= t < now
      ensures Covered(intervals, t) <==>
              UpAt(events, start, t) && (HostLive(state) || ClosedAfter(events, start, t))
    {
      ScanMeaning(events, start, t);
      OpenRun(events, start, t);
      if s.upSince.Some? {
        CoveredAppend(s.intervals, Interval(s.upSince.value, now), t);
        assert s.intervals + [] == s.intervals;
      }
    }
    if s.upSince.Some? { assert s.intervals + [] == s.intervals; }
  }

  // -- Time covered ---------------------------------------------------------------

  function Overlap(x: Interval, from: Instant, to: Instant): nat {
    var cs, ce := Max(x.from, from), Min(x.to, to);
    if ce > cs then ce - cs else 0
  }

  function UpMs(intervals: seq<Interval>, from: Instant, to: Instant): nat {
    if intervals == [] then 0
    else UpMs(intervals[..|intervals| - 1], from, to) + Overlap(Last(intervals), from, to)
  }

  method UpMsInWindow(intervals: seq<Interval>, from: Instant, to: Instant) returns (total: nat)
    ensures total == UpMs(intervals, from, to)
  {
    total := 0;
    for i := 0 to |intervals|
      invariant total == UpMs(intervals[..i], from, to)
    {
      assert intervals[..i + 1][..i] == intervals[..i];
      var cs, ce := Max(intervals[i].from, from), Min(intervals[i].to, to);
      if ce > cs {
        total := total + (ce - cs);
      }
    }
    assert intervals[..|intervals|] == intervals;
  }

  /** Splitting a window loses and adds nothing. */
  lemma {:induction false} UpMsSplit(intervals: seq<Interval>, from: Instant, mid: Instant, to: Instant)
    requires from <= mid <= to
    ensures UpMs(intervals, from, mid) + UpMs(intervals, mid, to) == UpMs(intervals, from, to)
  {
    if intervals != [] {
      UpMsSplit(intervals[..|intervals| - 1], from, mid, to);
    }
  }

  lemma {:induction false} UpMsEmptyWindow(intervals: seq<Interval>, from: Instant, to: Instant)
    requires to <= from
    ensures UpMs(intervals, from, to) == 0
  {
    if intervals != [] {
      UpMsEmptyWindow(intervals[..|intervals| - 1], from, to);
    }
  }

  /** Disjoint intervals never cover more than the window, nor more than the part of it they reach. */
  lemma {:induction false} UpMsBound(intervals: seq<Interval>, start: Instant, end: Instant, from: Instant, to: Instant)
    requires WellFormed(intervals, start, end) && from <= to
    ensures UpMs(intervals, from, to) <= Max(0, Min(end, to) - from) <= to - from
  {
    if intervals != [] {
      UpMsBound(intervals[..|intervals| - 1], start, Last(intervals).from, from, to);
    }
  }
}
