/** Event records and their order in time. Instants are whole milliseconds; reading one out of a
    record's RFC 3339 text is a given partial function. */
module Events {
  import opened Prelude
  import opened Codecs

  type Instant = int

  type TimeReader = string -> Option<Instant>

  datatype EventKind = Started | Stopped | ChildExited | Restarted | Throttled

  datatype StopReason = ScmStop

  datatype EventRecord = EventRecord(
    ts: string,
    service: string,
    event: EventKind,
    pid: Option<U32>,
    exitCode: Option<int>,
    livedMs: Option<U64>,
    delayMs: Option<U64>,
    reason: Option<StopReason>)

  /** A record with its instant and its position in the list it came from. */
  datatype Item = Item(ts: Instant, order: nat, rec: EventRecord)

  /** Chronological order; records of one instant keep their source order. */
  predicate Before(a: Item, b: Item) {
    a.ts < b.ts || (a.ts == b.ts && a.order < b.order)
  }

  predicate Sorted(items: seq<Item>) {
    forall i, j :: 0 <= i < j < |items| ==> Before(items[i], items[j])
  }

  /** The records of `records` that have a readable instant. */
  function Index(read: TimeReader, records: seq<EventRecord>): seq<Item> {
    if records == [] then []
    else
      Index(read, records[..|records| - 1]) +
      match read(Last(records).ts)
      case None => []
      case Some(ts) => [Item(ts, |records| - 1, Last(records))]
  }

  /** Positions increase along the index and stay inside the list. */
  predicate Numbered(items: seq<Item>, bound: nat) {
    && (forall i, j :: 0 <= i < j < |items| ==> items[i].order < items[j].order)
    && (forall i :: 0 <= i < |items| ==> items[i].order < bound)
  }

  lemma {:induction false} IndexNumbered(read: TimeReader, records: seq<EventRecord>)
    ensures Numbered(Index(read, records), |records|)
    ensures forall i :: 0 <= i < |Index(read, records)| ==>
              read(Index(read, records)[i].rec.ts) == Some(Index(read, records)[i].ts)
  {
    if records != [] {
      IndexNumbered(read, records[..|records| - 1]);
    }
  }

  function Insert(items: seq<Item>, x: Item): seq<Item> {
    if items != [] && Before(x, Last(items)) then Insert(items[..|items| - 1], x) + [Last(items)]
    else items + [x]
  }

  /** The stable sort by instant; with distinct positions it is the sort by (instant, position). */
  function Sort(items: seq<Item>): seq<Item> {
    if items == [] then [] else Insert(Sort(items[..|items| - 1]), Last(items))
  }

  lemma {:induction false} InsertKeeps(items: seq<Item>, x: Item)
    ensures |Insert(items, x)| == |items| + 1
    ensures forall y :: y in Insert(items, x) <==> y in items || y == x
  {
    if items != [] && Before(x, Last(items)) {
      InsertKeeps(items[..|items| - 1], x);
      assert items == items[..|items| - 1] + [Last(items)];
    }
  }

  lemma {:induction false} InsertSorted(items: seq<Item>, x: Item)
    requires Sorted(items)
    requires forall y :: y in items ==> y.order != x.order
    ensures Sorted(Insert(items, x))
  {
    if items != [] && Before(x, Last(items)) {
      var rest := items[..|items| - 1];
      InsertSorted(rest, x);
      InsertKeeps(rest, x);
      forall y | y in Insert(rest, x)
        ensures Before(y, Last(items))
      {
        if y != x {
          var i :| 0 <= i < |rest| && rest[i] == y;
        }
      }
    }
  }

  predicate DistinctOrders(items: seq<Item>) {
    forall i, j :: 0 <= i < j < |items| ==> items[i].order != items[j].order
  }

  lemma {:induction false} SortKeeps(items: seq<Item>)
    ensures |Sort(items)| == |items|
    ensures forall y :: y in Sort(items) <==> y in items
  {
    if items != [] {
      SortKeeps(items[..|items| - 1]);
      InsertKeeps(Sort(items[..|items| - 1]), Last(items));
      assert items == items[..|items| - 1] + [Last(items)];
    }
  }

  lemma {:induction false} SortSorted(items: seq<Item>)
    requires DistinctOrders(items)
    ensures Sorted(Sort(items))
  {
    if items != [] {
      SortSorted(items[..|items| - 1]);
      SortKeeps(items[..|items| - 1]);
      InsertSorted(Sort(items[..|items| - 1]), Last(items));
    }
  }

  lemma SomeMember(a: seq<Item>, b: seq<Item>)
    requires b != [] && forall x :: x in a <==> x in b
    ensures a != []
  {
    assert b[0] in b;
  }

  /** Strictly sorted sequences are determined by their members. */
  lemma {:induction false} SortedUnique(a: seq<Item>, b: seq<Item>)
    requires Sorted(a) && Sorted(b)
    requires forall x :: x in a <==> x in b
    ensures a == b
  {
    if b != [] { SomeMember(a, b); }
    if a != [] {
      assert Last(a) in b && Last(b) in a by { assert Last(a) in a && Last(b) in b; }
      var x, a', b' := Last(a), a[..|a| - 1], b[..|b| - 1];
      assert a == a' + [x] && b == b' + [x];
      assert forall y :: y in a' <==> y in a && y != x;
      assert forall y :: y in b' <==> y in b && y != x;
      SortedUnique(a', b');
    }
  }

  /** Sorting does not depend on the order the items are collected in. */
  lemma SortOfSameMembers(a: seq<Item>, b: seq<Item>)
    requires DistinctOrders(a) && DistinctOrders(b)
    requires forall x :: x in a <==> x in b
    ensures Sort(a) == Sort(b)
  {
    SortSorted(a);
    SortSorted(b);
    SortKeeps(a);
    SortKeeps(b);
    SortedUnique(Sort(a), Sort(b));
  }

  lemma {:induction false} SortOfSorted(items: seq<Item>)
    requires Sorted(items)
    ensures Sort(items) == items
  {
    if items != [] {
      SortOfSorted(items[..|items| - 1]);
    }
  }

  lemma {:induction false} FilterSorted(p: Item -> bool, items: seq<Item>)
    requires Sorted(items)
    ensures Sorted(Filter(p, items))
  {
    if items != [] {
      var rest := items[..|items| - 1];
      FilterSorted(p, rest);
      forall y | y in Filter(p, rest)
        ensures Before(y, Last(items))
      {
        FilterMember(p, rest, y);
        var i :| 0 <= i < |rest| && rest[i] == y;
      }
    }
  }

  lemma {:induction false} FilterDistinctOrders(p: Item -> bool, items: seq<Item>)
    requires DistinctOrders(items)
    ensures DistinctOrders(Filter(p, items))
  {
    if items != [] {
      var rest := items[..|items| - 1];
      FilterDistinctOrders(p, rest);
      forall y | y in Filter(p, rest)
        ensures y.order != Last(items).order
      {
        FilterMember(p, rest, y);
      }
    }
  }

  /** Keeping some items and sorting commute. */
  lemma {:induction false} FilterSort(p: Item -> bool, items: seq<Item>)
    requires DistinctOrders(items)
    ensures Filter(p, Sort(items)) == Sort(Filter(p, items))
  {
    if items != [] {
      var rest, x := items[..|items| - 1], Last(items);
      FilterSort(p, rest);
      SortSorted(rest);
      FilterInsert(p, Sort(rest), x);
      var kept := Filter(p, rest);
      if p(x) {
        assert (kept + [x])[..|kept|] == kept;
      } else {
        assert kept + [] == kept;
      }
    }
  }

  lemma {:induction false} FilterInsert(p: Item -> bool, items: seq<Item>, x: Item)
    requires Sorted(items)
    ensures Filter(p, Insert(items, x)) == if p(x) then Insert(Filter(p, items), x) else Filter(p, items)
  {
    if items != [] && Before(x, Last(items)) {
      var rest, last := items[..|items| - 1], Last(items);
      FilterInsert(p, rest, x);
      var shifted := Insert(rest, x);
      assert (shifted + [last])[..|shifted|] == shifted;
      if p(last) {
        var kept := Filter(p, rest);
        assert (kept + [last])[..|kept|] == kept;
      } else {
        assert Filter(p, rest) + [] == Filter(p, rest) && Filter(p, shifted) + [] == Filter(p, shifted);
      }
    } else {
      assert (items + [x])[..|items|] == items;
      var kept := Filter(p, items);
      if kept != [] {
        FilterMember(p, items, Last(kept));
        var i :| 0 <= i < |items| && items[i] == Last(kept);
      }
    }
  }
}

/** Truncation of the retained history to one availability window. */
module HistoryWindow {
  import opened Prelude
  import opened Events

  /** Older than the window and not after `now`. */
  predicate Candidate(x: Item, since: Instant, now: Instant) { x.ts < since && x.ts <= now }

  /** The newest candidate of its spelling; of equal instants the one read last. */
  ghost predicate IsSeed(items: seq<Item>, since: Instant, now: Instant, x: Item) {
    && Candidate(x, since, now)
    && forall y :: y in items && Candidate(y, since, now) && y.rec.service == x.rec.service ==> !Before(x, y)
  }

  ghost predicate Kept(items: seq<Item>, since: Instant, now: Instant, x: Item) {
    if x.ts >= since then x.ts <= now else IsSeed(items, since, now, x)
  }

  ghost function KeptItems(items: seq<Item>, since: Instant, now: Instant): seq<Item> {
    Filter(x => Kept(items, since, now, x), items)
  }

  function Records(items: seq<Item>): seq<EventRecord> {
    seq(|items|, i requires 0 <= i < |items| => items[i].rec)
  }

  /** The window in chronological order, ties in source order. */
  ghost function Window(read: TimeReader, records: seq<EventRecord>, since: Instant, now: Instant): seq<EventRecord> {
    Records(Sort(KeptItems(Index(read, records), since, now)))
  }

  /** Each spelling's entry in `seeds` is its newest candidate among `items`. */
  ghost predicate SeedsOf(seeds: map<string, Item>, items: seq<Item>, since: Instant, now: Instant) {
    && (forall s :: s in seeds ==> seeds[s] in items && seeds[s].rec.service == s && IsSeed(items, since, now, seeds[s]))
    && (forall y :: y in items && Candidate(y, since, now) ==> y.rec.service in seeds)
  }

  /** Of each spelling with a record before the window exactly one such record is kept. */
  lemma OneSeedEach(items: seq<Item>, since: Instant, now: Instant, x: Item) returns (seed: Item)
    requires forall i, j :: 0 <= i < j < |items| ==> items[i].order < items[j].order
    requires x in items && Candidate(x, since, now)
    ensures seed in items && seed.rec.service == x.rec.service && seed.ts < since && Kept(items, since, now, seed)
    ensures forall y :: y in items && y.rec.service == x.rec.service && y.ts < since && Kept(items, since, now, y) ==> y == seed
  {
    var seeds := SomeSeeds(items, since, now);
    seed := seeds[x.rec.service];
    forall y | y in items && y.rec.service == x.rec.service && y.ts < since && Kept(items, since, now, y)
      ensures y == seed
    {
      assert !Before(seed, y) && !Before(y, seed);
    }
  }

  lemma {:induction false} SomeSeeds(items: seq<Item>, since: Instant, now: Instant) returns (seeds: map<string, Item>)
    requires forall i, j :: 0 <= i < j < |items| ==> items[i].order < items[j].order
    ensures SeedsOf(seeds, items, since, now)
  {
    seeds := map[];
    if items != [] {
      var rest := items[..|items| - 1];
      seeds := SomeSeeds(rest, since, now);
      SeedStep(seeds, rest, Last(items), since, now);
      seeds := Reseed(seeds, Last(items), since, now);
      assert items == rest + [Last(items)];
    }
  }

  predicate InWindow(x: Item, since: Instant, now: Instant) { since <= x.ts <= now }

  /** The table after `x`, which comes after all of `items`. */
  function Reseed(seeds: map<string, Item>, x: Item, since: Instant, now: Instant): map<string, Item> {
    if Candidate(x, since, now) && (x.rec.service !in seeds || x.ts >= seeds[x.rec.service].ts)
    then seeds[x.rec.service := x] else seeds
  }

  lemma SeedStep(seeds: map<string, Item>, items: seq<Item>, x: Item, since: Instant, now: Instant)
    requires SeedsOf(seeds, items, since, now)
    requires forall y :: y in items ==> y.order < x.order
    ensures SeedsOf(Reseed(seeds, x, since, now), items + [x], since, now)
  {
    var next, all := Reseed(seeds, x, since, now), items + [x];
    forall s | s in next
      ensures next[s] in all && next[s].rec.service == s && IsSeed(all, since, now, next[s])
    {
      if next[s] != x {
        assert s in seeds && IsSeed(items, since, now, seeds[s]);
      } else if s in seeds {
        assert IsSeed(items, since, now, seeds[s]);
      }
    }
  }

  method Truncate(read: TimeReader, records: seq<EventRecord>, since: Instant, now: Instant)
    returns (kept: seq<EventRecord>)
    ensures kept == Window(read, records, since, now)
  {
    var seeds: map<string, Item>, parsed: seq<Item> := map[], [];
    ghost var items: seq<Item> := [];
    for order := 0 to |records|
      invariant items == Index(read, records[..order])
      invariant parsed == Filter(x => InWindow(x, since, now), items)
      invariant SeedsOf(seeds, items, since, now)
    {
      var rec := records[order];
      ghost var before := items;
      assert records[..order + 1][..order] == records[..order];
      IndexNumbered(read, records[..order]);
      match read(rec.ts) {
        case None =>
          assert items + [] == items;
        case Some(ts) =>
          var x := Item(ts, order, rec);
          items := items + [x];
          FilterAppend(y => InWindow(y, since, now), before, [x]);
          SeedStep(seeds, before, x, since, now);
          if ts <= now {
            if ts >= since {
              parsed := parsed + [x];
            } else if rec.service !in seeds || ts >= seeds[rec.service].ts {
              seeds := seeds[rec.service := x];
            }
          }
      }
    }
    assert records[..|records|] == records;
    var entries := SeedValues(seeds);
    IndexNumbered(read, records);
    GatherKept(items, parsed, entries, seeds, since, now);
    kept := Records(Sort(parsed + entries));
  }

  /** The values of `seeds` in whatever order the table yields them. */
  method SeedValues(seeds: map<string, Item>) returns (entries: seq<Item>)
    requires forall s :: s in seeds ==> seeds[s].rec.service == s
    ensures forall x :: x in entries <==> exists s :: s in seeds && seeds[s] == x
    ensures forall i, j :: 0 <= i < j < |entries| ==> entries[i] != entries[j]
  {
    entries := [];
    var left := seeds.Keys;
    while left != {}
      invariant left <= seeds.Keys
      invariant forall x :: x in entries <==> exists s :: s in seeds && s !in left && seeds[s] == x
      invariant forall i, j :: 0 <= i < j < |entries| ==> entries[i] != entries[j]
    {
      var s :| s in left;
      assert seeds[s] !in entries;
      entries := entries + [seeds[s]];
      left := left - {s};
    }
  }

  lemma GatherKept(items: seq<Item>, parsed: seq<Item>, entries: seq<Item>, seeds: map<string, Item>,
                   since: Instant, now: Instant)
    requires DistinctOrders(items) && SeedsOf(seeds, items, since, now)
    requires parsed == Filter(x => InWindow(x, since, now), items)
    requires forall x :: x in entries <==> exists s :: s in seeds && seeds[s] == x
    requires forall i, j :: 0 <= i < j < |entries| ==> entries[i] != entries[j]
    ensures Sort(parsed + entries) == Sort(KeptItems(items, since, now))
  {
    var p := x => InWindow(x, since, now);
    var k := x => Kept(items, since, now, x);
    FilterDistinctOrders(p, items);
    FilterDistinctOrders(k, items);
    forall x
      ensures x in parsed + entries <==> x in KeptItems(items, since, now)
    {
      FilterMember(p, items, x);
      FilterMember(k, items, x);
      SeedIsEntry(items, seeds, since, now, x);
    }
    EntriesDistinct(items, entries);
    forall x, y | x in parsed && y in entries
      ensures x.order != y.order
    {
      FilterMember(p, items, x);
      var s :| s in seeds && seeds[s] == y;
      if x.order == y.order { SameOrderSameItem(items, x, y); }
    }
    ConcatDistinct(parsed, entries);
    SortOfSameMembers(parsed + entries, KeptItems(items, since, now));
  }

  lemma ConcatDistinct(a: seq<Item>, b: seq<Item>)
    requires DistinctOrders(a) && DistinctOrders(b)
    requires forall x, y :: x in a && y in b ==> x.order != y.order
    ensures DistinctOrders(a + b)
  {
    forall i, j | 0 <= i < j < |a + b|
      ensures (a + b)[i].order != (a + b)[j].order
    {
      if i < |a| <= j {
        assert (a + b)[i] in a && (a + b)[j] in b;
      }
    }
  }

  lemma EntriesDistinct(items: seq<Item>, entries: seq<Item>)
    requires DistinctOrders(items) && forall x :: x in entries ==> x in items
    requires forall i, j :: 0 <= i < j < |entries| ==> entries[i] != entries[j]
    ensures DistinctOrders(entries)
  {
    forall i, j | 0 <= i < j < |entries|
      ensures entries[i].order != entries[j].order
    {
      assert entries[i] in items && entries[j] in items;
      if entries[i].order == entries[j].order { SameOrderSameItem(items, entries[i], entries[j]); }
    }
  }

  lemma SameOrderSameItem(items: seq<Item>, x: Item, y: Item)
    requires DistinctOrders(items) && x in items && y in items && x.order == y.order
    ensures x == y
  {
    var i :| 0 <= i < |items| && items[i] == x;
    var j :| 0 <= j < |items| && items[j] == y;
  }

  lemma SeedIsEntry(items: seq<Item>, seeds: map<string, Item>, since: Instant, now: Instant, x: Item)
    requires DistinctOrders(items) && SeedsOf(seeds, items, since, now)
    ensures (exists s :: s in seeds && seeds[s] == x) <==> x in items && IsSeed(items, since, now, x)
  {
    if x in items && IsSeed(items, since, now, x) {
      var y := seeds[x.rec.service];
      assert !Before(x, y) && !Before(y, x);
      SameOrderSameItem(items, x, y);
    }
  }
}
