/** What a reader misses once failed rotations have let a file grow past what is read of one: the exact condition. */
module LogLimits {
  import opened Prelude
  import opened Codecs
  import opened Splitting
  import opened Events
  import opened EventLog
  import opened EventReader

  ghost predicate ShortLines(print_: Printer, records: seq<EventRecord>) {
    forall i :: 0 <= i < |records| ==> |Line(print_, records[i])| <= THRESHOLD
  }

  lemma {:induction false} LinesAppend(print_: Printer, a: seq<EventRecord>, b: seq<EventRecord>)
    ensures Lines(print_, a + b) == Lines(print_, a) + Lines(print_, b)
  {
    if b == [] {
      assert a + b == a && Lines(print_, a) + [] == Lines(print_, a);
    } else {
      assert (a + b)[..|a + b| - 1] == a + b[..|b| - 1] && Last(a + b) == Last(b);
      LinesAppend(print_, a, b[..|b| - 1]);
    }
  }

  /** A prefix that ends a line is the lines of a prefix. */
  lemma CutInTwo(print_: Printer, records: seq<EventRecord>, lost: seq<Byte>, kept: seq<Byte>) returns (k: nat)
    requires forall r :: NEWLINE !in print_(r)
    requires Lines(print_, records) == lost + kept && EndsLine(lost)
    ensures k <= |records| && lost == Lines(print_, records[..k]) && kept == Lines(print_, records[k..])
  {
    k := CutAtLine(print_, records, lost, kept);
    LinesAppend(print_, records[..k], records[k..]);
    assert records[..k] + records[k..] == records;
    assert lost == (lost + kept)[..|lost|];
  }

  /** The first line of some lines is the first record's, whatever is behind it. */
  lemma FirstLine(print_: Printer, parse: Parser, records: seq<EventRecord>, earlier: seq<seq<Byte>>, later: seq<seq<Byte>>)
    requires SoundFormat(print_, parse) && records != [] && earlier != []
    requires SplitOn(Lines(print_, records), NEWLINE) == earlier + later
    ensures Parsed(parse, earlier) != []
  {
    var first, rest := [records[0]], records[1..];
    LinesAppend(print_, first, rest);
    assert records == first + rest;
    assert Lines(print_, first) == Line(print_, records[0]) by { assert first[..0] == []; }
    SplitPrefix(print_(records[0]), Lines(print_, rest), NEWLINE);
    hide Lines, SplitOn;
    assert Line(print_, records[0]) + Lines(print_, rest) == print_(records[0]) + [NEWLINE] + Lines(print_, rest);
    assert (earlier + later)[0] == earlier[0];
    assert earlier[0] == print_(records[0]);
    ParsedAppend(parse, [earlier[0]], earlier[1..]);
    assert [earlier[0]] + earlier[1..] == earlier;
    var one := [earlier[0]];
    assert one[..0] == [];
  }

  /** A file too big to be read whole is read without its first record. */
  lemma FirstIsLost(print_: Printer, parse: Parser, records: seq<EventRecord>)
    requires SoundFormat(print_, parse) && Distinct(records) && |Lines(print_, records)| > MAX_FILE_BYTES
    ensures records != [] && records[0] !in Capped(parse)(Lines(print_, records))
  {
    hide SplitOn, Parsed, Capped;
    var all := Lines(print_, records);
    assert records != [];
    hide Lines;
    var tail := BigRead(parse, all);
    LinesRead(print_, parse, records);
    var later := SplitOn(tail, NEWLINE)[1..];
    var earlier := TailLines(all[..|all| - |tail|], tail);
    FirstLine(print_, parse, records, earlier, later);
    ParsedAppend(parse, earlier, later);
    NotBehind(Parsed(parse, earlier), Capped(parse)(all), records);
  }

  lemma NotBehind(before: seq<EventRecord>, read: seq<EventRecord>, records: seq<EventRecord>)
    requires Distinct(records) && records == before + read && before != []
    ensures records[0] !in read
  {
    forall i | 0 <= i < |read|
      ensures read[i] != records[0]
    {
      assert records[|before| + i] == read[i];
    }
  }

  /** As long as lines are short, something is read of every file that holds anything. */
  lemma SomethingIsRead(print_: Printer, parse: Parser, records: seq<EventRecord>)
    requires SoundFormat(print_, parse) && ShortLines(print_, records) && records != []
    ensures Capped(parse)(Lines(print_, records)) != []
  {
    hide Capped, RecordsIn, Line;
    var all := Lines(print_, records);
    var rest, line := records[..|records| - 1], Line(print_, records[|records| - 1]);
    assert all == Lines(print_, rest) + line;
    hide Lines;
    LinesRead(print_, parse, records);
    LinesRead(print_, parse, rest);
    OneLine(print_, parse, Last(records));
    TailRecordsAre(parse, all);
    if |all| > MAX_FILE_BYTES { LastIsRead(parse, all, Lines(print_, rest), line); }
  }

  lemma LastIsRead(parse: Parser, all: seq<Byte>, earlier: seq<Byte>, line: seq<Byte>)
    requires all == earlier + line && EndsLine(earlier) && |all| > MAX_FILE_BYTES && |line| <= THRESHOLD
    requires RecordsIn(parse, line) != []
    ensures Capped(parse)(all) != []
  {
    hide SplitOn, Parsed;
    var u := TailText(all, earlier, line);
    SplitAppend(u, line, NEWLINE);
    var before := SplitOn(u, NEWLINE);
    assert (before + SplitOn(line, NEWLINE))[1..] == before[1..] + SplitOn(line, NEWLINE);
    ParsedAppend(parse, before[1..], SplitOn(line, NEWLINE));
  }

  lemma TailText(all: seq<Byte>, earlier: seq<Byte>, line: seq<Byte>) returns (u: seq<Byte>)
    requires all == earlier + line && EndsLine(earlier) && |all| > MAX_FILE_BYTES && |line| <= THRESHOLD
    ensures all[|all| - MAX_FILE_BYTES..|all|] == u + [NEWLINE] + line
  {
    var kept := earlier[|all| - MAX_FILE_BYTES..];
    assert all[|all| - MAX_FILE_BYTES..|all|] == kept + line;
    u := kept[..|kept| - 1];
    assert Last(kept) == Last(earlier) && kept == u + [NEWLINE];
  }

  lemma {:induction false} ReadAreThere(parse: Parser, blocks: seq<seq<Byte>>, r: EventRecord)
    requires r in Gather(Capped(parse), blocks)
    ensures r in Gather(Whole(parse), blocks)
  {
    if blocks != [] {
      TailRecordsAre(parse, Last(blocks));
      hide Capped, Whole;
      if r in Gather(Capped(parse), blocks[..|blocks| - 1]) { ReadAreThere(parse, blocks[..|blocks| - 1], r); }
    }
  }

  lemma ShortParts(print_: Printer, records: seq<EventRecord>, k: nat)
    requires ShortLines(print_, records) && k <= |records|
    ensures ShortLines(print_, records[..k]) && ShortLines(print_, records[k..])
  {
  }

  /** Something is read of files that hold anything. */
  lemma {:induction false} SomeAreRead(print_: Printer, parse: Parser, blocks: seq<seq<Byte>>, records: seq<EventRecord>)
    requires SoundFormat(print_, parse) && AllEndLines(blocks) && Concat(blocks) == Lines(print_, records)
    requires ShortLines(print_, records) && records != []
    ensures Gather(Capped(parse), blocks) != []
    decreases |blocks|
  {
    assert Lines(print_, records) != [] && blocks != [];
    var rest, last := blocks[..|blocks| - 1], Last(blocks);
    GatherMore(Capped(parse), blocks);
    ConcatEndsLine(rest);
    var k := CutInTwo(print_, records, Concat(rest), last);
    ShortParts(print_, records, k);
    hide *;
    if k > 0 {
      SomeAreRead(print_, parse, rest, records[..k]);
    } else {
      SomethingIsRead(print_, parse, records[k..]);
    }
  }

  lemma GatherMore(reading: Reading, blocks: seq<seq<Byte>>)
    requires blocks != []
    ensures Gather(reading, blocks[..|blocks| - 1]) != [] || reading(Last(blocks)) != [] ==> Gather(reading, blocks) != []
  {
  }

  /** The three parts of the text around file `j`, record by record. */
  lemma AroundFile(print_: Printer, blocks: seq<seq<Byte>>, records: seq<EventRecord>, j: nat) returns (p: nat, q: nat)
    requires forall r :: NEWLINE !in print_(r)
    requires AllEndLines(blocks) && Concat(blocks) == Lines(print_, records) && j < |blocks|
    ensures p <= q <= |records|
    ensures Concat(blocks[..j]) == Lines(print_, records[..p])
    ensures blocks[j] == Lines(print_, records[p..q])
    ensures Concat(blocks[j + 1..]) == Lines(print_, records[q..])
  {
    hide Concat, Lines;
    var before, after := Concat(blocks[..j]), Concat(blocks[j + 1..]);
    ConcatAround(blocks, j);
    ConcatEndsLine(blocks[..j]);
    p := CutInTwo(print_, records, before, blocks[j] + after);
    var n := CutInTwo(print_, records[p..], blocks[j], after);
    q := p + n;
    assert records[p..][..n] == records[p..q] && records[p..][n..] == records[q..];
  }

  lemma {:induction false} ConcatAppend(a: seq<seq<Byte>>, b: seq<seq<Byte>>)
    ensures Concat(a + b) == Concat(a) + Concat(b)
  {
    if b == [] {
      assert a + b == a && Concat(a) + [] == Concat(a);
    } else {
      assert (a + b)[..|a + b| - 1] == a + b[..|b| - 1];
      ConcatAppend(a, b[..|b| - 1]);
    }
  }

  lemma Around<T>(s: seq<T>, j: nat)
    requires j < |s|
    ensures s == s[..j] + ([s[j]] + s[j + 1..])
  {
  }

  lemma ConcatAround(blocks: seq<seq<Byte>>, j: nat)
    requires j < |blocks|
    ensures Concat(blocks) == Concat(blocks[..j]) + (blocks[j] + Concat(blocks[j + 1..]))
  {
    var before, one, after := blocks[..j], [blocks[j]], blocks[j + 1..];
    assert Concat(one) == blocks[j] by { assert one[..0] == []; }
    hide Concat;
    Around(blocks, j);
    ConcatAppend(before, one + after);
    ConcatAppend(one, after);
  }

  lemma GatherAround(reading: Reading, blocks: seq<seq<Byte>>, j: nat)
    requires j < |blocks|
    ensures Gather(reading, blocks) == Gather(reading, blocks[..j]) + (reading(blocks[j]) + Gather(reading, blocks[j + 1..]))
  {
    var before, one, after := blocks[..j], [blocks[j]], blocks[j + 1..];
    assert Gather(reading, one) == reading(blocks[j]) by { assert one[..0] == []; }
    hide Gather;
    Around(blocks, j);
    GatherAppend(reading, before, one + after);
    GatherAppend(reading, one, after);
  }

  /** If a file that is not the oldest one is too big, one of its records is missing between others. */
  lemma Gap(print_: Printer, parse: Parser, blocks: seq<seq<Byte>>, records: seq<EventRecord>, i: nat, j: nat) returns (p: nat)
    requires SoundFormat(print_, parse) && Distinct(records) && ShortLines(print_, records)
    requires AllEndLines(blocks) && Concat(blocks) == Lines(print_, records)
    requires i < j < |blocks| && blocks[i] != [] && |blocks[j]| > MAX_FILE_BYTES
    ensures var read := Gather(Capped(parse), blocks);
            && p < |records| && records[p] !in read
            && read != [] && read[0] in records[..p]
  {
    var q;
    p, q := AroundFile(print_, blocks, records, j);
    SubDistinct(records, 0, p);
    SubDistinct(records, p, q);
    SubDistinct(records, q, |records|);
    FirstIsLost(print_, parse, records[p..q]);
    HoldsSomething(print_, blocks[..j], records[..p], i);
    SomeAreRead(print_, parse, blocks[..j], records[..p]);
    GatherAround(Capped(parse), blocks, j);
    BlockRecords(print_, parse, blocks[..j], records[..p]);
    BlockRecords(print_, parse, blocks[j + 1..], records[q..]);
    hide *;
    NotElsewhere(records, p, q);
    Missing(Gather(Capped(parse), blocks[..j]), Capped(parse)(blocks[j]), Gather(Capped(parse), blocks[j + 1..]), records[p]);
  }

  lemma HoldsSomething(print_: Printer, blocks: seq<seq<Byte>>, records: seq<EventRecord>, i: nat)
    requires Concat(blocks) == Lines(print_, records) && i < |blocks| && blocks[i] != []
    ensures records != []
  {
    hide Concat;
    ConcatAround(blocks, i);
  }

  lemma Missing<T>(older: seq<T>, big: seq<T>, newer: seq<T>, x: T)
    requires older != [] && x !in older && x !in big && x !in newer
    ensures var read := older + (big + newer); read != [] && read[0] in older && x !in read
  {
  }

  lemma NotElsewhere(records: seq<EventRecord>, p: nat, q: nat)
    requires Distinct(records) && p < q <= |records|
    ensures records[p] !in records[..p] && records[p] !in records[q..]
  {
  }

  lemma SubDistinct(records: seq<EventRecord>, from: nat, to: nat)
    requires Distinct(records) && from <= to <= |records|
    ensures Distinct(records[from..to])
  {
  }

  /** What is read of some files are records they hold. */
  lemma BlockRecords(print_: Printer, parse: Parser, blocks: seq<seq<Byte>>, records: seq<EventRecord>)
    requires SoundFormat(print_, parse) && AllEndLines(blocks) && Concat(blocks) == Lines(print_, records)
    ensures forall r :: r in Gather(Capped(parse), blocks) ==> r in records
  {
    GatherWhole(parse, blocks);
    LinesRead(print_, parse, records);
    hide RecordsIn, Gather;
    forall r | r in Gather(Capped(parse), blocks)
      ensures r in records
    {
      ReadAreThere(parse, blocks, r);
    }
  }

  /** For distinct records and lines no longer than the threshold, the reader gets the last so many logged records
      exactly if no file but the oldest one has grown past 16 MiB. */
  lemma ExactlyWhenReadable(print_: Printer, parse: Parser, states: seq<Files>, records: seq<EventRecord>, fates: seq<Fate>)
    requires SoundFormat(print_, parse) && LoggedRun(print_, states, records, fates)
    requires Distinct(records) && ShortLines(print_, records)
    ensures Suffix(Gather(Capped(parse), Blocks(Last(states))), records) <==> OnlyOldestExceeds(Blocks(Last(states)))
  {
    hide Gather, Blocks, Cycle, Joined;
    var blocks := Blocks(Last(states));
    if OnlyOldestExceeds(blocks) {
      var k := LoggedThenRead(print_, parse, states, records, fates);
    } else {
      var i, j :| 0 <= i < j < |blocks| && blocks[i] != [] && |blocks[j]| > MAX_FILE_BYTES;
      var k := LogHoldsLines(print_, states, records, fates);
      JoinedIsConcat(Last(states));
      BlocksEndLines(Last(states));
      SubDistinct(records, k, |records|);
      var p := Gap(print_, parse, blocks, records[k..], i, j);
      assert records[k..][p] == records[k + p];
      NotASuffix(records, k, p, Gather(Capped(parse), blocks));
    }
  }

  lemma NotASuffix(records: seq<EventRecord>, k: nat, p: nat, read: seq<EventRecord>)
    requires Distinct(records) && k <= |records| && p < |records[k..]|
    requires records[k..][p] !in read && read != [] && read[0] in records[k..][..p]
    ensures !Suffix(read, records)
  {
    var m :| 0 <= m < p && records[k..][m] == read[0];
    assert records[k + m] == read[0] && records[k + p] !in read;
    forall i | 0 <= i < |read|
      ensures read[i] != records[k + p]
    {
    }
  }

  /** Failing rotations lead there: with `a` logged and rotated once, and every rotation failing from then on, all of
      `b` is in the active file, however much it is. */
  lemma StuckRun(print_: Printer, a: seq<EventRecord>, b: seq<EventRecord>) returns (states: seq<Files>, fates: seq<Fate>)
    requires a != [] && |Lines(print_, a)| >= THRESHOLD && b != []
    ensures LoggedRun(print_, states, a + b, fates)
    ensures Last(states) == map[1 := Lines(print_, a), 0 := Lines(print_, b)]
  {
    hide Lines, Line, Cycle;
    states := seq(|a + b| + 1, k requires 0 <= k <= |a + b| => StuckAt(print_, a, b, k));
    fates := seq(|a + b|, k => if k == |a| - 1 then Clean else Stuck);
    forall k | 0 <= k < |a + b|
      ensures Cycle(states[k], states[k + 1], Line(print_, (a + b)[k]), fates[k])
    {
      StuckStep(print_, a, b, k);
    }
    assert StuckAt(print_, a, b, |a + b|) == map[1 := Lines(print_, a), 0 := Lines(print_, b)] by { assert b[..|b|] == b; }
  }

  function StuckAt(print_: Printer, a: seq<EventRecord>, b: seq<EventRecord>, k: nat): Files
    requires k <= |a + b|
  {
    if k == 0 then map[]
    else if k < |a| then map[0 := Lines(print_, a[..k])]
    else if k == |a| then map[1 := Lines(print_, a)]
    else map[1 := Lines(print_, a), 0 := Lines(print_, b[..k - |a|])]
  }

  lemma LinesStep(print_: Printer, records: seq<EventRecord>, k: nat)
    requires k < |records|
    ensures Lines(print_, records[..k + 1]) == Lines(print_, records[..k]) + Line(print_, records[k])
  {
    assert records[..k + 1][..k] == records[..k];
  }

  lemma StuckStep(print_: Printer, a: seq<EventRecord>, b: seq<EventRecord>, k: nat)
    requires a != [] && |Lines(print_, a)| >= THRESHOLD && k < |a + b|
    ensures Cycle(StuckAt(print_, a, b, k), StuckAt(print_, a, b, k + 1), Line(print_, (a + b)[k]),
                  if k == |a| - 1 then Clean else Stuck)
  {
    hide Line;
    var before, after := StuckAt(print_, a, b, k), StuckAt(print_, a, b, k + 1);
    if k < |a| {
      LinesStep(print_, a, k);
      FirstStep(before, Lines(print_, a[..k]), Line(print_, a[k]), k == 0);
      assert k == |a| - 1 ==> a[..k + 1] == a;
    } else {
      LinesStep(print_, b, k - |a|);
      SecondStep(before, Lines(print_, a), Lines(print_, b[..k - |a|]), Line(print_, b[k - |a|]), k == |a|);
    }
  }

  lemma FirstStep(before: Files, text: seq<Byte>, line: seq<Byte>, first: bool)
    requires before == if first then map[] else map[0 := text]
    requires first ==> text == []
    ensures Cycle(before, map[0 := text + line], line, Stuck)
    ensures |text + line| >= THRESHOLD ==> Cycle(before, map[1 := text + line], line, Clean)
  {
    assert Appended(before, line) == map[0 := text + line];
    assert Rotation(map[0 := text + line]) == map[1 := text + line];
  }

  lemma SecondStep(before: Files, old_: seq<Byte>, text: seq<Byte>, line: seq<Byte>, first: bool)
    requires before == if first then map[1 := old_] else map[1 := old_, 0 := text]
    requires first ==> text == []
    ensures Cycle(before, map[1 := old_, 0 := text + line], line, Stuck)
  {
    assert Appended(before, line) == map[1 := old_, 0 := text + line];
  }

  /** So there are runs of completed appends after which the reader's records are not the end of what was logged. */
  lemma StuckRunLoses(print_: Printer, parse: Parser, a: seq<EventRecord>, b: seq<EventRecord>)
    returns (states: seq<Files>, fates: seq<Fate>)
    requires SoundFormat(print_, parse) && Distinct(a + b) && ShortLines(print_, a + b)
    requires a != [] && |Lines(print_, a)| >= THRESHOLD && |Lines(print_, b)| > MAX_FILE_BYTES
    ensures LoggedRun(print_, states, a + b, fates)
    ensures !Suffix(Gather(Capped(parse), Blocks(Last(states))), a + b)
  {
    assert b != [];
    states, fates := StuckRun(print_, a, b);
    hide LoggedRun;
    assert Blocks(Last(states))[3] == Lines(print_, a) && Blocks(Last(states))[4] == Lines(print_, b);
    ExactlyWhenReadable(print_, parse, states, a + b, fates);
  }

  const ENOUGH: nat := THRESHOLD + MAX_FILE_BYTES + 1

  lemma {:induction false} LinesAtLeast(print_: Printer, records: seq<EventRecord>)
    ensures |Lines(print_, records)| >= |records|
  {
    if records != [] { LinesAtLeast(print_, records[..|records| - 1]); }
  }

  function Numbered(family: nat -> EventRecord, n: nat): seq<EventRecord> { seq(n, i requires 0 <= i => family(i)) }

  /** Enough different records with short lines are all it takes. */
  lemma SomeRunLoses(print_: Printer, parse: Parser, family: nat -> EventRecord)
    returns (records: seq<EventRecord>, states: seq<Files>, fates: seq<Fate>)
    requires SoundFormat(print_, parse)
    requires forall i, j :: 0 <= i < j < ENOUGH ==> family(i) != family(j)
    requires forall i :: 0 <= i < ENOUGH ==> |Line(print_, family(i))| <= THRESHOLD
    ensures LoggedRun(print_, states, records, fates) && Distinct(records) && ShortLines(print_, records)
    ensures !Suffix(Gather(Capped(parse), Blocks(Last(states))), records)
  {
    records := Numbered(family, ENOUGH);
    var a, b := records[..THRESHOLD], records[THRESHOLD..];
    assert records == a + b;
    assert Distinct(records) && ShortLines(print_, records);
    LinesAtLeast(print_, a);
    LinesAtLeast(print_, b);
    hide Lines, Line, Distinct, ShortLines, SoundFormat, LoggedRun, Gather, Blocks, Capped, Numbered;
    states, fates := StuckRunLoses(print_, parse, a, b);
  }
}
