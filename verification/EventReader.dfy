/** Reading the retained event log back: bounded tails, one file after the other, oldest first. */
module EventReader {
  import opened Prelude
  import opened Codecs
  import opened Splitting
  import opened Events
  import opened EventLog

  const NEWLINE: Byte := 10
  const MAX_FILE_BYTES: nat := 16 * 1024 * 1024

  type Parser = seq<Byte> -> Option<EventRecord>

  type Printer = EventRecord -> seq<Byte>

  /** What the model relies on: a printed record is one line that parses to that record, and an empty line does not parse. */
  ghost predicate SoundFormat(print_: Printer, parse: Parser) {
    parse([]) == None && forall r :: NEWLINE !in print_(r) && parse(print_(r)) == Some(r)
  }

  // -- One file ---------------------------------------------------------------------------------

  function Parsed(parse: Parser, lines: seq<seq<Byte>>): seq<EventRecord> {
    if lines == [] then []
    else Parsed(parse, lines[..|lines| - 1]) + match parse(Last(lines)) case Some(r) => [r] case None => []
  }

  function RecordsIn(parse: Parser, bytes: seq<Byte>): seq<EventRecord> { Parsed(parse, SplitOn(bytes, NEWLINE)) }

  /** Where a tail of at most `budget` bytes starts; UTF-16 text is not cut inside a unit. */
  function TailStart(len: nat, budget: nat, utf16: bool): nat {
    var start := Max(0, len - budget);
    if utf16 && start % 2 != 0 then start + 1 else start
  }

  /** Reads the tail of a file whose length was `len` when it was asked; it may have grown or shrunk since. */
  method ReadTail(content: seq<Byte>, len: nat, budget: nat, utf16: bool) returns (bytes: seq<Byte>, partial: bool)
    ensures |bytes| <= budget
    ensures var start := TailStart(len, budget, utf16);
            bytes == content[Min(start, |content|)..Min(Max(start, len), |content|)]
    ensures partial <==> len > budget
    ensures len == |content| && !partial ==> bytes == content
  {
    var start := if len >= budget then len - budget else 0;
    if utf16 && start % 2 != 0 { start := start + 1; }
    var available := if start <= |content| then content[start..] else [];
    var count := Min(if len >= start then len - start else 0, budget);
    bytes := if count <= |available| then available[..count] else available;
    partial := start > 0;
    assert start == TailStart(len, budget, utf16) && start + count == Max(start, len);
    Slice(content, start, Min(start + count, |content|));
  }

  lemma Slice(s: seq<Byte>, from: nat, to: nat)
    requires to <= |s|
    ensures from <= to ==> s[from..][..to - from] == s[from..to]
  {
  }

  /** The records read of a file: those of its tail, without the tail's first line if there is something before it. */
  function TailRecords(parse: Parser, content: seq<Byte>, len: nat, budget: nat): seq<EventRecord> {
    var start := TailStart(len, budget, false);
    var lines := SplitOn(content[Min(start, |content|)..Min(Max(start, len), |content|)], NEWLINE);
    Parsed(parse, if len > budget then lines[1..] else lines)
  }

  method ReadRecords(parse: Parser, content: seq<Byte>, len: nat, budget: nat) returns (records: seq<EventRecord>)
    ensures records == TailRecords(parse, content, len, budget)
  {
    var tail, partial := ReadTail(content, len, budget, false);
    var lines := SplitOn(tail, NEWLINE);
    if partial { lines := lines[1..]; }
    records := [];
    for i := 0 to |lines|
      invariant records == Parsed(parse, lines[..i])
    {
      assert lines[..i + 1][..i] == lines[..i];
      var r := parse(lines[i]);
      if r.Some? { records := records + [r.value]; }
    }
    assert lines[..|lines|] == lines;
  }

  /** What is read of a file of at most 16 MiB are all its records; of a bigger one, some of the last. */
  lemma TailRecordsAre(parse: Parser, content: seq<Byte>)
    ensures Suffix(Capped(parse)(content), Whole(parse)(content))
    ensures |content| <= MAX_FILE_BYTES ==> Capped(parse)(content) == Whole(parse)(content)
  {
    hide SplitOn, Parsed;
    if |content| <= MAX_FILE_BYTES {
      assert content[0..|content|] == content;
      assert RecordsIn(parse, content)[0..] == RecordsIn(parse, content);
    } else {
      var start := |content| - MAX_FILE_BYTES;
      var tail := content[start..];
      assert content[start..|content|] == tail && content == content[..start] + tail;
      TailIsSuffix(parse, content[..start], tail);
    }
  }

  /** What is read of a file that is too big. */
  lemma BigRead(parse: Parser, all: seq<Byte>) returns (tail: seq<Byte>)
    requires |all| > MAX_FILE_BYTES
    ensures |tail| == MAX_FILE_BYTES && all == all[..|all| - |tail|] + tail
    ensures Capped(parse)(all) == Parsed(parse, SplitOn(tail, NEWLINE)[1..])
  {
    hide SplitOn, Parsed;
    tail := all[|all| - MAX_FILE_BYTES..];
    assert all[|all| - MAX_FILE_BYTES..|all|] == tail;
  }

  /** Nothing more is left out than the line the tail begins in: the records of all lines that begin within the last
      16 MiB are read. */
  lemma TailKeepsAll(parse: Parser, head: seq<Byte>, rest: seq<Byte>)
    requires |rest| < 16 * 1024 * 1024
    ensures Suffix(RecordsIn(parse, rest), Capped(parse)(head + [NEWLINE] + rest))
  {
    var content := head + [NEWLINE] + rest;
    if |content| <= MAX_FILE_BYTES {
      SmallRead(parse, content);
      hide *;
      LinesOfTwo(parse, head, rest);
    } else {
      var tail := BigRead(parse, content);
      hide *;
      var before := CutTail(head, rest, tail);
      LinesOfTwo(parse, before, rest);
    }
  }

  lemma SmallRead(parse: Parser, content: seq<Byte>)
    requires |content| <= MAX_FILE_BYTES
    ensures Capped(parse)(content) == Parsed(parse, SplitOn(content, NEWLINE))
  {
    TailRecordsAre(parse, content);
    hide SplitOn, Parsed, Capped;
  }

  lemma CutTail(head: seq<Byte>, rest: seq<Byte>, tail: seq<Byte>) returns (before: seq<Byte>)
    requires var content := head + [NEWLINE] + rest; |rest| < |tail| <= |content| && content == content[..|content| - |tail|] + tail
    ensures tail == before + [NEWLINE] + rest
  {
    var content := head + [NEWLINE] + rest;
    var start := |content| - |tail|;
    before := head[start..];
    assert tail == content[start..];
  }

  /** The records behind a newline come last, whether the first line counts or not. */
  lemma LinesOfTwo(parse: Parser, before: seq<Byte>, rest: seq<Byte>)
    ensures var lines := SplitOn(before + [NEWLINE] + rest, NEWLINE);
            && Suffix(RecordsIn(parse, rest), Parsed(parse, lines))
            && Suffix(RecordsIn(parse, rest), Parsed(parse, lines[1..]))
  {
    SplitAppend(before, rest, NEWLINE);
    hide SplitOn, Parsed;
    var a, b := SplitOn(before, NEWLINE), SplitOn(rest, NEWLINE);
    assert (a + b)[1..] == a[1..] + b;
    ParsedAppend(parse, a, b);
    ParsedAppend(parse, a[1..], b);
  }

  /** A tail starts with the budget's bytes, or one later so as not to cut a UTF-16 unit. */
  lemma TailStartIs(len: nat, budget: nat, utf16: bool)
    ensures var start := TailStart(len, budget, utf16);
            && start + budget >= len && (utf16 ==> start % 2 == 0)
            && (len <= budget ==> start == 0)
            && (len > budget ==> start + budget <= len + if utf16 && (len - budget) % 2 == 1 then 1 else 0)
  {
  }

  lemma {:induction false} ParsedAppend(parse: Parser, a: seq<seq<Byte>>, b: seq<seq<Byte>>)
    ensures Parsed(parse, a + b) == Parsed(parse, a) + Parsed(parse, b)
  {
    if b == [] {
      assert a + b == a;
    } else {
      assert (a + b)[..|a + b| - 1] == a + b[..|b| - 1];
      ParsedAppend(parse, a, b[..|b| - 1]);
    }
  }

  /** The lines behind the first, possibly cut, line of a tail are lines of the whole. */
  lemma {:induction false} TailLines(head: seq<Byte>, tail: seq<Byte>) returns (earlier: seq<seq<Byte>>)
    ensures SplitOn(head + tail, NEWLINE) == earlier + SplitOn(tail, NEWLINE)[1..] && earlier != []
  {
    if head == [] {
      assert head + tail == tail;
      earlier := SplitOn(tail, NEWLINE)[..1];
    } else {
      var before := TailLines(head[1..], tail);
      assert (head + tail)[0] == head[0] && (head + tail)[1..] == head[1..] + tail;
      GrowAppend(head[0], NEWLINE, before, SplitOn(tail, NEWLINE)[1..]);
      earlier := Grow(head[0], NEWLINE, before);
    }
  }

  lemma TailIsSuffix(parse: Parser, head: seq<Byte>, tail: seq<Byte>)
    ensures Suffix(Parsed(parse, SplitOn(tail, NEWLINE)[1..]), RecordsIn(parse, head + tail))
  {
    var earlier := TailLines(head, tail);
    ParsedAppend(parse, earlier, SplitOn(tail, NEWLINE)[1..]);
  }

  // -- All files --------------------------------------------------------------------------------------

  type Reading = seq<Byte> -> seq<EventRecord>

  /** All records of a file. */
  function Whole(parse: Parser): Reading { (content: seq<Byte>) => RecordsIn(parse, content) }

  /** The records the reader takes from a file. */
  function Capped(parse: Parser): Reading {
    (content: seq<Byte>) => TailRecords(parse, content, |content|, MAX_FILE_BYTES)
  }

  function Gather(reading: Reading, blocks: seq<seq<Byte>>): seq<EventRecord> {
    if blocks == [] then [] else Gather(reading, blocks[..|blocks| - 1]) + reading(Last(blocks))
  }

  /** The files, oldest first. */
  function Blocks(files: Files): seq<seq<Byte>> {
    [Content(files, 4), Content(files, 3), Content(files, 2), Content(files, 1), Content(files, 0)]
  }

  /** Missing files are skipped; any other failure ends the reading. */
  method ReadAll(parse: Parser, files: Files) returns (r: Result<seq<EventRecord>, ()>)
    requires parse([]) == None
    ensures r.Ok? ==> r.value == Gather(Capped(parse), Blocks(files))
  {
    hide *;
    var records: seq<EventRecord> := [];
    ghost var blocks := Blocks(files);
    ReadNothing(parse, files);
    for i := 0 to BACKUPS + 1
      invariant records == Gather(Capped(parse), blocks[..i])
    {
      var n := BACKUPS - i;
      ReadStep(parse, files, i);
      if n in files {
        if * { return Err(()); }
        var more := ReadRecords(parse, files[n], |files[n]|, MAX_FILE_BYTES);
        records := records + more;
      }
    }
    return Ok(records);
  }

  lemma ReadNothing(parse: Parser, files: Files)
    ensures |Blocks(files)| == BACKUPS + 1 && Blocks(files)[..BACKUPS + 1] == Blocks(files)
    ensures Gather(Capped(parse), Blocks(files)[..0]) == []
  {
  }

  /** What the next file adds to the records read so far. */
  lemma ReadStep(parse: Parser, files: Files, i: nat)
    requires parse([]) == None && i <= BACKUPS < |Blocks(files)|
    ensures var (blocks, n) := (Blocks(files), BACKUPS - i);
            Gather(Capped(parse), blocks[..i + 1]) ==
            if n in files
            then Gather(Capped(parse), blocks[..i]) + TailRecords(parse, files[n], |files[n]|, MAX_FILE_BYTES)
            else Gather(Capped(parse), blocks[..i])
  {
    var n := BACKUPS - i;
    NothingRead(parse);
    BlocksAre(files);
    GatherStep(Capped(parse), Blocks(files), i);
    if n in files { CappedIs(parse, files, n); } else { MissingIs(files, n); }
    hide *;
    NothingMore(Gather(Capped(parse), Blocks(files)[..i]));
  }

  lemma NothingMore(records: seq<EventRecord>)
    ensures records + [] == records
  {
  }

  lemma CappedIs(parse: Parser, files: Files, n: nat)
    requires n in files
    ensures Capped(parse)(Content(files, n)) == TailRecords(parse, files[n], |files[n]|, MAX_FILE_BYTES)
  {
  }

  lemma MissingIs(files: Files, n: nat)
    requires n !in files
    ensures Content(files, n) == []
  {
  }

  lemma BlocksAre(files: Files)
    ensures |Blocks(files)| == BACKUPS + 1 && forall i :: 0 <= i <= BACKUPS ==> Blocks(files)[i] == Content(files, BACKUPS - i)
  {
  }

  lemma GatherStep(reading: Reading, blocks: seq<seq<Byte>>, i: nat)
    requires i < |blocks|
    ensures Gather(reading, blocks[..i + 1]) == Gather(reading, blocks[..i]) + reading(blocks[i])
  {
    assert blocks[..i + 1][..i] == blocks[..i];
  }

  lemma NothingRead(parse: Parser)
    requires parse([]) == None
    ensures Capped(parse)([]) == [] == Whole(parse)([])
  {
    NoRecords(parse);
    TailRecordsAre(parse, []);
  }

  lemma {:induction false} GatherAppend(reading: Reading, a: seq<seq<Byte>>, b: seq<seq<Byte>>)
    ensures Gather(reading, a + b) == Gather(reading, a) + Gather(reading, b)
  {
    if b == [] {
      assert a + b == a;
    } else {
      assert (a + b)[..|a + b| - 1] == a + b[..|b| - 1];
      GatherAppend(reading, a, b[..|b| - 1]);
    }
  }

  lemma NoRecords(parse: Parser)
    ensures RecordsIn(parse, []) == match parse([]) case Some(r) => [r] case None => []
  {
    var one: seq<seq<Byte>> := [[]];
    assert one[..0] == [];
  }

  // -- Reading what has been written -----------------------------------------------------------------

  predicate EndsLine(bytes: seq<Byte>) { bytes == [] || Last(bytes) == NEWLINE }

  /** Every file ends with a whole line. */
  predicate WholeFiles(files: Files) { forall n :: n in files ==> EndsLine(files[n]) }

  lemma RecordsAppend(parse: Parser, a: seq<Byte>, b: seq<Byte>)
    requires parse([]) == None && EndsLine(a)
    ensures RecordsIn(parse, a + b) == RecordsIn(parse, a) + RecordsIn(parse, b)
  {
    hide SplitOn, Parsed;
    if a == [] {
      assert a + b == b;
      NoRecords(parse);
    } else {
      var line := a[..|a| - 1];
      assert a == line + [NEWLINE] + [] && a + b == line + [NEWLINE] + b;
      SplitAppend(line, b, NEWLINE);
      SplitAppend(line, [], NEWLINE);
      ParsedAppend(parse, SplitOn(line, NEWLINE), SplitOn(b, NEWLINE));
      ParsedAppend(parse, SplitOn(line, NEWLINE), SplitOn([], NEWLINE));
      NoRecords(parse);
    }
  }

  function Concat(blocks: seq<seq<Byte>>): seq<Byte> {
    if blocks == [] then [] else Concat(blocks[..|blocks| - 1]) + Last(blocks)
  }

  predicate AllEndLines(blocks: seq<seq<Byte>>) { forall i :: 0 <= i < |blocks| ==> EndsLine(blocks[i]) }

  lemma {:induction false} ConcatEndsLine(blocks: seq<seq<Byte>>)
    requires AllEndLines(blocks)
    ensures EndsLine(Concat(blocks))
  {
    if blocks != [] {
      ConcatEndsLine(blocks[..|blocks| - 1]);
    }
  }

  /** No line spans two files, so reading whole files one by one is reading their text. */
  lemma {:induction false} GatherWhole(parse: Parser, blocks: seq<seq<Byte>>)
    requires parse([]) == None && AllEndLines(blocks)
    ensures Gather(Whole(parse), blocks) == RecordsIn(parse, Concat(blocks))
  {
    hide RecordsIn;
    if blocks == [] {
      NothingRead(parse);
    } else {
      var rest := blocks[..|blocks| - 1];
      GatherWhole(parse, rest);
      ConcatEndsLine(rest);
      RecordsAppend(parse, Concat(rest), Last(blocks));
    }
  }

  lemma JoinedIsConcat(files: Files)
    ensures Concat(Blocks(files)) == Joined(files)
  {
    var c4, c3, c2, c1, c0 := Content(files, 4), Content(files, 3), Content(files, 2), Content(files, 1), Content(files, 0);
    var one := [c4];
    assert one[..0] == [] && Concat(one) == c4;
    assert Concat([c4, c3]) == c4 + c3 by { assert [c4, c3][..1] == one; }
    assert Concat([c4, c3, c2]) == c4 + c3 + c2 by { assert [c4, c3, c2][..2] == [c4, c3]; }
    assert Concat([c4, c3, c2, c1]) == c4 + c3 + c2 + c1 by { assert [c4, c3, c2, c1][..3] == [c4, c3, c2]; }
    assert Blocks(files)[..4] == [c4, c3, c2, c1];
  }

  lemma BlocksEndLines(files: Files)
    requires WholeFiles(files)
    ensures AllEndLines(Blocks(files))
  {
    forall i | 0 <= i < |Blocks(files)|
      ensures EndsLine(Blocks(files)[i])
    {
      assert Blocks(files)[i] == Content(files, BACKUPS - i);
    }
  }

  /** Reading whole files one by one finds the records of the log as one text. */
  lemma ReaderSeesTheLog(parse: Parser, files: Files)
    requires parse([]) == None && WholeFiles(files)
    ensures Gather(Whole(parse), Blocks(files)) == RecordsIn(parse, Joined(files))
  {
    hide RecordsIn, Gather;
    JoinedIsConcat(files);
    BlocksEndLines(files);
    GatherWhole(parse, Blocks(files));
  }

  // -- What the cap loses -------------------------------------------------------------------------------

  /** Only the oldest file there is may be bigger than what is read of one. */
  predicate OnlyOldestExceeds(blocks: seq<seq<Byte>>) {
    forall i, j :: 0 <= i < j < |blocks| && blocks[i] != [] ==> |blocks[j]| <= MAX_FILE_BYTES
  }

  lemma {:induction false} OldestCapped(parse: Parser, blocks: seq<seq<Byte>>)
    requires parse([]) == None && OnlyOldestExceeds(blocks)
    ensures Suffix(Gather(Capped(parse), blocks), Gather(Whole(parse), blocks))
    ensures (forall i :: 0 <= i < |blocks| ==> |blocks[i]| <= MAX_FILE_BYTES) ==>
              Gather(Capped(parse), blocks) == Gather(Whole(parse), blocks)
  {
    if blocks != [] {
      var rest, last := blocks[..|blocks| - 1], Last(blocks);
      OldestCapped(parse, rest);
      TailRecordsAre(parse, last);
      hide Capped, Whole, Suffix;
      if |last| <= MAX_FILE_BYTES {
        SuffixAppend(Gather(Capped(parse), rest), Gather(Whole(parse), rest), Capped(parse)(last));
      } else {
        assert forall i :: 0 <= i < |rest| ==> rest[i] == [];
        NothingGathered(parse, rest);
        assert [] + Capped(parse)(last) == Capped(parse)(last) && [] + Whole(parse)(last) == Whole(parse)(last);
      }
    }
  }

  lemma SuffixAppend<T>(s: seq<T>, t: seq<T>, more: seq<T>)
    requires Suffix(s, t)
    ensures Suffix(s + more, t + more)
  {
    assert t == t[..|t| - |s|] + s;
    assert t + more == t[..|t| - |s|] + (s + more);
  }

  lemma {:induction false} NothingGathered(parse: Parser, blocks: seq<seq<Byte>>)
    requires parse([]) == None && forall i :: 0 <= i < |blocks| ==> blocks[i] == []
    ensures Gather(Capped(parse), blocks) == [] == Gather(Whole(parse), blocks)
  {
    if blocks != [] {
      NothingGathered(parse, blocks[..|blocks| - 1]);
      NothingRead(parse);
    }
  }

  predicate Distinct(records: seq<EventRecord>) { forall i, j :: 0 <= i < j < |records| ==> records[i] != records[j] }

  function Line(print_: Printer, r: EventRecord): seq<Byte> { print_(r) + [NEWLINE] }

  function Lines(print_: Printer, records: seq<EventRecord>): seq<Byte> {
    if records == [] then [] else Lines(print_, records[..|records| - 1]) + Line(print_, Last(records))
  }

  /** A run of completed appends from an empty directory; rotations may fail. */
  ghost predicate LoggedRun(print_: Printer, states: seq<Files>, records: seq<EventRecord>, fates: seq<Fate>) {
    && |states| == |records| + 1 && |fates| == |records| && states[0] == map[]
    && forall k :: 0 <= k < |records| ==>
         fates[k] != Torn && Cycle(states[k], states[k + 1], Line(print_, records[k]), fates[k])
  }

  lemma {:induction false} LinesRead(print_: Printer, parse: Parser, records: seq<EventRecord>)
    requires SoundFormat(print_, parse)
    ensures RecordsIn(parse, Lines(print_, records)) == records && EndsLine(Lines(print_, records))
  {
    if records == [] {
      NoRecords(parse);
    } else {
      var rest, r := records[..|records| - 1], Last(records);
      var earlier, line := Lines(print_, rest), Line(print_, r);
      LinesRead(print_, parse, rest);
      OneLine(print_, parse, r);
      assert Last(earlier + line) == NEWLINE;
      assert Lines(print_, records) == earlier + line && rest + [r] == records;
      hide RecordsIn, Lines, Line;
      RecordsAppend(parse, earlier, line);
    }
  }

  lemma OneLine(print_: Printer, parse: Parser, r: EventRecord)
    requires SoundFormat(print_, parse)
    ensures RecordsIn(parse, Line(print_, r)) == [r]
  {
    var line := print_(r);
    assert Line(print_, r) == line + [NEWLINE] + [];
    SplitPrefix(line, [], NEWLINE);
    ParsedAppend(parse, [line], SplitOn([], NEWLINE));
    NoRecords(parse);
    var one := [line];
    assert one[..0] == [];
  }

  /** Wholeness of the files survives a cycle. */
  lemma StillWhole(before: Files, after: Files, line: seq<Byte>, fate: Fate)
    requires WholeFiles(before) && fate != Torn && Cycle(before, after, line, fate) && EndsLine(line) && line != []
    ensures WholeFiles(after)
  {
    CycleSourced(before, after, line, fate);
    hide Cycle;
    var middle := Appended(before, line);
    forall n | n in after
      ensures EndsLine(after[n])
    {
      assert At(after, n) == At(middle, n) || At(after, n) == At(middle, n - 1);
      assert Last(Content(before, 0) + line) == Last(line);
    }
  }

  /** What is gone is a number of whole lines. */
  lemma {:induction false} CutAtLine(print_: Printer, records: seq<EventRecord>, lost: seq<Byte>,
                                     kept: seq<Byte>) returns (k: nat)
    requires forall r :: NEWLINE !in print_(r)
    requires Lines(print_, records) == lost + kept && EndsLine(lost)
    ensures k <= |records| && kept == Lines(print_, records[k..])
  {
    if records == [] {
      k := 0;
    } else if kept == [] {
      k := |records|;
      assert records[k..] == [];
    } else {
      var rest, r := records[..|records| - 1], Last(records);
      var line := Line(print_, r);
      var cut := |Lines(print_, rest)|;
      assert lost + kept == Lines(print_, rest) + line;
      InsideLine(print_(r), lost, kept, Lines(print_, rest));
      CutBefore(lost, kept, Lines(print_, rest), line);
      k := CutAtLine(print_, rest, lost, kept[..cut - |lost|]);
      LinesBehind(print_, records, k);
    }
  }

  lemma LinesBehind(print_: Printer, records: seq<EventRecord>, k: nat)
    requires k < |records|
    ensures Lines(print_, records[k..]) == Lines(print_, records[..|records| - 1][k..]) + Line(print_, Last(records))
  {
    assert records[k..][..|records[k..]| - 1] == records[..|records| - 1][k..] && Last(records[k..]) == Last(records);
  }

  lemma CutBefore(lost: seq<Byte>, kept: seq<Byte>, earlier: seq<Byte>, line: seq<Byte>)
    requires lost + kept == earlier + line && |lost| <= |earlier|
    ensures earlier == lost + kept[..|earlier| - |lost|] && kept == kept[..|earlier| - |lost|] + line
  {
    assert earlier == (lost + kept)[..|earlier|] && line == (lost + kept)[|earlier|..];
  }

  /** A cut inside a line does not end one. */
  lemma InsideLine(text: seq<Byte>, lost: seq<Byte>, kept: seq<Byte>, earlier: seq<Byte>)
    requires NEWLINE !in text && lost + kept == earlier + (text + [NEWLINE]) && kept != [] && EndsLine(lost)
    ensures |lost| <= |earlier|
  {
    if lost != [] { assert (lost + kept)[|lost| - 1] == NEWLINE; }
  }

  lemma {:induction false} LogHoldsLines(print_: Printer, states: seq<Files>, records: seq<EventRecord>,
                                         fates: seq<Fate>) returns (k: nat)
    requires LoggedRun(print_, states, records, fates) && forall r :: NEWLINE !in print_(r)
    ensures OnlyLogs(Last(states)) && WholeFiles(Last(states))
    ensures k <= |records| && Joined(Last(states)) == Lines(print_, records[k..])
  {
    hide Joined, Cycle, Lines;
    var n := |records|;
    if n == 0 {
      k := 0;
      NothingJoined(print_);
    } else {
      var before, after, line, fate := states[n - 1], states[n], Line(print_, records[n - 1]), fates[n - 1];
      assert Last(states[..n]) == before;
      k := LogHoldsLines(print_, states[..n], records[..n - 1], fates[..n - 1]);
      StillWhole(before, after, line, fate);
      LinesBehind(print_, records, k);
      var lost := CycleDrops(before, after, line, fate);
      var j := CutAtLine(print_, records[k..], lost, Joined(after));
      assert records[k..][j..] == records[k + j..];
      k := k + j;
    }
  }

  lemma NothingJoined(print_: Printer)
    ensures Joined(map[]) == [] == Lines(print_, [])
  {
  }

  lemma WholeLog(print_: Printer, parse: Parser, states: seq<Files>, records: seq<EventRecord>,
                 fates: seq<Fate>) returns (k: nat)
    requires SoundFormat(print_, parse) && LoggedRun(print_, states, records, fates)
    ensures OnlyLogs(Last(states)) && k <= |records| && Gather(Whole(parse), Blocks(Last(states))) == records[k..]
  {
    hide Joined, RecordsIn, Gather, Cycle;
    k := LogHoldsLines(print_, states, records, fates);
    ReaderSeesTheLog(parse, Last(states));
    LinesRead(print_, parse, records[k..]);
  }

  /** After any run of completed appends, whichever rotations failed: unless a file other than the oldest one has
      grown past 16 MiB, the reader gets exactly the last so many of the logged records, in the order they were logged. */
  lemma LoggedThenRead(print_: Printer, parse: Parser, states: seq<Files>, records: seq<EventRecord>,
                       fates: seq<Fate>) returns (k: nat)
    requires SoundFormat(print_, parse) && LoggedRun(print_, states, records, fates)
    requires OnlyOldestExceeds(Blocks(Last(states)))
    ensures k <= |records| && Gather(Capped(parse), Blocks(Last(states))) == records[k..]
  {
    hide Gather, Blocks, Cycle;
    var all := WholeLog(print_, parse, states, records, fates);
    OldestCapped(parse, Blocks(Last(states)));
    var read := Gather(Capped(parse), Blocks(Last(states)));
    k := |records| - |read|;
    assert records[all..][|records[all..]| - |read|..] == records[k..];
  }

  /** If nothing fails and no line is longer than the threshold, no file ever exceeds what is read of one, and
      everything that has not been rotated away is read. */
  lemma CleanRunIsRead(print_: Printer, parse: Parser, states: seq<Files>, records: seq<EventRecord>,
                       fates: seq<Fate>) returns (k: nat)
    requires SoundFormat(print_, parse) && LoggedRun(print_, states, records, fates)
    requires forall j :: 0 <= j < |records| ==> fates[j] == Clean && |Line(print_, records[j])| <= THRESHOLD
    ensures OnlyOldestExceeds(Blocks(Last(states)))
    ensures k <= |records| && Gather(Capped(parse), Blocks(Last(states))) == records[k..]
    ensures Joined(Last(states)) == Lines(print_, records[k..])
    ensures |Lines(print_, records[k..])| >= Min(|Lines(print_, records)|, BACKUPS * THRESHOLD)
  {
    hide Gather, Cycle, Lines, Joined, Line;
    var files := Last(states);
    var written := seq(|records|, i requires 0 <= i < |records| => Line(print_, records[i]));
    SizesAreBounded(states, written, fates, THRESHOLD);
    SmallBlocks(files);
    EnoughIsRetained(states, written, fates);
    TotalIsLines(print_, records, written);
    k := LogHoldsLines(print_, states, records, fates);
    ReaderSeesTheLog(parse, files);
    hide RecordsIn;
    LinesRead(print_, parse, records[k..]);
    OldestCapped(parse, Blocks(files));
  }

  lemma SmallBlocks(files: Files)
    requires Bounded(files, THRESHOLD)
    ensures forall i :: 0 <= i < |Blocks(files)| ==> |Blocks(files)[i]| <= MAX_FILE_BYTES
  {
    forall i | 0 <= i < |Blocks(files)|
      ensures |Blocks(files)[i]| <= MAX_FILE_BYTES
    {
      assert Blocks(files)[i] == Content(files, BACKUPS - i);
    }
  }

  lemma {:induction false} TotalIsLines(print_: Printer, records: seq<EventRecord>, written: seq<seq<Byte>>)
    requires |written| == |records| && forall i :: 0 <= i < |records| ==> written[i] == Line(print_, records[i])
    ensures Total(written) == Lines(print_, records)
  {
    if records != [] {
      TotalIsLines(print_, records[..|records| - 1], written[..|written| - 1]);
    }
  }
}
