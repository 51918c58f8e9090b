/** What becomes of records when appends may be cut short: the next line is glued to a torn one. */
module TornAppends {
  import opened Prelude
  import opened Codecs
  import opened Splitting
  import opened Events
  import opened EventLog
  import opened EventReader

  /** A run of attempts from an empty directory; appends may leave any part of their line, and rotations may fail. */
  ghost predicate Attempts(print_: Printer, states: seq<Files>, records: seq<EventRecord>, written: seq<seq<Byte>>,
                           fates: seq<Fate>) {
    && Run(states, written, fates) && states[0] == map[] && Fragments(print_, records, written)
    && forall k :: 0 <= k < |fates| && fates[k] != Torn ==> written[k] == Line(print_, records[k])
  }

  ghost predicate Fragments(print_: Printer, records: seq<EventRecord>, written: seq<seq<Byte>>) {
    |written| == |records| && forall k :: 0 <= k < |records| ==> written[k] <= Line(print_, records[k])
  }

  ghost predicate StartsLike(print_: Printer, text: seq<Byte>) {
    text != [] && exists r :: print_(r) != [] && print_(r)[0] == text[0]
  }

  /** What the model relies on for torn lines: what starts like a record and goes on to end with another one is none. */
  ghost predicate Strict(print_: Printer, parse: Parser) {
    forall text, r :: StartsLike(print_, text) ==> parse(text + print_(r)) == None
  }

  /** The bytes behind the last newline. */
  function Unfinished(text: seq<Byte>): seq<Byte> {
    if EndsLine(text) then [] else Unfinished(text[..|text| - 1]) + [Last(text)]
  }

  /** The whole line of a record was written, and nothing unfinished was in front of it. */
  ghost predicate Intact(print_: Printer, earlier: seq<seq<Byte>>, r: EventRecord, bytes: seq<Byte>) {
    bytes == Line(print_, r) && EndsLine(Total(earlier))
  }

  /** The records whose appends left them intact, in order. */
  ghost function Survivors(print_: Printer, records: seq<EventRecord>, written: seq<seq<Byte>>): seq<EventRecord>
    requires |written| == |records|
  {
    if records == [] then []
    else
      var n := |records| - 1;
      Survivors(print_, records[..n], written[..n])
      + if Intact(print_, written[..n], records[n], written[n]) then [records[n]] else []
  }

  /** The record an unfinished last line happens to be. */
  function Trailing(parse: Parser, text: seq<Byte>): seq<EventRecord> {
    match parse(Unfinished(text)) case Some(r) => [r] case None => []
  }

  lemma {:induction false} UnfinishedIs(whole: seq<Byte>, open: seq<Byte>)
    requires EndsLine(whole) && NEWLINE !in open
    ensures Unfinished(whole + open) == open
    ensures EndsLine(whole + open) <==> open == []
  {
    if open == [] {
      assert whole + open == whole;
    } else {
      var text, shorter := whole + open, open[..|open| - 1];
      assert text[..|text| - 1] == whole + shorter && Last(text) == Last(open);
      UnfinishedIs(whole, shorter);
      assert shorter + [Last(open)] == open;
    }
  }

  lemma TextLine(parse: Parser, text: seq<Byte>)
    requires parse([]) == None && NEWLINE !in text
    ensures RecordsIn(parse, text + [NEWLINE]) == match parse(text) case Some(r) => [r] case None => []
    ensures RecordsIn(parse, text) == match parse(text) case Some(r) => [r] case None => []
  {
    SplitPrefix(text, [], NEWLINE);
    hide SplitOn;
    assert text + [NEWLINE] + [] == text + [NEWLINE];
    SplitWhole(text);
    ParsedAppend(parse, [text], SplitOn([], NEWLINE));
    NoRecords(parse);
    var one := [text];
    assert one[..0] == [];
  }

  lemma {:induction false} SplitWhole(text: seq<Byte>)
    requires NEWLINE !in text
    ensures SplitOn(text, NEWLINE) == [text]
  {
    if text != [] {
      SplitWhole(text[1..]);
      assert [text[0]] + text[1..] == text;
    }
  }

  /** All that was written is whole lines, which hold the intact records, and something unfinished. */
  lemma {:induction false} WrittenText(print_: Printer, parse: Parser, records: seq<EventRecord>, written: seq<seq<Byte>>)
    returns (whole: seq<Byte>, open: seq<Byte>)
    requires SoundFormat(print_, parse) && Strict(print_, parse) && Fragments(print_, records, written)
    ensures Total(written) == whole + open && EndsLine(whole) && NEWLINE !in open
    ensures open == [] || StartsLike(print_, open)
    ensures RecordsIn(parse, whole) == Survivors(print_, records, written)
  {
    if records == [] {
      whole, open := [], [];
      NoRecords(parse);
    } else {
      var n := |records| - 1;
      var before, left := WrittenText(print_, parse, records[..n], written[..n]);
      UnfinishedIs(before, left);
      hide RecordsIn;
      whole, open := NextFragment(print_, parse, before, left, records[n], written[n]);
      assert Total(written) == Total(written[..n]) + written[n];
    }
  }

  lemma NextFragment(print_: Printer, parse: Parser, before: seq<Byte>, left: seq<Byte>, r: EventRecord, bytes: seq<Byte>)
    returns (whole: seq<Byte>, open: seq<Byte>)
    requires SoundFormat(print_, parse) && Strict(print_, parse) && bytes <= Line(print_, r)
    requires EndsLine(before) && NEWLINE !in left && (left == [] || StartsLike(print_, left))
    ensures before + left + bytes == whole + open && EndsLine(whole) && NEWLINE !in open
    ensures open == [] || StartsLike(print_, open)
    ensures RecordsIn(parse, whole) ==
            RecordsIn(parse, before) + if bytes == Line(print_, r) && left == [] then [r] else []
  {
    hide RecordsIn;
    if bytes == Line(print_, r) {
      var text := left + print_(r);
      whole, open := before + (text + [NEWLINE]), [];
      RecordsAppend(parse, before, text + [NEWLINE]);
      TextLine(parse, text);
      Glued(before, left, print_(r));
      assert left == [] ==> text == print_(r);
    } else {
      whole, open := before, left + bytes;
      assert before + left + bytes == before + (left + bytes);
      assert bytes <= print_(r);
      assert left == [] && bytes != [] ==> print_(r)[0] == bytes[0];
    }
  }

  lemma Glued(before: seq<Byte>, left: seq<Byte>, text: seq<Byte>)
    ensures before + left + (text + [NEWLINE]) == before + (left + text + [NEWLINE])
    ensures EndsLine(before + (left + text + [NEWLINE]))
  {
  }

  /** Read as one text, what was written is exactly the records whose appends left them intact, and at the end possibly
      one whose line lacks nothing but its newline. */
  lemma TornText(print_: Printer, parse: Parser, records: seq<EventRecord>, written: seq<seq<Byte>>)
    requires SoundFormat(print_, parse) && Strict(print_, parse) && Fragments(print_, records, written)
    ensures RecordsIn(parse, Total(written)) == Survivors(print_, records, written) + Trailing(parse, Total(written))
  {
    var whole, open := WrittenText(print_, parse, records, written);
    hide RecordsIn;
    UnfinishedIs(whole, open);
    RecordsAppend(parse, whole, open);
    TextLine(parse, open);
  }

  // -- Through rotations ------------------------------------------------------------------------------

  /** Only the active file may end with something unfinished. */
  predicate BackupsWhole(files: Files) { forall n :: n in files && n > 0 ==> EndsLine(files[n]) }

  lemma BackupsStayWhole(before: Files, after: Files, bytes: seq<Byte>, fate: Fate)
    requires BackupsWhole(before) && Cycle(before, after, bytes, fate)
    requires fate != Torn ==> bytes != [] && EndsLine(bytes)
    ensures BackupsWhole(after)
  {
    if fate != Torn {
      CycleSourced(before, after, bytes, fate);
      hide Cycle;
      var middle := Appended(before, bytes);
      assert Last(Content(before, 0) + bytes) == Last(bytes);
      forall n | n in after && n > 0
        ensures EndsLine(after[n])
      {
        assert At(after, n) == At(middle, n) || At(after, n) == At(middle, n - 1);
      }
    }
  }

  /** What has been rotated away is whole lines. */
  lemma {:induction false} LostLines(print_: Printer, states: seq<Files>, records: seq<EventRecord>,
                                     written: seq<seq<Byte>>, fates: seq<Fate>) returns (lost: seq<Byte>)
    requires Attempts(print_, states, records, written, fates)
    ensures OnlyLogs(Last(states)) && BackupsWhole(Last(states))
    ensures EndsLine(lost) && Total(written) == lost + Joined(Last(states))
  {
    hide Joined, Cycle;
    var n := |written|;
    if n == 0 {
      lost := [];
      NothingJoined(print_);
    } else {
      var before, after, bytes, fate := states[n - 1], states[n], written[n - 1], fates[n - 1];
      assert Last(states[..n]) == before;
      var earlier := LostLines(print_, states[..n], records[..n - 1], written[..n - 1], fates[..n - 1]);
      var dropped := CycleDrops(before, after, bytes, fate);
      BackupsStayWhole(before, after, bytes, fate);
      lost := earlier + dropped;
      assert Total(written) == Total(written[..n - 1]) + bytes;
      LostMore(Total(written[..n - 1]), earlier, Joined(before), bytes, dropped, Joined(after));
    }
  }

  lemma LostMore(total: seq<Byte>, earlier: seq<Byte>, log: seq<Byte>, bytes: seq<Byte>, dropped: seq<Byte>, rest: seq<Byte>)
    requires total == earlier + log && log + bytes == dropped + rest && EndsLine(earlier) && EndsLine(dropped)
    ensures total + bytes == earlier + dropped + rest && EndsLine(earlier + dropped)
  {
    assert total + bytes == earlier + (log + bytes) == earlier + (dropped + rest);
  }

  /** Reading whole files one by one is reading the log as one text, finished or not. */
  lemma TornLogSeen(parse: Parser, files: Files)
    requires parse([]) == None && BackupsWhole(files)
    ensures Gather(Whole(parse), Blocks(files)) == RecordsIn(parse, Joined(files))
  {
    hide RecordsIn;
    var blocks := Blocks(files);
    var backups := blocks[..4];
    forall i | 0 <= i < |backups|
      ensures EndsLine(backups[i])
    {
      assert backups[i] == Content(files, BACKUPS - i);
    }
    JoinedIsConcat(files);
    GatherWhole(parse, backups);
    ConcatEndsLine(backups);
    RecordsAppend(parse, Concat(backups), blocks[4]);
  }

  /** After any run of attempts, whatever was cut short and whichever rotations failed: unless a file other than the
      oldest one has grown past 16 MiB, the reader gets exactly the last so many of the records whose appends left
      them intact, and possibly one whose line lacks nothing but its newline. */
  lemma TornRunIsRead(print_: Printer, parse: Parser, states: seq<Files>, records: seq<EventRecord>,
                      written: seq<seq<Byte>>, fates: seq<Fate>)
    requires SoundFormat(print_, parse) && Strict(print_, parse) && Attempts(print_, states, records, written, fates)
    ensures var files := Last(states);
            var all := Survivors(print_, records, written) + Trailing(parse, Total(written));
            && Suffix(Gather(Whole(parse), Blocks(files)), all)
            && (OnlyOldestExceeds(Blocks(files)) ==> Suffix(Gather(Capped(parse), Blocks(files)), all))
  {
    var files := Last(states);
    var lost := LostLines(print_, states, records, written, fates);
    hide RecordsIn, Joined, Gather, Blocks, Run, Capped, Whole;
    TornText(print_, parse, records, written);
    RecordsAppend(parse, lost, Joined(files));
    TornLogSeen(parse, files);
    hide Suffix;
    var whole := Gather(Whole(parse), Blocks(files));
    Behind(RecordsIn(parse, lost), whole);
    if OnlyOldestExceeds(Blocks(files)) {
      OldestCapped(parse, Blocks(files));
      EndOfEnd(Gather(Capped(parse), Blocks(files)), whole, RecordsIn(parse, lost) + whole);
    }
  }

  lemma Behind<T>(a: seq<T>, b: seq<T>)
    ensures Suffix(b, a + b)
  {
  }

  lemma EndOfEnd<T>(a: seq<T>, b: seq<T>, c: seq<T>)
    requires Suffix(a, b) && Suffix(b, c)
    ensures Suffix(a, c)
  {
  }

  // -- Which appends a reader can rely on -----------------------------------------------------------------

  lemma EndsAlike(print_: Printer, states: seq<Files>, records: seq<EventRecord>, written: seq<seq<Byte>>, fates: seq<Fate>)
    requires Attempts(print_, states, records, written, fates)
    ensures EndsLine(Total(written)) <==> EndsLine(Content(Last(states), 0))
  {
    var files := Last(states);
    var lost := LostLines(print_, states, records, written, fates);
    var backups := Blocks(files)[..4];
    forall i | 0 <= i < |backups|
      ensures EndsLine(backups[i])
    {
      assert backups[i] == Content(files, BACKUPS - i);
    }
    JoinedIsConcat(files);
    ConcatEndsLine(backups);
    LastOfThree(lost, Concat(backups), Content(files, 0));
  }

  lemma LastOfThree(a: seq<Byte>, b: seq<Byte>, c: seq<Byte>)
    requires EndsLine(a) && EndsLine(b)
    ensures EndsLine(a + (b + c)) <==> EndsLine(c)
  {
  }

  lemma {:induction false} SurvivesExactly(print_: Printer, records: seq<EventRecord>, written: seq<seq<Byte>>, k: nat)
    requires |written| == |records| && Distinct(records) && k < |records|
    ensures records[k] in Survivors(print_, records, written) <==> Intact(print_, written[..k], records[k], written[k])
  {
    var n := |records| - 1;
    if k < n {
      SurvivesExactly(print_, records[..n], written[..n], k);
      assert written[..n][..k] == written[..k];
    } else {
      SurvivorsAre(print_, records[..n], written[..n]);
    }
  }

  lemma {:induction false} SurvivorsAre(print_: Printer, records: seq<EventRecord>, written: seq<seq<Byte>>)
    requires |written| == |records|
    ensures forall r :: r in Survivors(print_, records, written) ==> r in records
  {
    if records != [] { SurvivorsAre(print_, records[..|records| - 1], written[..|records| - 1]); }
  }

  /** Of distinct records, one whose append succeeded is there to be read exactly if the active file ended with a
      whole line when its append began. */
  lemma ReadableExactly(print_: Printer, states: seq<Files>, records: seq<EventRecord>, written: seq<seq<Byte>>,
                        fates: seq<Fate>, k: nat)
    requires Attempts(print_, states, records, written, fates) && Distinct(records)
    requires k < |records| && fates[k] != Torn
    ensures records[k] in Survivors(print_, records, written) <==> EndsLine(Content(states[k], 0))
  {
    hide Cycle, Survivors, Line;
    assert Last(states[..k + 1]) == states[k];
    EndsAlike(print_, states[..k + 1], records[..k], written[..k], fates[..k]);
    SurvivesExactly(print_, records, written, k);
  }

  function AfterTorn(part: seq<Byte>, line: seq<Byte>): Files {
    var middle: Files := map[0 := part + line];
    if Due(middle) then Rotation(middle) else middle
  }

  lemma TornThenClean(part: seq<Byte>, line: seq<Byte>)
    ensures Cycle(map[], map[0 := part], part, Torn) && Cycle(map[0 := part], AfterTorn(part, line), line, Clean)
    ensures OnlyOldestExceeds(Blocks(AfterTorn(part, line)))
  {
    OnlyActive(part, line);
    OneFile(AfterTorn(part, line));
  }

  /** The losing run: an append is torn, the next one succeeds, and nothing of either can be read. */
  lemma TornLoses(print_: Printer, parse: Parser, r: EventRecord, s: EventRecord, part: seq<Byte>)
    returns (states: seq<Files>, fates: seq<Fate>)
    requires SoundFormat(print_, parse) && Strict(print_, parse) && part <= print_(r) && part != []
    ensures fates == [Torn, Clean] && Attempts(print_, states, [r, s], [part, Line(print_, s)], fates)
    ensures Gather(Capped(parse), Blocks(Last(states))) == []
  {
    var line := Line(print_, s);
    states, fates := TwoAttempts(print_, r, s, part);
    NothingSurvives(print_, parse, r, s, part);
    hide *;
    TornRunIsRead(print_, parse, states, [r, s], [part, line], fates);
    EndOfNothing(Gather(Capped(parse), Blocks(Last(states))));
  }

  lemma TwoAttempts(print_: Printer, r: EventRecord, s: EventRecord, part: seq<Byte>)
    returns (states: seq<Files>, fates: seq<Fate>)
    requires part <= print_(r) && part != []
    ensures fates == [Torn, Clean] && Attempts(print_, states, [r, s], [part, Line(print_, s)], fates)
    ensures OnlyOldestExceeds(Blocks(Last(states)))
  {
    assert part <= Line(print_, r);
    var line := Line(print_, s);
    hide Cycle, AfterTorn, OnlyOldestExceeds, Blocks, Line;
    TornThenClean(part, line);
    var before: Files, torn: Files, after := map[], map[0 := part], AfterTorn(part, line);
    states, fates := [before, torn, after], [Torn, Clean];
    var records, written := [r, s], [part, line];
    forall k | 0 <= k < 2
      ensures Cycle(states[k], states[k + 1], written[k], fates[k]) && written[k] <= Line(print_, records[k])
    {
      assert k == 0 || k == 1;
    }
  }

  lemma EndOfNothing<T>(s: seq<T>)
    ensures Suffix(s, []) ==> s == []
  {
  }

  lemma NothingSurvives(print_: Printer, parse: Parser, r: EventRecord, s: EventRecord, part: seq<Byte>)
    requires SoundFormat(print_, parse) && part <= print_(r) && part != []
    ensures var written := [part, Line(print_, s)];
            Survivors(print_, [r, s], written) + Trailing(parse, Total(written)) == []
  {
    var line, one := Line(print_, s), [part];
    var written := [part, line];
    assert one[..0] == [] && Total(one) == part && written[..1] == one && Total(written) == part + line;
    assert [r, s][..1] == [r] && [r][..0] == [];
    assert !EndsLine(part);
    assert Survivors(print_, [r], one) == [];
  }

  lemma OnlyActive(part: seq<Byte>, line: seq<Byte>)
    ensures Appended(map[], part) == map[0 := part]
    ensures Appended(map[0 := part], line) == map[0 := part + line]
  {
    assert [] + part == part;
    assert Content(map[0 := part], 0) == part;
  }

  lemma OneFile(files: Files)
    requires forall n :: n in files ==> n == 0 || (n == 1 && 0 !in files)
    ensures OnlyOldestExceeds(Blocks(files))
  {
  }
}
