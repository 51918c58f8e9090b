/** UTF-16 as in section 2 of RFC 2781: scalar values above U+FFFF become a surrogate pair. */
module Utf16 {
  import opened Prelude

  type Word = w: int | 0 <= w < 0x1_0000

  function EncodeChar(c: char): (words: seq<Word>) {
    var n := c as int;
    if n < 0x1_0000 then [n]
    else [0xD800 + (n - 0x1_0000) / 0x400, 0xDC00 + (n - 0x1_0000) % 0x400]
  }

  function Encode(s: string): seq<Word> {
    if s == [] then [] else EncodeChar(s[0]) + Encode(s[1..])
  }

  /** The number of UTF-16 code units of `s`. */
  function Units(s: string): nat { |Encode(s)| }

  /** The scalar value of a surrogate pair. */
  function Combine(high: Word, low: Word): char
    requires 0xD800 <= high < 0xDC00 <= low < 0xE000
  {
    var h: int, l: int := high - 0xD800, low - 0xDC00;
    (0x1_0000 + h * 0x400 + l) as char
  }

  /** Strict decoding: a lone surrogate makes the whole input invalid. */
  function Decode(words: seq<Word>): Option<string> {
    if words == [] then Some("")
    else
      var w := words[0];
      if w < 0xD800 || 0xE000 <= w then
        match Decode(words[1..])
        case None => None
        case Some(rest) => Some([w as char] + rest)
      else if w < 0xDC00 && |words| > 1 && 0xDC00 <= words[1] < 0xE000 then
        match Decode(words[2..])
        case None => None
        case Some(rest) => Some([Combine(w, words[1])] + rest)
      else None
  }

  lemma {:induction false} EncodeAppend(s: string, t: string)
    ensures Encode(s + t) == Encode(s) + Encode(t)
  {
    if s == [] {
      assert s + t == t;
    } else {
      assert (s + t)[0] == s[0] && (s + t)[1..] == s[1..] + t;
      EncodeAppend(s[1..], t);
    }
  }

  /** Every string survives encoding. */
  lemma {:induction false} DecodeEncode(s: string)
    ensures Decode(Encode(s)) == Some(s)
  {
    if s != [] {
      var head, tail := EncodeChar(s[0]), Encode(s[1..]);
      DecodeEncode(s[1..]);
      assert (head + tail)[|head|..] == tail;
      assert s == [s[0]] + s[1..];
    }
  }

  /** Decoding accepts nothing but encodings. */
  lemma {:induction false} EncodeDecode(words: seq<Word>)
    requires Decode(words).Some?
    ensures Encode(Decode(words).value) == words
  {
    if words != [] {
      var n := if words[0] < 0xD800 || 0xE000 <= words[0] then 1 else 2;
      EncodeDecode(words[n..]);
      var s := Decode(words).value;
      assert s[1..] == Decode(words[n..]).value;
      assert words == words[..n] + words[n..];
      assert EncodeChar(s[0]) == words[..n];
    }
  }

  /** A zero word encodes exactly the NUL character. */
  lemma {:induction false} ZeroWord(s: string)
    ensures 0 in Encode(s) <==> '\0' in s
  {
    if s != [] {
      ZeroWord(s[1..]);
      assert s == [s[0]] + s[1..];
    }
  }
}

/** Byte-level layout of the registry value types the store writes and reads. */
module Codecs {
  import opened Prelude
  import opened Utf16

  type Byte = b: int | 0 <= b < 0x100

  const U32_LIMIT := 0x1_0000_0000
  const U64_LIMIT := 0x1_0000_0000_0000_0000

  type U32 = n: int | 0 <= n < U32_LIMIT
  type U64 = n: int | 0 <= n < U64_LIMIT

  function ToBytes(words: seq<Word>): seq<Byte> {
    if words == [] then [] else [words[0] % 0x100, words[0] / 0x100] + ToBytes(words[1..])
  }

  function ToWords(bytes: seq<Byte>): seq<Word>
    requires |bytes| % 2 == 0
  {
    if bytes == [] then []
    else
      var low: int, high: int := bytes[0], bytes[1];
      [low + 0x100 * high] + ToWords(bytes[2..])
  }

  lemma {:induction false} WordsRoundTrip(words: seq<Word>)
    ensures |ToBytes(words)| == 2 * |words|
    ensures ToWords(ToBytes(words)) == words
  {
    if words != [] {
      WordsRoundTrip(words[1..]);
      assert ToBytes(words)[2..] == ToBytes(words[1..]);
    }
  }

  // -- REG_SZ and REG_EXPAND_SZ ---------------------------------------------

  function EncodeString(s: string): seq<Byte> { ToBytes(Encode(s) + [0]) }

  predicate AllZero(words: seq<Word>) { forall i :: 0 <= i < |words| ==> words[i] == 0 }

  /** The position of the first NUL word, or the length when there is none. */
  function FirstZero(words: seq<Word>): (z: nat)
    ensures z <= |words|
    ensures z < |words| ==> words[z] == 0
    ensures forall i :: 0 <= i < z ==> words[i] != 0
  {
    if words == [] || words[0] == 0 then 0 else 1 + FirstZero(words[1..])
  }

  lemma FirstZeroUnique(words: seq<Word>, z: nat)
    requires z < |words| && words[z] == 0
    requires forall i :: 0 <= i < z ==> words[i] != 0
    ensures FirstZero(words) == z
  {
  }

  /** Text up to the first NUL, which only NUL padding may follow. An unterminated value is read whole. */
  function DecodeTerminated(words: seq<Word>): Option<string> {
    var end := FirstZero(words);
    if end < |words| && !AllZero(words[end + 1..]) then None else Decode(words[..end])
  }

  function DecodeString(bytes: seq<Byte>): Option<string> {
    if bytes == [] then Some("")
    else if |bytes| % 2 != 0 then None
    else DecodeTerminated(ToWords(bytes))
  }

  lemma TerminatedRoundTrip(s: string, code: seq<Word>)
    requires '\0' !in s && code == Encode(s)
    ensures DecodeTerminated(code + [0]) == Some(s)
  {
    ZeroWord(s);
    FirstZeroUnique(code + [0], |code|);
    assert (code + [0])[..|code|] == code;
    DecodeEncode(s);
  }

  lemma StringRoundTrip(s: string)
    requires '\0' !in s
    ensures DecodeString(EncodeString(s)) == Some(s)
  {
    TerminatedRoundTrip(s, Encode(s));
    WordsRoundTrip(Encode(s) + [0]);
  }

  // -- REG_MULTI_SZ ---------------------------------------------------------

  function EncodeEntries(entries: seq<string>): seq<Word> {
    if entries == [] then [] else Encode(entries[0]) + [0] + EncodeEntries(entries[1..])
  }

  /** Every entry NUL-terminated, then the block terminator. */
  function EncodeMultiWords(entries: seq<string>): seq<Word> { EncodeEntries(entries) + [0] }

  function EncodeMulti(entries: seq<string>): seq<Byte> { ToBytes(EncodeMultiWords(entries)) }

  /** The entries a block value can hold: no empty one, no NUL inside. */
  predicate Storable(entries: seq<string>) {
    forall i :: 0 <= i < |entries| ==> entries[i] != "" && '\0' !in entries[i]
  }

  /** `words` is the written form of `entries`, possibly followed by zero padding. */
  ghost predicate IsMulti(words: seq<Word>, entries: seq<string>) {
    && Storable(entries)
    && EncodeMultiWords(entries) <= words
    && AllZero(words[|EncodeMultiWords(entries)|..])
  }

  /** What decoding yields from an entry boundary onwards. */
  function DecodeEntries(words: seq<Word>): Option<seq<string>>
    decreases |words|
  {
    var z := FirstZero(words);
    if z == |words| then None
    else if z == 0 then if AllZero(words[1..]) then Some([]) else None
    else
      match (Decode(words[..z]), DecodeEntries(words[z + 1..]))
      case (Some(e), Some(rest)) => Some([e] + rest)
      case _ => None
  }

  function DecodeMulti(bytes: seq<Byte>): Option<seq<string>> {
    if bytes == [] then Some([])
    else if |bytes| % 2 != 0 then None
    else DecodeEntries(ToWords(bytes))
  }

  /** Strictness of the block decoder, both ways: it accepts exactly the written form of its result. */
  lemma {:induction false} DecodeEntriesExact(words: seq<Word>, entries: seq<string>)
    ensures DecodeEntries(words) == Some(entries) <==> IsMulti(words, entries)
    decreases |words|
  {
    if IsMulti(words, entries) {
      var pad := words[|EncodeMultiWords(entries)|..];
      DecodeEntriesComplete(entries, pad);
      assert words == EncodeMultiWords(entries) + pad;
    }
    if DecodeEntries(words) == Some(entries) {
      var pad := DecodeEntriesSound(words, entries);
      assert words[|EncodeMultiWords(entries)|..] == pad;
    }
  }

  lemma DecodeEntriesStep(e: string, code: seq<Word>, rest: seq<Word>)
    requires e != "" && '\0' !in e && code == Encode(e)
    ensures DecodeEntries(code + [0] + rest) == Prepend([e], DecodeEntries(rest))
  {
    var words := code + [0] + rest;
    ZeroWord(e);
    FirstZeroUnique(words, |code|);
    assert words[..|code|] == code && words[|code| + 1..] == rest;
    DecodeEncode(e);
    assert code != [] by { assert EncodeChar(e[0]) <= code; }
  }

  lemma {:induction false} DecodeEntriesComplete(entries: seq<string>, pad: seq<Word>)
    requires Storable(entries)
    requires AllZero(pad)
    ensures DecodeEntries(EncodeMultiWords(entries) + pad) == Some(entries)
  {
    if entries == [] {
      var words := EncodeMultiWords(entries) + pad;
      assert words == [0] + pad && words[1..] == pad;
    } else {
      var code, more := Encode(entries[0]), EncodeEntries(entries[1..]);
      DecodeEntriesComplete(entries[1..], pad);
      assert EncodeEntries(entries) == code + [0] + more;
      hide Encode, DecodeEntries, EncodeEntries;
      DecodeEntriesStep(entries[0], code, more + [0] + pad);
      OneEntryMore(code, more, pad);
      assert [entries[0]] + entries[1..] == entries;
    }
  }

  lemma OneEntryMore(code: seq<Word>, more: seq<Word>, pad: seq<Word>)
    ensures code + [0] + more + [0] + pad == code + [0] + (more + [0] + pad)
  {
  }

  lemma FirstEntry(words: seq<Word>, entries: seq<string>) returns (first: string, rest: seq<Word>)
    requires DecodeEntries(words) == Some(entries) && FirstZero(words) > 0
    ensures words == Encode(first) + [0] + rest
    ensures first != "" && '\0' !in first
    ensures entries != [] && entries[0] == first && DecodeEntries(rest) == Some(entries[1..])
  {
    var z := FirstZero(words);
    rest := words[z + 1..];
    first := Decode(words[..z]).value;
    EncodeDecode(words[..z]);
    ZeroWord(first);
    assert entries == [first] + DecodeEntries(rest).value;
  }

  lemma EncodeStep(entries: seq<string>, pad: seq<Word>)
    requires entries != []
    ensures EncodeMultiWords(entries) + pad ==
            Encode(entries[0]) + [0] + (EncodeMultiWords(entries[1..]) + pad)
  {
  }

  lemma {:induction false} DecodeEntriesSound(words: seq<Word>, entries: seq<string>) returns (pad: seq<Word>)
    requires DecodeEntries(words) == Some(entries)
    ensures Storable(entries)
    ensures AllZero(pad) && words == EncodeMultiWords(entries) + pad
    decreases |words|
  {
    if FirstZero(words) == 0 {
      pad := words[1..];
      assert words == [0] + pad;
      assert EncodeMultiWords([]) == [0];
    } else {
      var first, rest := FirstEntry(words, entries);
      pad := DecodeEntriesSound(rest, entries[1..]);
      EncodeStep(entries, pad);
      forall i | 0 <= i < |entries|
        ensures entries[i] != "" && '\0' !in entries[i]
      {
        if i > 0 { assert entries[i] == entries[1..][i - 1]; }
      }
    }
  }

  lemma NoPadding(words: seq<Word>)
    ensures words + [] == words
  {
  }

  lemma MultiRoundTrip(entries: seq<string>)
    requires Storable(entries)
    ensures DecodeMulti(EncodeMulti(entries)) == Some(entries)
  {
    var words := EncodeMultiWords(entries);
    WordsRoundTrip(words);
    assert words != [];
    hide EncodeMultiWords, DecodeEntries, ToBytes, ToWords;
    DecodeEntriesComplete(entries, []);
    NoPadding(words);
  }

  /** The decoder accepts zero bytes as the empty list and otherwise exactly the padded written forms. */
  lemma DecodeMultiExact(bytes: seq<Byte>, entries: seq<string>)
    ensures DecodeMulti(bytes) == Some(entries) <==>
            if bytes == [] then entries == []
            else |bytes| % 2 == 0 && IsMulti(ToWords(bytes), entries)
  {
    if |bytes| % 2 == 0 {
      DecodeEntriesExact(ToWords(bytes), entries);
    }
  }

  /** The reader of a block value: one scan over the words, cutting an entry at each NUL. */
  method ReadMulti(bytes: seq<Byte>) returns (r: Option<seq<string>>)
    ensures r == DecodeMulti(bytes)
  {
    if bytes == [] { return Some([]); }
    if |bytes| % 2 != 0 { return None; }
    var words := ToWords(bytes);
    if Last(words) != 0 {
      MissingTerminator(words);
      return None;
    }
    r := ScanEntries(words);
  }

  method ScanEntries(words: seq<Word>) returns (r: Option<seq<string>>)
    requires words != [] && Last(words) == 0
    ensures r == DecodeEntries(words)
  {
    hide DecodeEntries;
    var out: seq<string>, start := [], 0;
    Begin(words);
    for i := 0 to |words|
      invariant 0 <= start <= i
      invariant forall k :: start <= k < i ==> words[k] != 0
      invariant Collected(words, out, start)
    {
      if words[i] == 0 {
        Boundary(words, out, start, i);
        if i == start {
          return if AllZero(words[i + 1..]) then Some(out) else None;
        }
        var entry := Decode(words[start..i]);
        if entry.None? { return None; }
        out := out + [entry.value];
        start := i + 1;
      }
    }
    Exhausted(words, out);
    return None;
  }

  ghost function Prepend(out: seq<string>, rest: Option<seq<string>>): Option<seq<string>> {
    match rest
    case None => None
    case Some(xs) => Some(out + xs)
  }

  /** Decoding everything amounts to putting `out` before what is left from `start`. */
  ghost predicate Collected(words: seq<Word>, out: seq<string>, start: nat)
    requires start <= |words|
  {
    DecodeEntries(words) == Prepend(out, DecodeEntries(words[start..]))
  }

  lemma Begin(words: seq<Word>)
    ensures Collected(words, [], 0)
  {
    assert words[0..] == words;
    if DecodeEntries(words).Some? {
      assert [] + DecodeEntries(words).value == DecodeEntries(words).value;
    }
  }

  lemma Boundary(words: seq<Word>, out: seq<string>, start: nat, i: nat)
    requires start <= i < |words| && words[i] == 0
    requires forall k :: start <= k < i ==> words[k] != 0
    requires Collected(words, out, start)
    ensures i == start ==> DecodeEntries(words) == if AllZero(words[i + 1..]) then Some(out) else None
    ensures i > start && Decode(words[start..i]).None? ==> DecodeEntries(words) == None
    ensures i > start && Decode(words[start..i]).Some? ==>
              Collected(words, out + [Decode(words[start..i]).value], i + 1)
  {
    EntryBoundary(words, start, i);
    assert out + [] == out;
    if i > start && Decode(words[start..i]).Some? {
      PrependTwice(out, Decode(words[start..i]).value, DecodeEntries(words[i + 1..]));
    }
  }

  lemma Exhausted(words: seq<Word>, out: seq<string>)
    requires Collected(words, out, |words|)
    ensures DecodeEntries(words) == None
  {
    assert words[|words|..] == [];
  }

  lemma PrependTwice(out: seq<string>, entry: string, rest: Option<seq<string>>)
    ensures Prepend(out, Prepend([entry], rest)) == Prepend(out + [entry], rest)
  {
    if rest.Some? {
      assert out + ([entry] + rest.value) == out + [entry] + rest.value;
    }
  }

  lemma EntryBoundary(words: seq<Word>, start: nat, i: nat)
    requires start <= i < |words| && words[i] == 0
    requires forall k :: start <= k < i ==> words[k] != 0
    ensures DecodeEntries(words[start..]) ==
            if i == start then if AllZero(words[i + 1..]) then Some([]) else None
            else
              match Decode(words[start..i])
              case None => None
              case Some(entry) => Prepend([entry], DecodeEntries(words[i + 1..]))
  {
    var here := words[start..];
    FirstZeroUnique(here, i - start);
    assert here[..i - start] == words[start..i];
    assert here[i - start + 1..] == words[i + 1..];
  }

  lemma {:induction false} MissingTerminator(words: seq<Word>)
    requires words != [] && Last(words) != 0
    ensures DecodeEntries(words) == None
    decreases |words|
  {
    var z := FirstZero(words);
    if z < |words| {
      var rest := words[z + 1..];
      assert Last(rest) == Last(words);
      if z > 0 {
        MissingTerminator(rest);
      } else {
        assert rest[|rest| - 1] != 0;
      }
    }
  }

  // -- REG_DWORD / REG_QWORD ------------------------------------------------

  function EncodeU32(n: U32): (bytes: seq<Byte>) {
    [n % 0x100, n / 0x100 % 0x100, n / 0x1_0000 % 0x100, n / 0x100_0000]
  }

  function LittleEndian4(b: seq<Byte>): U32
    requires |b| == 4
  {
    var b0: int, b1: int, b2: int, b3: int := b[0], b[1], b[2], b[3];
    b0 + 0x100 * b1 + 0x1_0000 * b2 + 0x100_0000 * b3
  }

  function LittleEndian8(b: seq<Byte>): nat
    requires |b| == 8
  {
    var low: int, high: int := LittleEndian4(b[..4]), LittleEndian4(b[4..]);
    low + U32_LIMIT * high
  }

  lemma U32RoundTrip(n: U32)
    ensures LittleEndian4(EncodeU32(n)) == n
  {
    var m: int := n;
    assert m / 0x100 / 0x100 == m / 0x1_0000 && m / 0x1_0000 / 0x100 == m / 0x100_0000;
  }

  // -- Comma notation of a block value ---------------------------------------

  function EscapeChar(c: char): string { if c == '\\' || c == ',' then ['\\', c] else [c] }

  function Escape(s: string): string { if s == [] then [] else EscapeChar(s[0]) + Escape(s[1..]) }

  function Join(entries: seq<string>): string {
    if entries == [] then ""
    else if |entries| == 1 then Escape(entries[0])
    else Escape(entries[0]) + "," + Join(entries[1..])
  }

  /** The pieces of `value` when `current` has already been collected for the first one. */
  function Pieces(value: string, current: string): seq<string>
    decreases |value|
  {
    if value == [] then [current]
    else if value[0] == '\\' && |value| > 1 && value[1] in {',', '\\'} then
      Pieces(value[2..], current + [value[1]])
    else if value[0] == ',' then [current] + Pieces(value[1..], "")
    else Pieces(value[1..], current + [value[0]])
  }

  predicate NonEmpty(s: string) { s != "" }

  /** Reads the comma notation left to right with one character of lookahead. */
  method Split(value: string) returns (entries: seq<string>)
    ensures entries == Filter(NonEmpty, Pieces(value, ""))
    ensures "" !in entries
  {
    var all: seq<string>, current, i := [], "", 0;
    while i < |value|
      invariant 0 <= i <= |value|
      invariant Pieces(value, "") == all + Pieces(value[i..], current)
    {
      var c := value[i];
      ghost var rest := value[i..];
      if c == '\\' && i + 1 < |value| && value[i + 1] in {',', '\\'} {
        assert rest[2..] == value[i + 2..];
        current := current + [value[i + 1]];
        i := i + 2;
      } else {
        assert rest[1..] == value[i + 1..];
        if c == ',' {
          all := all + [current];
          current := "";
        } else {
          current := current + [c];
        }
        i := i + 1;
      }
    }
    all := all + [current];
    entries := Filter(NonEmpty, all);
    FilterMember(NonEmpty, all, "");
  }

  lemma PiecesOfEscapedChar(c: char, rest: string, current: string)
    ensures Pieces(EscapeChar(c) + rest, current) == Pieces(rest, current + [c])
  {
    var v := EscapeChar(c) + rest;
    assert v[|EscapeChar(c)|..] == rest;
  }

  lemma {:induction false} PiecesOfEscaped(e: string, rest: string, current: string)
    requires rest == "" || rest[0] == ','
    ensures Pieces(Escape(e) + rest, current) == Pieces(rest, current + e)
  {
    if e == [] {
      assert Escape(e) + rest == rest && current + e == current;
    } else {
      var tail := Escape(e[1..]) + rest;
      assert Escape(e) + rest == EscapeChar(e[0]) + tail;
      PiecesOfEscapedChar(e[0], tail, current);
      PiecesOfEscaped(e[1..], rest, current + [e[0]]);
      assert current + e == current + [e[0]] + e[1..];
    }
  }

  lemma {:induction false} PiecesOfJoin(entries: seq<string>)
    ensures Pieces(Join(entries), "") == if entries == [] then [""] else entries
  {
    if entries != [] {
      var rest := if |entries| == 1 then "" else "," + Join(entries[1..]);
      assert Join(entries) == Escape(entries[0]) + rest;
      PiecesOfEscaped(entries[0], rest, "");
      assert "" + entries[0] == entries[0];
      if |entries| > 1 {
        assert rest[1..] == Join(entries[1..]);
        PiecesOfJoin(entries[1..]);
      }
    }
  }

  /** `Split` undoes `Join` up to the empty entries a block value cannot hold. */
  lemma SplitJoin(entries: seq<string>)
    ensures Filter(NonEmpty, Pieces(Join(entries), "")) == Filter(NonEmpty, entries)
    ensures "" !in entries ==> Filter(NonEmpty, Pieces(Join(entries), "")) == entries
  {
    PiecesOfJoin(entries);
    if "" !in entries {
      FilterAll(NonEmpty, entries);
    }
  }

  /** What `get` prints, `set` accepts as the same value, whatever notation was typed first. */
  lemma SplitIsStable(value: string)
    ensures var parsed := Filter(NonEmpty, Pieces(value, ""));
            Filter(NonEmpty, Pieces(Join(parsed), "")) == parsed
  {
    var parsed := Filter(NonEmpty, Pieces(value, ""));
    FilterMember(NonEmpty, Pieces(value, ""), "");
    SplitJoin(parsed);
  }
}
