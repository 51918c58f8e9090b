/** Decimal integers as text: the parsers accept signs and leading zeros, the printer emits one form. */
module Decimal {
  import opened Prelude
  import opened Codecs

  const I32_MIN: int := -0x8000_0000
  const I32_MAX: int := 0x7FFF_FFFF

  predicate IsI32(n: int) { I32_MIN <= n <= I32_MAX }

  predicate IsDigit(c: char) { '0' <= c <= '9' }

  predicate AllDigits(s: string) { forall i :: 0 <= i < |s| ==> IsDigit(s[i]) }

  function Value(s: string): nat
    requires AllDigits(s)
  {
    if s == [] then 0 else 10 * Value(s[..|s| - 1]) + (Last(s) as int - '0' as int)
  }

  function Digit(n: nat): char
    requires n < 10
  {
    ('0' as int + n) as char
  }

  function Digits(n: nat): (s: string) {
    (if n < 10 then "" else Digits(n / 10)) + [Digit(n % 10)]
  }

  function ToText(n: int): string { if n < 0 then "-" + Digits(-n) else Digits(n) }

  function ParseDigits(s: string): Option<nat> {
    if s == "" || !AllDigits(s) then None else Some(Value(s))
  }

  function ParseI32(s: string): Option<int> {
    if s == "" then None
    else
      var magnitude := ParseDigits(if s[0] in {'-', '+'} then s[1..] else s);
      if magnitude.None? then None
      else
        var n: int := if s[0] == '-' then 0 - magnitude.value else magnitude.value;
        if IsI32(n) then Some(n) else None
  }

  function ParseU32(s: string): Option<U32> {
    if s == "" then None
    else
      var magnitude := ParseDigits(if s[0] == '+' then s[1..] else s);
      if magnitude.None? || magnitude.value >= U32_LIMIT then None else Some(magnitude.value)
  }

  lemma {:induction false} DigitsValue(n: nat)
    ensures Digits(n) != "" && AllDigits(Digits(n)) && Value(Digits(n)) == n
    ensures forall c :: c in Digits(n) ==> IsDigit(c)
  {
    if n >= 10 {
      DigitsValue(n / 10);
    }
    var head := if n < 10 then "" else Digits(n / 10);
    assert Digits(n)[..|head|] == head;
  }

  lemma I32RoundTrip(n: int)
    requires IsI32(n)
    ensures ParseI32(ToText(n)) == Some(n)
    ensures forall c :: c in ToText(n) ==> IsDigit(c) || c == '-'
  {
    var digits := Digits(if n < 0 then -n else n);
    DigitsValue(if n < 0 then -n else n);
    hide Digits, Value;
    assert n < 0 ==> ToText(n) == "-" + digits && ("-" + digits)[1..] == digits;
    assert n >= 0 ==> digits[0] in digits;
  }

  lemma U32RoundTrip(n: U32)
    ensures ParseU32(ToText(n)) == Some(n) && ToText(n) != ""
    ensures forall c :: c in ToText(n) ==> IsDigit(c)
  {
    DigitsValue(n);
  }

  /** The printed form determines the number. */
  lemma ToTextInjective(m: int, n: int)
    requires IsI32(m) && IsI32(n) && ToText(m) == ToText(n)
    ensures m == n
  {
    I32RoundTrip(m);
    I32RoundTrip(n);
  }
}

/** Names of per-exit-code actions. One 32-bit code has many spellings; one of them is canonical. */
module ExitCodes {
  import opened Prelude
  import opened Text
  import opened Codecs
  import opened Decimal

  datatype ExitAction = Restart | Ignore | Exit | Suicide

  datatype Error = InvalidConfig

  const DEFAULT := "default"

  predicate IsDefault(name: string) { name == "" || EqIgnoreAsciiCase(name, DEFAULT) }

  /** Reinterprets an unsigned 32-bit number as a signed one. */
  function Wrap(n: U32): (r: int)
    ensures IsI32(r) && (r - n) % U32_LIMIT == 0
  {
    var m: int := n;
    if m > I32_MAX then m - U32_LIMIT else m
  }

  function ParseCode(name: string): Option<int> {
    match ParseI32(name)
    case Some(n) => Some(n)
    case None =>
      match ParseU32(name)
      case Some(n) => Some(Wrap(n))
      case None => None
  }

  function Normalize(name: string): Result<string, Error> {
    if IsDefault(name) then Ok(DEFAULT)
    else
      match ParseCode(name)
      case Some(n) => Ok(ToText(n))
      case None => Err(InvalidConfig)
  }

  lemma ParseCodeRange(name: string)
    requires ParseCode(name).Some?
    ensures IsI32(ParseCode(name).value)
  {
  }

  lemma CodeIsNotDefault(n: int)
    requires IsI32(n)
    ensures !IsDefault(ToText(n)) && ParseCode(ToText(n)) == Some(n)
    ensures ToText(n) != DEFAULT
  {
    I32RoundTrip(n);
    var s := ToText(n);
    assert s[0] in s && Lower(s[0]) != Lower(DEFAULT[0]);
  }

  lemma NormalizeIdempotent(name: string)
    requires Normalize(name).Ok?
    ensures Normalize(Normalize(name).value) == Normalize(name)
  {
    if !IsDefault(name) {
      CodeIsNotDefault(ParseCode(name).value);
    }
  }

  /** The bit pattern a spelling denotes, read off its digits: signed in range, else unsigned in range. */
  function Pattern(name: string): Option<nat> {
    if name == "" then None
    else
      var negative := name[0] == '-';
      var magnitude := ParseDigits(if name[0] in {'-', '+'} then name[1..] else name);
      if magnitude.None? then None
      else if negative then
        if magnitude.value <= -I32_MIN then Some((U32_LIMIT - magnitude.value) % U32_LIMIT) else None
      else if magnitude.value < U32_LIMIT then Some(magnitude.value) else None
  }

  lemma PatternOfCode(name: string)
    ensures Pattern(name).Some? <==> ParseCode(name).Some?
    ensures ParseCode(name).Some? ==> Pattern(name).value == ParseCode(name).value % U32_LIMIT
  {
    if name != "" && name[0] == '-' {
      assert !IsDigit(name[0]);
      assert ParseU32(name) == None;
    }
  }

  /** Two names are merged exactly when both mean the default or both denote one 32-bit pattern. */
  lemma NormalizeMerges(a: string, b: string)
    requires Normalize(a).Ok? && Normalize(b).Ok?
    ensures Normalize(a) == Normalize(b) <==>
            if IsDefault(a) || IsDefault(b) then IsDefault(a) && IsDefault(b) else Pattern(a) == Pattern(b)
  {
    hide Pattern, ParseCode, IsDefault, ToText;
    PatternOfCode(a);
    PatternOfCode(b);
    if !IsDefault(a) { ParseCodeRange(a); CodeIsNotDefault(ParseCode(a).value); }
    if !IsDefault(b) { ParseCodeRange(b); CodeIsNotDefault(ParseCode(b).value); }
    if !IsDefault(a) && !IsDefault(b) {
      SamePattern(ParseCode(a).value, ParseCode(b).value);
    }
  }

  lemma SamePattern(m: int, n: int)
    requires IsI32(m) && IsI32(n)
    ensures m % U32_LIMIT == n % U32_LIMIT <==> ToText(m) == ToText(n)
  {
    hide ToText;
    if ToText(m) == ToText(n) { ToTextInjective(m, n); }
    if m % U32_LIMIT == n % U32_LIMIT { assert m == n; }
  }

  /** The check newly entered keys must pass. */
  predicate ValidateKey(s: string) {
    && Trim(s) != ""
    && !EqIgnoreAsciiCase(Trim(s), DEFAULT)
    && (forall c :: c in s ==> !IsWhitespace(c) && !IsControl(c))
    && '=' !in s
    && '\0' !in s
    && ParseI32(s).Some?
    && s == ToText(ParseI32(s).value)
  }

  lemma PrintedIsValid(n: int)
    requires IsI32(n)
    ensures ValidateKey(ToText(n)) && ToText(n) != DEFAULT && Normalize(ToText(n)) == Ok(ToText(n))
  {
    var s := ToText(n);
    I32RoundTrip(n);
    CodeIsNotDefault(n);
    hide ToText, ParseI32, ParseCode, Trim;
    forall c | c in s
      ensures !IsWhitespace(c) && !IsControl(c) && c != '=' && c != '\0'
    {
      assert IsDigit(c) || c == '-';
    }
    TrimNothing(s);
  }

  /** Accepted keys, printed codes and the fixed points other than the default are the same strings. */
  lemma CanonicalKeys(s: string)
    ensures ValidateKey(s) <==> exists n :: IsI32(n) && s == ToText(n)
    ensures ValidateKey(s) <==> s != DEFAULT && Normalize(s) == Ok(s)
  {
    hide Trim, ToText;
    if n :| IsI32(n) && s == ToText(n) {
      PrintedIsValid(n);
    }
    if ValidateKey(s) {
      PrintedIsValid(ParseI32(s).value);
    }
    if s != DEFAULT && Normalize(s) == Ok(s) {
      ParseCodeRange(s);
      PrintedIsValid(ParseCode(s).value);
    }
  }

  // -- Merging entries ----------------------------------------------------------

  datatype Entry = Entry(name: string, action: ExitAction)

  type Actions = map<string, ExitAction>

  function Insert(out: Actions, e: Entry): Result<Actions, Error> {
    match Normalize(e.name)
    case Err(x) => Err(x)
    case Ok(key) =>
      if key in out then if out[key] == e.action then Ok(out) else Err(InvalidConfig)
      else Ok(out[key := e.action])
  }

  function InsertAll(entries: seq<Entry>): Result<Actions, Error> {
    if entries == [] then Ok(map[])
    else
      match InsertAll(entries[..|entries| - 1])
      case Err(x) => Err(x)
      case Ok(out) => Insert(out, Last(entries))
  }

  /** Every name is readable and no two spellings of one code disagree. */
  ghost predicate Consistent(entries: seq<Entry>) {
    && (forall e :: e in entries ==> Normalize(e.name).Ok?)
    && (forall e, f :: e in entries && f in entries && Normalize(e.name) == Normalize(f.name) ==> e.action == f.action)
  }

  ghost predicate Merges(out: Actions, entries: seq<Entry>) {
    && (forall e :: e in entries && Normalize(e.name).Ok? ==>
          Normalize(e.name).value in out && out[Normalize(e.name).value] == e.action)
    && (forall key :: key in out ==> exists e :: e in entries && Normalize(e.name) == Ok(key))
  }

  lemma {:induction false} InsertAllExact(entries: seq<Entry>)
    ensures InsertAll(entries).Ok? <==> Consistent(entries)
    ensures InsertAll(entries).Ok? ==> Merges(InsertAll(entries).value, entries)
  {
    if entries != [] {
      var rest := entries[..|entries| - 1];
      InsertAllExact(rest);
      if InsertAll(rest).Ok? {
        InsertExact(InsertAll(rest).value, rest, Last(entries));
      }
      assert entries == rest + [Last(entries)];
      assert forall e :: e in rest ==> e in entries;
    }
  }

  lemma InsertExact(out: Actions, rest: seq<Entry>, x: Entry)
    requires Merges(out, rest) && Consistent(rest)
    ensures Insert(out, x).Ok? <==> Consistent(rest + [x])
    ensures Insert(out, x).Ok? ==> Merges(Insert(out, x).value, rest + [x])
  {
    hide Normalize;
    var all := rest + [x];
    assert forall e :: e in all <==> e in rest || e == x;
    if Normalize(x.name).Ok? && Normalize(x.name).value in out {
      var e :| e in rest && Normalize(e.name) == Ok(Normalize(x.name).value);
      assert out[Normalize(x.name).value] == e.action;
    }
  }

  /** Entries in any order, with any repetition, merge to the same map or fail alike. */
  lemma MergeOrderIrrelevant(a: seq<Entry>, b: seq<Entry>)
    requires forall e :: e in a <==> e in b
    ensures InsertAll(a) == InsertAll(b)
  {
    hide InsertAll, Merges, Consistent;
    InsertAllExact(a);
    InsertAllExact(b);
    if Consistent(a) { SameConsistency(a, b); }
    if Consistent(b) { SameConsistency(b, a); }
    if InsertAll(a).Ok? {
      var m, n := InsertAll(a).value, InsertAll(b).value;
      SameMerge(m, n, a, b);
      SameMerge(n, m, b, a);
      assert m == n;
    } else {
      assert InsertAll(a).error == InvalidConfig == InsertAll(b).error;
    }
  }

  lemma SameConsistency(a: seq<Entry>, b: seq<Entry>)
    requires Consistent(a) && forall e :: e in b ==> e in a
    ensures Consistent(b)
  {
  }

  lemma SameMerge(m: Actions, n: Actions, a: seq<Entry>, b: seq<Entry>)
    requires Merges(m, a) && Merges(n, b) && forall e :: e in a ==> e in b
    ensures forall key :: key in m ==> key in n && m[key] == n[key]
  {
    forall key | key in m
      ensures key in n && m[key] == n[key]
    {
      var e :| e in a && Normalize(e.name) == Ok(key);
    }
  }
}
