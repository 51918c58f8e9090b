/** Character classes and ASCII case folding, as the standard library defines them. */
module Text {
  import opened Prelude

  predicate IsControl(c: char) { c as int < 0x20 || 0x7F <= c as int < 0xA0 }

  predicate IsWhitespace(c: char) {
    var n := c as int;
    || 9 <= n <= 13
    || n in {0x20, 0x85, 0xA0, 0x1680, 0x2028, 0x2029, 0x202F, 0x205F, 0x3000}
    || 0x2000 <= n <= 0x200A
  }

  function TrimStart(s: string): string {
    if s != [] && IsWhitespace(s[0]) then TrimStart(s[1..]) else s
  }

  function TrimEnd(s: string): string {
    if s != [] && IsWhitespace(Last(s)) then TrimEnd(s[..|s| - 1]) else s
  }

  function Trim(s: string): string { TrimEnd(TrimStart(s)) }

  lemma TrimNothing(s: string)
    requires forall c :: c in s ==> !IsWhitespace(c)
    ensures Trim(s) == s
  {
    if s != [] {
      assert s[0] in s && Last(s) in s;
    }
  }

  function Lower(c: char): char {
    if 'A' <= c <= 'Z' then (c as int + 32) as char else c
  }

  predicate EqIgnoreAsciiCase(s: string, t: string) {
    |s| == |t| && forall i :: 0 <= i < |s| ==> Lower(s[i]) == Lower(t[i])
  }
}

/** Splitting a sequence at every occurrence of one separator. */
module Splitting {
  import opened Prelude

  function SplitOn<T(==)>(s: seq<T>, sep: T): (parts: seq<seq<T>>)
    ensures parts != []
  {
    if s == [] then [[]] else Grow(s[0], sep, SplitOn(s[1..], sep))
  }

  /** One more element in front of what has been split. */
  function Grow<T(==)>(c: T, sep: T, parts: seq<seq<T>>): (r: seq<seq<T>>)
    requires parts != []
    ensures r != []
  {
    if c == sep then [[]] + parts else [[c] + parts[0]] + parts[1..]
  }

  function JoinWith<T>(parts: seq<seq<T>>, sep: T): seq<T>
    requires parts != []
  {
    if |parts| == 1 then parts[0] else parts[0] + [sep] + JoinWith(parts[1..], sep)
  }

  /** Splitting loses nothing and leaves no separator inside a part. */
  lemma {:induction false} SplitJoins<T>(s: seq<T>, sep: T)
    ensures JoinWith(SplitOn(s, sep), sep) == s
    ensures forall i :: 0 <= i < |SplitOn(s, sep)| ==> sep !in SplitOn(s, sep)[i]
  {
    if s != [] {
      SplitJoins(s[1..], sep);
      var rest := SplitOn(s[1..], sep);
      if s[0] == sep {
        assert SplitOn(s, sep)[1..] == rest;
        assert [] + [sep] + s[1..] == s;
      } else {
        assert SplitOn(s, sep)[1..] == rest[1..];
        assert [s[0]] + s[1..] == s;
      }
    }
  }

  /** A prefix without separators is the first part. */
  lemma {:induction false} SplitPrefix<T>(a: seq<T>, b: seq<T>, sep: T)
    requires sep !in a
    ensures SplitOn(a + [sep] + b, sep) == [a] + SplitOn(b, sep)
  {
    var s := a + [sep] + b;
    if a == [] {
      assert s == [sep] + b && s[1..] == b;
    } else {
      assert s[1..] == a[1..] + [sep] + b;
      SplitPrefix(a[1..], b, sep);
      assert a == [a[0]] + a[1..];
    }
  }

  lemma {:induction false} SplitWhole<T>(a: seq<T>, sep: T)
    requires sep !in a
    ensures SplitOn(a, sep) == [a]
  {
    if a != [] {
      SplitWhole(a[1..], sep);
      assert a == [a[0]] + a[1..];
    }
  }

  lemma GrowAppend<T>(c: T, sep: T, parts: seq<seq<T>>, more: seq<seq<T>>)
    requires parts != []
    ensures Grow(c, sep, parts + more) == Grow(c, sep, parts) + more
  {
    assert (parts + more)[1..] == parts[1..] + more;
  }

  /** Behind a separator the parts of `b` follow those of `a`. */
  lemma {:induction false} SplitAppend<T>(a: seq<T>, b: seq<T>, sep: T)
    ensures SplitOn(a + [sep] + b, sep) == SplitOn(a, sep) + SplitOn(b, sep)
  {
    var s := a + [sep] + b;
    if a == [] {
      assert s == [sep] + b && s[1..] == b;
    } else {
      assert s[0] == a[0] && s[1..] == a[1..] + [sep] + b;
      SplitAppend(a[1..], b, sep);
      hide Grow;
      GrowAppend(a[0], sep, SplitOn(a[1..], sep), SplitOn(b, sep));
    }
  }
}
