/** Quoting one argument for a command line, and the rules by which the command line is taken apart again. */
module Quoting {
  function Repeated(n: nat): (s: string)
    ensures |s| == n && forall i :: 0 <= i < n ==> s[i] == '\\'
  {
    seq(n, _ => '\\')
  }

  // -- Printing -------------------------------------------------------------------------

  predicate NeedsQuotes(arg: string) {
    arg == "" || exists c :: c in arg && c in {' ', '\t', '\n', '\U{0B}', '"'}
  }

  /** What is still to be printed when `k` backslashes are held back in front of `arg`. */
  function Pending(k: nat, arg: string): string
    decreases |arg|
  {
    if arg == "" then Repeated(2 * k) + "\""
    else if arg[0] == '\\' then Pending(k + 1, arg[1..])
    else if arg[0] == '"' then Repeated(2 * k + 1) + "\"" + Pending(0, arg[1..])
    else Repeated(k) + [arg[0]] + Pending(0, arg[1..])
  }

  function Quoted(arg: string): string {
    if NeedsQuotes(arg) then "\"" + Pending(0, arg) else arg
  }

  method PushBackslashes(out: string, n: nat) returns (r: string)
    ensures r == out + Repeated(n)
  {
    r := out;
    for i := 0 to n
      invariant r == out + Repeated(i)
    {
      r := r + "\\";
    }
  }

  method QuoteWindowsArg(arg: string) returns (out: string)
    ensures out == Quoted(arg)
  {
    if !NeedsQuotes(arg) { return arg; }
    out := "\"";
    var backslashes := 0;
    for i := 0 to |arg|
      invariant out + Pending(backslashes, arg[i..]) == "\"" + Pending(0, arg)
    {
      assert arg[i..][0] == arg[i] && arg[i..][1..] == arg[i + 1..];
      if arg[i] == '\\' {
        backslashes := backslashes + 1;
      } else if arg[i] == '"' {
        out := PushBackslashes(out, backslashes * 2 + 1);
        backslashes := 0;
        out := out + "\"";
      } else {
        out := PushBackslashes(out, backslashes);
        backslashes := 0;
        out := out + [arg[i]];
      }
    }
    out := PushBackslashes(out, backslashes * 2);
    out := out + "\"";
  }

  /** An argument is printed as it is exactly if it is not empty and has neither white space nor a quote in it. */
  lemma PlainStaysPlain(arg: string)
    ensures Quoted(arg) == arg <==> arg != "" && forall c :: c in arg ==> c !in {' ', '\t', '\n', '\U{0B}', '"'}
  {
    PendingGrows(0, arg);
  }

  lemma {:induction false} PendingGrows(k: nat, arg: string)
    ensures |Pending(k, arg)| > |arg| + k
    decreases |arg|
  {
    if arg != "" { PendingGrows(if arg[0] == '\\' then k + 1 else 0, arg[1..]); }
  }

  /** Arguments one after the other, a single space between two of them. */
  function CommandLine(args: seq<string>): string {
    if args == [] then ""
    else if |args| == 1 then Quoted(args[0])
    else Quoted(args[0]) + " " + CommandLine(args[1..])
  }

  // -- Taking apart ---------------------------------------------------------------------

  predicate IsSeparator(c: char) { c == ' ' || c == '\t' }

  /** The length of the run of backslashes `s` starts with. */
  function Run(s: string): (n: nat)
    ensures n <= |s|
    ensures n < |s| ==> s[n] != '\\'
    ensures forall i :: 0 <= i < n ==> s[i] == '\\'
  {
    if s == "" || s[0] != '\\' then 0 else 1 + Run(s[1..])
  }

  /** The argument `s` goes on with, and what is left behind it. Of the backslashes in front of a quote every
      pair counts as one; an odd one makes the quote literal, otherwise the quote opens or closes a quoted part.
      Two adjacent quotes in a quoted part are a literal quote, after which the part stays open or not
      (`staysOpen`): implementations differ. */
  function Argument(s: string, quoted: bool, staysOpen: bool): (r: (string, string))
    ensures |r.1| <= |s|
    ensures s != "" && (quoted || !IsSeparator(s[0])) ==> |r.1| < |s|
    decreases |s|
  {
    if s == "" || (!quoted && IsSeparator(s[0])) then ("", s)
    else
      var n := Run(s);
      if n < |s| && s[n] == '"' then
        if n % 2 == 1 then
          var (a, rest) := Argument(s[n + 1..], quoted, staysOpen);
          (Repeated(n / 2) + "\"" + a, rest)
        else if quoted && n + 1 < |s| && s[n + 1] == '"' then
          var (a, rest) := Argument(s[n + 2..], staysOpen, staysOpen);
          (Repeated(n / 2) + "\"" + a, rest)
        else
          var (a, rest) := Argument(s[n + 1..], !quoted, staysOpen);
          (Repeated(n / 2) + a, rest)
      else if n > 0 then
        var (a, rest) := Argument(s[n..], quoted, staysOpen);
        (Repeated(n) + a, rest)
      else
        var (a, rest) := Argument(s[1..], quoted, staysOpen);
        ([s[0]] + a, rest)
  }

  function SkipSeparators(s: string): (t: string)
    ensures |t| <= |s|
    ensures t != "" ==> !IsSeparator(t[0])
  {
    if s != "" && IsSeparator(s[0]) then SkipSeparators(s[1..]) else s
  }

  function Arguments(s: string, staysOpen: bool): seq<string>
    decreases |s|
  {
    var t := SkipSeparators(s);
    if t == "" then []
    else
      var (a, rest) := Argument(t, false, staysOpen);
      [a] + Arguments(rest, staysOpen)
  }

  // -- Printing, then taking apart ----------------------------------------------------------

  predicate EndsArgument(tail: string) { tail == "" || IsSeparator(tail[0]) }

  lemma RunIs(s: string, n: nat, rest: string)
    requires s == Repeated(n) + rest && (rest == "" || rest[0] != '\\')
    ensures Run(s) == n && s[n..] == rest
    ensures rest != "" ==> n < |s| && s[n] == rest[0] && s[n + 1..] == rest[1..]
  {
    RunUnique(s, n);
  }

  lemma RunUnique(s: string, n: nat)
    requires n <= |s| && (forall i :: 0 <= i < n ==> s[i] == '\\') && (n < |s| ==> s[n] != '\\')
    ensures Run(s) == n
  {
  }

  /** `r` with `a` put in front of the argument. */
  function Prepended(a: string, r: (string, string)): (string, string) { (a + r.0, r.1) }

  lemma OddRun(s: string, n: nat, quoted: bool, staysOpen: bool)
    requires Run(s) == n < |s| && s[n] == '"' && n % 2 == 1
    ensures Argument(s, quoted, staysOpen) == Prepended(Repeated(n / 2) + "\"", Argument(s[n + 1..], quoted, staysOpen))
  {
    hide Repeated;
    assert s[0] == '\\';
  }

  lemma LiteralQuote(k: nat, more: string, quoted: bool, staysOpen: bool)
    ensures Argument(Repeated(2 * k + 1) + ("\"" + more), quoted, staysOpen)
            == Prepended(Repeated(k) + "\"", Argument(more, quoted, staysOpen))
  {
    var n, rest := 2 * k + 1, "\"" + more;
    hide Argument, Run;
    assert rest[1..] == more;
    RunIs(Repeated(n) + rest, n, rest);
    OddRun(Repeated(n) + rest, n, quoted, staysOpen);
  }

  lemma ClosingQuote(k: nat, tail: string, staysOpen: bool)
    requires EndsArgument(tail)
    ensures Argument(Repeated(2 * k) + ("\"" + tail), true, staysOpen) == (Repeated(k), tail)
  {
    var s := Repeated(2 * k) + ("\"" + tail);
    RunIs(s, 2 * k, "\"" + tail);
    assert ("\"" + tail)[1..] == tail;
    if tail != "" { assert s[2 * k + 1] == tail[0]; }
    assert Repeated(k) + "" == Repeated(k);
  }

  /** Backslashes that no quote follows stand for themselves. */
  lemma PlainBackslashes(k: nat, rest: string, quoted: bool, staysOpen: bool)
    requires rest == "" || (rest[0] != '\\' && rest[0] != '"')
    ensures Argument(Repeated(k) + rest, quoted, staysOpen) == Prepended(Repeated(k), Argument(rest, quoted, staysOpen))
  {
    var s := Repeated(k) + rest;
    if k == 0 {
      assert s == rest;
      assert Repeated(0) + Argument(rest, quoted, staysOpen).0 == Argument(rest, quoted, staysOpen).0;
    } else {
      RunIs(s, k, rest);
      assert s[0] == '\\';
    }
  }

  lemma PlainCharacter(c: char, more: string, quoted: bool, staysOpen: bool)
    requires c != '\\' && c != '"' && (quoted || !IsSeparator(c))
    ensures Argument([c] + more, quoted, staysOpen) == Prepended([c], Argument(more, quoted, staysOpen))
  {
    var s := [c] + more;
    assert Run(s) == 0 && s[1..] == more;
  }

  lemma AfterQuote(k: nat, rest: string, more: string, tail: string, staysOpen: bool)
    requires Argument(more, true, staysOpen) == (rest, tail)
    ensures Argument(Repeated(2 * k + 1) + ("\"" + more), true, staysOpen) == (Repeated(k) + ("\"" + rest), tail)
  {
    hide Argument;
    LiteralQuote(k, more, true, staysOpen);
    assert Repeated(k) + "\"" + rest == Repeated(k) + ("\"" + rest);
  }

  lemma AfterCharacter(k: nat, c: char, rest: string, more: string, tail: string, staysOpen: bool)
    requires c != '\\' && c != '"' && Argument(more, true, staysOpen) == (rest, tail)
    ensures Argument(Repeated(k) + ([c] + more), true, staysOpen) == (Repeated(k) + ([c] + rest), tail)
  {
    hide Argument;
    PlainBackslashes(k, [c] + more, true, staysOpen);
    PlainCharacter(c, more, true, staysOpen);
  }

  lemma PendingShape(k: nat, arg: string, tail: string)
    requires arg != ""
    ensures var (c, rest, more) := (arg[0], arg[1..], Pending(0, arg[1..]) + tail);
            && arg == [c] + rest
            && (c == '\\' ==> Pending(k, arg) == Pending(k + 1, rest) && Repeated(k) + arg == Repeated(k + 1) + rest)
            && (c == '"' ==> Pending(k, arg) + tail == Repeated(2 * k + 1) + ("\"" + more))
            && (c != '\\' && c != '"' ==> Pending(k, arg) + tail == Repeated(k) + ([c] + more))
  {
  }

  /** Inside quotes, backslashes held back and the remaining characters come back as they were. */
  lemma {:induction false} PendingRead(k: nat, arg: string, tail: string, staysOpen: bool)
    requires EndsArgument(tail)
    ensures Argument(Pending(k, arg) + tail, true, staysOpen) == (Repeated(k) + arg, tail)
    decreases |arg|
  {
    if arg == "" {
      assert Pending(k, arg) + tail == Repeated(2 * k) + ("\"" + tail);
      ClosingQuote(k, tail, staysOpen);
      assert Repeated(k) + "" == Repeated(k);
    } else {
      hide Argument, Pending;
      var more := Pending(0, arg[1..]) + tail;
      PendingShape(k, arg, tail);
      if arg[0] == '\\' {
        PendingRead(k + 1, arg[1..], tail, staysOpen);
      } else {
        PendingRead(0, arg[1..], tail, staysOpen);
        assert Repeated(0) + arg[1..] == arg[1..];
        if arg[0] == '"' {
          AfterQuote(k, arg[1..], more, tail, staysOpen);
        } else {
          AfterCharacter(k, arg[0], arg[1..], more, tail, staysOpen);
        }
      }
    }
  }

  lemma CutRun(arg: string, n: nat, tail: string)
    requires n <= |arg| && forall i :: 0 <= i < n ==> arg[i] == '\\'
    ensures arg == Repeated(n) + arg[n..] && arg + tail == Repeated(n) + (arg[n..] + tail)
    ensures n < |arg| ==> arg[n..] == [arg[n]] + arg[n + 1..] && arg[n..] + tail == [arg[n]] + (arg[n + 1..] + tail)
  {
  }

  /** An argument printed bare is read back whole. */
  lemma {:induction false} BareRead(arg: string, tail: string, staysOpen: bool)
    requires EndsArgument(tail) && forall c :: c in arg ==> !IsSeparator(c) && c != '"'
    ensures Argument(arg + tail, false, staysOpen) == (arg, tail)
    decreases |arg|
  {
    var n := Run(arg);
    CutRun(arg, n, tail);
    assert Argument(tail, false, staysOpen) == ("", tail);
    hide Argument, Run, Repeated, IsSeparator;
    if n == |arg| {
      assert [] + tail == tail && Repeated(n) + [] == Repeated(n);
      PlainBackslashes(n, tail, false, staysOpen);
    } else {
      var c, more := arg[n], arg[n + 1..];
      assert c in arg && forall d :: d in more ==> d in arg;
      BareRead(more, tail, staysOpen);
      PlainCharacter(c, more + tail, false, staysOpen);
      PlainBackslashes(n, [c] + (more + tail), false, staysOpen);
    }
  }

  lemma QuotedRead(arg: string, tail: string, staysOpen: bool)
    requires EndsArgument(tail)
    ensures var s := Quoted(arg) + tail;
            s != "" && !IsSeparator(s[0]) && Argument(s, false, staysOpen) == (arg, tail)
  {
    if NeedsQuotes(arg) {
      var s := "\"" + (Pending(0, arg) + tail);
      assert Quoted(arg) + tail == s;
      assert Run(s) == 0 && s[1..] == Pending(0, arg) + tail;
      PendingRead(0, arg, tail, staysOpen);
      assert Repeated(0) + (Repeated(0) + arg) == arg && Repeated(0) + arg == arg;
    } else {
      assert arg[0] in arg;
      BareRead(arg, tail, staysOpen);
    }
  }

  lemma ArgumentsStep(a: string, tail: string, staysOpen: bool)
    requires EndsArgument(tail)
    ensures Arguments(Quoted(a) + tail, staysOpen) == [a] + Arguments(tail, staysOpen)
  {
    hide Argument, Quoted;
    QuotedRead(a, tail, staysOpen);
    assert SkipSeparators(Quoted(a) + tail) == Quoted(a) + tail;
  }

  /** Every list of arguments, whatever is in them, survives being printed and taken apart. */
  lemma {:induction false} CommandLineRoundTrip(args: seq<string>, staysOpen: bool)
    ensures Arguments(CommandLine(args), staysOpen) == args
  {
    hide Quoted;
    if args != [] {
      var rest := args[1..];
      CommandLineRoundTrip(rest, staysOpen);
      var tail := if |args| == 1 then "" else " " + CommandLine(rest);
      assert CommandLine(args) == Quoted(args[0]) + tail by { assert Quoted(args[0]) + "" == Quoted(args[0]); }
      hide CommandLine, Arguments;
      ArgumentsStep(args[0], tail, staysOpen);
      SkipOne(CommandLine(rest), staysOpen);
      NoArguments(staysOpen);
      assert [args[0]] + rest == args;
    }
  }

  lemma NoArguments(staysOpen: bool)
    ensures Arguments("", staysOpen) == []
  {
  }

  lemma SkipOne(s: string, staysOpen: bool)
    ensures Arguments(" " + s, staysOpen) == Arguments(s, staysOpen)
  {
    assert (" " + s)[1..] == s;
  }
}
