/**
 Command lines for the elevated child (src/platform/windows.rs, `quote_arg`,
 `strip_relay_flags`, `relaunch_elevated_wait`), against the rules by which the
 Windows C runtime splits a command line into arguments.
 */
module CommandLine {
  function Repeat(c: char, n: nat): string { seq(n, _ => c) }

  lemma RepeatAdds(c: char, m: nat, n: nat)
    ensures Repeat(c, m) + Repeat(c, n) == Repeat(c, m + n)
  {
  }

  // ----- The C runtime's rules -----

  /**
   Splits the rest `s` of a command line. `cur` is the argument read so far, `inArg`
   whether there is one, `quoted` whether a quoted part is open, `slashes` how many
   backslashes were just read. 2n backslashes and a quote are n backslashes and a
   delimiter; 2n+1 are n backslashes and a literal quote; backslashes before anything
   else are literal. Two quotes in a quoted part are a literal quote, after which the
   part stays open or not, depending on the age of the runtime.
   */
  function ParseFrom(s: string, cur: string, inArg: bool, quoted: bool, slashes: nat, staysOpen: bool): seq<string>
    decreases |s|
  {
    if s == [] then
      if inArg then [cur + Repeat('\\', slashes)] else []
    else if s[0] == '\\' then
      ParseFrom(s[1..], cur, true, quoted, slashes + 1, staysOpen)
    else if s[0] == '"' then
      var cur' := cur + Repeat('\\', slashes / 2);
      if slashes % 2 == 1 then ParseFrom(s[1..], cur' + ['"'], true, quoted, 0, staysOpen)
      else if quoted && |s| > 1 && s[1] == '"' then ParseFrom(s[2..], cur' + ['"'], true, staysOpen, 0, staysOpen)
      else ParseFrom(s[1..], cur', true, !quoted, 0, staysOpen)
    else if (s[0] == ' ' || s[0] == '\t') && !quoted then
      (if inArg then [cur + Repeat('\\', slashes)] else []) + ParseFrom(s[1..], [], false, false, 0, staysOpen)
    else
      ParseFrom(s[1..], cur + Repeat('\\', slashes) + [s[0]], true, quoted, 0, staysOpen)
  }

  function Parse(s: string, staysOpen: bool): seq<string> { ParseFrom(s, [], false, false, 0, staysOpen) }

  // ----- Quoting -----

  predicate NeedsNoQuotes(arg: string) {
    arg != [] && forall i :: 0 <= i < |arg| ==> arg[i] != ' ' && arg[i] != '\t' && arg[i] != '"'
  }

  /** The rest of a quoted argument, with `slashes` backslashes held back. */
  function QuoteRest(arg: string, slashes: nat): string {
    if arg == [] then Repeat('\\', 2 * slashes) + ['"']
    else if arg[0] == '\\' then QuoteRest(arg[1..], slashes + 1)
    else if arg[0] == '"' then Repeat('\\', 2 * slashes + 1) + ['"'] + QuoteRest(arg[1..], 0)
    else Repeat('\\', slashes) + [arg[0]] + QuoteRest(arg[1..], 0)
  }

  function Quoted(arg: string): string { if NeedsNoQuotes(arg) then arg else ['"'] + QuoteRest(arg, 0) }

  method QuoteArg(arg: string) returns (out: string)
    ensures out == Quoted(arg)
  {
    if NeedsNoQuotes(arg) {
      return arg;
    }
    out := ['"'];
    var backslashes := 0;
    for i := 0 to |arg|
      invariant out + QuoteRest(arg[i..], backslashes) == ['"'] + QuoteRest(arg, 0)
    {
      ghost var before, held := out, backslashes;
      assert arg[i..][0] == arg[i] && arg[i..][1..] == arg[i+1..];
      match arg[i] {
        case '\\' => backslashes := backslashes + 1;
        case '"' =>
          out := out + Repeat('\\', backslashes * 2 + 1);
          out := out + ['"'];
          backslashes := 0;
          assert out + QuoteRest(arg[i+1..], 0) == before + QuoteRest(arg[i..], held);
        case c =>
          out := out + Repeat('\\', backslashes);
          backslashes := 0;
          out := out + [c];
          assert out + QuoteRest(arg[i+1..], 0) == before + QuoteRest(arg[i..], held);
      }
    }
    assert arg[|arg|..] == [];
    ghost var unfinished := out;
    out := out + Repeat('\\', backslashes * 2);
    out := out + ['"'];
    assert out == unfinished + QuoteRest([], backslashes);
  }

  // ----- Parsing undoes quoting -----

  /** What is left after one argument: nothing, or a space and more. */
  predicate Separated(rest: string) { rest == [] || rest[0] == ' ' }

  /** `arg` is complete; go on with `rest`. */
  function Then(arg: string, rest: string, staysOpen: bool): seq<string> {
    [arg] + if rest == [] then [] else Parse(rest[1..], staysOpen)
  }

  lemma {:induction false} Slashes(n: nat, s: string, cur: string, inArg: bool, quoted: bool, slashes: nat, staysOpen: bool)
    ensures ParseFrom(Repeat('\\', n) + s, cur, inArg, quoted, slashes, staysOpen)
            == ParseFrom(s, cur, inArg || n > 0, quoted, slashes + n, staysOpen)
  {
    if n == 0 {
      assert Repeat('\\', 0) + s == s;
    } else {
      assert (Repeat('\\', n) + s)[1..] == Repeat('\\', n - 1) + s;
      Slashes(n - 1, s, cur, true, quoted, slashes + 1, staysOpen);
    }
  }

  /** Held back backslashes and the closing quote. */
  lemma ClosingQuote(rest: string, cur: string, slashes: nat, staysOpen: bool)
    requires Separated(rest)
    ensures ParseFrom(QuoteRest([], slashes) + rest, cur, true, true, 0, staysOpen)
            == Then(cur + Repeat('\\', slashes), rest, staysOpen)
  {
    assert QuoteRest([], slashes) + rest == Repeat('\\', 2 * slashes) + (['"'] + rest);
    Slashes(2 * slashes, ['"'] + rest, cur, true, true, 0, staysOpen);
    assert (['"'] + rest)[1..] == rest;
    assert cur + Repeat('\\', slashes) + Repeat('\\', 0) == cur + Repeat('\\', slashes);
  }

  /** Held back backslashes and a quote of the argument. */
  lemma EscapedQuote(more: string, cur: string, slashes: nat, staysOpen: bool)
    ensures ParseFrom(Repeat('\\', 2 * slashes + 1) + (['"'] + more), cur, true, true, 0, staysOpen)
            == ParseFrom(more, cur + Repeat('\\', slashes) + ['"'], true, true, 0, staysOpen)
  {
    Slashes(2 * slashes + 1, ['"'] + more, cur, true, true, 0, staysOpen);
    assert (['"'] + more)[1..] == more;
  }

  /** Held back backslashes and any other character of the argument. */
  lemma PlainChar(c: char, more: string, cur: string, slashes: nat, staysOpen: bool)
    requires c != '\\' && c != '"'
    ensures ParseFrom(Repeat('\\', slashes) + ([c] + more), cur, true, true, 0, staysOpen)
            == ParseFrom(more, cur + Repeat('\\', slashes) + [c], true, true, 0, staysOpen)
  {
    Slashes(slashes, [c] + more, cur, true, true, 0, staysOpen);
    assert ([c] + more)[1..] == more;
  }

  lemma {:induction false} QuotedPart(arg: string, rest: string, cur: string, slashes: nat, staysOpen: bool)
    requires Separated(rest)
    ensures ParseFrom(QuoteRest(arg, slashes) + rest, cur, true, true, 0, staysOpen)
            == Then(cur + Repeat('\\', slashes) + arg, rest, staysOpen)
    decreases |arg|
  {
    if arg == [] {
      ClosingQuote(rest, cur, slashes, staysOpen);
      assert cur + Repeat('\\', slashes) + arg == cur + Repeat('\\', slashes);
    } else if arg[0] == '\\' {
      QuotedPart(arg[1..], rest, cur, slashes + 1, staysOpen);
      RepeatAdds('\\', slashes, 1);
      assert cur + Repeat('\\', slashes + 1) + arg[1..] == cur + Repeat('\\', slashes) + arg;
    } else {
      var more := QuoteRest(arg[1..], 0) + rest;
      var cur' := cur + Repeat('\\', slashes) + [arg[0]];
      if arg[0] == '"' {
        EscapedQuote(more, cur, slashes, staysOpen);
        assert QuoteRest(arg, slashes) + rest == Repeat('\\', 2 * slashes + 1) + (['"'] + more);
      } else {
        PlainChar(arg[0], more, cur, slashes, staysOpen);
        assert QuoteRest(arg, slashes) + rest == Repeat('\\', slashes) + ([arg[0]] + more);
      }
      QuotedPart(arg[1..], rest, cur', 0, staysOpen);
      assert cur' + Repeat('\\', 0) + arg[1..] == cur + Repeat('\\', slashes) + arg;
    }
  }

  lemma {:induction false} PlainPart(arg: string, rest: string, cur: string, inArg: bool, slashes: nat, staysOpen: bool)
    requires Separated(rest) && (inArg || arg != [])
    requires forall i :: 0 <= i < |arg| ==> arg[i] != ' ' && arg[i] != '\t' && arg[i] != '"'
    ensures ParseFrom(arg + rest, cur, inArg, false, slashes, staysOpen)
            == Then(cur + Repeat('\\', slashes) + arg, rest, staysOpen)
    decreases |arg|
  {
    if arg == [] {
      assert arg + rest == rest;
      assert cur + Repeat('\\', slashes) + arg == cur + Repeat('\\', slashes);
    } else {
      assert (arg + rest)[1..] == arg[1..] + rest;
      if arg[0] == '\\' {
        PlainPart(arg[1..], rest, cur, true, slashes + 1, staysOpen);
        RepeatAdds('\\', slashes, 1);
        assert cur + Repeat('\\', slashes + 1) + arg[1..] == cur + Repeat('\\', slashes) + arg;
      } else {
        var cur' := cur + Repeat('\\', slashes) + [arg[0]];
        PlainPart(arg[1..], rest, cur', true, 0, staysOpen);
        assert cur' + Repeat('\\', 0) + arg[1..] == cur + Repeat('\\', slashes) + arg;
      }
    }
  }

  lemma QuotedArgument(arg: string, rest: string, staysOpen: bool)
    requires Separated(rest)
    ensures Parse(Quoted(arg) + rest, staysOpen) == Then(arg, rest, staysOpen)
  {
    assert [] + Repeat('\\', 0) + arg == arg;
    if NeedsNoQuotes(arg) {
      PlainPart(arg, rest, [], false, 0, staysOpen);
    } else {
      assert (Quoted(arg) + rest)[1..] == QuoteRest(arg, 0) + rest;
      assert [] + Repeat('\\', 0) == "";
      QuotedPart(arg, rest, [], 0, staysOpen);
    }
  }

  function QuotedAll(args: seq<string>): seq<string> {
    seq(|args|, i requires 0 <= i < |args| => Quoted(args[i]))
  }

  /** The parts with single spaces between them. */
  function Join(parts: seq<string>): string {
    if parts == [] then []
    else if |parts| == 1 then parts[0]
    else parts[0] + [' '] + Join(parts[1..])
  }

  /** Quotes are put exactly where they are needed. */
  lemma QuotedOnlyIfNeeded(arg: string)
    ensures Quoted(arg) == arg <==>
              arg != "" && ' ' !in arg && '\t' !in arg && '"' !in arg
    ensures Quoted(arg) != arg ==> |Quoted(arg)| >= 2 && Quoted(arg)[0] == '"' && Quoted(arg)[|Quoted(arg)|-1] == '"'
  {
    QuoteRestCloses(arg, 0);
    if Quoted(arg) == arg && !NeedsNoQuotes(arg) {
      QuoteRestIsLonger(arg, 0);
    }
  }

  lemma {:induction false} QuoteRestCloses(arg: string, slashes: nat)
    ensures |QuoteRest(arg, slashes)| > 0 && QuoteRest(arg, slashes)[|QuoteRest(arg, slashes)|-1] == '"'
    decreases |arg|
  {
    if arg != [] {
      QuoteRestCloses(arg[1..], if arg[0] == '\\' then slashes + 1 else 0);
    }
  }

  lemma {:induction false} QuoteRestIsLonger(arg: string, slashes: nat)
    ensures |QuoteRest(arg, slashes)| > |arg| + slashes
    decreases |arg|
  {
    if arg != [] {
      QuoteRestIsLonger(arg[1..], if arg[0] == '\\' then slashes + 1 else 0);
    }
  }

  /** For every argument list, the child's runtime gets back exactly that list. */
  lemma {:induction false} ParseUndoesQuote(args: seq<string>, staysOpen: bool)
    ensures Parse(Join(QuotedAll(args)), staysOpen) == args
    decreases |args|
  {
    if |args| == 1 {
      QuotedArgument(args[0], [], staysOpen);
      assert Quoted(args[0]) + [] == Quoted(args[0]);
    } else if |args| > 1 {
      var rest := [' '] + Join(QuotedAll(args[1..]));
      assert QuotedAll(args)[1..] == QuotedAll(args[1..]);
      assert Join(QuotedAll(args)) == Quoted(args[0]) + rest;
      QuotedArgument(args[0], rest, staysOpen);
      ParseUndoesQuote(args[1..], staysOpen);
      assert rest[1..] == Join(QuotedAll(args[1..]));
    }
  }

  // ----- Relay flags -----

  const ELEVATED_LOG := "--elevated-log"
  const CONFIRMED := "--confirmed"

  function Stripped(args: seq<string>): seq<string> {
    if args == [] then []
    else if args[0] == ELEVATED_LOG then if |args| == 1 then [] else Stripped(args[2..])
    else if args[0] == CONFIRMED then Stripped(args[1..])
    else [args[0]] + Stripped(args[1..])
  }

  /** The argument after a log flag is its value, unless that flag is itself such a value. */
  predicate IsValue(args: seq<string>, i: nat)
    requires i < |args|
  {
    i > 0 && args[i-1] == "--elevated-log" && !IsValue(args, i - 1)
  }

  predicate IsKept(args: seq<string>, i: nat)
    requires i < |args|
  {
    !IsValue(args, i) && args[i] != "--elevated-log" && args[i] != "--confirmed"
  }

  /** Which positions are kept. */
  function Kept(args: seq<string>): seq<bool> { seq(|args|, i requires 0 <= i < |args| => IsKept(args, i)) }

  /** The positions from `i` on that have a flag set. */
  function Flagged(flags: seq<bool>, i: nat): (positions: seq<nat>)
    requires i <= |flags|
    ensures forall p :: p in positions ==> p < |flags|
    decreases |flags| - i
  {
    if i == |flags| then [] else (if flags[i] then [i] else []) + Flagged(flags, i + 1)
  }

  function KeptFrom(args: seq<string>, i: nat): (kept: seq<nat>)
    requires i <= |args|
    ensures forall p :: p in kept ==> p < |args|
  {
    Flagged(Kept(args), i)
  }

  function Pick(args: seq<string>, positions: seq<nat>): seq<string>
    requires forall p :: p in positions ==> p < |args|
  {
    seq(|positions|, j requires 0 <= j < |positions| => assert positions[j] in positions; args[positions[j]])
  }

  predicate Increasing(positions: seq<nat>) {
    forall j, k :: 0 <= j < k < |positions| ==> positions[j] < positions[k]
  }

  lemma {:induction false} FlaggedAre(flags: seq<bool>, i: nat)
    requires i <= |flags|
    ensures forall p: nat :: p in Flagged(flags, i) <==> i <= p < |flags| && flags[p]
    ensures Increasing(Flagged(flags, i))
    decreases |flags| - i
  {
    if i < |flags| {
      var later := Flagged(flags, i + 1);
      FlaggedAre(flags, i + 1);
      assert forall k :: 0 <= k < |later| ==> later[k] in later;
    }
  }

  lemma PickNext(args: seq<string>, i: nat)
    requires i < |args|
    ensures Pick(args, KeptFrom(args, i))
            == (if IsKept(args, i) then [args[i]] else []) + Pick(args, KeptFrom(args, i + 1))
  {
  }

  lemma {:induction false} StrippedFrom(args: seq<string>, i: nat)
    requires i <= |args| && (i < |args| ==> !IsValue(args, i))
    ensures Stripped(args[i..]) == Pick(args, KeptFrom(args, i))
    decreases |args| - i
  {
    if i < |args| {
      var left := args[i..];
      assert left[0] == args[i] && left[1..] == args[i+1..];
      PickNext(args, i);
      if args[i] != ELEVATED_LOG {
        StrippedFrom(args, i + 1);
      } else if |left| > 1 {
        assert left[2..] == args[i+2..];
        assert IsValue(args, i + 1);
        PickNext(args, i + 1);
        StrippedFrom(args, i + 2);
      }
    }
  }

  /** What is kept: the arguments that are neither relay flags nor values of log flags, each where it was in the order. */
  lemma StrippedIs(args: seq<string>)
    ensures var kept := KeptFrom(args, 0);
            && (forall p: nat :: p in kept <==> p < |args| && IsKept(args, p))
            && Increasing(kept)
            && Stripped(args) == Pick(args, kept)
    ensures "--elevated-log" !in args && "--confirmed" !in args ==> Stripped(args) == args
  {
    FlaggedAre(Kept(args), 0);
    StrippedFrom(args, 0);
    assert args[0..] == args;
    if "--elevated-log" !in args && "--confirmed" !in args {
      NothingToStrip(args);
    }
  }

  lemma {:induction false} NothingToStrip(args: seq<string>)
    requires "--elevated-log" !in args && "--confirmed" !in args
    ensures Stripped(args) == args
    decreases |args|
  {
    if args != [] {
      assert args == [args[0]] + args[1..];
      NothingToStrip(args[1..]);
    }
  }

  method StripRelayFlags(args: seq<string>) returns (out: seq<string>)
    ensures out == Stripped(args) == Pick(args, KeptFrom(args, 0))
  {
    out := [];
    var next := 0;
    while next < |args|
      invariant 0 <= next <= |args|
      invariant out + Stripped(args[next..]) == Stripped(args)
    {
      ghost var left := args[next..];
      assert left[1..] == args[next+1..] && (|left| > 1 ==> left[2..] == args[next+2..]);
      var a := args[next];
      next := next + 1;
      if a == ELEVATED_LOG {
        // Drop the value too, if there is one.
        if next < |args| {
          next := next + 1;
        }
        continue;
      }
      if a == CONFIRMED {
        continue;
      }
      assert out + ([a] + Stripped(args[next..])) == out + [a] + Stripped(args[next..]);
      out := out + [a];
    }
    assert args[next..] == [];
    StrippedIs(args);
  }

  /** Stripping leaves no relay flag, and appending one's own flags can be stripped again. */
  lemma {:induction false} StrippedIsClean(args: seq<string>, log: string)
    ensures ELEVATED_LOG !in Stripped(args) && CONFIRMED !in Stripped(args)
    ensures Stripped(Stripped(args) + [ELEVATED_LOG, log, CONFIRMED]) == Stripped(args)
    decreases |args|
  {
    if args == [] {
      var own := [ELEVATED_LOG, log, CONFIRMED];
      assert own[2..] == [CONFIRMED] && [CONFIRMED][1..] == [];
      assert [] + own == own;
    } else if args[0] == ELEVATED_LOG {
      StrippedIsClean(if |args| == 1 then [] else args[2..], log);
    } else if args[0] == CONFIRMED {
      StrippedIsClean(args[1..], log);
    } else {
      StrippedIsClean(args[1..], log);
      var own := [ELEVATED_LOG, log, CONFIRMED];
      assert (Stripped(args) + own)[1..] == Stripped(args[1..]) + own;
    }
  }

  /** The parameters of the elevated child; `log` is the path picked for its output. */
  method BuildParams(args: seq<string>, log: string) returns (params: string)
    ensures forall staysOpen ::
              Parse(params, staysOpen) == Pick(args, KeptFrom(args, 0)) + ["--elevated-log", log, "--confirmed"]
    ensures forall staysOpen :: Stripped(Parse(params, staysOpen)) == Stripped(args)
  {
    var all := StripRelayFlags(args);
    all := all + [ELEVATED_LOG];
    all := all + [log];
    all := all + [CONFIRMED];
    var quoted: seq<string> := [];
    for i := 0 to |all|
      invariant quoted == QuotedAll(all[..i])
    {
      var q := QuoteArg(all[i]);
      quoted := quoted + [q];
    }
    params := Join(quoted);
    assert all[..|all|] == all == Stripped(args) + [ELEVATED_LOG, log, CONFIRMED];
    forall staysOpen ensures Parse(params, staysOpen) == all {
      ParseUndoesQuote(all, staysOpen);
    }
    StrippedIsClean(args, log);
  }
}
