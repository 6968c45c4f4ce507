/** Arguments joined into the one command line a Windows process is given, and the rules by which that
    process takes it apart again. */
module WindowsCommandLine {

  function Slashes(n: nat): (s: string)
    ensures |s| == n && forall i :: 0 <= i < n ==> s[i] == '\\'
  {
    if n == 0 then "" else Slashes(n - 1) + "\\"
  }

  // --- writing -------------------------------------------------------------------------------------

  /** The body of a quoted argument, `run` backslashes having just been read. */
  function Escaped(arg: string, run: nat): string
    decreases |arg|
  {
    if arg == "" then Slashes(2 * run)
    else if arg[0] == '\\' then Escaped(arg[1..], run + 1)
    else if arg[0] == '"' then Slashes(2 * run + 1) + "\"" + Escaped(arg[1..], 0)
    else Slashes(run) + [arg[0]] + Escaped(arg[1..], 0)
  }

  function Quoted(arg: string): string {
    "\"" + Escaped(arg, 0) + "\""
  }

  /** Every argument with a space before it. */
  function Following(args: seq<string>): string {
    if args == [] then "" else " " + Quoted(args[0]) + Following(args[1..])
  }

  function Joined(args: seq<string>): string {
    if args == [] then "" else Quoted(args[0]) + Following(args[1..])
  }

  method QuoteWindowsArgument(arg: string) returns (out: string)
    ensures out == Quoted(arg)
  {
    out := "\"";
    var backslashes := 0;
    var i := 0;
    assert arg[0..] == arg;
    while i < |arg|
      invariant i <= |arg| && 0 <= backslashes
      invariant out + Escaped(arg[i..], backslashes) == "\"" + Escaped(arg, 0)
    {
      var c := arg[i];
      assert arg[i..][0] == c && arg[i..][1..] == arg[i + 1..];
      i := i + 1;
      if c == '\\' {
        backslashes := backslashes + 1;
        continue;
      }
      ghost var before, rest := out, Escaped(arg[i..], 0);
      if c == '"' {
        out := out + Slashes(2 * backslashes + 1);
        Regrouped(before, Slashes(2 * backslashes + 1), [c], rest);
      } else {
        out := out + Slashes(backslashes);
        Regrouped(before, Slashes(backslashes), [c], rest);
      }
      backslashes := 0;
      out := out + [c];
    }
    assert arg[i..] == "";
    out := out + Slashes(2 * backslashes);
    out := out + "\"";
  }

  lemma Regrouped(a: string, b: string, c: string, d: string)
    ensures a + b + c + d == a + (b + c + d)
  {
  }

  /** What is still to be written before argument `i`. */
  function Remaining(args: seq<string>, i: nat): string
    requires i <= |args|
  {
    if i == 0 then Joined(args) else Following(args[i..])
  }

  lemma RemainingStep(args: seq<string>, i: nat)
    requires i < |args|
    ensures Remaining(args, i) == (if i > 0 then " " else "") + Quoted(args[i]) + Remaining(args, i + 1)
    ensures Remaining(args, |args|) == ""
  {
    assert args[i..][0] == args[i] && args[i..][1..] == args[i + 1..];
    assert args[|args|..] == [];
    assert "" + Quoted(args[i]) == Quoted(args[i]);
  }

  method MakeCommandLine(args: seq<string>) returns (cmdline: string)
    ensures cmdline == Joined(args)
  {
    cmdline := "";
    var i := 0;
    assert args == [] ==> Remaining(args, 0) == "";
    while i < |args|
      invariant i <= |args|
      invariant cmdline + Remaining(args, i) == Joined(args)
      invariant i == |args| ==> Remaining(args, i) == ""
    {
      hide Remaining, Quoted;
      RemainingStep(args, i);
      ghost var before := cmdline;
      if i > 0 {
        cmdline := cmdline + " ";
      }
      var quoted := QuoteWindowsArgument(args[i]);
      cmdline := cmdline + quoted;
      Regrouped(before, if i > 0 then " " else "", quoted, Remaining(args, i + 1));
      i := i + 1;
    }
  }

  // --- reading -------------------------------------------------------------------------------------

  /** The readers in use differ in what two quotes in a row mean inside a quoted part: an end and a new
      beginning, a literal quote that keeps the part open, or a literal quote that ends it. */
  datatype DoubledQuotes = EndAndBegin | LiteralAndOpen | LiteralAndEnd

  predicate Blank(c: char) {
    c == ' ' || c == '\t'
  }

  function Between(rule: DoubledQuotes, line: string): seq<string>
    decreases |line|, 1
  {
    if line == "" then []
    else if Blank(line[0]) then Between(rule, line[1..])
    else Within(rule, line, "", false, 0)
  }

  /** Inside an argument: `arg` was read, then `run` backslashes whose meaning the next character decides. */
  function Within(rule: DoubledQuotes, line: string, arg: string, quoted: bool, run: nat): seq<string>
    decreases |line|, 0
  {
    if line == "" then [arg + Slashes(run)]
    else if line[0] == '\\' then Within(rule, line[1..], arg, quoted, run + 1)
    else if line[0] == '"' then
      if run % 2 == 1 then Within(rule, line[1..], arg + Slashes(run / 2) + "\"", quoted, 0)
      else if quoted && |line| > 1 && line[1] == '"' && !rule.EndAndBegin? then
        Within(rule, line[2..], arg + Slashes(run / 2) + "\"", rule.LiteralAndOpen?, 0)
      else Within(rule, line[1..], arg + Slashes(run / 2), !quoted, 0)
    else if Blank(line[0]) && !quoted then [arg + Slashes(run)] + Between(rule, line[1..])
    else Within(rule, line[1..], arg + Slashes(run) + [line[0]], quoted, 0)
  }

  lemma {:induction false} SlashesAdd(a: nat, b: nat)
    ensures Slashes(a + b) == Slashes(a) + Slashes(b)
  {
    if b > 0 {
      SlashesAdd(a, b - 1);
    }
  }

  lemma {:induction false} ReadsRun(rule: DoubledQuotes, n: nat, rest: string, arg: string, quoted: bool, run: nat)
    ensures Within(rule, Slashes(n) + rest, arg, quoted, run) == Within(rule, rest, arg, quoted, run + n)
    decreases n
  {
    if n == 0 {
      assert Slashes(0) + rest == rest;
    } else {
      SlashesAdd(1, n - 1);
      assert Slashes(1) == "\\";
      assert (Slashes(n) + rest)[1..] == Slashes(n - 1) + rest;
      ReadsRun(rule, n - 1, rest, arg, quoted, run + 1);
    }
  }

  lemma EscapedStep(arg: string, run: nat, rest: string)
    requires arg != "" && arg[0] != '\\'
    ensures Escaped(arg, run) + "\"" + rest
         == Slashes(if arg[0] == '"' then 2 * run + 1 else run) + ([arg[0]] + (Escaped(arg[1..], 0) + "\"" + rest))
  {
    var n := if arg[0] == '"' then 2 * run + 1 else run;
    var later := Escaped(arg[1..], 0);
    assert Escaped(arg, run) == Slashes(n) + [arg[0]] + later;
    hide Escaped, Slashes;
    Nested(Slashes(n), [arg[0]], later, "\"", rest);
  }

  lemma Nested(a: string, b: string, c: string, d: string, e: string)
    ensures a + b + c + d + e == a + (b + (c + d + e))
  {
    assert a + b + c + d == a + (b + (c + d));
    assert a + (b + (c + d)) + e == a + (b + (c + d) + e);
    assert b + (c + d) + e == b + (c + d + e);
  }

  /** Reading a quoted body from its start to behind its closing quote recovers the argument. */
  lemma {:induction false} ReadsEscaped(rule: DoubledQuotes, arg: string, run: nat, rest: string, before: string)
    requires rest == "" || rest[0] != '"'
    ensures Within(rule, Escaped(arg, run) + "\"" + rest, before, true, 0)
         == Within(rule, rest, before + Slashes(run) + arg, false, 0)
    decreases |arg|
  {
    if arg == "" {
      var line := "\"" + rest;
      assert Escaped(arg, run) + "\"" + rest == Slashes(2 * run) + line;
      ReadsRun(rule, 2 * run, line, before, true, 0);
      assert line[1..] == rest;
      assert before + Slashes(run) + arg == before + Slashes(run);
    } else if arg[0] == '\\' {
      ReadsEscaped(rule, arg[1..], run + 1, rest, before);
      assert before + Slashes(run + 1) + arg[1..] == before + Slashes(run) + arg;
    } else {
      var n := if arg[0] == '"' then 2 * run + 1 else run;
      var tail := Escaped(arg[1..], 0) + "\"" + rest;
      var line := [arg[0]] + tail;
      EscapedStep(arg, run, rest);
      hide Escaped;
      ReadsRun(rule, n, line, before, true, 0);
      assert line[1..] == tail;
      ReadsEscaped(rule, arg[1..], 0, rest, before + Slashes(run) + [arg[0]]);
      assert before + Slashes(run) + [arg[0]] + Slashes(0) + arg[1..] == before + Slashes(run) + arg;
    }
  }

  lemma ReadsQuoted(rule: DoubledQuotes, arg: string, rest: string)
    requires rest == "" || rest[0] != '"'
    ensures Within(rule, Quoted(arg) + rest, "", false, 0) == Within(rule, rest, arg, false, 0)
  {
    var body := Escaped(arg, 0) + "\"" + rest;
    assert Quoted(arg) + rest == "\"" + body;
    assert ("\"" + body)[1..] == body;
    assert "" + Slashes(0) == "";
    ReadsEscaped(rule, arg, 0, rest, "");
    assert "" + Slashes(0) + arg == arg;
  }

  lemma {:induction false} ReadsFollowing(rule: DoubledQuotes, args: seq<string>, arg: string)
    ensures Within(rule, Following(args), arg, false, 0) == [arg] + args
    decreases |args|
  {
    assert arg + Slashes(0) == arg;
    if args != [] {
      var line := Quoted(args[0]) + Following(args[1..]);
      assert Following(args) == " " + line;
      assert (" " + line)[1..] == line;
      ReadsQuoted(rule, args[0], Following(args[1..]));
      ReadsFollowing(rule, args[1..], args[0]);
      assert line[0] == '"';
      assert [args[0]] + args[1..] == args;
    }
  }

  /** Any list of arguments, empty ones, quotes and trailing backslashes included, comes back as it
      was, whichever way the reader takes two quotes in a row. */
  lemma JoinedReadsBack(rule: DoubledQuotes, args: seq<string>)
    ensures Between(rule, Joined(args)) == args
  {
    if args != [] {
      ReadsQuoted(rule, args[0], Following(args[1..]));
      ReadsFollowing(rule, args[1..], args[0]);
      assert [args[0]] + args[1..] == args;
    }
  }

  // --- the program's own name ----------------------------------------------------------------------

  function UpToQuote(line: string): string {
    if line == "" || line[0] == '"' then "" else [line[0]] + UpToQuote(line[1..])
  }

  /** The first argument is read by a rule of its own: up to the next quote, backslashes meaning nothing. */
  function ProgramName(line: string): string {
    if line != "" && line[0] == '"' then UpToQuote(line[1..]) else ""
  }

  lemma {:induction false} UpToQuoteStops(s: string, rest: string)
    requires '"' !in s && rest != "" && rest[0] == '"'
    ensures UpToQuote(s + rest) == s
  {
    if s == "" {
      assert s + rest == rest;
    } else {
      UpToQuoteStops(s[1..], rest);
      assert (s + rest)[1..] == s[1..] + rest;
    }
  }

  lemma {:induction false} EscapedBeforeQuote(arg: string, run: nat)
    requires '"' !in arg
    ensures '"' !in Escaped(arg, run)
    ensures Escaped(arg, run) == Slashes(run) + arg <==> arg + Slashes(run) == "" || (arg != "" && arg[|arg| - 1] != '\\')
    ensures |Escaped(arg, run)| >= run + |arg|
    decreases |arg|
  {
    if arg != "" {
      EscapedBeforeQuote(arg[1..], if arg[0] == '\\' then run + 1 else 0);
      if arg[0] == '\\' {
        assert Slashes(run + 1) + arg[1..] == Slashes(run) + arg;
      } else {
        assert Slashes(0) == "";
        var rest := Escaped(arg[1..], 0);
        assert Slashes(run) + arg == Slashes(run) + [arg[0]] + arg[1..];
        assert (Slashes(run) + [arg[0]] + rest)[run + 1..] == rest;
        assert (Slashes(run) + [arg[0]] + arg[1..])[run + 1..] == arg[1..];
      }
    }
  }

  /** The run before an embedded quote always ends in one backslash more than the argument has there. */
  lemma {:induction false} QuoteIsNotReached(arg: string, run: nat, rest: string, k: nat)
    requires k < |arg| && arg[k] == '"' && '"' !in arg[..k]
    ensures UpToQuote(Escaped(arg, run) + rest) != Slashes(run) + arg
    ensures UpToQuote(Escaped(arg, run) + rest) != []
    decreases |arg|
  {
    if k == 0 {
      var n := 2 * run + 1;
      var line := "\"" + Escaped(arg[1..], 0) + rest;
      assert Escaped(arg, run) + rest == Slashes(n) + line;
      UpToQuoteStops(Slashes(n), line);
      assert (Slashes(run) + arg)[run] == '"';
    } else {
      assert arg[0] == arg[..k][0];
      assert arg[1..][..k - 1] == arg[..k][1..];
      if arg[0] == '\\' {
        QuoteIsNotReached(arg[1..], run + 1, rest, k - 1);
        assert Slashes(run + 1) + arg[1..] == Slashes(run) + arg;
      } else {
        QuoteIsNotReached(arg[1..], 0, rest, k - 1);
        var line := Escaped(arg[1..], 0) + rest;
        assert Escaped(arg, run) + rest == Slashes(run) + [arg[0]] + line;
        PassesPlain(Slashes(run) + [arg[0]], line);
        assert Slashes(0) + arg[1..] == arg[1..];
        assert (Slashes(run) + [arg[0]] + UpToQuote(line))[run + 1..] == UpToQuote(line);
        assert (Slashes(run) + arg)[run + 1..] == arg[1..];
      }
    }
  }

  lemma {:induction false} PassesPlain(s: string, rest: string)
    requires '"' !in s
    ensures UpToQuote(s + rest) == s + UpToQuote(rest)
  {
    if s == "" {
      assert s + rest == rest;
    } else {
      PassesPlain(s[1..], rest);
      assert (s + rest)[1..] == s[1..] + rest;
    }
  }

  /** The rule for the program's name reads it back exactly when it holds no quote and does not end in
      a backslash. */
  lemma ProgramNameReadsBack(args: seq<string>)
    requires args != []
    ensures ProgramName(Joined(args)) == args[0] <==>
              '"' !in args[0] && (args[0] == "" || args[0][|args[0]| - 1] != '\\')
  {
    var arg, behind := args[0], "\"" + Following(args[1..]);
    assert Joined(args) == "\"" + (Escaped(arg, 0) + behind);
    assert Joined(args)[1..] == Escaped(arg, 0) + behind;
    assert Slashes(0) + arg == arg;
    if '"' in arg {
      var k := FirstQuote(arg);
      QuoteIsNotReached(arg, 0, behind, k);
    } else {
      EscapedBeforeQuote(arg, 0);
      UpToQuoteStops(Escaped(arg, 0), behind);
    }
  }

  lemma {:induction false} FirstQuote(arg: string) returns (k: nat)
    requires '"' in arg
    ensures k < |arg| && arg[k] == '"' && '"' !in arg[..k]
  {
    if arg[0] == '"' {
      k := 0;
    } else {
      assert arg == [arg[0]] + arg[1..];
      var j := FirstQuote(arg[1..]);
      k := j + 1;
      assert arg[..k] == [arg[0]] + arg[1..][..j];
    }
  }
}
