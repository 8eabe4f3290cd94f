/**
  Quoting of Windows command-line arguments, against the rules by which the
  Microsoft C runtime splits a command line back into arguments.
 */
module ArgQuoting {
  import opened Sequences

  const NUL: char := '\0'

  function Slashes(n: nat): (s: seq<char>)
    ensures |s| == n
  {
    if n == 0 then [] else ['\\'] + Slashes(n - 1)
  }

  // ----- quoting

  predicate Special(c: char) {
    c == ' ' || c == '\t' || c == '\n' || c == '\r' || c == '\"'
  }

  predicate NeedsQuotes(arg: seq<char>) {
    arg == [] || exists i :: 0 <= i < |arg| && Special(arg[i])
  }

  /** The inside of the quotes, with `n` backslashes still to be written. */
  function QuoteBody(arg: seq<char>, n: nat): seq<char>
    decreases |arg|
  {
    if arg == [] then Slashes(2 * n)
    else if arg[0] == '\\' then QuoteBody(arg[1..], n + 1)
    else if arg[0] == '\"' then Slashes(2 * n + 1) + ['\"'] + QuoteBody(arg[1..], 0)
    else Slashes(n) + [arg[0]] + QuoteBody(arg[1..], 0)
  }

  function Quote(arg: seq<char>): seq<char> {
    if NeedsQuotes(arg) then ['\"'] + QuoteBody(arg, 0) + ['\"'] else arg
  }

  /** `quote_windows_arg` of the console launcher. */
  method QuoteForConsole(arg: seq<char>) returns (quoted: seq<char>)
    ensures quoted == Quote(arg)
  {
    if !NeedsQuotes(arg) {
      return arg;
    }
    quoted := ['\"'];
    var backslashes: nat := 0;
    assert arg[0..] == arg;
    for i := 0 to |arg|
      invariant quoted + QuoteBody(arg[i..], backslashes) == ['\"'] + QuoteBody(arg, 0)
    {
      BodyStep(quoted, arg, i, backslashes);
      if arg[i] == '\\' {
        backslashes := backslashes + 1;
        continue;
      }
      if arg[i] == '\"' {
        quoted := quoted + Slashes(backslashes * 2 + 1);
        quoted := quoted + ['\"'];
        backslashes := 0;
        continue;
      }
      quoted := quoted + Slashes(backslashes);
      backslashes := 0;
      quoted := quoted + [arg[i]];
    }
    quoted := quoted + Slashes(backslashes * 2);
    quoted := quoted + ['\"'];
  }

  /** `quote_windows_arg` of the sandbox setup, which guards its repeats. */
  method QuoteForSandboxSetup(arg: seq<char>) returns (quoted: seq<char>)
    ensures quoted == Quote(arg)
  {
    if !NeedsQuotes(arg) {
      return arg;
    }
    quoted := ['\"'];
    var backslashes: nat := 0;
    assert arg[0..] == arg;
    for i := 0 to |arg|
      invariant quoted + QuoteBody(arg[i..], backslashes) == ['\"'] + QuoteBody(arg, 0)
    {
      BodyStep(quoted, arg, i, backslashes);
      match arg[i]
      case '\\' => backslashes := backslashes + 1;
      case '\"' =>
        quoted := quoted + Slashes(backslashes * 2 + 1);
        quoted := quoted + ['\"'];
        backslashes := 0;
      case _ =>
        if backslashes > 0 {
          quoted := quoted + Slashes(backslashes);
          backslashes := 0;
        } else {
          assert quoted + Slashes(0) == quoted;
        }
        quoted := quoted + [arg[i]];
    }
    if backslashes > 0 {
      quoted := quoted + Slashes(backslashes * 2);
    } else {
      assert quoted + Slashes(0) == quoted;
    }
    quoted := quoted + ['\"'];
  }

  lemma BodyStep(quoted: seq<char>, arg: seq<char>, i: nat, n: nat)
    requires i < |arg|
    ensures quoted + QuoteBody(arg[i..], n)
            == if arg[i] == '\\' then quoted + QuoteBody(arg[i + 1..], n + 1)
               else if arg[i] == '\"' then quoted + Slashes(n * 2 + 1) + ['\"'] + QuoteBody(arg[i + 1..], 0)
               else quoted + Slashes(n) + [arg[i]] + QuoteBody(arg[i + 1..], 0)
  {
    assert arg[i..][1..] == arg[i + 1..];
  }

  // ----- the splitting rules

  predicate Blank(c: char) {
    c == ' ' || c == '\t'
  }

  datatype Parsed = Parsed(arg: seq<char>, rest: seq<char>)

  predicate AtEnd(cmd: seq<char>) {
    cmd == [] || cmd[0] == NUL
  }

  function Before(text: seq<char>, p: Parsed): Parsed {
    Parsed(text + p.arg, p.rest)
  }

  /** The rest of an argument, after `n` backslashes whose meaning is still open. */
  function ParseArg(cmd: seq<char>, inQuotes: bool, n: nat): (p: Parsed)
    ensures |p.rest| <= |cmd|
    ensures !AtEnd(cmd) && !Blank(cmd[0]) ==> |p.rest| < |cmd|
    decreases |cmd|
  {
    if AtEnd(cmd) then Parsed(Slashes(n), cmd)
    else if cmd[0] == '\\' then ParseArg(cmd[1..], inQuotes, n + 1)
    else if cmd[0] == '\"' then
      if n % 2 == 1 then Before(Slashes(n / 2) + ['\"'], ParseArg(cmd[1..], inQuotes, 0))
      else if inQuotes && |cmd| > 1 && cmd[1] == '\"' then
        Before(Slashes(n / 2) + ['\"'], ParseArg(cmd[2..], inQuotes, 0))
      else Before(Slashes(n / 2), ParseArg(cmd[1..], !inQuotes, 0))
    else if !inQuotes && Blank(cmd[0]) then Parsed(Slashes(n), cmd)
    else Before(Slashes(n) + [cmd[0]], ParseArg(cmd[1..], inQuotes, 0))
  }

  function SplitArgs(cmd: seq<char>): seq<seq<char>>
    decreases |cmd|
  {
    if AtEnd(cmd) then []
    else if Blank(cmd[0]) then SplitArgs(cmd[1..])
    else
      var p := ParseArg(cmd, false, 0);
      [p.arg] + SplitArgs(p.rest)
  }

  /** The program name has rules of its own: quotes only toggle, backslashes are ordinary. */
  function ParseProgram(cmd: seq<char>, inQuotes: bool): (p: Parsed) {
    if AtEnd(cmd) then Parsed([], cmd)
    else if cmd[0] == '\"' then ParseProgram(cmd[1..], !inQuotes)
    else if !inQuotes && Blank(cmd[0]) then Parsed([], cmd[1..])
    else Before([cmd[0]], ParseProgram(cmd[1..], inQuotes))
  }

  function SplitCommandLine(cmd: seq<char>): seq<seq<char>> {
    var p := ParseProgram(cmd, false);
    [p.arg] + SplitArgs(p.rest)
  }

  function Joined(args: seq<seq<char>>): seq<char> {
    if args == [] then []
    else if |args| == 1 then Quote(args[0])
    else Quote(args[0]) + [' '] + Joined(args[1..])
  }

  // ----- one argument round-trips

  /** What may follow an argument on the line. */
  predicate Follows(tail: seq<char>) {
    tail == [] || tail[0] == ' '
  }

  lemma {:induction false} ParseSlashes(k: nat, s: seq<char>, inQuotes: bool, n: nat)
    ensures ParseArg(Slashes(k) + s, inQuotes, n) == ParseArg(s, inQuotes, n + k)
    decreases k
  {
    if k == 0 {
      assert Slashes(0) + s == s;
    } else {
      var cmd := Slashes(k) + s;
      assert cmd[0] == '\\' && cmd[1..] == Slashes(k - 1) + s;
      ParseSlashes(k - 1, s, inQuotes, n + 1);
    }
  }

  lemma {:induction false} SlashesSnoc(n: nat)
    ensures Slashes(n) + ['\\'] == Slashes(n + 1)
  {
    if n > 0 {
      SlashesSnoc(n - 1);
      Assoc3(['\\'], Slashes(n - 1), ['\\']);
    } else {
      assert Slashes(1) == ['\\'] + Slashes(0);
    }
  }

  lemma {:induction false} ParseQuoted(arg: seq<char>, n: nat, tail: seq<char>)
    requires NUL !in arg && Follows(tail)
    ensures ParseArg(QuoteBody(arg, n) + ['\"'] + tail, true, 0) == Parsed(Slashes(n) + arg, tail)
    decreases |arg|
  {
    hide ParseArg, Slashes;
    if arg == [] {
      ParseClosing(n, tail);
    } else if arg[0] == '\\' {
      ParseQuoted(arg[1..], n + 1, tail);
      SlashesSnoc(n);
      assert Slashes(n) + arg == Slashes(n) + ['\\'] + arg[1..];
    } else {
      ParseQuoted(arg[1..], 0, tail);
      ParseEscaped(arg, n, tail);
    }
  }

  lemma ParseClosing(n: nat, tail: seq<char>)
    requires Follows(tail)
    ensures ParseArg(QuoteBody([], n) + ['\"'] + tail, true, 0) == Parsed(Slashes(n) + [], tail)
  {
    EmptyBody(n, tail);
    hide *;
    ParseSlashes(2 * n, ['\"'] + tail, true, 0);
    ParseCloser(n, tail);
    BeforeParsed(Slashes(n), [], tail);
  }

  lemma EmptyBody(n: nat, tail: seq<char>)
    ensures QuoteBody([], n) + ['\"'] + tail == Slashes(2 * n) + (['\"'] + tail)
  {
    Assoc3(Slashes(2 * n), ['\"'], tail);
  }

  /** A quote after an even number of backslashes, with a blank or the end behind it, closes. */
  lemma ParseCloser(n: nat, tail: seq<char>)
    requires Follows(tail)
    ensures ParseArg(['\"'] + tail, true, 2 * n) == Before(Slashes(n), Parsed([], tail))
  {
    var cmd := ['\"'] + tail;
    assert cmd[1..] == tail;
    assert |cmd| > 1 ==> cmd[1] == tail[0];
    assert 2 * n % 2 == 0 && 2 * n / 2 == n;
    assert ParseArg(tail, false, 0) == Parsed([], tail);
  }

  lemma BeforeParsed(text: seq<char>, arg: seq<char>, rest: seq<char>)
    ensures Before(text, Parsed(arg, rest)) == Parsed(text + arg, rest)
  {
  }

  lemma ParseEscaped(arg: seq<char>, n: nat, tail: seq<char>)
    requires arg != [] && arg[0] != '\\' && arg[0] != NUL
    requires ParseArg(QuoteBody(arg[1..], 0) + ['\"'] + tail, true, 0) == Parsed(Slashes(0) + arg[1..], tail)
    ensures ParseArg(QuoteBody(arg, n) + ['\"'] + tail, true, 0) == Parsed(Slashes(n) + arg, tail)
  {
    hide *;
    var k := if arg[0] == '\"' then 2 * n + 1 else n;
    var rest := QuoteBody(arg[1..], 0) + ['\"'] + tail;
    NoSlashes(arg[1..]);
    BodyOf(arg, n, k, tail);
    ParseSlashes(k, [arg[0]] + rest, true, 0);
    ParseChar(arg[0], rest, n, k);
    BeforeParsed(Slashes(n) + [arg[0]], arg[1..], tail);
    HeadBack(Slashes(n), arg);
  }

  lemma BodyOf(arg: seq<char>, n: nat, k: nat, tail: seq<char>)
    requires arg != [] && arg[0] != '\\' && k == if arg[0] == '\"' then 2 * n + 1 else n
    ensures QuoteBody(arg, n) + ['\"'] + tail == Slashes(k) + ([arg[0]] + (QuoteBody(arg[1..], 0) + ['\"'] + tail))
  {
    var body := QuoteBody(arg[1..], 0);
    assert QuoteBody(arg, n) == Slashes(k) + [arg[0]] + body;
    hide *;
    Regroup(Slashes(k), [arg[0]], body, ['\"'], tail);
  }

  /** Inside quotes, `2n + 1` backslashes and a quote, or `n` and another character, are read as `n` and that. */
  lemma ParseChar(c: char, rest: seq<char>, n: nat, k: nat)
    requires c != '\\' && c != NUL && k == if c == '\"' then 2 * n + 1 else n
    ensures ParseArg([c] + rest, true, k) == Before(Slashes(n) + [c], ParseArg(rest, true, 0))
  {
    assert ([c] + rest)[1..] == rest;
    assert (2 * n + 1) % 2 == 1 && (2 * n + 1) / 2 == n;
  }

  lemma {:induction false} ParseBare(arg: seq<char>, n: nat, tail: seq<char>)
    requires NUL !in arg && Follows(tail) && forall i :: 0 <= i < |arg| ==> !Special(arg[i])
    ensures ParseArg(arg + tail, false, n) == Parsed(Slashes(n) + arg, tail)
    decreases |arg|
  {
    if arg == [] {
      assert arg + tail == tail && Slashes(n) + arg == Slashes(n);
    } else {
      var rest := arg[1..];
      assert !Special(arg[0]) && (arg + tail)[1..] == rest + tail;
      BareStep(arg[0], rest + tail, n, arg + tail);
      hide ParseArg, Slashes, Special, Follows;
      if arg[0] == '\\' {
        ParseBare(rest, n + 1, tail);
        SlashesSnoc(n);
      } else {
        ParseBare(rest, 0, tail);
        NoSlashes(rest);
      }
      HeadBack(Slashes(n), arg);
    }
  }

  lemma BareStep(c: char, rest: seq<char>, n: nat, cmd: seq<char>)
    requires !Special(c) && c != NUL && cmd != [] && cmd[0] == c && cmd[1..] == rest
    ensures ParseArg(cmd, false, n)
            == if c == '\\' then ParseArg(rest, false, n + 1) else Before(Slashes(n) + [c], ParseArg(rest, false, 0))
  {
  }

  lemma NoSlashes(s: seq<char>)
    ensures Slashes(0) + s == s
  {
  }

  lemma ParseOne(arg: seq<char>, tail: seq<char>)
    requires NUL !in arg && Follows(tail)
    ensures var cmd := Quote(arg) + tail;
            !AtEnd(cmd) && !Blank(cmd[0]) && ParseArg(cmd, false, 0) == Parsed(arg, tail)
  {
    NoSlashes(arg);
    if NeedsQuotes(arg) {
      ParseOpener(arg, tail);
      hide *;
      ParseQuoted(arg, 0, tail);
      BeforeParsed(Slashes(0), Slashes(0) + arg, tail);
    } else {
      assert !Special(arg[0]) && (arg + tail)[0] == arg[0];
      hide ParseArg, Slashes;
      ParseBare(arg, 0, tail);
    }
  }

  lemma ParseOpener(arg: seq<char>, tail: seq<char>)
    requires NeedsQuotes(arg)
    ensures var cmd := Quote(arg) + tail;
            && !AtEnd(cmd) && !Blank(cmd[0])
            && ParseArg(cmd, false, 0) == Before(Slashes(0), ParseArg(QuoteBody(arg, 0) + ['\"'] + tail, true, 0))
  {
    hide QuoteBody;
    var inner := QuoteBody(arg, 0) + ['\"'] + tail;
    var cmd := Quote(arg) + tail;
    assert cmd == ['\"'] + inner && cmd[1..] == inner;
  }

  // ----- lists of arguments round-trip

  ghost predicate NoNul(args: seq<seq<char>>) {
    forall i :: 0 <= i < |args| ==> NUL !in args[i]
  }

  lemma {:induction false} ArgsRoundTrip(args: seq<seq<char>>)
    requires NoNul(args)
    ensures SplitArgs(Joined(args)) == args
    decreases |args|
  {
    hide Quote, ParseArg;
    if args != [] {
      var rest := args[1..];
      var tail := if rest == [] then [] else [' '] + Joined(rest);
      assert Joined(args) == Quote(args[0]) + tail;
      ParseOne(args[0], tail);
      ArgsRoundTrip(rest);
      assert rest != [] ==> tail[1..] == Joined(rest);
      assert args == [args[0]] + rest;
    }
  }

  lemma {:induction false} ParsedHasNoNul(cmd: seq<char>, inQuotes: bool, n: nat)
    ensures NUL !in ParseArg(cmd, inQuotes, n).arg
    decreases |cmd|
  {
    SlashesHaveNoNul(n);
    SlashesHaveNoNul(n / 2);
    if !AtEnd(cmd) {
      if cmd[0] == '\\' {
        ParsedHasNoNul(cmd[1..], inQuotes, n + 1);
      } else {
        ParsedHasNoNul(cmd[1..], inQuotes, 0);
        ParsedHasNoNul(cmd[1..], !inQuotes, 0);
        if |cmd| > 1 {
          ParsedHasNoNul(cmd[2..], inQuotes, 0);
        }
      }
    }
  }

  lemma {:induction false} SlashesHaveNoNul(n: nat)
    ensures NUL !in Slashes(n)
  {
    if n > 0 {
      SlashesHaveNoNul(n - 1);
    }
  }

  lemma {:induction false} SplitHasNoNul(cmd: seq<char>)
    ensures NoNul(SplitArgs(cmd))
    decreases |cmd|
  {
    hide ParseArg;
    if !AtEnd(cmd) {
      if Blank(cmd[0]) {
        SplitHasNoNul(cmd[1..]);
      } else {
        ParsedHasNoNul(cmd, false, 0);
        SplitHasNoNul(ParseArg(cmd, false, 0).rest);
      }
    }
  }

  /** Joined arguments are split back to the same list exactly when none contains the terminator. */
  lemma ArgsRoundTripIff(args: seq<seq<char>>)
    ensures SplitArgs(Joined(args)) == args <==> NoNul(args)
  {
    if NoNul(args) {
      ArgsRoundTrip(args);
    }
    SplitHasNoNul(Joined(args));
  }

  // ----- the program name

  /** Backslashes at the end of `n` backslashes and `name`. */
  function Trail(name: seq<char>, n: nat): nat
    decreases |name|
  {
    if name == [] then n else if name[0] == '\\' then Trail(name[1..], n + 1) else Trail(name[1..], 0)
  }

  lemma {:induction false} TrailIs(name: seq<char>, n: nat)
    ensures Trail(name, n) == 0 <==> (if name == [] then n == 0 else name[|name| - 1] != '\\')
    decreases |name|
  {
    if name != [] {
      TrailIs(name[1..], if name[0] == '\\' then n + 1 else 0);
    }
  }

  /** Without quotes in it, a name is quoted by doubling the backslashes at its end. */
  lemma {:induction false} BodyOfName(name: seq<char>, n: nat)
    requires '\"' !in name
    ensures QuoteBody(name, n) == Slashes(n) + name + Slashes(Trail(name, n))
    decreases |name|
  {
    if name == [] {
      SlashesAdd(n, n);
      assert Slashes(n) + [] == Slashes(n);
    } else {
      var rest := name[1..];
      NameStep(name, n);
      hide *;
      if name[0] == '\\' {
        BodyOfName(rest, n + 1);
        SlashesSnoc(n);
      } else {
        BodyOfName(rest, 0);
        NoSlashes(rest);
        Assoc3(Slashes(n) + [name[0]], rest, Slashes(Trail(rest, 0)));
      }
      HeadBack(Slashes(n), name);
    }
  }

  lemma NameStep(name: seq<char>, n: nat)
    requires '\"' !in name && name != []
    ensures QuoteBody(name, n)
            == if name[0] == '\\' then QuoteBody(name[1..], n + 1) else Slashes(n) + [name[0]] + QuoteBody(name[1..], 0)
    ensures Trail(name, n) == if name[0] == '\\' then Trail(name[1..], n + 1) else Trail(name[1..], 0)
  {
  }

  lemma {:induction false} SlashesAdd(n: nat, m: nat)
    ensures Slashes(n + m) == Slashes(n) + Slashes(m)
  {
    if n > 0 {
      SlashesAdd(n - 1, m);
    }
  }

  predicate Plain(name: seq<char>) {
    NUL !in name && '\"' !in name
  }

  lemma {:induction false} ProgramCopies(name: seq<char>, cmd: seq<char>, inQuotes: bool)
    requires Plain(name) && (inQuotes || forall c :: c in name ==> !Blank(c))
    ensures ParseProgram(name + cmd, inQuotes) == Before(name, ParseProgram(cmd, inQuotes))
    decreases |name|
  {
    if name == [] {
      assert name + cmd == cmd;
    } else {
      assert name[0] in name;
      assert (name + cmd)[1..] == name[1..] + cmd;
      ProgramCopies(name[1..], cmd, inQuotes);
      assert [name[0]] + (name[1..] + ParseProgram(cmd, inQuotes).arg) == name + ParseProgram(cmd, inQuotes).arg;
    }
  }

  lemma {:induction false} SlashesArePlain(n: nat)
    ensures Plain(Slashes(n))
  {
    if n > 0 {
      SlashesArePlain(n - 1);
    }
  }

  /** What the runtime takes the quoted program name for. */
  function ReadName(name: seq<char>): seq<char> {
    if NeedsQuotes(name) then name + Slashes(Trail(name, 0)) else name
  }

  lemma ParseName(name: seq<char>, tail: seq<char>)
    requires Plain(name) && Follows(tail)
    ensures ParseProgram(Quote(name) + tail, false) == Parsed(ReadName(name), if tail == [] then [] else tail[1..])
  {
    var end := Parsed([], if tail == [] then [] else tail[1..]);
    assert ParseProgram(tail, false) == end;
    if NeedsQuotes(name) {
      var t := Slashes(Trail(name, 0));
      BodyOfName(name, 0);
      NoSlashes(name);
      SlashesArePlain(Trail(name, 0));
      ParseQuotedName(name + t, tail);
    } else {
      forall c | c in name ensures !Blank(c) {
        var i :| 0 <= i < |name| && name[i] == c;
        assert !Special(name[i]);
      }
      ProgramCopies(name, tail, false);
    }
  }

  lemma ParseQuotedName(text: seq<char>, tail: seq<char>)
    requires Plain(text)
    ensures ParseProgram(['\"'] + text + ['\"'] + tail, false) == Before(text, ParseProgram(tail, false))
  {
    var closing := ['\"'] + tail;
    assert ['\"'] + text + ['\"'] + tail == ['\"'] + (text + closing);
    assert (['\"'] + (text + closing))[1..] == text + closing;
    ProgramCopies(text, closing, true);
    assert closing[1..] == tail;
  }

  lemma {:induction false} ProgramIsPlain(cmd: seq<char>, inQuotes: bool)
    ensures Plain(ParseProgram(cmd, inQuotes).arg)
    decreases |cmd|
  {
    if !AtEnd(cmd) {
      ProgramIsPlain(cmd[1..], inQuotes);
      ProgramIsPlain(cmd[1..], !inQuotes);
    }
  }

  /** The whole line: every argument comes back, and the program name as `ReadName` says. */
  lemma CommandLineSplits(name: seq<char>, args: seq<seq<char>>)
    requires Plain(name) && NoNul(args)
    ensures SplitCommandLine(Joined([name] + args)) == [ReadName(name)] + args
  {
    hide Quote, ParseProgram, SplitArgs;
    var tail := if args == [] then [] else [' '] + Joined(args);
    assert ([name] + args)[1..] == args;
    assert Joined([name] + args) == Quote(name) + tail;
    ParseName(name, tail);
    assert args != [] ==> tail[1..] == Joined(args);
    ArgsRoundTrip(args);
  }

  /**
    The whole command line, program name included, comes back exactly when there
    is no terminator anywhere, no quote in the program name, and the program name
    does not both need quotes and end in a backslash.
   */
  lemma CommandLineRoundTripsIff(name: seq<char>, args: seq<seq<char>>)
    ensures SplitCommandLine(Joined([name] + args)) == [name] + args
            <==> Plain(name) && NoNul(args) && !(NeedsQuotes(name) && name != [] && name[|name| - 1] == '\\')
  {
    var line := Joined([name] + args);
    var split := SplitCommandLine(line);
    if Plain(name) && NoNul(args) {
      CommandLineSplits(name, args);
      hide SplitCommandLine;
      TrailIs(name, 0);
      FirstOf(ReadName(name), args, name);
      assert Trail(name, 0) > 0 ==> |name + Slashes(Trail(name, 0))| > |name|;
    } else {
      hide ParseProgram, SplitArgs;
      ProgramIsPlain(line, false);
      SplitHasNoNul(ParseProgram(line, false).rest);
      assert split[0] == ParseProgram(line, false).arg && split[1..] == SplitArgs(ParseProgram(line, false).rest);
      assert ([name] + args)[0] == name && ([name] + args)[1..] == args;
    }
  }

  lemma FirstOf(a: seq<char>, args: seq<seq<char>>, b: seq<char>)
    ensures [a] + args == [b] + args <==> a == b
  {
    assert ([a] + args)[0] == a && ([b] + args)[0] == b;
  }

  /** Such a name is `a \`: its last backslash is doubled in the quotes, and the runtime reads both. */
  lemma ProgramNameFails()
    ensures ReadName("a \\") == "a \\\\"
    ensures SplitCommandLine(Joined(["a \\"])) != ["a \\"]
  {
    var name := "a \\";
    assert Special(name[1]);
    TrailIs(name, 0);
    assert name[1..] == " \\" && name[1..][1..] == "\\" && name[1..][1..][1..] == "";
    assert Trail(name, 0) == 1 && Slashes(1) == ['\\'];
    var none: seq<seq<char>> := [];
    assert [name] + none == [name];
    hide SplitCommandLine, Joined, ReadName;
    CommandLineRoundTripsIff(name, none);
  }
}
