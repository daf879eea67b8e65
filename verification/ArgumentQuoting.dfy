/**
 Argument transport to a Windows process: the custodian prints an argument list as
 one command line, and the child's C runtime splits it again by the rules of
 "Parsing C command-line arguments" in Microsoft's C documentation.
 */
module ArgumentQuoting {

  predicate Blank(ch: char) {
    ch == ' ' || ch == '\t'
  }

  // ---------------------------------------------------------------------------
  // Printing
  // ---------------------------------------------------------------------------

  function Backslashes(n: nat): (s: string)
    ensures |s| == n && forall k :: 0 <= k < n ==> s[k] == '\\'
  {
    seq(n, _ => '\\')
  }

  predicate NeedsQuotes(argument: string) {
    argument == "" || exists k :: 0 <= k < |argument| && (Blank(argument[k]) || argument[k] == '"')
  }

  /** The rest of a quoted argument when `pending` backslashes have been read and not yet printed. */
  function QuotedRest(argument: string, pending: nat): string {
    if argument == "" then Backslashes(2 * pending) + "\""
    else if argument[0] == '\\' then QuotedRest(argument[1..], pending + 1)
    else if argument[0] == '"' then Backslashes(2 * pending + 1) + "\"" + QuotedRest(argument[1..], 0)
    else Backslashes(pending) + [argument[0]] + QuotedRest(argument[1..], 0)
  }

  function Quote(argument: string): string {
    if NeedsQuotes(argument) then "\"" + QuotedRest(argument, 0) else argument
  }

  method QuoteWindowsArgument(argument: string) returns (result: string)
    ensures result == Quote(argument)
  {
    var plain := argument != "";
    for i := 0 to |argument|
      invariant plain <==> argument != "" && forall k :: 0 <= k < i ==> !Blank(argument[k]) && argument[k] != '"'
    {
      if Blank(argument[i]) || argument[i] == '"' { plain := false; }
    }
    if plain {
      return argument;
    }
    result := "\"";
    var backslashes: nat := 0;
    for i := 0 to |argument|
      invariant result + QuotedRest(argument[i..], backslashes) == "\"" + QuotedRest(argument, 0)
    {
      var ch := argument[i];
      assert argument[i..][1..] == argument[i + 1..];
      ghost var rest := QuotedRest(argument[i + 1..], 0);
      if ch == '\\' {
        backslashes := backslashes + 1;
      } else if ch == '"' {
        assert result + (Backslashes(2 * backslashes + 1) + "\"" + rest)
            == result + Backslashes(backslashes * 2 + 1) + "\"" + rest;
        result := result + Backslashes(backslashes * 2 + 1) + "\"";
        backslashes := 0;
      } else {
        assert result + (Backslashes(backslashes) + [ch] + rest) == result + Backslashes(backslashes) + [ch] + rest;
        result := result + Backslashes(backslashes) + [ch];
        backslashes := 0;
      }
    }
    assert argument[|argument|..] == "";
    assert result + (Backslashes(2 * backslashes) + "\"") == result + Backslashes(backslashes * 2) + "\"";
    result := result + Backslashes(backslashes * 2) + "\"";
  }

  /** Each argument after a separating space. */
  function Tail(argv: seq<string>): string {
    if argv == [] then "" else " " + Quote(argv[0]) + Tail(argv[1..])
  }

  /** build_command_line: the quoted strings joined by single spaces. */
  function CommandLine(executable: string, argv: seq<string>): string {
    Quote(executable) + Tail(argv)
  }

  // ---------------------------------------------------------------------------
  // Parsing by the documented rules
  // ---------------------------------------------------------------------------

  /** White space between arguments is a space or a tab. */
  predicate Separates(ch: char) {
    ch in {' ', '\t'}
  }

  /** argv[0]: quotes delimit, backslashes are ordinary. */
  function ProgramName(line: string, quoted: bool): (r: (string, string))
    ensures |r.1| <= |line| && '"' !in r.0
  {
    if line == "" then ("", "")
    else if line[0] == '"' then ProgramName(line[1..], !quoted)
    else if !quoted && Separates(line[0]) then ("", line)
    else
      var (name, rest) := ProgramName(line[1..], quoted);
      ([line[0]] + name, rest)
  }

  function LeadingBackslashes(line: string): (n: nat)
    ensures n <= |line| && line[..n] == Backslashes(n) && (n < |line| ==> line[n] != '\\')
  {
    if line == "" || line[0] != '\\' then 0
    else
      var n := LeadingBackslashes(line[1..]);
      assert line[..n + 1] == [line[0]] + line[1..][..n];
      n + 1
  }

  /** One further argument and what follows it. */
  function Argument(line: string, quoted: bool): (r: (string, string))
    ensures |r.1| <= |line|
    ensures line != "" && !Separates(line[0]) ==> |r.1| < |line|
    decreases |line|, 1
  {
    var n := LeadingBackslashes(line);
    AfterBackslashes(n, line[n..], quoted)
  }

  /** The same after `n` backslashes have been counted. */
  function AfterBackslashes(n: nat, rest: string, quoted: bool): (r: (string, string))
    requires rest == "" || rest[0] != '\\'
    ensures |r.1| <= |rest|
    ensures n == 0 && rest != "" && !Separates(rest[0]) ==> |r.1| < |rest|
    decreases n + |rest|, 0
  {
    if rest == "" then
      (Backslashes(n), "")
    else if rest[0] == '"' then
      if n % 2 == 1 then
        var (a, r) := Argument(rest[1..], quoted);
        (Backslashes(n / 2) + "\"" + a, r)
      else if quoted && |rest| > 1 && rest[1] == '"' then
        var (a, r) := Argument(rest[2..], quoted);
        (Backslashes(n / 2) + "\"" + a, r)
      else
        var (a, r) := Argument(rest[1..], !quoted);
        (Backslashes(n / 2) + a, r)
    else if n > 0 then
      var (a, r) := Argument(rest, quoted);
      (Backslashes(n) + a, r)
    else if !quoted && Separates(rest[0]) then
      ("", rest)
    else
      var (a, r) := Argument(rest[1..], quoted);
      ([rest[0]] + a, r)
  }

  function Arguments(line: string): seq<string>
    decreases |line|
  {
    if line == "" then []
    else if Separates(line[0]) then Arguments(line[1..])
    else
      var (a, rest) := Argument(line, false);
      [a] + Arguments(rest)
  }

  function Parse(line: string): seq<string> {
    var (name, rest) := ProgramName(line, false);
    [name] + Arguments(rest)
  }

  // ---------------------------------------------------------------------------
  // Round trip
  // ---------------------------------------------------------------------------

  /** What may follow a printed argument. */
  predicate Separated(tail: string) {
    tail == "" || tail[0] == ' '
  }

  lemma {:induction false} LeadingRun(n: nat, x: string)
    requires x == "" || x[0] != '\\'
    ensures LeadingBackslashes(Backslashes(n) + x) == n && (Backslashes(n) + x)[n..] == x
  {
    if n == 0 {
      assert Backslashes(0) + x == x;
    } else {
      assert (Backslashes(n) + x)[1..] == Backslashes(n - 1) + x;
      LeadingRun(n - 1, x);
    }
  }

  lemma AtBackslashes(n: nat, x: string, quoted: bool)
    requires x == "" || x[0] != '\\'
    ensures Argument(Backslashes(n) + x, quoted) == AfterBackslashes(n, x, quoted)
  {
    LeadingRun(n, x);
  }

  /** A separator ends an unquoted argument. */
  lemma AtSeparator(n: nat, tail: string)
    requires Separated(tail)
    ensures Argument(Backslashes(n) + tail, false) == (Backslashes(n), tail)
  {
    AtBackslashes(n, tail, false);
    AtBackslashes(0, tail, false);
    assert Backslashes(0) + tail == tail;
    hide LeadingBackslashes;
    assert Backslashes(n) + "" == Backslashes(n);
  }

  /** Backslashes before an ordinary character are ordinary. */
  lemma AtOrdinary(n: nat, ch: char, after: string, quoted: bool)
    requires ch != '\\' && ch != '"' && (quoted || !Separates(ch))
    ensures
      var (a, r) := Argument(after, quoted);
      Argument(Backslashes(n) + ([ch] + after), quoted) == (Backslashes(n) + ([ch] + a), r)
  {
    var x := [ch] + after;
    AtBackslashes(n, x, quoted);
    AtBackslashes(0, x, quoted);
    assert Backslashes(0) + x == x && x[1..] == after;
    hide LeadingBackslashes;
    var (a, r) := Argument(after, quoted);
    assert AfterBackslashes(0, x, quoted) == ([ch] + a, r);
    assert Backslashes(0) + ([ch] + a) == [ch] + a;
  }

  /** 2n + 1 backslashes and a quote are n backslashes and a literal quote. */
  lemma AtEscapedQuote(n: nat, after: string)
    ensures
      var (a, r) := Argument(after, true);
      Argument(Backslashes(2 * n + 1) + ("\"" + after), true) == (Backslashes(n) + "\"" + a, r)
  {
    hide LeadingBackslashes, Backslashes;
    var x := "\"" + after;
    AtBackslashes(2 * n + 1, x, true);
    assert x[1..] == after;
  }

  /** 2n backslashes and a quote are n backslashes and a delimiter. */
  lemma AtDelimiter(n: nat, after: string, quoted: bool)
    requires !quoted || after == "" || after[0] != '"'
    ensures
      var (a, r) := Argument(after, !quoted);
      Argument(Backslashes(2 * n) + ("\"" + after), quoted) == (Backslashes(n) + a, r)
  {
    hide LeadingBackslashes, Backslashes;
    var x := "\"" + after;
    AtBackslashes(2 * n, x, quoted);
    assert x[1..] == after;
  }

  /** A backslash read and not yet printed is one pending backslash more. */
  lemma Shift(pending: nat, s: string, rest: string)
    requires s == "\\" + rest
    ensures Backslashes(pending) + s == Backslashes(pending + 1) + rest
  {
  }

  lemma NoBackslash(s: string)
    ensures Backslashes(0) + s == s
  {
  }

  lemma Regroup(a: string, b: string, c: string)
    ensures a + b + c == a + (b + c)
  {
  }

  lemma {:induction false} PlainArgument(argument: string, pending: nat, tail: string)
    requires forall k :: 0 <= k < |argument| ==> !Blank(argument[k]) && argument[k] != '"'
    requires Separated(tail)
    ensures Argument(Backslashes(pending) + (argument + tail), false) == (Backslashes(pending) + argument, tail)
    decreases |argument|
  {
    if argument == "" {
      assert argument + tail == tail && Backslashes(pending) + argument == Backslashes(pending);
      AtSeparator(pending, tail);
    } else {
      var ch, rest := argument[0], argument[1..];
      assert argument == [ch] + rest;
      Regroup([ch], rest, tail);
      if ch == '\\' {
        PlainArgument(rest, pending + 1, tail);
        Shift(pending, argument, rest);
        Shift(pending, argument + tail, rest + tail);
      } else {
        PlainArgument(rest, 0, tail);
        NoBackslash(rest + tail);
        NoBackslash(rest);
        AtOrdinary(pending, ch, rest + tail, false);
      }
    }
  }

  lemma QuotedQuote(pending: nat, printed: string, rest: string, tail: string)
    requires Argument(printed + tail, true) == (rest, tail)
    ensures Argument(Backslashes(2 * pending + 1) + "\"" + printed + tail, true) == (Backslashes(pending) + ("\"" + rest), tail)
  {
    Regroup(Backslashes(2 * pending + 1), "\"", printed);
    Regroup(Backslashes(2 * pending + 1), "\"" + printed, tail);
    Regroup("\"", printed, tail);
    AtEscapedQuote(pending, printed + tail);
    Regroup(Backslashes(pending), "\"", rest);
  }

  lemma QuotedOrdinary(pending: nat, ch: char, printed: string, rest: string, tail: string)
    requires ch != '\\' && ch != '"'
    requires Argument(printed + tail, true) == (rest, tail)
    ensures Argument(Backslashes(pending) + [ch] + printed + tail, true) == (Backslashes(pending) + ([ch] + rest), tail)
  {
    Regroup(Backslashes(pending), [ch], printed);
    Regroup(Backslashes(pending), [ch] + printed, tail);
    Regroup([ch], printed, tail);
    AtOrdinary(pending, ch, printed + tail, true);
  }

  lemma ClosingQuote(pending: nat, tail: string)
    requires Separated(tail)
    ensures Argument(Backslashes(2 * pending) + "\"" + tail, true) == (Backslashes(pending), tail)
  {
    Regroup(Backslashes(2 * pending), "\"", tail);
    AtDelimiter(pending, tail, true);
    AtSeparator(0, tail);
    NoBackslash(tail);
    assert Backslashes(pending) + Backslashes(0) == Backslashes(pending);
  }

  lemma {:induction false} QuotedArgument(argument: string, pending: nat, tail: string)
    requires Separated(tail)
    ensures Argument(QuotedRest(argument, pending) + tail, true) == (Backslashes(pending) + argument, tail)
    decreases |argument|
  {
    if argument == "" {
      assert Backslashes(pending) + argument == Backslashes(pending);
      ClosingQuote(pending, tail);
    } else {
      var ch, rest := argument[0], argument[1..];
      assert argument == [ch] + rest;
      if ch == '\\' {
        QuotedArgument(rest, pending + 1, tail);
        Shift(pending, argument, rest);
      } else {
        QuotedArgument(rest, 0, tail);
        NoBackslash(rest);
        if ch == '"' {
          QuotedQuote(pending, QuotedRest(rest, 0), rest, tail);
        } else {
          QuotedOrdinary(pending, ch, QuotedRest(rest, 0), rest, tail);
        }
      }
    }
  }

  /** Any argument, whatever runs of backslashes, quotes, spaces and tabs it holds, survives. */
  lemma ArgumentRoundTrip(argument: string, tail: string)
    requires Separated(tail)
    ensures Argument(Quote(argument) + tail, false) == (argument, tail)
  {
    if NeedsQuotes(argument) {
      var after := QuotedRest(argument, 0) + tail;
      assert Quote(argument) + tail == Backslashes(0) + ("\"" + after);
      AtDelimiter(0, after, false);
      QuotedArgument(argument, 0, tail);
      assert Backslashes(0) + argument == argument && Backslashes(0) + (Backslashes(0) + argument) == argument;
    } else {
      PlainArgument(argument, 0, tail);
      assert Backslashes(0) + (argument + tail) == argument + tail && Backslashes(0) + argument == argument;
    }
  }

  lemma OneArgument(printed: string, argument: string, tail: string)
    requires printed != "" && !Separates(printed[0])
    requires Argument(printed + tail, false) == (argument, tail)
    ensures Arguments(" " + printed + tail) == [argument] + Arguments(tail)
  {
    var line := printed + tail;
    assert (" " + printed + tail)[1..] == line;
    assert line[0] == printed[0];
  }

  lemma {:induction false} TailRoundTrip(argv: seq<string>)
    ensures Arguments(Tail(argv)) == argv && Separated(Tail(argv))
  {
    if argv != [] {
      TailRoundTrip(argv[1..]);
      ArgumentRoundTrip(argv[0], Tail(argv[1..]));
      OneArgument(Quote(argv[0]), argv[0], Tail(argv[1..]));
    }
  }

  function TrailingBackslashes(s: string): nat {
    if s == "" || s[|s| - 1] != '\\' then 0 else TrailingBackslashes(s[..|s| - 1]) + 1
  }

  /** argv[0] has its own rule: no quote in it, and no backslash before a closing quote. */
  predicate TransportableProgram(executable: string) {
    '"' !in executable && (NeedsQuotes(executable) ==> TrailingBackslashes(executable) == 0)
  }

  /** A plain program name is read back up to its separator. */
  lemma {:induction false} PlainProgramName(name: string, tail: string)
    requires forall k :: 0 <= k < |name| ==> !Blank(name[k]) && name[k] != '"'
    requires Separated(tail)
    ensures ProgramName(name + tail, false) == (name, tail)
  {
    if name == "" {
      assert name + tail == tail;
    } else {
      assert (name + tail)[1..] == name[1..] + tail;
      PlainProgramName(name[1..], tail);
      assert [name[0]] + name[1..] == name;
    }
  }

  /** Backslashes inside quotes stay as many as they are printed. */
  lemma {:induction false} ProgramBackslashes(n: nat, after: string)
    ensures
      var (name, rest) := ProgramName(after, true);
      ProgramName(Backslashes(n) + after, true) == (Backslashes(n) + name, rest)
  {
    var (name, rest) := ProgramName(after, true);
    if n == 0 {
      assert Backslashes(0) + after == after && Backslashes(0) + name == name;
    } else {
      ProgramBackslashes(n - 1, after);
      assert (Backslashes(n) + after)[1..] == Backslashes(n - 1) + after;
      assert ['\\'] + (Backslashes(n - 1) + name) == Backslashes(n) + name;
    }
  }

  lemma ClosingProgramQuote(pending: nat, tail: string)
    requires Separated(tail)
    ensures ProgramName(Backslashes(2 * pending) + "\"" + tail, true) == (Backslashes(2 * pending), tail)
  {
    Regroup(Backslashes(2 * pending), "\"", tail);
    ProgramBackslashes(2 * pending, "\"" + tail);
    assert ("\"" + tail)[1..] == tail;
    assert Backslashes(2 * pending) + "" == Backslashes(2 * pending);
  }

  lemma ProgramOrdinary(pending: nat, ch: char, printed: string, name: string, tail: string)
    requires ch != '\\' && ch != '"' && ProgramName(printed + tail, true) == (name, tail)
    ensures ProgramName(Backslashes(pending) + [ch] + printed + tail, true) == (Backslashes(pending) + ([ch] + name), tail)
  {
    Regroup(Backslashes(pending), [ch], printed);
    Regroup(Backslashes(pending), [ch] + printed, tail);
    Regroup([ch], printed, tail);
    ProgramBackslashes(pending, [ch] + (printed + tail));
    assert ([ch] + (printed + tail))[1..] == printed + tail;
  }

  /** A quoted program name comes back with its trailing backslashes doubled. */
  lemma {:induction false} QuotedProgramName(name: string, pending: nat, tail: string)
    requires '"' !in name && Separated(tail)
    ensures ProgramName(QuotedRest(name, pending) + tail, true)
         == (Backslashes(pending) + name + Backslashes(TrailingBackslashes(Backslashes(pending) + name)), tail)
    decreases |name|
  {
    if name == "" {
      AllBackslashes(pending);
      assert Backslashes(pending) + name == Backslashes(pending);
      assert Backslashes(pending) + Backslashes(pending) == Backslashes(2 * pending);
      ClosingProgramQuote(pending, tail);
    } else {
      var ch, rest := name[0], name[1..];
      assert name == [ch] + rest;
      if ch == '\\' {
        QuotedProgramName(rest, pending + 1, tail);
        Shift(pending, name, rest);
      } else {
        QuotedProgramName(rest, 0, tail);
        NoBackslash(rest);
        var extra := Backslashes(TrailingBackslashes(rest));
        SameTrailing(Backslashes(pending) + [ch], rest);
        Regroup(Backslashes(pending), [ch], rest);
        ProgramOrdinary(pending, ch, QuotedRest(rest, 0), rest + extra, tail);
        Regroup([ch], rest, extra);
        Regroup(Backslashes(pending), name, extra);
      }
    }
  }

  lemma {:induction false} AllBackslashes(n: nat)
    ensures TrailingBackslashes(Backslashes(n)) == n
  {
    if n > 0 {
      AllBackslashes(n - 1);
      assert Backslashes(n)[..n - 1] == Backslashes(n - 1);
    }
  }

  /** What stands before another character adds nothing to the trailing run. */
  lemma {:induction false} SameTrailing(front: string, s: string)
    requires front != "" && front[|front| - 1] != '\\'
    ensures TrailingBackslashes(front + s) == TrailingBackslashes(s)
  {
    if s == "" {
      assert front + s == front;
    } else {
      assert (front + s)[..|front + s| - 1] == front + s[..|s| - 1];
      SameTrailing(front, s[..|s| - 1]);
    }
  }

  /** The opening quote of a program name. */
  lemma OpeningProgramQuote(rest: string, tail: string)
    ensures ProgramName("\"" + rest + tail, false) == ProgramName(rest + tail, true)
  {
    assert ("\"" + rest + tail)[1..] == rest + tail;
  }

  lemma QuotedProgramNameBack(executable: string, tail: string)
    requires '"' !in executable && Separated(tail) && NeedsQuotes(executable)
    ensures ProgramName(Quote(executable) + tail, false) == (executable + Backslashes(TrailingBackslashes(executable)), tail)
  {
    QuotedProgramName(executable, 0, tail);
    NoBackslash(executable);
    OpeningProgramQuote(QuotedRest(executable, 0), tail);
  }

  lemma NothingAdded(s: string, n: nat)
    ensures s + Backslashes(n) == s <==> n == 0
  {
    assert |s + Backslashes(n)| == |s| + n;
    if n == 0 { assert s + Backslashes(n) == s; }
  }

  /** A program name without quotes comes back unless it is quoted and ends in a backslash. */
  lemma ProgramNameBack(executable: string, tail: string)
    requires '"' !in executable && Separated(tail)
    ensures ProgramName(Quote(executable) + tail, false).1 == tail
    ensures ProgramName(Quote(executable) + tail, false).0 == executable <==> TransportableProgram(executable)
  {
    if NeedsQuotes(executable) {
      hide Quote, ProgramName, Backslashes, TrailingBackslashes, NeedsQuotes;
      QuotedProgramNameBack(executable, tail);
      NothingAdded(executable, TrailingBackslashes(executable));
    } else {
      PlainProgramName(executable, tail);
    }
  }

  /** The child sees exactly the arguments that were given, for every argument list, and this
      program name exactly when it is transportable. */
  lemma CommandLineRoundTrip(executable: string, argv: seq<string>)
    ensures Parse(CommandLine(executable, argv)) == [executable] + argv <==> TransportableProgram(executable)
  {
    var tail := Tail(argv);
    TailRoundTrip(argv);
    var line := CommandLine(executable, argv);
    assert Parse(line)[0] == ProgramName(line, false).0;
    if '"' !in executable {
      hide Quote, ProgramName, TransportableProgram, Arguments;
      ProgramNameBack(executable, tail);
      assert Parse(line) == [ProgramName(line, false).0] + argv;
      assert ([ProgramName(line, false).0] + argv)[0] == ProgramName(line, false).0;
      assert ([executable] + argv)[0] == executable;
    }
  }
}
