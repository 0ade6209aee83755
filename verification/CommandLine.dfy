/** Windows command lines: the quoting done by the GUI launcher, and the documented
    parsing rules that have to undo it.

    A wide string is a `string`; the quoting and the parsing rules look only at
    backslashes, double quotes and white space, so any other code unit is opaque. */
module CommandLine {

  const VERTICAL_TAB: char := '\U{000B}'

  /** The characters that make the launcher quote an argument. */
  const SPECIAL: string := [' ', '\t', '\n', VERTICAL_TAB, '"']

  predicate IsBlank(c: char) {
    c == ' ' || c == '\t'
  }

  function Backslashes(n: nat): (r: string)
    ensures |r| == n
    ensures forall i | 0 <= i < n :: r[i] == '\\'
  {
    seq(n, _ => '\\')
  }

  predicate NeedsQuotes(argument: string) {
    exists c | c in argument :: c in SPECIAL
  }

  predicate Plain(argument: string) {
    argument == [] || (argument[0] != '"' && !IsBlank(argument[0]) && Plain(argument[1..]))
  }

  lemma {:induction false} UnquotedIsPlain(argument: string)
    requires !NeedsQuotes(argument)
    ensures Plain(argument)
  {
    assert SPECIAL[0] == ' ' && SPECIAL[1] == '\t' && SPECIAL[4] == '"';
    if argument != [] {
      assert argument[0] in argument;
      UnquotedIsPlain(argument[1..]);
    }
  }

  // ------------------------------------------------------------------ quoting

  /** What the quoting loop still has to write for `rest`, when `pending` backslashes
      have been counted but not written yet. The closing quote is included. */
  function Body(rest: string, pending: nat): string {
    if rest == [] then Backslashes(2 * pending) + ['"']
    else if rest[0] == '\\' then Body(rest[1..], pending + 1)
    else if rest[0] == '"' then Backslashes(2 * pending + 1) + (['"'] + Body(rest[1..], 0))
    else Backslashes(pending) + ([rest[0]] + Body(rest[1..], 0))
  }

  function Quoted(argument: string): string {
    if argument == [] then ['"', '"']
    else if !NeedsQuotes(argument) then argument
    else ['"'] + Body(argument, 0)
  }

  lemma {:induction false} BodyIsLonger(rest: string, pending: nat)
    ensures |Body(rest, pending)| > |rest| + pending
  {
    if rest != [] {
      BodyIsLonger(rest[1..], if rest[0] == '\\' then pending + 1 else 0);
    }
  }

  /** An argument is left as it is if and only if it has some text, and neither a blank nor a
      double quote in it. */
  lemma QuotedIfNeeded(argument: string)
    ensures Quoted(argument) == argument
        <==> argument != [] && forall c | c in argument :: c !in [' ', '\t', '\n', VERTICAL_TAB, '"']
  {
    BodyIsLonger(argument, 0);
    if NeedsQuotes(argument) {
      var c :| c in argument && c in SPECIAL;
      assert c in [' ', '\t', '\n', VERTICAL_TAB, '"'];
    }
  }

  lemma {:induction false} BodyKeeps(rest: string)
    requires forall i | 0 <= i < |rest| :: rest[i] != '\\' && rest[i] != '"'
    ensures Body(rest, 0) == rest + ['"']
  {
    if rest != [] {
      BodyKeeps(rest[1..]);
      assert Body(rest, 0) == Backslashes(0) + ([rest[0]] + Body(rest[1..], 0));
      assert Backslashes(0) == [] && rest == [rest[0]] + rest[1..];
    }
  }

  /** Without backslashes and double quotes, quoting at most puts the argument between quotes. */
  lemma QuotedSimply(argument: string)
    requires forall i | 0 <= i < |argument| :: argument[i] != '\\' && argument[i] != '"'
    ensures Quoted(argument) == argument || Quoted(argument) == ['"'] + argument + ['"']
  {
    BodyKeeps(argument);
    Regroup([], ['"'], argument, ['"']);
  }

  function CommandTail(arguments: seq<string>): string {
    if arguments == [] then []
    else [' '] + (Quoted(arguments[0]) + CommandTail(arguments[1..]))
  }

  lemma Regroup(a: string, b: string, c: string, d: string)
    ensures ((a + b) + c) + d == a + (b + (c + d))
  {
  }

  lemma RegroupTail(b: string, c: string, d: string, tail: string)
    ensures (b + (c + d)) + tail == b + (c + (d + tail))
  {
  }

  method QuoteArgument(argument: string) returns (result: string)
    ensures result == Quoted(argument)
  {
    if argument == [] {
      return ['"', '"'];
    }
    var needsQuotes := NeedsQuotes(argument);
    if !needsQuotes {
      return argument;
    }
    result := ['"'];
    var backslashes: nat := 0;
    for i := 0 to |argument|
      invariant result + Body(argument[i..], backslashes) == Quoted(argument)
    {
      var ch := argument[i];
      ghost var written := result;
      assert argument[i..][1..] == argument[i + 1..];
      if ch == '\\' {
        backslashes := backslashes + 1;
      } else if ch == '"' {
        result := (result + Backslashes(backslashes * 2 + 1)) + [ch];
        Regroup(written, Backslashes(backslashes * 2 + 1), [ch], Body(argument[i + 1..], 0));
        backslashes := 0;
      } else {
        result := (result + Backslashes(backslashes)) + [ch];
        Regroup(written, Backslashes(backslashes), [ch], Body(argument[i + 1..], 0));
        backslashes := 0;
      }
    }
    assert argument[|argument|..] == [];
    result := result + Backslashes(backslashes * 2) + ['"'];
  }

  /** `arguments` are the launcher's own arguments after its program name. */
  method BuildCommandLine(pythonExe: string, guiScript: string, arguments: seq<string>)
    returns (command: string)
    ensures command == Quoted(pythonExe) + CommandTail([guiScript] + arguments)
  {
    var program := QuoteArgument(pythonExe);
    var script := QuoteArgument(guiScript);
    command := program + [' '] + script;
    for i := 0 to |arguments|
      invariant command + CommandTail(arguments[i..]) == program + [' '] + script + CommandTail(arguments)
    {
      var quoted := QuoteArgument(arguments[i]);
      assert arguments[i..][1..] == arguments[i + 1..];
      Regroup(command, [' '], quoted, CommandTail(arguments[i + 1..]));
      command := command + [' '];
      command := command + quoted;
    }
    assert command + CommandTail([]) == command;
    assert ([guiScript] + arguments)[1..] == arguments;
    Regroup(program, [' '], script, CommandTail(arguments));
  }

  // ------------------------------------------------------- the parsing rules

  function LeadingBackslashes(s: string): (n: nat)
    ensures n <= |s|
    ensures forall i | 0 <= i < n :: s[i] == '\\'
    ensures n < |s| ==> s[n] != '\\'
  {
    if s == [] || s[0] != '\\' then 0 else 1 + LeadingBackslashes(s[1..])
  }

  /** Reads one argument: its text, and what is left of the line. Backslashes are literal
      unless a double quote follows them; before a quote, each pair is one backslash and
      an odd one makes the quote literal; any other quote starts or ends a quoted part;
      white space ends the argument outside a quoted part.

      The documented rules come in two versions. With `pairs`, two quotes in a row inside
      a quoted part are one literal quote (Microsoft C run-time); without it they are not
      (CommandLineToArgvW). */
  function Scan(s: string, quoted: bool, pairs: bool): (r: (string, string))
    ensures |r.1| <= |s|
    ensures s != [] && (quoted || !IsBlank(s[0])) ==> |r.1| < |s|
    decreases |s|
  {
    if s == [] then
      ([], [])
    else if s[0] == '\\' then
      var n := LeadingBackslashes(s);
      if n == |s| || s[n] != '"' then
        var (text, rest) := Scan(s[n..], quoted, pairs);
        (Backslashes(n) + text, rest)
      else if n % 2 == 0 then
        var (text, rest) := Scan(s[n..], quoted, pairs);
        (Backslashes(n / 2) + text, rest)
      else
        var (text, rest) := Scan(s[n + 1..], quoted, pairs);
        (Backslashes(n / 2) + (['"'] + text), rest)
    else if s[0] == '"' then
      if pairs && quoted && |s| > 1 && s[1] == '"' then
        var (text, rest) := Scan(s[2..], quoted, pairs);
        (['"'] + text, rest)
      else
        Scan(s[1..], !quoted, pairs)
    else if !quoted && IsBlank(s[0]) then
      ([], s)
    else
      var (text, rest) := Scan(s[1..], quoted, pairs);
      ([s[0]] + text, rest)
  }

  /** The arguments of a line that holds no program name. */
  function Arguments(s: string, pairs: bool): seq<string>
    decreases |s|
  {
    if s == [] then []
    else if IsBlank(s[0]) then Arguments(s[1..], pairs)
    else
      var (text, rest) := Scan(s, false, pairs);
      [text] + Arguments(rest, pairs)
  }

  /** Skips the program name, where quotes only protect white space and there are no
      escape sequences. */
  function AfterProgram(s: string, quoted: bool): string {
    if s == [] then []
    else if s[0] == '"' then AfterProgram(s[1..], !quoted)
    else if !quoted && IsBlank(s[0]) then s
    else AfterProgram(s[1..], quoted)
  }

  // ------------------------------------------------------------ the round trip

  predicate EndsArgument(rest: string) {
    rest == [] || IsBlank(rest[0])
  }

  lemma LeadingBackslashesOf(n: nat, rest: string)
    requires rest == [] || rest[0] != '\\'
    ensures LeadingBackslashes(Backslashes(n) + rest) == n
  {
    var s := Backslashes(n) + rest;
    assert n < |s| ==> s[n] == rest[0];
    assert forall i | 0 <= i < n :: s[i] == '\\';
  }

  /** A run of backslashes with no quote behind it is read literally. */
  lemma ScanLiteralRun(n: nat, rest: string, quoted: bool, pairs: bool)
    requires rest == [] || (rest[0] != '\\' && rest[0] != '"')
    ensures Scan(Backslashes(n) + rest, quoted, pairs)
         == (Backslashes(n) + Scan(rest, quoted, pairs).0, Scan(rest, quoted, pairs).1)
  {
    var s := Backslashes(n) + rest;
    LeadingBackslashesOf(n, rest);
    assert s[n..] == rest;
    if n == 0 {
      assert s == rest;
      assert Backslashes(0) + Scan(rest, quoted, pairs).0 == Scan(rest, quoted, pairs).0;
    } else {
      assert s[0] == '\\';
    }
  }

  /** Twice n backslashes before a quote: n backslashes, and the quote is a delimiter. */
  lemma ScanEvenRun(n: nat, rest: string, quoted: bool, pairs: bool)
    ensures var after := Scan(['"'] + rest, quoted, pairs);
            Scan(Backslashes(2 * n) + (['"'] + rest), quoted, pairs) == (Backslashes(n) + after.0, after.1)
  {
    var s, run := Backslashes(2 * n) + (['"'] + rest), 2 * n;
    assert run % 2 == 0 && run / 2 == n;
    LeadingBackslashesOf(run, ['"'] + rest);
    assert s[run..] == ['"'] + rest;
    var after := Scan(['"'] + rest, quoted, pairs);
    if n == 0 {
      assert s == ['"'] + rest;
      assert Backslashes(0) + after.0 == after.0;
    } else {
      ScanRunBeforeQuote(s, run, quoted, pairs);
    }
  }

  /** One step of the rules, at an even run of backslashes before a quote. */
  lemma ScanRunBeforeQuote(s: string, run: nat, quoted: bool, pairs: bool)
    requires 0 < run < |s| && run == LeadingBackslashes(s) && s[run] == '"' && run % 2 == 0
    ensures var after := Scan(s[run..], quoted, pairs);
            Scan(s, quoted, pairs) == (Backslashes(run / 2) + after.0, after.1)
  {
    assert s[0] == '\\';
  }

  lemma ScanOddRun(n: nat, rest: string, quoted: bool, pairs: bool)
    ensures var after := Scan(rest, quoted, pairs);
            Scan(Backslashes(2 * n + 1) + (['"'] + rest), quoted, pairs)
              == (Backslashes(n) + (['"'] + after.0), after.1)
  {
    var s := Backslashes(2 * n + 1) + (['"'] + rest);
    LeadingBackslashesOf(2 * n + 1, ['"'] + rest);
    assert s[2 * n + 1] == '"';
    assert s[2 * n + 2..] == rest;
    assert (2 * n + 1) / 2 == n;
    assert s[0] == '\\';
  }

  /** Inside a quoted part, what the quoting loop wrote reads back as what it was given. */
  lemma {:induction false} ScanBody(rest: string, pending: nat, tail: string, pairs: bool)
    requires EndsArgument(tail)
    ensures Scan(Body(rest, pending) + tail, true, pairs) == (Backslashes(pending) + rest, tail)
    decreases |rest|
  {
    if rest == [] {
      assert Body(rest, pending) + tail == Backslashes(2 * pending) + (['"'] + tail);
      ScanEvenRun(pending, tail, true, pairs);
      ScanClosingQuote(tail, pairs);
      assert Backslashes(pending) + rest == Backslashes(pending);
    } else if rest[0] == '\\' {
      ScanBody(rest[1..], pending + 1, tail, pairs);
      LongerRun(rest, pending);
    } else {
      ScanBody(rest[1..], 0, tail, pairs);
      assert Backslashes(0) + rest[1..] == rest[1..];
      ScanBodyStep(rest, pending, tail, pairs);
    }
  }

  lemma ScanBodyStep(rest: string, pending: nat, tail: string, pairs: bool)
    requires rest != [] && rest[0] != '\\'
    requires Scan(Body(rest[1..], 0) + tail, true, pairs) == (rest[1..], tail)
    ensures Scan(Body(rest, pending) + tail, true, pairs) == (Backslashes(pending) + rest, tail)
  {
    var after := Body(rest[1..], 0) + tail;
    assert [rest[0]] + rest[1..] == rest;
    if rest[0] == '"' {
      RegroupTail(Backslashes(2 * pending + 1), ['"'], Body(rest[1..], 0), tail);
      ScanOddRun(pending, after, true, pairs);
    } else {
      RegroupTail(Backslashes(pending), [rest[0]], Body(rest[1..], 0), tail);
      ScanLiteralRun(pending, [rest[0]] + after, true, pairs);
      ScanOrdinary(rest[0], after, true, pairs);
    }
  }

  lemma ScanClosingQuote(tail: string, pairs: bool)
    requires EndsArgument(tail)
    ensures Scan(['"'] + tail, true, pairs) == ([], tail)
  {
    assert (['"'] + tail)[1..] == tail;
    assert Scan(tail, false, pairs) == ([], tail);
  }

  lemma ScanOrdinary(c: char, rest: string, quoted: bool, pairs: bool)
    requires c != '\\' && c != '"' && (quoted || !IsBlank(c))
    ensures Scan([c] + rest, quoted, pairs) == ([c] + Scan(rest, quoted, pairs).0, Scan(rest, quoted, pairs).1)
  {
    assert ([c] + rest)[1..] == rest;
  }

  /** An argument that the launcher left alone reads back unchanged; `pending` counts the
      backslashes just before it. */
  lemma {:induction false} ScanPlain(argument: string, pending: nat, tail: string, pairs: bool)
    requires EndsArgument(tail)
    requires Plain(argument)
    ensures Scan(Backslashes(pending) + (argument + tail), false, pairs)
         == (Backslashes(pending) + argument, tail)
    decreases |argument|
  {
    if argument == [] {
      assert argument + tail == tail && Backslashes(pending) + argument == Backslashes(pending);
      ScanLiteralRun(pending, tail, false, pairs);
    } else if argument[0] == '\\' {
      ScanPlain(argument[1..], pending + 1, tail, pairs);
      LongerRun(argument, pending);
      LongerRun(argument + tail, pending);
      assert (argument + tail)[1..] == argument[1..] + tail;
    } else {
      ScanPlain(argument[1..], 0, tail, pairs);
      EmptyRun(argument[1..]);
      EmptyRun(argument[1..] + tail);
      Prepend(argument[0], argument[1..], tail);
      ScanPlainStep(argument[0], argument[1..] + tail, pending, pairs);
      assert [argument[0]] + argument[1..] == argument;
    }
  }

  lemma LongerRun(s: string, n: nat)
    requires s != [] && s[0] == '\\'
    ensures Backslashes(n + 1) + s[1..] == Backslashes(n) + s
  {
  }

  lemma EmptyRun(s: string)
    ensures Backslashes(0) + s == s
  {
  }

  lemma Prepend(c: char, rest: string, tail: string)
    ensures ([c] + rest) + tail == [c] + (rest + tail)
  {
  }

  lemma ScanPlainStep(c: char, after: string, pending: nat, pairs: bool)
    requires c != '\\' && c != '"' && !IsBlank(c)
    ensures Scan(Backslashes(pending) + ([c] + after), false, pairs)
         == (Backslashes(pending) + ([c] + Scan(after, false, pairs).0), Scan(after, false, pairs).1)
  {
    ScanOrdinary(c, after, false, pairs);
    ScanLiteralRun(pending, [c] + after, false, pairs);
  }

  lemma ScanQuoted(argument: string, tail: string, pairs: bool)
    requires EndsArgument(tail)
    ensures Scan(Quoted(argument) + tail, false, pairs) == (argument, tail)
    ensures Quoted(argument) != [] && !IsBlank(Quoted(argument)[0])
  {
    if argument != [] && !NeedsQuotes(argument) {
      UnquotedIsPlain(argument);
      ScanPlain(argument, 0, tail, pairs);
      assert Backslashes(0) + argument == argument;
      assert Backslashes(0) + (argument + tail) == argument + tail;
    } else {
      ScanBody(argument, 0, tail, pairs);
      assert Backslashes(0) + argument == argument;
      ScanOpeningQuote(Body(argument, 0), tail, pairs);
      assert argument == [] ==> Backslashes(0) + ['"'] == ['"'];
      assert Quoted(argument) == ['"'] + Body(argument, 0);
    }
  }

  lemma ScanOpeningQuote(body: string, tail: string, pairs: bool)
    ensures Scan((['"'] + body) + tail, false, pairs) == Scan(body + tail, true, pairs)
  {
    assert ((['"'] + body) + tail)[1..] == body + tail;
  }

  lemma {:induction false} ParseCommandTail(arguments: seq<string>, pairs: bool)
    ensures Arguments(CommandTail(arguments), pairs) == arguments
    ensures EndsArgument(CommandTail(arguments))
  {
    if arguments != [] {
      var first, tail := Quoted(arguments[0]), CommandTail(arguments[1..]);
      ParseCommandTail(arguments[1..], pairs);
      ScanQuoted(arguments[0], tail, pairs);
      ArgumentsStep(first, tail, pairs);
      assert [arguments[0]] + arguments[1..] == arguments;
    }
  }

  lemma ArgumentsStep(first: string, tail: string, pairs: bool)
    requires first != [] && !IsBlank(first[0])
    ensures var (text, rest) := Scan(first + tail, false, pairs);
            Arguments([' '] + (first + tail), pairs) == [text] + Arguments(rest, pairs)
  {
    assert ([' '] + (first + tail))[1..] == first + tail;
  }

  lemma {:induction false} AfterProgramBody(name: string, pending: nat, tail: string)
    requires '"' !in name
    requires EndsArgument(tail)
    ensures AfterProgram(Body(name, pending) + tail, true) == tail
    decreases |name|
  {
    if name == [] {
      assert Body(name, pending) + tail == Backslashes(2 * pending) + (['"'] + tail);
      SkipQuoteless(Backslashes(2 * pending), ['"'] + tail, true);
      assert (['"'] + tail)[1..] == tail;
    } else if name[0] == '\\' {
      AfterProgramBody(name[1..], pending + 1, tail);
    } else {
      var after := Body(name[1..], 0) + tail;
      RegroupTail(Backslashes(pending), [name[0]], Body(name[1..], 0), tail);
      SkipQuoteless(Backslashes(pending), [name[0]] + after, true);
      SkipQuoteless([name[0]], after, true);
      AfterProgramBody(name[1..], 0, tail);
    }
  }

  lemma {:induction false} SkipQuoteless(prefix: string, rest: string, quoted: bool)
    requires Plain(prefix) || (quoted && '"' !in prefix)
    ensures AfterProgram(prefix + rest, quoted) == AfterProgram(rest, quoted)
    decreases |prefix|
  {
    if prefix == [] {
      assert prefix + rest == rest;
    } else {
      assert prefix[0] in prefix;
      assert (prefix + rest)[1..] == prefix[1..] + rest;
      SkipQuoteless(prefix[1..], rest, quoted);
    }
  }

  lemma AfterProgramQuoted(name: string, tail: string)
    requires '"' !in name
    requires EndsArgument(tail)
    ensures AfterProgram(Quoted(name) + tail, false) == tail
  {
    if name != [] && !NeedsQuotes(name) {
      UnquotedIsPlain(name);
      SkipQuoteless(name, tail, false);
    } else {
      assert name == [] ==> Backslashes(0) + ['"'] == ['"'];
      assert Quoted(name) == ['"'] + Body(name, 0);
      assert (Quoted(name) + tail)[1..] == Body(name, 0) + tail;
      AfterProgramBody(name, 0, tail);
    }
  }

  /** The round trip: under either version of the rules, the child process sees the script
      and then exactly the launcher's arguments. A Windows path holds no double quote. */
  lemma CommandLineRoundTrip(pythonExe: string, guiScript: string, arguments: seq<string>, pairs: bool)
    requires '"' !in pythonExe
    ensures var command := Quoted(pythonExe) + CommandTail([guiScript] + arguments);
            Arguments(AfterProgram(command, false), pairs) == [guiScript] + arguments
  {
    var all := [guiScript] + arguments;
    ParseCommandTail(all, pairs);
    AfterProgramQuoted(pythonExe, CommandTail(all));
  }
}
