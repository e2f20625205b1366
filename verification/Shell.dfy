/** The commands sent to a remote shell, and how the Shell Command Language of IEEE Std 1003.1 splits them:
    blanks and operators between words (section 2.3), the backslash (2.2.1), single quotes (2.2.2) and double
    quotes around the first positional parameter (2.2.3 and 2.5.1). Whatever else is special to a shell makes
    this lexer stop, so a result always means that nothing of the kind was met. */
module Shell {
  import opened Prelude

  datatype Token = Word(text: string) | Operator(text: string)

  datatype Mode =
    | Bare(word: Option<string>)      // outside quotes; the word begun so far, if there is one
    | Escaped(word: Option<string>)   // after an unquoted backslash
    | Single(text: string)
    | Double(text: string)
    | DoubleEscaped(text: string)
    | Dollar(text: string)            // after a $ inside double quotes
    | Ampersand                       // after the first & of &&
    | Greater                         // after a >

  datatype Lexer = Lexer(tokens: seq<Token>, mode: Mode) | Stuck

  predicate IsBlank(c: char) {
    c == ' ' || c == '\t'
  }

  /** Characters that need quoting, always or in some places (section 2.2). */
  predicate IsSpecial(c: char) {
    || c == '|' || c == '&' || c == ';' || c == '<' || c == '>' || c == '(' || c == ')' || c == '$' || c == '`'
    || c == '\\' || c == '"' || c == '\'' || c == ' ' || c == '\t' || c == '\n' || c == '*' || c == '?'
    || c == '[' || c == ']' || c == '#' || c == '~' || c == '=' || c == '%' || c == '{' || c == '}' || c == '!'
  }

  function Begun(word: Option<string>): string {
    if word.Some? then word.value else ""
  }

  function EndWord(tokens: seq<Token>, word: Option<string>): seq<Token> {
    if word.Some? then tokens + [Word(word.value)] else tokens
  }

  /** Digits in front of a redirection would name a file descriptor instead of being a word. */
  predicate IsNumber(word: Option<string>) {
    word.Some? && word.value != "" && forall i :: 0 <= i < |word.value| ==> '0' <= word.value[i] <= '9'
  }

  function BareStep(tokens: seq<Token>, word: Option<string>, c: char): Lexer {
    if IsBlank(c) then Lexer(EndWord(tokens, word), Bare(None))
    else if c == '\\' then Lexer(tokens, Escaped(word))
    else if c == '\'' then Lexer(tokens, Single(Begun(word)))
    else if c == '"' then Lexer(tokens, Double(Begun(word)))
    else if c == '&' then Lexer(EndWord(tokens, word), Ampersand)
    else if c == '>' && !IsNumber(word) then Lexer(EndWord(tokens, word), Greater)
    else if IsSpecial(c) then Stuck
    else Lexer(tokens, Bare(Some(Begun(word) + [c])))
  }

  function Step(lexer: Lexer, c: char, parameter: Option<string>): Lexer {
    if lexer.Stuck? then Stuck
    else
      match lexer.mode
      case Bare(word) => BareStep(lexer.tokens, word, c)
      case Escaped(word) =>
        // A backslash joins the next line; before anything else it quotes the character.
        lexer.(mode := if c == '\n' then Bare(word) else Bare(Some(Begun(word) + [c])))
      case Single(text) =>
        lexer.(mode := if c == '\'' then Bare(Some(text)) else Single(text + [c]))
      case Double(text) =>
        if c == '"' then lexer.(mode := Bare(Some(text)))
        else if c == '\\' then lexer.(mode := DoubleEscaped(text))
        else if c == '$' then lexer.(mode := Dollar(text))
        else if c == '`' then Stuck
        else lexer.(mode := Double(text + [c]))
      case DoubleEscaped(text) =>
        lexer.(mode := Double(if c == '\n' then text
                               else if c == '$' || c == '`' || c == '"' || c == '\\' then text + [c]
                                   else text + ['\\', c]))
      case Dollar(text) =>
        // Within double quotes the value is not split again.
        if c == '1' && parameter.Some? then lexer.(mode := Double(text + parameter.value)) else Stuck
      case Ampersand =>
        if c == '&' then Lexer(lexer.tokens + [Operator("&&")], Bare(None)) else Stuck
      case Greater =>
        if c == '>' || c == '&' || c == '|' then Stuck else BareStep(lexer.tokens + [Operator(">")], None, c)
  }

  function Run(lexer: Lexer, s: string, parameter: Option<string>): Lexer
    decreases s
  {
    if s == "" then lexer else Run(Step(lexer, s[0], parameter), s[1..], parameter)
  }

  function Finish(lexer: Lexer): Option<seq<Token>> {
    if lexer.Stuck? then None
    else if lexer.mode.Bare? then Some(EndWord(lexer.tokens, lexer.mode.word))
    else if lexer.mode.Greater? then Some(lexer.tokens + [Operator(">")])
    else None
  }

  /** How a shell splits a command, given its first positional parameter. */
  function Tokens(command: string, parameter: Option<string>): Option<seq<Token>> {
    Finish(Run(Lexer([], Bare(None)), command, parameter))
  }

  // ---------------------------------------------------------------------------------------------
  // The commands

  function Escape(value: string): string {
    if value == "" then ""
    else (if value[0] == '\'' then "'\\''" else [value[0]]) + Escape(value[1..])
  }

  function ShellQuote(value: string): string {
    "'" + Escape(value) + "'"
  }

  function Sudo(password: bool): string {
    if password then "sudo -k && sudo -S -p ''" else "sudo -n"
  }

  function PrivilegedCommand(program: string, path: string, password: bool): string {
    Sudo(password) + " -- sh -c 'exec " + program + " \"$1\"' sh " + ShellQuote(path)
  }

  function PrivilegedShellCommand(script: string, path: string, password: bool): string {
    Sudo(password) + " -- sh -c " + ShellQuote(script) + " sh " + ShellQuote(path)
  }

  function WrapRemoteCommand(command: string, directory: Option<string>): string {
    if directory.Some? then "cd " + ShellQuote(directory.value) + " && " + command else command
  }

  // ---------------------------------------------------------------------------------------------
  // Facts about running the lexer

  lemma {:induction false} RunInTurn(lexer: Lexer, a: string, b: string, parameter: Option<string>)
    ensures Run(lexer, a + b, parameter) == Run(Run(lexer, a, parameter), b, parameter)
    decreases a
  {
    if a == "" {
      assert a + b == b;
    } else {
      assert (a + b)[1..] == a[1..] + b;
      RunInTurn(Step(lexer, a[0], parameter), a[1..], b, parameter);
    }
  }

  /** Inside single quotes the escaped text adds exactly the value, whatever characters it has. */
  lemma {:induction false} EscapeRuns(tokens: seq<Token>, text: string, value: string, parameter: Option<string>)
    ensures Run(Lexer(tokens, Single(text)), Escape(value), parameter) == Lexer(tokens, Single(text + value))
    decreases value
  {
    if value == "" {
      assert text + value == text;
    } else {
      var head := if value[0] == '\'' then "'\\''" else [value[0]];
      RunInTurn(Lexer(tokens, Single(text)), head, Escape(value[1..]), parameter);
      HeadRuns(tokens, text, value[0], parameter);
      EscapeRuns(tokens, text + [value[0]], value[1..], parameter);
      assert text + [value[0]] + value[1..] == text + value;
    }
  }

  lemma HeadRuns(tokens: seq<Token>, text: string, c: char, parameter: Option<string>)
    ensures Run(Lexer(tokens, Single(text)), if c == '\'' then "'\\''" else [c], parameter)
         == Lexer(tokens, Single(text + [c]))
  {
    if c == '\'' {
      var s := "'\\''";
      var l1 := Lexer(tokens, Bare(Some(text)));
      var l2 := Lexer(tokens, Escaped(Some(text)));
      var l3 := Lexer(tokens, Bare(Some(text + ['\''])));
      assert s[1..] == "\\''" && s[1..][1..] == "''" && s[1..][1..][1..] == "'" && s[1..][1..][1..][1..] == "";
      assert Step(Lexer(tokens, Single(text)), s[0], parameter) == l1;
      assert Step(l1, '\\', parameter) == l2 && Step(l2, '\'', parameter) == l3;
      assert Run(l3, "'", parameter) == Lexer(tokens, Single(text + ['\'']));
      assert Run(l2, "''", parameter) == Run(l3, "'", parameter);
      assert Run(l1, "\\''", parameter) == Run(l2, "''", parameter);
    } else {
      assert [c][1..] == "";
    }
  }

  /** Outside quotes, a quoted value adds exactly the value to the word begun, or begins one. */
  lemma QuoteRuns(tokens: seq<Token>, word: Option<string>, value: string, parameter: Option<string>)
    ensures Run(Lexer(tokens, Bare(word)), ShellQuote(value), parameter)
            == Lexer(tokens, Bare(Some(Begun(word) + value)))
  {
    var start := Lexer(tokens, Bare(word));
    assert ShellQuote(value) == "'" + (Escape(value) + "'");
    RunInTurn(start, "'", Escape(value) + "'", parameter);
    assert Run(start, "'", parameter) == Lexer(tokens, Single(Begun(word)));
    RunInTurn(Lexer(tokens, Single(Begun(word))), Escape(value), "'", parameter);
    EscapeRuns(tokens, Begun(word), value, parameter);
    assert Run(Lexer(tokens, Single(Begun(word) + value)), "'", parameter)
           == Lexer(tokens, Bare(Some(Begun(word) + value)));
  }

  predicate IsPlainText(s: string) {
    forall i :: 0 <= i < |s| ==> !IsSpecial(s[i])
  }

  lemma {:induction false} PlainRuns(tokens: seq<Token>, word: string, s: string, parameter: Option<string>)
    requires IsPlainText(s)
    ensures Run(Lexer(tokens, Bare(Some(word))), s, parameter) == Lexer(tokens, Bare(Some(word + s)))
    decreases s
  {
    if s == "" {
      assert word + s == word;
    } else {
      assert !IsSpecial(s[0]);
      PlainRuns(tokens, word + [s[0]], s[1..], parameter);
      assert word + [s[0]] + s[1..] == word + s;
    }
  }

  /** The parts that the commands are put together from, each followed by a space. */
  datatype Part = Plain(text: string) | Quoted(text: string) | And

  predicate IsWellFormed(part: Part) {
    part.Plain? ==> part.text != "" && IsPlainText(part.text)
  }

  function PartText(part: Part): string {
    match part
    case Plain(text) => text
    case Quoted(text) => ShellQuote(text)
    case And => "&&"
  }

  function PartToken(part: Part): Token {
    if part.And? then Operator("&&") else Word(part.text)
  }

  function Text(parts: seq<Part>): string {
    if parts == [] then "" else PartText(parts[0]) + " " + Text(parts[1..])
  }

  function PartTokens(parts: seq<Part>): (tokens: seq<Token>)
    ensures |tokens| == |parts| && forall i :: 0 <= i < |parts| ==> tokens[i] == PartToken(parts[i])
  {
    if parts == [] then [] else [PartToken(parts[0])] + PartTokens(parts[1..])
  }

  lemma AndRuns(tokens: seq<Token>, parameter: Option<string>)
    ensures Run(Lexer(tokens, Bare(None)), "&&", parameter) == Lexer(tokens + [Operator("&&")], Bare(None))
  {
    assert Step(Lexer(tokens, Bare(None)), '&', parameter) == Lexer(tokens, Ampersand);
    assert "&&"[1..] == "&" && "&"[1..] == "";
    assert Run(Lexer(tokens, Ampersand), "&", parameter) == Lexer(tokens + [Operator("&&")], Bare(None));
  }

  lemma PartRuns(tokens: seq<Token>, part: Part, parameter: Option<string>)
    requires IsWellFormed(part)
    ensures Run(Lexer(tokens, Bare(None)), PartText(part) + " ", parameter)
         == Lexer(tokens + [PartToken(part)], Bare(None))
  {
    var start := Lexer(tokens, Bare(None));
    RunInTurn(start, PartText(part), " ", parameter);
    match part
    case Plain(text) =>
      assert !IsSpecial(text[0]) && Begun(None) + [text[0]] == [text[0]];
      assert Step(start, text[0], parameter) == Lexer(tokens, Bare(Some([text[0]])));
      PlainRuns(tokens, [text[0]], text[1..], parameter);
      assert text == [text[0]] + text[1..];
      SpaceEndsWord(tokens, text, parameter);
    case Quoted(text) =>
      QuoteRuns(tokens, None, text, parameter);
      assert Begun(None) + text == text;
      SpaceEndsWord(tokens, text, parameter);
    case And =>
      AndRuns(tokens, parameter);
      assert " "[1..] == "";
  }

  lemma SpaceEndsWord(tokens: seq<Token>, word: string, parameter: Option<string>)
    ensures Run(Lexer(tokens, Bare(Some(word))), " ", parameter) == Lexer(tokens + [Word(word)], Bare(None))
  {
    assert " "[1..] == "";
  }

  /** Reading on where a word has ended. */
  function ReadOn(tokens: seq<Token>, s: string, parameter: Option<string>): Lexer {
    Run(Lexer(tokens, Bare(None)), s, parameter)
  }

  lemma PartThenRest(tokens: seq<Token>, part: Part, rest: string, parameter: Option<string>)
    requires IsWellFormed(part)
    ensures ReadOn(tokens, PartText(part) + " " + rest, parameter)
            == ReadOn(tokens + [PartToken(part)], rest, parameter)
  {
    PartRuns(tokens, part, parameter);
    RunInTurn(Lexer(tokens, Bare(None)), PartText(part) + " ", rest, parameter);
  }

  lemma TextWithRest(parts: seq<Part>, rest: string)
    requires parts != []
    ensures Text(parts) + rest == PartText(parts[0]) + " " + (Text(parts[1..]) + rest)
  {
    Associative(PartText(parts[0]) + " ", Text(parts[1..]), rest);
  }

  /** Parts never run into each other, nor into what comes before or after them. */
  lemma {:induction false} PartsStayApart(tokens: seq<Token>, parts: seq<Part>, rest: string, parameter: Option<string>)
    requires forall i :: 0 <= i < |parts| ==> IsWellFormed(parts[i])
    ensures ReadOn(tokens, Text(parts) + rest, parameter) == ReadOn(tokens + PartTokens(parts), rest, parameter)
    decreases parts
  {
    if parts == [] {
      assert tokens + [] == tokens && Text(parts) + rest == rest;
    } else {
      var more := tokens + [PartToken(parts[0])];
      TextWithRest(parts, rest);
      PartThenRest(tokens, parts[0], Text(parts[1..]) + rest, parameter);
      PartsStayApart(more, parts[1..], rest, parameter);
      assert more + PartTokens(parts[1..]) == tokens + PartTokens(parts);
    }
  }

  lemma LastQuoteRuns(tokens: seq<Token>, last: string, parameter: Option<string>)
    ensures Finish(ReadOn(tokens, ShellQuote(last), parameter)) == Some(tokens + [Word(last)])
  {
    QuoteRuns(tokens, None, last, parameter);
    assert Begun(None) + last == last;
  }

  /** A command of parts with one quoted value at its end. */
  lemma SentenceTokens(parts: seq<Part>, last: string, parameter: Option<string>)
    requires forall i :: 0 <= i < |parts| ==> IsWellFormed(parts[i])
    ensures Tokens(Text(parts) + ShellQuote(last), parameter) == Some(PartTokens(parts) + [Word(last)])
  {
    var tokens := PartTokens(parts);
    PartsStayApart([], parts, ShellQuote(last), parameter);
    assert [] + tokens == tokens;
    LastQuoteRuns(tokens, last, parameter);
  }

  // ---------------------------------------------------------------------------------------------
  // Main results

  /** A quoted value is always exactly one word, the value itself. */
  lemma QuotedIsOneWord(value: string, parameter: Option<string>)
    ensures Tokens(ShellQuote(value), parameter) == Some([Word(value)])
  {
    SentenceTokens([], value, parameter);
    assert Text([]) + ShellQuote(value) == ShellQuote(value);
    assert PartTokens([]) + [Word(value)] == [Word(value)];
  }

  function SudoParts(password: bool): seq<Part> {
    if password then [Plain("sudo"), Plain("-k"), And, Plain("sudo"), Plain("-S"), Plain("-p"), Quoted("")]
    else [Plain("sudo"), Plain("-n")]
  }

  function SudoTokens(password: bool): seq<Token> {
    if password then [Word("sudo"), Word("-k"), Operator("&&"), Word("sudo"), Word("-S"), Word("-p"), Word("")]
    else [Word("sudo"), Word("-n")]
  }

  lemma TextOf(first: Part, rest: seq<Part>)
    ensures Text([first] + rest) == PartText(first) + " " + Text(rest)
  {
    assert ([first] + rest)[1..] == rest;
  }

  lemma {:induction false} TextInTurn(a: seq<Part>, b: seq<Part>)
    ensures Text(a + b) == Text(a) + Text(b)
  {
    if a == [] {
      assert a + b == b;
    } else {
      assert (a + b)[1..] == a[1..] + b;
      TextInTurn(a[1..], b);
    }
  }

  lemma SudoText(password: bool)
    ensures Text(SudoParts(password)) == Sudo(password) + " "
  {
    if password {
      SudoPasswordText();
    } else {
      TextOf(Plain("-n"), []);
      TextOf(Plain("sudo"), [Plain("-n")]);
      assert [Plain("sudo")] + [Plain("-n")] == SudoParts(password) && [Plain("-n")] + [] == [Plain("-n")];
    }
  }

  lemma SudoPasswordText()
    ensures Text(SudoParts(true)) == Sudo(true) + " "
  {
    var p6 := [Quoted("")];
    var p5 := [Plain("-p")] + p6;
    var p4 := [Plain("-S")] + p5;
    var p3 := [Plain("sudo")] + p4;
    var p2 := [And] + p3;
    var p1 := [Plain("-k")] + p2;
    assert SudoParts(true) == [Plain("sudo")] + p1 && p6 + [] == p6;
    TextOf(Quoted(""), []);
    TextOf(Plain("-p"), p6);
    TextOf(Plain("-S"), p5);
    TextOf(Plain("sudo"), p4);
    TextOf(And, p3);
    TextOf(Plain("-k"), p2);
    TextOf(Plain("sudo"), p1);
    SudoLiteral();
  }

  lemma SudoLiteral()
    ensures "sudo" + " "
            + ("-k" + " " + ("&&" + " " + ("sudo" + " " + ("-S" + " " + ("-p" + " " + (ShellQuote("") + " " + ""))))))
         == "sudo -k && sudo -S -p ''" + " "
  {
    SudoOptions();
    assert "sudo" + " " + "-S -p '' " == "sudo -S -p '' ";
    assert "&&" + " " + "sudo -S -p '' " == "&& sudo -S -p '' ";
    assert "-k" + " " + "&& sudo -S -p '' " == "-k && sudo -S -p '' ";
  }

  lemma SudoOptions()
    ensures "-S" + " " + ("-p" + " " + (ShellQuote("") + " " + "")) == "-S -p '' "
  {
    assert ShellQuote("") == "''";
    assert "-p" + " " + "'' " == "-p '' ";
  }

  function ShellParts(script: string): seq<Part> {
    [Plain("--"), Plain("sh"), Plain("-c"), Quoted(script), Plain("sh")]
  }

  lemma ShellText(script: string)
    ensures Text(ShellParts(script)) == "-- sh -c " + ShellQuote(script) + " sh "
  {
    var p4 := [Plain("sh")];
    var p3 := [Quoted(script)] + p4;
    var p2 := [Plain("-c")] + p3;
    var p1 := [Plain("sh")] + p2;
    assert ShellParts(script) == [Plain("--")] + p1 && p4 + [] == p4;
    TextOf(Plain("sh"), []);
    TextOf(Quoted(script), p4);
    TextOf(Plain("-c"), p3);
    TextOf(Plain("sh"), p2);
    TextOf(Plain("--"), p1);
  }

  lemma CommandText(script: string, path: string, password: bool)
    ensures PrivilegedShellCommand(script, path, password)
         == Text(SudoParts(password) + ShellParts(script)) + ShellQuote(path)
  {
    TextInTurn(SudoParts(password), ShellParts(script));
    SudoText(password);
    ShellText(script);
    assert " -- sh -c " == " " + "-- sh -c ";
    Regroup(Sudo(password), " ", "-- sh -c ", ShellQuote(script), " sh ", ShellQuote(path));
  }

  lemma Regroup(a: string, b: string, c: string, d: string, e: string, f: string)
    ensures a + (b + c) + d + e + f == (a + b) + (c + d + e) + f
  {
    Associative(a, b, c);
    Associative(a + b, c, d + e);
    Associative(a + b + c, d, e);
    Associative(c, d, e);
  }

  function CommandTokens(script: string, password: bool): seq<Token> {
    SudoTokens(password) + [Word("--"), Word("sh"), Word("-c"), Word(script), Word("sh")]
  }

  lemma SudoPartTokens(password: bool)
    ensures PartTokens(SudoParts(password)) == SudoTokens(password)
  {
    var parts, tokens := PartTokens(SudoParts(password)), SudoTokens(password);
    assert |parts| == |tokens|;
    forall i | 0 <= i < |tokens| ensures parts[i] == tokens[i] {
      assert parts[i] == PartToken(SudoParts(password)[i]);
    }
  }

  lemma SudoWellFormed(password: bool)
    ensures forall i :: 0 <= i < |SudoParts(password)| ==> IsWellFormed(SudoParts(password)[i])
  {
    assert IsWellFormed(Plain("sudo")) && IsWellFormed(Plain("-k")) && IsWellFormed(Plain("-n"));
    assert IsWellFormed(Plain("-S")) && IsWellFormed(Plain("-p"));
  }

  lemma ShellPartTokens(script: string)
    ensures PartTokens(ShellParts(script)) == [Word("--"), Word("sh"), Word("-c"), Word(script), Word("sh")]
    ensures forall i :: 0 <= i < |ShellParts(script)| ==> IsWellFormed(ShellParts(script)[i])
  {
  }

  lemma {:induction false} PartTokensInTurn(a: seq<Part>, b: seq<Part>)
    ensures PartTokens(a + b) == PartTokens(a) + PartTokens(b)
  {
  }

  /** After the fixed words, the script and the path are one word each, whatever characters they have. */
  lemma PrivilegedShellCommandTokens(script: string, path: string, password: bool)
    ensures Tokens(PrivilegedShellCommand(script, path, password), None)
         == Some(CommandTokens(script, password) + [Word(path)])
  {
    var parts := SudoParts(password) + ShellParts(script);
    CommandText(script, path, password);
    SudoPartTokens(password);
    SudoWellFormed(password);
    ShellPartTokens(script);
    PartTokensInTurn(SudoParts(password), ShellParts(script));
    SentenceTokens(parts, path, None);
  }

  function Script(program: string): string {
    "exec " + program + " \"$1\""
  }

  lemma {:induction false} EscapeOfPlain(s: string)
    requires '\'' !in s
    ensures Escape(s) == s
  {
    if s == "" {
    } else {
      assert s == [s[0]] + s[1..] && s[0] != '\'';
      EscapeOfPlain(s[1..]);
    }
  }

  /** A program without a single quote stays inside its quotes, so its command is the quoted script's. */
  lemma PrivilegedCommandIsScript(program: string, path: string, password: bool)
    requires '\'' !in program
    ensures PrivilegedCommand(program, path, password) == PrivilegedShellCommand(Script(program), path, password)
  {
    assert '\'' !in "exec " && '\'' !in " \"$1\"";
    assert '\'' !in "exec " + program;
    EscapeOfPlain(Script(program));
    assert " -- sh -c 'exec " == " -- sh -c " + ("'" + "exec ") && " \"$1\"' sh " == " \"$1\"" + ("'" + " sh ");
    Requote(Sudo(password), " -- sh -c ", "'", "exec ", program, " \"$1\"", " sh ", ShellQuote(path));
  }

  lemma Requote(a: string, b: string, q: string, c: string, d: string, e: string, f: string, g: string)
    ensures a + (b + (q + c)) + d + (e + (q + f)) + g == a + b + (q + (c + d + e) + q) + f + g
  {
    var left := a + b;
    Associative(a, b, q + c);
    assert left + (q + c) + d == left + (q + (c + d));
    assert left + (q + (c + d)) + (e + (q + f)) == left + (q + (c + d + e) + q) + f;
  }

  /** What has been split before does not matter to what comes after it. */
  lemma {:induction false} EarlierTokensStay(before: seq<Token>, lexer: Lexer, s: string, parameter: Option<string>)
    requires lexer.Lexer?
    ensures var r := Run(lexer, s, parameter);
            Run(Lexer(before + lexer.tokens, lexer.mode), s, parameter)
            == if r.Stuck? then Stuck else Lexer(before + r.tokens, r.mode)
    decreases s
  {
    if s == "" {
    } else {
      var next := Step(lexer, s[0], parameter);
      EarlierTokensStayOnce(before, lexer, s[0], parameter);
      if next.Lexer? {
        EarlierTokensStay(before, next, s[1..], parameter);
      } else {
        StaysStuck(s[1..], parameter);
      }
    }
  }

  lemma EarlierTokensStayOnce(before: seq<Token>, lexer: Lexer, c: char, parameter: Option<string>)
    requires lexer.Lexer?
    ensures var r := Step(lexer, c, parameter);
            Step(Lexer(before + lexer.tokens, lexer.mode), c, parameter)
            == if r.Stuck? then Stuck else Lexer(before + r.tokens, r.mode)
  {
    assert forall t :: before + (lexer.tokens + [t]) == (before + lexer.tokens) + [t];
    if lexer.mode.Greater? {
      var more := lexer.tokens + [Operator(">")];
      assert (before + lexer.tokens) + [Operator(">")] == before + more;
    }
  }

  lemma {:induction false} StaysStuck(s: string, parameter: Option<string>)
    ensures Run(Stuck, s, parameter) == Stuck
  {
    if s == "" {
    } else {
      StaysStuck(s[1..], parameter);
    }
  }

  lemma FinishKeepsEarlier(before: seq<Token>, lexer: Lexer)
    requires Finish(lexer).Some?
    ensures Finish(Lexer(before + lexer.tokens, lexer.mode)) == Some(before + Finish(lexer).value)
  {
    assert forall t :: before + (lexer.tokens + [t]) == (before + lexer.tokens) + [t];
  }

  lemma SpaceFinishes(lexer: Lexer, parameter: Option<string>)
    requires Finish(lexer).Some?
    ensures Run(lexer, " ", parameter) == Lexer(Finish(lexer).value, Bare(None))
  {
    assert " "[1..] == "";
  }

  lemma ParameterRuns(tokens: seq<Token>, value: string)
    ensures Run(Lexer(tokens, Bare(None)), "\"$1\"", Some(value)) == Lexer(tokens, Bare(Some(value)))
  {
    var s := "\"$1\"";
    assert s[1..] == "$1\"" && s[1..][1..] == "1\"" && s[1..][1..][1..] == "\"" && s[1..][1..][1..][1..] == "";
    assert "" + value == value;
    assert Run(Lexer(tokens, Double(value)), "\"", Some(value)) == Lexer(tokens, Bare(Some(value)));
    assert Run(Lexer(tokens, Dollar("")), "1\"", Some(value)) == Run(Lexer(tokens, Double(value)), "\"", Some(value));
    assert Run(Lexer(tokens, Double("")), "$1\"", Some(value)) == Run(Lexer(tokens, Dollar("")), "1\"", Some(value));
  }

  /** The inner shell runs the program with the path as exactly one more argument: the script's own words are
      exec and the program's tokens, and the parameter is neither split nor read again. */
  lemma ScriptRunsTheProgramOnThePath(program: string, path: string)
    requires Tokens(program, Some(path)).Some?
    ensures Tokens(Script(program), Some(path))
            == Some([Word("exec")] + Tokens(program, Some(path)).value + [Word(path)])
  {
    var exec, value := [Word("exec")], Some(path);
    var rest := program + " \"$1\"";
    TextOf(Plain("exec"), []);
    assert [Plain("exec")] + [] == [Plain("exec")] && Text([Plain("exec")]) == "exec ";
    assert Script(program) == Text([Plain("exec")]) + rest;
    PartsStayApart([], [Plain("exec")], rest, value);
    assert [] + PartTokens([Plain("exec")]) == exec;
    assert rest == program + (" " + "\"$1\"");
    RunInTurn(Lexer(exec, Bare(None)), program, " " + "\"$1\"", value);
    EarlierTokensStay(exec, Lexer([], Bare(None)), program, value);
    assert exec + [] == exec;
    var alone := Run(Lexer([], Bare(None)), program, value);
    var mid := Lexer(exec + alone.tokens, alone.mode);
    assert Run(Lexer(exec, Bare(None)), program, value) == mid;
    FinishKeepsEarlier(exec, alone);
    RunInTurn(mid, " ", "\"$1\"", value);
    SpaceFinishes(mid, value);
    ParameterRuns(Finish(mid).value, path);
  }

  function CdParts(directory: string): seq<Part> {
    [Plain("cd"), Quoted(directory), And]
  }

  lemma CdText(directory: string)
    ensures Text(CdParts(directory)) == "cd " + ShellQuote(directory) + " && "
  {
    var q := ShellQuote(directory);
    TextOf(And, []);
    TextOf(Quoted(directory), [And]);
    TextOf(Plain("cd"), [Quoted(directory), And]);
    assert [And] + [] == [And] && [Quoted(directory)] + [And] == [Quoted(directory), And];
    assert [Plain("cd")] + [Quoted(directory), And] == CdParts(directory);
    assert Text([And]) == "&& " && "cd" + " " == "cd ";
    CdStrings(q);
  }

  lemma CdStrings(q: string)
    ensures "cd " + ((q + " ") + "&& ") == "cd " + q + " && "
  {
    Associative(q, " ", "&& ");
    assert " " + "&& " == " && ";
    Associative("cd ", q, " && ");
  }

  /** From the outer command to the program: the path reaches it as one argument through both shells. */
  lemma PrivilegedCommandReachesTheProgram(program: string, path: string, password: bool)
    requires '\'' !in program && Tokens(program, Some(path)).Some?
    ensures Tokens(PrivilegedCommand(program, path, password), None)
         == Some(CommandTokens(Script(program), password) + [Word(path)])
    ensures Tokens(Script(program), Some(path))
         == Some([Word("exec")] + Tokens(program, Some(path)).value + [Word(path)])
  {
    PrivilegedCommandIsScript(program, path, password);
    PrivilegedShellCommandTokens(Script(program), path, password);
    ScriptRunsTheProgramOnThePath(program, path);
  }

  /** Changing directory first leaves the command to be read exactly as it would be on its own. */
  lemma WrappedCommandIsReadAsIs(command: string, directory: string)
    ensures ReadOn([], WrapRemoteCommand(command, Some(directory)), None)
         == ReadOn([Word("cd"), Word(directory), Operator("&&")], command, None)
  {
    var parts := CdParts(directory);
    CdText(directory);
    assert "cd " + ShellQuote(directory) + " && " + command == ("cd " + ShellQuote(directory) + " && ") + command;
    PartsStayApart([], parts, command, None);
    assert [] + PartTokens(parts) == [Word("cd"), Word(directory), Operator("&&")];
  }
}
