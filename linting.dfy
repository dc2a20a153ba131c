// The two entry points of the library: `JsonLinter::parse` and
// `JsonParser::parse`/`lint`. Both run the same LR machine (module Driver)
// and differ in what they check before it starts and in how they report the
// state and lookahead it stops at.

module Linting {
  import opened Wrappers
  import opened Grammar
  import opened Values
  import opened Errors
  import Actions
  import Scanner
  import Driver

  /** What `JsonLinter::parse` is handed: a string, or a PHP value of another type (named as `gettype` names it). */
  datatype Input = Text(s: string) | NonString(typeName: string)

  /** The `token` of a report: the terminal's name, or the symbol itself when `terminals` has no name for it. */
  datatype TokenField = Named(name: string) | Unnamed(symbol: Scanner.Tok)

  /** `!empty($this->terminals[$symbol]) ? $this->terminals[$symbol] : $symbol`. */
  function TokenOf(symbol: Scanner.Tok): (f: TokenField)
    ensures f.Named? <==> symbol.Sym? && symbol.id in Terminals
    ensures f.Named? ==> f.name == Terminals[symbol.id] && f.name != ""
    ensures f.Unnamed? ==> f.symbol == symbol
  {
    if symbol.Sym? && IsTerminal(symbol.id) then
      TerminalKeys(symbol.id);
      Named(Terminals[symbol.id])
    else
      assert symbol.Sym? ==> symbol.id !in Terminals by {
        if symbol.Sym? { TerminalKeys(symbol.id); }
      }
      Unnamed(symbol)
  }

  // ---------------------------------------------------------------------
  // Which kind of error a stuck parse is (`JsonLinter.php:212-249`,
  // `JsonParser.php:204-227`)

  /** The string-shaped branch is taken: STRING is expected and the text at the error starts with a quote. */
  predicate StringShaped(expected: seq<string>, lead: string) {
    "STRING" in expected && |lead| > 0 && (lead[0] == '"' || lead[0] == '\'')
  }

  /**
   * The kind of a syntax error, from the expected terminal names, the text
   * whose first character is tested, and the upcoming input the two
   * regular expressions are run on. The single-quote test comes first, then
   * the unescaped backslash, then the unterminated string.
   */
  function Classify(expected: seq<string>, lead: string, upcoming: string): (k: ErrorKind)
    ensures k == ExpectedInputToBeSomethingElse <==> !StringShaped(expected, lead)
    ensures k == UsedSingleQuotes <==> StringShaped(expected, lead) && lead[0] == '\''
    ensures k == UnescapedBackslash <==>
              StringShaped(expected, lead) && lead[0] == '"' && exists i, j :: BackslashMatch(upcoming, i, j)
    ensures k == NotTerminatedOrMultiLine <==>
              && StringShaped(expected, lead) && lead[0] == '"'
              && !(exists i, j :: BackslashMatch(upcoming, i, j))
              && exists i, e :: UnterminatedMatch(upcoming, i, e)
    ensures k == InvalidString <==>
              && StringShaped(expected, lead) && lead[0] == '"'
              && !(exists i, j :: BackslashMatch(upcoming, i, j))
              && !(exists i, e :: UnterminatedMatch(upcoming, i, e))
  {
    UnescapedBackslashIff(upcoming);
    UnterminatedIff(upcoming);
    if !StringShaped(expected, lead) then ExpectedInputToBeSomethingElse
    else if lead[0] == '\'' then UsedSingleQuotes
    else if HasUnescapedBackslash(upcoming) then UnescapedBackslash
    else if HasUnterminatedString(upcoming) then NotTerminatedOrMultiLine
    else InvalidString
  }

  /** `JsonParser` lists the expected names between single quotes. */
  function Quoted(names: seq<string>): (q: seq<string>)
    ensures |q| == |names|
    ensures forall i :: 0 <= i < |names| ==> q[i] == "'" + names[i] + "'"
  {
    if names == [] then [] else ["'" + names[0] + "'"] + Quoted(names[1..])
  }

  /** `"'" + n + "'"` spells `'STRING'` exactly when n is `STRING`. */
  lemma QuoteIsString(n: string)
    ensures "'" + n + "'" == "'STRING'" <==> n == "STRING"
  {
    if "'" + n + "'" == "'STRING'" {
      assert n == ("'" + n + "'")[1..|n| + 1];
    }
  }

  /**
   * `JsonParser` tests for `'STRING'` in its quoted list where `JsonLinter`
   * tests for `STRING` in the plain one: the two tests agree, so both
   * classify with Classify.
   */
  lemma QuotedStringTest(names: seq<string>)
    ensures "'STRING'" in Quoted(names) <==> "STRING" in names
  {
    var q := Quoted(names);
    if "'STRING'" in q {
      var i :| 0 <= i < |q| && q[i] == "'STRING'";
      QuoteIsString(names[i]);
    }
    if "STRING" in names {
      var i :| 0 <= i < |names| && names[i] == "STRING";
      QuoteIsString(names[i]);
      assert q[i] == "'STRING'";
    }
  }

  // ---------------------------------------------------------------------
  // The reported line (`JsonLinter.php:257-269`)

  /**
   * `JsonLinter`'s line: one past the scanner's line, except after a
   * trailing comma in a multi-line input, where the error belongs to the
   * line above and the scanner's own line is reported.
   */
  function LinterLine(yLineNo: nat, trailingComma: bool, multiLine: bool): (line: nat)
    ensures line == yLineNo <==> trailingComma && multiLine
    ensures line == yLineNo + 1 <==> !(trailingComma && multiLine)
  {
    if trailingComma && multiLine then yLineNo else yLineNo + 1
  }

  // ---------------------------------------------------------------------
  // Reports

  /** What `JsonLinter::parse` throws (or `lint` returns): its code's kind and the fields it sets. */
  datatype LintError =
    | NotAStringError(typeName: string, lineNo: nat)
    | BomError
    | SyntaxError(kind: ErrorKind, lineNo: nat, matchText: string, token: TokenField,
                  expected: seq<string>, trailingComma: bool)
    | DuplicateKeyError(key: string, lineNo: nat)

  /**
   * The exception `JsonLinter::parse` throws at a stuck state, given the
   * scanner's state there and whether the whole input spans several lines.
   */
  function LinterReport(state: int, symbol: Scanner.Tok, st: Scanner.ScanState, multiLine: bool): (e: LintError)
    ensures e.SyntaxError?
    ensures e.kind == Classify(Expected(state), st.yText, Scanner.UpcomingInput(st))
    ensures e.trailingComma == EndsWithComma(Scanner.PastInput(st))
    ensures e.lineNo == (if e.trailingComma && multiLine then st.yLineNo else st.yLineNo + 1)
    ensures e.matchText == st.matchText && e.token == TokenOf(symbol) && e.expected == Expected(state)
  {
    var past := Scanner.PastInput(st);
    var comma := EndsWithComma(past);
    SyntaxError(Classify(Expected(state), st.yText, Scanner.UpcomingInput(st)),
                LinterLine(st.yLineNo, comma, multiLine), st.matchText, TokenOf(symbol), Expected(state), comma)
  }

  /** What `JsonParser::parse` throws (and `lint` returns when it is a parsing exception). */
  datatype ParserError =
    | BomDetected
    | ParseFailure(kind: ErrorKind, messageLine: nat, position: string, trailingComma: bool,
                   text: string, token: TokenField, line: nat, loc: Scanner.Location, expected: seq<string>)
    | ParserDuplicateKey(key: string, line: nat)

  /**
   * The exception `JsonParser::parse` throws at a stuck state: the message
   * names the parser's own line (`$yLineNo + 1`), whatever the trailing
   * comma; the hash carries the scanner's line unchanged, the parser's
   * location and the quoted expected names.
   */
  function ParserReport(state: int, symbol: Scanner.Tok, st: Scanner.ScanState, yLineNo: nat,
                        yLocation: Scanner.Location): (e: ParserError)
    ensures e.ParseFailure?
    ensures e.kind == Classify(Expected(state), st.matchText, Scanner.UpcomingInput(st))
    ensures e.trailingComma == EndsWithComma(Scanner.PastInput(st))
    ensures e.messageLine == yLineNo + 1 && e.line == st.yLineNo && e.loc == yLocation
    ensures e.position == Scanner.ShowPosition(st) && e.text == st.matchText && e.token == TokenOf(symbol)
    ensures e.expected == Quoted(Expected(state))
  {
    var past := Scanner.PastInput(st);
    ParseFailure(Classify(Expected(state), st.matchText, Scanner.UpcomingInput(st)), yLineNo + 1,
                 Scanner.ShowPosition(st), EndsWithComma(past), st.matchText, TokenOf(symbol), st.yLineNo,
                 yLocation, Quoted(Expected(state)))
  }

  // ---------------------------------------------------------------------
  // Entry points

  /**
   * `JsonLinter::parse` (`JsonLinter.php:155-401`): a non-string is refused
   * on line 1, then a leading byte-order mark; otherwise the machine runs
   * to a stop, and the stop is the root value, a syntax error report or a
   * duplicate key. `stop` and `scanned` expose the machine's stop and the
   * scanner's state at it.
   */
  method LinterParse(input: Input, flags: nat) returns (r: Result<Value, LintError>, ghost stop: Driver.Stop,
                                                         ghost scanned: Scanner.ScanState)
    ensures input.NonString? ==> r == Failure(NotAStringError(input.typeName, 1))
    ensures input.Text? && HasBom(input.s) ==> r == Failure(BomError)
    ensures r.Failure? && r.error.NotAStringError? ==> input.NonString?
    ensures r.Failure? && r.error.BomError? ==> input.Text? && HasBom(input.s)
    ensures r.Success? ==> && input.Text? && !HasBom(input.s) && stop == Driver.Accepted(r.value)
                           && WellFormed(r.value, Actions.IsAssoc(flags))
                           && scanned.done && scanned.matched == input.s
    ensures r.Failure? && r.error.SyntaxError? ==>
              && input.Text? && stop.Stuck? && Scanner.Consistent(scanned, input.s)
              && r.error == LinterReport(stop.state, stop.symbol, scanned, IsMultiLine(input.s))
    ensures r.Failure? && r.error.DuplicateKeyError? ==>
              && input.Text? && HasFlag(flags, DETECT_KEY_CONFLICTS)
              && stop.Conflict? && r.error == DuplicateKeyError(stop.key, stop.line)
  {
    stop, scanned := Driver.Accepted(Null), Scanner.Initial("");
    if input.NonString? {
      return Failure(NotAStringError(input.typeName, 1)), stop, scanned;
    }
    if HasBom(input.s) {
      return Failure(BomError), stop, scanned;
    }
    var m := new Driver.Machine(Driver.Linter, input.s, flags);
    var halt := m.Run();
    stop, scanned := halt, m.lexer.State();
    match halt
    case Accepted(root) => r := Success(root);
    case Stuck(state, symbol, _, _) =>
      r := Failure(LinterReport(state, symbol, m.lexer.State(), IsMultiLine(input.s)));
    case Conflict(key, line, _) => r := Failure(DuplicateKeyError(key, line));
  }

  /**
   * `JsonParser::parse` (`JsonParser.php:154-371`): a leading byte-order
   * mark is refused; otherwise the machine runs to a stop as for the
   * linter, and a stuck parse is reported with the parser's line in the
   * message.
   */
  method ParserParse(text: string, flags: nat) returns (r: Result<Value, ParserError>, ghost stop: Driver.Stop,
                                                         ghost scanned: Scanner.ScanState)
    ensures HasBom(text) ==> r == Failure(BomDetected)
    ensures r.Failure? && r.error.BomDetected? ==> HasBom(text)
    ensures r.Success? ==> && !HasBom(text) && stop == Driver.Accepted(r.value)
                           && WellFormed(r.value, Actions.IsAssoc(flags))
                           && scanned.done && scanned.matched == text
    ensures r.Failure? && r.error.ParseFailure? ==>
              && stop.Stuck? && Scanner.Consistent(scanned, text)
              && r.error == ParserReport(stop.state, stop.symbol, scanned, stop.yLineNo, stop.yLocation)
    ensures r.Failure? && r.error.ParserDuplicateKey? ==>
              && HasFlag(flags, DETECT_KEY_CONFLICTS)
              && stop.Conflict? && r.error == ParserDuplicateKey(stop.key, stop.line)
  {
    stop, scanned := Driver.Accepted(Null), Scanner.Initial("");
    if HasBom(text) {
      return Failure(BomDetected), stop, scanned;
    }
    var m := new Driver.Machine(Driver.Parser, text, flags);
    var halt := m.Run();
    stop, scanned := halt, m.lexer.State();
    match halt
    case Accepted(root) => r := Success(root);
    case Stuck(state, symbol, yLineNo, yLocation) =>
      r := Failure(ParserReport(state, symbol, m.lexer.State(), yLineNo, yLocation));
    case Conflict(key, line, _) => r := Failure(ParserDuplicateKey(key, line));
  }

  /**
   * `JsonParser::lint` (`JsonParser.php:133-144`): `parse` with no flags,
   * returning nothing when it succeeds and its exception otherwise. With no
   * flags the duplicate-key check is off, so the exception is the
   * byte-order mark or the report of a stuck parse. `stop` and `scanned`
   * are those of the `parse` call.
   */
  method ParserLint(text: string) returns (r: Option<ParserError>, ghost stop: Driver.Stop,
                                           ghost scanned: Scanner.ScanState)
    ensures HasBom(text) ==> r == Some(BomDetected)
    ensures r.None? <==> !HasBom(text) && stop.Accepted?
    ensures r.Some? && !HasBom(text) ==>
              && stop.Stuck? && Scanner.Consistent(scanned, text)
              && r.value == ParserReport(stop.state, stop.symbol, scanned, stop.yLineNo, stop.yLocation)
  {
    var res: Result<Value, ParserError>;
    res, stop, scanned := ParserParse(text, 0);
    assert !HasFlag(0, DETECT_KEY_CONFLICTS);
    r := if res.Success? then None else Some(res.error);
  }

  // ---------------------------------------------------------------------
  // The two reports side by side

  /** The first characters the two classes test are the same (`yText` for the linter, `match` for the parser). */
  predicate SameLead(st: Scanner.ScanState) {
    (|st.yText| > 0 <==> |st.matchText| > 0) && (|st.yText| > 0 ==> st.yText[0] == st.matchText[0])
  }

  /**
   * Where the scanner's `yText` and `match` start alike, the linter and the
   * parser classify a stuck parse the same way and agree on the trailing
   * comma; without a trailing comma the linter's line is one past the line
   * the parser's hash carries.
   */
  lemma ReportsAgree(state: int, symbol: Scanner.Tok, st: Scanner.ScanState, multiLine: bool, yLineNo: nat,
                     yLocation: Scanner.Location)
    requires SameLead(st)
    ensures var l := LinterReport(state, symbol, st, multiLine);
            var p := ParserReport(state, symbol, st, yLineNo, yLocation);
            && l.kind == p.kind && l.trailingComma == p.trailingComma
            && (!l.trailingComma ==> l.lineNo == p.line + 1)
  {
    var l := LinterReport(state, symbol, st, multiLine);
    var p := ParserReport(state, symbol, st, yLineNo, yLocation);
    var names := Expected(state);
    if StringShaped(names, st.yText) {
      assert StringShaped(names, st.matchText);
    } else {
      assert !StringShaped(names, st.matchText);
    }
  }

  // ---------------------------------------------------------------------
  // Cases from the library's own test suite

  /** `"foo": "bar\z",` on the second line of an object: the escape `\z` is an unescaped backslash. */
  lemma BackslashCase(expected: seq<string>)
    requires "STRING" in expected
    ensures Classify(expected, "\"", "\"bar\\z\",\n}") == UnescapedBackslash
  {
    var u := "\"bar\\z\",\n}";
    assert BadEscapeAt(u, 4);
    assert NoNewline(u, 1, 4);
    assert BackslashMatch(u, 0, 4);
  }

  /** `{"bar": "foo}`: a string that never closes. */
  lemma UnterminatedCase(expected: seq<string>)
    requires "STRING" in expected
    ensures Classify(expected, "\"", "\"foo}") == NotTerminatedOrMultiLine
  {
    var u := "\"foo}";
    forall i, j
      ensures !BackslashMatch(u, i, j)
    {
      if 0 <= j < |u| {
        assert u[j] != '\\';
      }
    }
    assert UnterminatedMatch(u, 0, 5);
  }

  /** A string broken over two lines: the regular expression stops at the line end. */
  lemma MultiLineStringCase(expected: seq<string>)
    requires "STRING" in expected
    ensures Classify(expected, "\"", "\"foo\nbar\"}") == NotTerminatedOrMultiLine
  {
    var u := "\"foo\nbar\"}";
    forall i, j
      ensures !BackslashMatch(u, i, j)
    {
      if 0 <= j < |u| {
        assert u[j] != '\\';
      }
    }
    assert UnterminatedMatch(u, 0, 4);
  }

  /** `{"foo":"bar",}` reports a trailing comma on line 1: the input is on one line. */
  lemma SingleLineCommaCase()
    ensures EndsWithComma(FlatPast) && LinterLine(0, true, IsMultiLine(FlatObject)) == 1
  {
    FlatObjectCase();
  }

  /**
   * The same object over three lines reports line 2, the line of the comma:
   * at the closing brace the scanner stands on line 2 counted from 0, and a
   * multi-line input keeps that number.
   */
  lemma MultiLineCommaCase()
    ensures EndsWithComma(TallPast) && LinterLine(2, true, IsMultiLine(TallObject)) == 2
  {
    TallObjectCase();
  }

  /**
   * The document `0` under the scanner as written (see
   * `Scanner.ZeroEndsWithoutEof`): NUMBER is shifted into state 13, and the
   * scanner then answers `$end`, for which state 13 has neither an entry nor
   * a default action. The parse stops there, and since the text `0` is not
   * string-shaped it is reported as "expected input to be something else".
   */
  lemma ZeroStuckAsWritten(upcoming: string)
    ensures Lookup(0, NUMBER) == Some(Shift(13))
    ensures Lookup(13, END).None? && DefaultAction(13).None?
    ensures Classify(Expected(13), "0", upcoming) == ExpectedInputToBeSomethingElse
  {
    EndOfInputCells(13);
  }
}
