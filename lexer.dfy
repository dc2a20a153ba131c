/**
 * The scanner of `Lexer.php`: a cursor over the input text that applies the
 * first matching rule of `Rules`, records the match, tracks the line and the
 * first/last line/column span, and hands one token id to the parser.
 *
 * `ScanState` is the value of the scanner's fields; `Step` is one call of
 * `next()` as a function of it, and the class `Lexer` runs the same
 * operation in place.
 */
module Scanner {
  import opened Wrappers
  import opened Rules
  import Grammar

  /** `$EOF` of `Lexer.php`: what `next()` answers once the input is exhausted (the grammar's `$end`). */
  const EOF_ID := 1

  /** `yLocation`: the span of the last match. */
  datatype Location = Location(firstLine: nat, lastLine: nat, firstColumn: nat, lastColumn: nat)

  const StartLocation := Location(1, 1, 0, 0)

  /** A token: a terminal id, or the string `'INVALID'` of the catch-all rule. */
  datatype Tok = Sym(id: nat) | Invalid

  /** What `next()` returns: a token, or the `Undefined` marker of a skipped match. */
  datatype Outcome = Token(tok: Tok) | Skip

  /** The scanner's fields (`matchText` is the field `match`; `more` is never set and the condition stack never leaves `INITIAL`). */
  datatype ScanState = ScanState(
    input: string,
    matched: string,
    matchText: string,
    yText: string,
    yLength: nat,
    yLineNo: nat,
    yLocation: Location,
    done: bool)

  /** The state `setInput` leaves behind. */
  function Initial(text: string): ScanState {
    ScanState(text, "", "", "", 0, 0, StartLocation, false)
  }

  // ---------------------------------------------------------------------
  // performAction: the token of each rule

  /** The token each rule yields; None is the `null` of the whitespace rule, which makes `next()` skip. */
  function RuleToken(rule: nat): (t: Option<Tok>)
    requires rule < RuleCount
    ensures t.None? <==> rule == WHITESPACE_RULE
    ensures t == Some(Invalid) <==> rule == ANY_RULE
    ensures t.Some? && t.value.Sym? ==> Grammar.IsTerminal(t.value.id) && t.value.id > Grammar.ERROR
    ensures t == Some(Sym(Grammar.EOF)) <==> rule == END_RULE
    ensures t == Some(Sym(Grammar.STRING)) <==> rule == STRING_RULE
  {
    match rule
    case 0 => None
    case 1 => Some(Sym(Grammar.NUMBER))
    case 2 => Some(Sym(Grammar.STRING))
    case 3 => Some(Sym(Grammar.LBRACE))
    case 4 => Some(Sym(Grammar.RBRACE))
    case 5 => Some(Sym(Grammar.LBRACKET))
    case 6 => Some(Sym(Grammar.RBRACKET))
    case 7 => Some(Sym(Grammar.COMMA))
    case 8 => Some(Sym(Grammar.COLON))
    case 9 => Some(Sym(Grammar.TRUE))
    case 10 => Some(Sym(Grammar.FALSE))
    case 11 => Some(Sym(Grammar.NULL))
    case 12 => Some(Sym(Grammar.EOF))
    case 13 => Some(Invalid)
  }

  /** Distinct token-yielding rules yield distinct tokens, so the parser can tell every rule apart. */
  lemma RuleTokenInjective(a: nat, b: nat)
    requires a < RuleCount && b < RuleCount && RuleToken(a).Some?
    ensures RuleToken(a) == RuleToken(b) ==> a == b
  {
  }

  /** The grammar's name for the token of a punctuator rule is the very character the rule matches. */
  lemma PunctuatorTokenNames(rule: nat, s: string)
    requires 3 <= rule <= 8 && RuleMatch(rule, s).Some?
    ensures Grammar.Terminals[RuleToken(rule).value.id] == [s[0]]
  {
  }

  // ---------------------------------------------------------------------
  // Position tracking

  /** How many `\n` the text holds: the number of `\n.*` matches. */
  function CountNewlines(m: string): (n: nat)
    ensures n <= |m|
    ensures n == 0 <==> '\n' !in m
  {
    if m == [] then 0
    else CountNewlines(m[..|m| - 1]) + (if m[|m| - 1] == '\n' then 1 else 0)
  }

  /** The count is the number of line feeds the match holds. */
  lemma {:induction false} CountNewlinesIsCount(m: string)
    ensures CountNewlines(m) == multiset(m)['\n']
  {
    if m != [] {
      assert m == m[..|m| - 1] + [m[|m| - 1]];
      CountNewlinesIsCount(m[..|m| - 1]);
    }
  }

  /** The length of the text after its last `\n`: the length of the last `\n.*` match minus one. */
  function ColumnAfterLastNewline(m: string): (c: nat)
    requires '\n' in m
    ensures c < |m| && m[|m| - c - 1] == '\n'
    ensures forall k :: |m| - c <= k < |m| ==> m[k] != '\n'
  {
    if m[|m| - 1] == '\n' then 0 else 1 + ColumnAfterLastNewline(m[..|m| - 1])
  }

  /** The span of a match m that follows the span `prev`, once the line counter stands at `lineNo`. */
  function NextLocation(prev: Location, lineNo: nat, m: string): Location {
    Location(prev.lastLine, lineNo + 1, prev.lastColumn,
             if CountNewlines(m) > 0 then ColumnAfterLastNewline(m) else prev.lastColumn + |m|)
  }

  /** `substr($yText, 1, $yLength - 2)`: the text without its first and last character. */
  function Unquote(t: string): (u: string)
    ensures |t| >= 2 ==> |u| == |t| - 2 && forall k :: 0 <= k < |u| ==> u[k] == t[k + 1]
  {
    if |t| >= 2 then t[1..|t| - 1] else ""
  }

  /** The field updates once a rule has matched the prefix m of the remaining input. */
  function AfterMatch(st: ScanState, m: string): ScanState
    requires |m| <= |st.input|
  {
    var lineNo := st.yLineNo + CountNewlines(m);
    var yText := st.yText + m;
    ScanState(
      st.input[|m|..],
      st.matched + m,
      st.matchText + m,
      yText,
      |yText|,
      lineNo,
      NextLocation(st.yLocation, lineNo, m),
      st.done)
  }

  /** `performAction`'s one change of state: the string rule strips the quotes from `yText`. */
  function ActionEffect(st: ScanState, rule: nat): ScanState {
    if rule == STRING_RULE then st.(yText := Unquote(st.yText)) else st
  }

  /**
   * One call of `next()`, where `exhausted` is the test at the head of the
   * call that sets `done`.
   */
  function StepWith(st: ScanState, exhausted: bool): (ScanState, Outcome) {
    if st.done then (st, Token(Sym(EOF_ID)))
    else
      var (rule, n) := FirstRule(st.input);
      var st1 := AfterMatch(st.(done := exhausted, yText := "", matchText := ""), st.input[..n]);
      (ActionEffect(st1, rule), match RuleToken(rule) case None => Skip case Some(t) => Token(t))
  }

  /** The step that applies rule `rule` with match length n. */
  lemma StepApplies(st: ScanState, rule: nat, n: nat)
    requires !st.done && FirstRule(st.input) == (rule, n)
    ensures Step(st).0 == ActionEffect(AfterMatch(st.(done := st.input == "", yText := "", matchText := ""), st.input[..n]), rule)
    ensures Step(st).1 == match RuleToken(rule) case None => Skip case Some(t) => Token(t)
  {
  }

  /** PHP's truth test on a string: "" and "0" are false. */
  predicate IsFalsy(s: string) {
    s == "" || s == "0"
  }

  /** `next()` as written: `done` is set when the remaining input is PHP-falsy. */
  function StepAsWritten(st: ScanState): (ScanState, Outcome) {
    StepWith(st, IsFalsy(st.input))
  }

  /** `next()` as intended: `done` is set when the remaining input is empty. */
  function Step(st: ScanState): (ScanState, Outcome) {
    StepWith(st, st.input == "")
  }

  // ---------------------------------------------------------------------
  // What one step keeps

  /** The scanner invariant: the consumed text and the rest make up the input, and the match ends the consumed text. */
  predicate Consistent(st: ScanState, text: string) {
    st.matched + st.input == text
    && |st.matchText| <= |st.matched| && st.matched[|st.matched| - |st.matchText|..] == st.matchText
    && (st.done ==> st.input == "")
  }

  /** A scanner that is done has consumed the whole text. */
  lemma DoneConsumed(st: ScanState, text: string)
    requires Consistent(st, text) && st.done
    ensures st.matched == text
  {
    assert st.matched + st.input == st.matched;
  }

  lemma InitialConsistent(text: string)
    ensures Consistent(Initial(text), text)
  {
  }

  /**
   * A step consumes exactly its match: the match is a prefix of the old
   * remaining input, `matched ++ input` is still the input, the line count
   * grows by the number of line feeds in the match, and the new span starts
   * where the old one ended.
   */
  lemma StepAccounts(st: ScanState, text: string)
    requires Consistent(st, text) && !st.done
    ensures var (st1, _) := Step(st);
            && Consistent(st1, text)
            && st1.input == st.input[|st1.matchText|..]
            && st1.matchText == st.input[..|st1.matchText|]
            && st1.yLineNo == st.yLineNo + CountNewlines(st1.matchText)
            && st1.yLocation.firstLine == st.yLocation.lastLine
            && st1.yLocation.firstColumn == st.yLocation.lastColumn
            && st1.yLocation.lastLine == st1.yLineNo + 1
  {
    var (rule, n) := FirstRule(st.input);
    FirstRuleFacts(st.input);
    var m := st.input[..n];
    var st1 := Step(st).0;
    assert st1 == ActionEffect(AfterMatch(st.(done := st.input == "", yText := "", matchText := ""), m), rule);
    assert st1.matchText == m && st1.input == st.input[n..] && st1.matched == st.matched + m;
    ConsumePrefix(st.matched, st.input, n);
  }

  /** Moving the first n characters of the rest onto the consumed text keeps their concatenation. */
  lemma ConsumePrefix(matched: string, input: string, n: nat)
    requires n <= |input|
    ensures (matched + input[..n]) + input[n..] == matched + input
    ensures (matched + input[..n])[|matched + input[..n]| - n..] == input[..n]
  {
    assert input[..n] + input[n..] == input;
  }

  /**
   * The last column of a span is the length after the match's last line
   * feed, or the previous last column plus the match length when the match
   * has none.
   */
  lemma NextColumns(prev: Location, lineNo: nat, m: string)
    ensures '\n' !in m ==> NextLocation(prev, lineNo, m).lastColumn == prev.lastColumn + |m|
    ensures '\n' in m ==>
              && m[|m| - NextLocation(prev, lineNo, m).lastColumn - 1] == '\n'
              && forall k :: |m| - NextLocation(prev, lineNo, m).lastColumn <= k < |m| ==> m[k] != '\n'
  {
  }

  /** A step's span follows the previous span over the match, on the updated line. */
  lemma StepColumns(st: ScanState)
    requires !st.done
    ensures Step(st).0.yLocation == NextLocation(st.yLocation, Step(st).0.yLineNo, Step(st).0.matchText)
  {
    var (rule, n) := FirstRule(st.input);
    var m := st.input[..n];
    var st1 := Step(st).0;
    assert st1 == ActionEffect(AfterMatch(st.(done := st.input == "", yText := "", matchText := ""), m), rule);
    assert st1.matchText == m && st1.yLineNo == st.yLineNo + CountNewlines(m);
  }

  /**
   * A STRING token carries the RFC 8259 string it matched, and its text is
   * that match without the two quotation marks.
   */
  lemma StringTokenText(st: ScanState)
    requires !st.done && Step(st).1 == Token(Sym(Grammar.STRING))
    ensures var m := Step(st).0.matchText;
            && 2 <= |m| && m[0] == '"' && m[|m| - 1] == '"' && IsStringBody(m[1..|m| - 1])
            && Step(st).0.yText == m[1..|m| - 1]
  {
    var (rule, n) := FirstRule(st.input);
    FirstRuleFacts(st.input);
    var m := st.input[..n];
    var st1 := Step(st).0;
    assert st1 == ActionEffect(AfterMatch(st.(done := st.input == "", yText := "", matchText := ""), m), rule);
    assert st1.matchText == m && st1.yText == Unquote(m);
    StringMatchIff(st.input, n);
    SliceOfPrefix(st.input, n, 1, n - 1);
  }

  /** A slice of a prefix is the same slice of the whole text. */
  lemma SliceOfPrefix(s: string, n: nat, i: nat, j: nat)
    requires i <= j <= n <= |s|
    ensures s[..n][i..j] == s[i..j]
  {
  }

  /** Once `done` is set, `next()` answers `$end` without touching anything. */
  lemma DoneIsFinal(st: ScanState)
    requires st.done
    ensures Step(st) == (st, Token(Sym(EOF_ID)))
    ensures StepAsWritten(st) == (st, Token(Sym(EOF_ID)))
  {
  }

  /**
   * The intended token stream ends in `EOF` then `$end`: a scanner that is
   * not done never answers `$end`, and it becomes done only in the step
   * that answers `EOF`, with the input used up.
   */
  lemma EofBeforeEnd(st: ScanState)
    requires !st.done
    ensures Step(st).1 != Token(Sym(EOF_ID))
    ensures Step(st).0.done <==> Step(st).1 == Token(Sym(Grammar.EOF))
    ensures Step(st).0.done ==> Step(st).0.input == ""
  {
    FirstRuleFacts(st.input);
  }

  /**
   * As written, the remaining input "0" counts as exhausted: the scanner
   * becomes done while it still answers NUMBER, and its next answer is
   * `$end`, so no `EOF` token ever follows a final digit 0.
   */
  lemma ZeroEndsWithoutEof()
    ensures var (st1, t1) := StepAsWritten(Initial("0"));
            var (st2, t2) := StepAsWritten(st1);
            && t1 == Token(Sym(Grammar.NUMBER)) && st1.done && st1.input == ""
            && t2 == Token(Sym(EOF_ID))
  {
    var s := "0";
    assert MatchWhitespace(s).None?;
    assert DigitsFrom(s, 1) == 0;
    assert MatchNumber(s) == Some(1);
    FirstRuleIs(s, NUMBER_RULE, 1);
  }

  /** The intended scanner answers NUMBER, then `EOF`, then `$end` for the same text. */
  lemma ZeroEndsWithEof()
    ensures var (st1, t1) := Step(Initial("0"));
            var (st2, t2) := Step(st1);
            var (st3, t3) := Step(st2);
            t1 == Token(Sym(Grammar.NUMBER)) && t2 == Token(Sym(Grammar.EOF)) && t3 == Token(Sym(EOF_ID))
  {
    var s := "0";
    assert MatchWhitespace(s).None?;
    assert DigitsFrom(s, 1) == 0;
    assert MatchNumber(s) == Some(1);
    FirstRuleIs(s, NUMBER_RULE, 1);
    FirstRuleFacts("");
  }

  // ---------------------------------------------------------------------
  // lex(): repeat next() until it yields a token

  /** A measure that every skipped match decreases. */
  function Budget(st: ScanState): nat {
    if st.done then 0 else |st.input| + 1
  }

  /** Every step of a running scanner makes progress: it consumes a non-empty match, or it reaches the end. */
  lemma StepShrinks(st: ScanState)
    requires !st.done
    ensures Budget(Step(st).0) < Budget(st)
  {
    FirstRuleFacts(st.input);
  }

  /** `lex()`: the first token `next()` yields, and the state after it. */
  function LexFrom(st: ScanState): (r: (ScanState, Tok))
    decreases Budget(st)
  {
    var (st1, o) := Step(st);
    match o
    case Token(t) => (st1, t)
    case Skip => StepShrinks(st); LexFrom(st1)
  }

  /** `lex()` keeps the scanner invariant and never answers `$end` before it has answered `EOF`. */
  lemma {:induction false} LexAccounts(st: ScanState, text: string)
    requires Consistent(st, text)
    ensures Consistent(LexFrom(st).0, text)
    ensures !st.done ==> LexFrom(st).1 != Sym(EOF_ID)
    ensures LexFrom(st).0.done <==> st.done || LexFrom(st).1 == Sym(Grammar.EOF)
    decreases Budget(st)
  {
    if st.done {
      DoneIsFinal(st);
    } else {
      StepAccounts(st, text);
      EofBeforeEnd(st);
      if Step(st).1 == Skip {
        StepShrinks(st);
        LexAccounts(Step(st).0, text);
      }
    }
  }

  /** The span ends on line `yylineno + 1`, as every match sets it. */
  predicate LineAligned(st: ScanState) {
    st.yLocation.lastLine == st.yLineNo + 1
  }

  /** `lex()` keeps the span's last line one past the line counter. */
  lemma {:induction false} LexAligned(st: ScanState)
    requires LineAligned(st)
    ensures LineAligned(LexFrom(st).0)
    decreases Budget(st)
  {
    if !st.done && Step(st).1 == Skip {
      StepShrinks(st);
      LexAligned(Step(st).0);
    }
  }

  /** `lex()` on a running scanner makes progress, so the parser's loop over tokens terminates. */
  lemma {:induction false} LexShrinks(st: ScanState)
    requires !st.done
    ensures Budget(LexFrom(st).0) < Budget(st)
    decreases Budget(st)
  {
    StepShrinks(st);
    var st1 := Step(st).0;
    if Step(st).1 == Skip && !st1.done {
      LexShrinks(st1);
    }
  }

  /** A scanner that is not done answers only terminal ids above `error`, or `'INVALID'`. */
  lemma StepTokens(st: ScanState)
    requires !st.done
    ensures Step(st).1.Token? && Step(st).1.tok.Sym? ==>
              Grammar.IsTerminal(Step(st).1.tok.id) && Step(st).1.tok.id > Grammar.ERROR
  {
    FirstRuleFacts(st.input);
  }

  /** `lex()` answers a terminal id above `error`, `'INVALID'`, or `$end` once the scanner is done. */
  lemma {:induction false} LexTokens(st: ScanState)
    ensures st.done ==> LexFrom(st) == (st, Sym(EOF_ID))
    ensures LexFrom(st).1.Sym? ==>
              (Grammar.IsTerminal(LexFrom(st).1.id) && LexFrom(st).1.id > Grammar.ERROR) || LexFrom(st).1.id == EOF_ID
    decreases Budget(st)
  {
    if st.done {
      DoneIsFinal(st);
    } else {
      StepTokens(st);
      if Step(st).1 == Skip {
        StepShrinks(st);
        LexTokens(Step(st).0);
      }
    }
  }

  // ---------------------------------------------------------------------
  // Context windows

  function Min(a: int, b: int): int { if a < b then a else b }

  /** The text consumed before the current match. */
  function Before(st: ScanState): (past: string)
    ensures |st.matchText| <= |st.matched| && st.matched[|st.matched| - |st.matchText|..] == st.matchText
            ==> past + st.matchText == st.matched
  {
    if |st.matchText| <= |st.matched| then st.matched[..|st.matched| - |st.matchText|] else ""
  }

  /** `getPastInput`: the last 20 characters consumed before the current match, after `...` when there are more. */
  function PastInput(st: ScanState): (r: string)
    ensures var past := Before(st);
            && |r| == Min(20, |past|) + (if |past| > 20 then 3 else 0)
            && (|past| > 20 ==> r[..3] == "...")
            && r[|r| - Min(20, |past|)..] == past[|past| - Min(20, |past|)..]
  {
    var past := Before(st);
    (if |past| > 20 then "..." else "") + past[|past| - Min(20, |past|)..]
  }

  /**
   * `getUpcomingInput`: the current match followed by the remaining input,
   * cut at 20 characters; `...` follows exactly when the match alone is
   * longer than 20.
   */
  function UpcomingInput(st: ScanState): (r: string)
    ensures |st.matchText| <= 20 ==> r == (st.matchText + st.input)[..Min(20, |st.matchText| + |st.input|)]
    ensures |st.matchText| > 20 ==> r == st.matchText[..20] + "..."
  {
    var next := if |st.matchText| < 20 then st.matchText + st.input[..Min(20 - |st.matchText|, |st.input|)] else st.matchText;
    next[..Min(20, |next|)] + (if |next| > 20 then "..." else "")
  }

  /** `str_replace("\n", "", $s)`: every character of s but the line feeds, in their order. */
  function WithoutNewlines(s: string): (r: string)
    ensures '\n' !in r && |r| <= |s|
  {
    if s == [] then []
    else (if s[0] == '\n' then [] else [s[0]]) + WithoutNewlines(s[1..])
  }

  /** Exactly the line feeds go: every other character stays as often as it occurs. */
  lemma {:induction false} WithoutNewlinesCounts(s: string)
    ensures multiset(WithoutNewlines(s)) == multiset(s)['\n' := 0]
    ensures |WithoutNewlines(s)| == |s| - multiset(s)['\n']
  {
    if s != [] {
      assert s == [s[0]] + s[1..];
      WithoutNewlinesCounts(s[1..]);
    }
  }

  /** Removing line feeds works piecewise, so it keeps the order of what remains. */
  lemma {:induction false} WithoutNewlinesAppend(a: string, b: string)
    ensures WithoutNewlines(a + b) == WithoutNewlines(a) + WithoutNewlines(b)
    decreases |a|
  {
    if a != [] {
      var head := if a[0] == '\n' then [] else [a[0]];
      assert (a + b)[0] == a[0] && (a + b)[1..] == a[1..] + b;
      assert WithoutNewlines(a + b) == head + WithoutNewlines(a[1..] + b);
      assert WithoutNewlines(a) == head + WithoutNewlines(a[1..]);
      WithoutNewlinesAppend(a[1..], b);
    } else {
      assert a + b == b;
    }
  }

  /** Text without line feeds is left as it is. */
  lemma {:induction false} WithoutNewlinesKeeps(s: string)
    requires '\n' !in s
    ensures WithoutNewlines(s) == s
  {
    if s != [] {
      assert '\n' !in s[1..];
      WithoutNewlinesKeeps(s[1..]);
    }
  }

  /** The upcoming window as `showPosition` prints it, on one line. */
  function UpcomingLine(st: ScanState): string {
    WithoutNewlines(UpcomingInput(st))
  }

  /** The past window as `showPosition` prints it, on one line. */
  function PastLine(st: ScanState): string {
    WithoutNewlines(PastInput(st))
  }

  /** How many dashes precede the caret: one fewer than the characters of the past line. */
  function CaretOffset(pre: string): nat {
    if |pre| > 0 then |pre| - 1 else 0
  }

  /**
   * `showPosition`: the past and upcoming windows on one line, then a line
   * whose caret stands under the last character of the past window.
   */
  function ShowPosition(st: ScanState): (r: string)
    ensures |r| == |PastLine(st)| + |UpcomingLine(st)| + CaretOffset(PastLine(st)) + 2
    ensures r[..|PastLine(st)|] == PastLine(st)
    ensures r[|PastLine(st)|..|PastLine(st)| + |UpcomingLine(st)|] == UpcomingLine(st)
    ensures r[|r| - 1] == '^'
    ensures forall i :: |r| - 1 - CaretOffset(PastLine(st)) <= i < |r| - 1 ==> r[i] == '-'
    ensures forall i :: 0 <= i < |r| ==> (r[i] == '\n' <==> i == |r| - CaretOffset(PastLine(st)) - 2)
  {
    CaretLine(PastLine(st), UpcomingLine(st))
  }

  /** The two windows, a line feed, the dashes and the caret: where each of them sits. */
  function CaretLine(pre: string, up: string): (r: string)
    requires '\n' !in pre && '\n' !in up
    ensures |r| == |pre| + |up| + CaretOffset(pre) + 2
    ensures r[..|pre|] == pre
    ensures r[|pre|..|pre| + |up|] == up
    ensures r[|r| - 1] == '^'
    ensures forall i :: |r| - 1 - CaretOffset(pre) <= i < |r| - 1 ==> r[i] == '-'
    ensures forall i :: 0 <= i < |r| ==> (r[i] == '\n' <==> i == |r| - CaretOffset(pre) - 2)
  {
    var dashes := seq(CaretOffset(pre), _ => '-');
    var r := pre + up + "\n" + dashes + "^";
    assert r[..|pre|] == pre;
    assert r[|pre|..|pre| + |up|] == up;
    forall i | 0 <= i < |r|
      ensures r[i] == '\n' <==> i == |r| - |dashes| - 2
    {
      if i < |pre| {
        assert r[i] == pre[i];
      } else if i < |pre| + |up| {
        assert r[i] == up[i - |pre|];
      }
    }
    r
  }

  // ---------------------------------------------------------------------
  // The scanner object

  class Lexer {
    var input: string
    var matched: string
    var matchText: string
    var yText: string
    var yLength: nat
    var yLineNo: nat
    var yLocation: Location
    var done: bool

    function State(): ScanState
      reads this
    {
      ScanState(input, matched, matchText, yText, yLength, yLineNo, yLocation, done)
    }

    /** `new Lexer()` followed by `setInput`. */
    constructor (text: string)
      ensures State() == Initial(text)
    {
      input, matched, matchText, yText := text, "", "", "";
      yLength, yLineNo, yLocation, done := 0, 0, StartLocation, false;
    }

    /** `setInput`: start over on a new text. */
    method SetInput(text: string)
      modifies this
      ensures State() == Initial(text)
    {
      input, matched, matchText, yText := text, "", "", "";
      yLength, yLineNo, yLocation, done := 0, 0, StartLocation, false;
    }

    /** `performAction`: the token of the rule; the string rule also strips the quotes from `yText`. */
    method PerformAction(rule: nat) returns (t: Option<Tok>)
      requires rule < RuleCount
      modifies this
      ensures t == RuleToken(rule)
      ensures State() == ActionEffect(old(State()), rule)
    {
      if rule == STRING_RULE {
        yText := Unquote(yText);
      }
      t := RuleToken(rule);
    }

    /** The updates of `next()` once a rule has matched m: line count, span, match buffers and the rest of the input. */
    method TakeMatch(m: string)
      requires |m| <= |input|
      modifies this
      ensures State() == AfterMatch(old(State()), m)
    {
      var lines := CountNewlines(m);
      yLineNo := yLineNo + lines;
      yLocation := NextLocation(yLocation, yLineNo, m);
      yText := yText + m;
      matchText := matchText + m;
      yLength := |yText|;
      input := input[|m|..];
      matched := matched + m;
    }

    /** `next()`: try the rules in index order and apply the first that matches. */
    method Next() returns (o: Outcome)
      modifies this
      ensures (State(), o) == Step(old(State()))
    {
      if done {
        return Token(Sym(EOF_ID));
      }
      ghost var st0 := State();
      if input == "" {
        done := true;
      }
      yText := "";
      matchText := "";
      var i := 0;
      while i < RuleCount
        invariant 0 <= i <= RuleCount
        invariant forall k :: 0 <= k < i ==> RuleMatch(k, input).None?
        invariant State() == st0.(done := input == "", yText := "", matchText := "")
      {
        var r := RuleMatch(i, input);
        if r.Some? {
          FirstRuleIs(input, i, r.value);
          StepApplies(st0, i, r.value);
          TakeMatch(input[..r.value]);
          var t := PerformAction(i);
          if t.Some? {
            return Token(t.value);
          }
          return Skip;
        }
        i := i + 1;
      }
      FirstRuleTotal(input);
      assert false;
    }

    /** `lex()`: call `next()` again after every skipped match. */
    method Lex() returns (t: Tok)
      modifies this
      ensures (State(), t) == LexFrom(old(State()))
      decreases Budget(State())
    {
      ghost var st0 := State();
      var o := Next();
      if o.Token? {
        return o.tok;
      }
      StepShrinks(st0);
      t := Lex();
    }
  }
}
