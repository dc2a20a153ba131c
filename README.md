# jsonlint (cmpayments) — a verified model of the parser core

This project models, in Dafny, the core of the PHP library
`cmpayments/jsonlint`: the scanner `Lexer`, and the two parser classes
`JsonLinter` and `JsonParser`. The two classes drive the same
table-driven LALR(1) parser over the same JSON grammar. They differ in
three places:

- what they check before parsing (`JsonLinter` refuses a non-string);
- the location they record for a reduction;
- how they describe a syntax error: `JsonLinter` reports an error code and
  a human-readable line number, `JsonParser` a message and a hash.

The model is organised as the program is:

| module | file | models |
|---|---|---|
| `Grammar` | grammar.dfy | the symbol, terminal, production, action and default-action tables; what an LR stack over them is |
| `Rules` | rules.dfy | the fourteen anchored regular expressions of the scanner, as matchers with their meaning proved |
| `Scanner` | lexer.dfy | `Lexer`: `setInput`, `next`, `lex`, `performAction`, `getPastInput`, `getUpcomingInput`, `showPosition`; a class over the scanner's fields, specified by a pure step function |
| `Values` | values.dfy | the PHP values the actions build: ordered member lists, `isset`, `key.N` renaming, number kinds, string escapes |
| `Actions` | actions.dfy | `performAction` of the parsers as a function of the popped values |
| `Driver` | driver.dfy | the `parse` loop: class `Machine` with the three stacks as fields, shift, reduce and goto, proved to keep an LR invariant and to terminate |
| `Errors` | errors.dfy | error codes, the two regular expressions and the trailing-comma test of the error report, the byte-order mark and the multi-line test |
| `Linting` | linting.dfy | the entry points `JsonLinter::parse`, `JsonParser::parse` and `JsonParser::lint`, and how each reports a stuck parse |

The main results:

- **Parsing.** `Driver.Machine.Run` always terminates. It stops in one of
  three ways:
  - with a well-formed value, and then only after the scanner has consumed
    the whole text;
  - at a state whose table row has no action for the scanned lookahead;
  - at a key rejected under `DETECT_KEY_CONFLICTS`, reported on the line
    after the last shifted token's line.

  Each pass of the loop is pinned: a shift pushes the scanned text and
  location, a reduction pushes the action's value and the goto state, and
  the accepting production returns the value below `$end`.
- **Scanning.** Every rule matcher is proved against a declarative
  description of its regular expression. One scanner step consumes exactly
  the match. It keeps the line and column bookkeeping the source performs.
- **Duplicate keys.** Renaming under `ALLOW_DUPLICATE_KEYS` picks the least
  free `key.N`. Detection under `DETECT_KEY_CONFLICTS` rejects exactly the
  keys that are set.
- **Error reports.** The classification of a stuck parse is proved equal to
  the meaning of the two regular expressions the source runs. The
  trailing-comma and multi-line tests are proved equal to their plain
  meaning.

## Model

| member | source | states |
|---|---|---|
| Grammar.TerminalKeys | src/CMPayments/JsonLint/JsonLinter.php:79 | a symbol is a terminal exactly when `terminals` has a name for it |
| Grammar.ProductionsTable | src/CMPayments/JsonLint/JsonLinter.php:84 | each production 1..21 has the left-hand side and length the `productions` array lists |
| Grammar.EndOfInputCells | src/CMPayments/JsonLint/JsonLinter.php:89-121 | only states 1 and 16 have an entry for `$end`, and only state 1 accepts |
| Grammar.AcceptOnlyInStateOne | src/CMPayments/JsonLint/JsonLinter.php:92 | an accept entry occurs only in state 1 on `$end` |
| Grammar.LhsIsNonterminal | src/CMPayments/JsonLint/JsonLinter.php:84 | a left-hand side is never a terminal nor `$end`; JSONText heads production 6 only |
| Grammar.LinkedIsTransition | src/CMPayments/JsonLint/JsonLinter.php:89-121 | two adjacent stack frames are linked exactly when the table has a shift or goto between them |
| Grammar.TransitionInto | src/CMPayments/JsonLint/JsonLinter.php:89-121 | a shift or goto leads from a state to a state, and the target is entered only on its accessing symbol |
| Grammar.ValidStackShape | src/CMPayments/JsonLint/JsonLinter.php:338-342 | a valid stack has odd length and a state on top |
| Grammar.PushKeepsValid | src/CMPayments/JsonLint/JsonLinter.php:338-342 | pushing a symbol and the state the table gives keeps the stack valid and appends the symbol |
| Grammar.PopKeepsValid | src/CMPayments/JsonLint/JsonLinter.php:636-641 | popping n frames keeps the stack valid and removes exactly the last n symbols |
| Grammar.ReductionIsLighter | src/CMPayments/JsonLint/JsonLinter.php:84 | each production's left-hand side weighs less than its right-hand side, the measure that bounds reductions |
| Grammar.ReduceCell | src/CMPayments/JsonLint/JsonLinter.php:89-127 | a reduce entry or default action for production p occurs only in the one state that completes p |
| Grammar.ChainFacts | src/CMPayments/JsonLint/JsonLinter.php:89-121 | the states that complete p are entered on p's right-hand side in order, and the state below them has a goto on p's left-hand side |
| Grammar.ReduceShape | src/CMPayments/JsonLint/JsonLinter.php:364-392 | a valid stack whose top completes p holds p's right-hand side as its top symbols, with a goto on the left-hand side below |
| Grammar.ReduceStack | src/CMPayments/JsonLint/JsonLinter.php:383-393 | a reduction by p other than 6 leaves a valid, lighter stack whose symbols are the old ones with the right-hand side replaced by the left-hand side, and never enters state 1 or 16 |
| Grammar.Expected | src/CMPayments/JsonLint/JsonLinter.php:214-221 | the expected list holds exactly the names of the terminals above `error` that the state's row has an entry for |
| Rules.MatchWhitespace | src/CMPayments/JsonLint/Lexer.php:19 | rule 0 matches exactly the maximal run of leading whitespace |
| Rules.NumberMatchSound | src/CMPayments/JsonLint/Lexer.php:20 | what rule 1 matches is a JSON number followed by a word boundary |
| Rules.NumberMatchLongest | src/CMPayments/JsonLint/Lexer.php:20 | rule 1 matches whenever some prefix is a number followed by a word boundary, and then at least that prefix |
| Rules.StringMatchIff | src/CMPayments/JsonLint/Lexer.php:21 | rule 2 matches n characters exactly when they are a quote, a valid string body and the closing quote |
| Rules.MatchChar | src/CMPayments/JsonLint/Lexer.php:22-27 | the punctuator rules match one character exactly when the input starts with it |
| Rules.MatchKeyword | src/CMPayments/JsonLint/Lexer.php:28-30 | the keyword rules match exactly when the word is followed by a word boundary |
| Rules.MatchEnd | src/CMPayments/JsonLint/Lexer.php:31 | rule 12 matches, with length 0, exactly the empty input and a lone final line feed |
| Rules.MatchAny | src/CMPayments/JsonLint/Lexer.php:32 | rule 13 matches one character exactly when it is not a line feed |
| Rules.FirstRuleFrom | src/CMPayments/JsonLint/Lexer.php:191-225 | the rule chosen is the first in order that matches; none before it does |
| Rules.FirstRuleTotal | src/CMPayments/JsonLint/Lexer.php:191-232 | some rule always matches, so the "Unrecognized text" error is never raised |
| Rules.FirstRuleMatches | src/CMPayments/JsonLint/Lexer.php:191-225 | the chosen rule matches with the chosen length, and no earlier rule matches |
| Rules.FirstRuleIs | src/CMPayments/JsonLint/Lexer.php:191-225 | a rule that matches while no earlier one does is the one chosen |
| Rules.FirstRuleFacts | src/CMPayments/JsonLint/Lexer.php:19-31 | a match is empty exactly at the end of input, where the end rule applies; whitespace matches are never empty |
| Values.Get | src/CMPayments/JsonLint/JsonLinter.php:512 | a lookup finds a value exactly when the key is a member, and that member holds it |
| Values.IsSetIsGet | src/CMPayments/JsonLint/JsonLinter.php:512 | `isset` holds exactly when the key has a non-null value |
| Values.Put | src/CMPayments/JsonLint/JsonLinter.php:534 | assignment gives the key the value, keeps every other key's value, and appends a new key at the end |
| Values.PutKeepsUnique | src/CMPayments/JsonLint/JsonLinter.php:562 | assignment keeps keys unique |
| Values.PutAppends | src/CMPayments/JsonLint/JsonLinter.php:562 | assigning a new key appends one member |
| Values.PutWellFormed | src/CMPayments/JsonLint/JsonLinter.php:534 | assigning a well-formed value keeps every member well formed |
| Values.NatToString | src/CMPayments/JsonLint/JsonLinter.php:528 | the counter's decimal text: digits only, without leading zero |
| Values.NatToStringValue | src/CMPayments/JsonLint/JsonLinter.php:528 | the digits of the text read back as the counter |
| Values.NatToStringInjective | src/CMPayments/JsonLint/JsonLinter.php:528 | distinct counters give distinct decimal suffixes |
| Values.SuffixedInjective | src/CMPayments/JsonLint/JsonLinter.php:528 | `key.N` determines N |
| Values.LongSuffixFree | src/CMPayments/JsonLint/JsonLinter.php:526-529 | a suffix longer than every key is free, so the renaming loop ends |
| Values.FirstFree | src/CMPayments/JsonLint/JsonLinter.php:526-529 | the result is free and every counter before it is taken |
| Values.RenameDuplicate | src/CMPayments/JsonLint/JsonLinter.php:524-531 | the do-while loop returns `key.N` for the least N from 1 whose key is not set |
| Values.FirstFreeIsLeast | src/CMPayments/JsonLint/JsonLinter.php:524-529 | any free counter with all earlier ones taken is the one the loop finds |
| Values.KindMatchesShape | src/CMPayments/JsonLint/JsonLinter.php:449-455 | a number text becomes an integer exactly when it has no fraction and no exponent |
| Values.TrimZeros | src/CMPayments/JsonLint/JsonLinter.php:627 | `ltrim($h, '0')`: a suffix of h that does not start with `0`, and everything dropped before it is `0` |
| Values.InterpolateWithoutBackslash | src/CMPayments/JsonLint/JsonLinter.php:443 | a text without backslash is left as it is |
| Values.Utf8Encodes | src/CMPayments/JsonLint/JsonLinter.php:627 | `Utf8` is the UTF-8 encoding of a code point below 0x10000: one byte below 0x80, otherwise a lead byte and continuation bytes in their ranges whose payload bits make up the code point |
| Values.ZerosValue | src/CMPayments/JsonLint/JsonLinter.php:627 | hexadecimal digits that are all `0` denote 0, so `ltrim` leaves nothing only for `\u0000` |
| Values.EntityDecodeAllowed | src/CMPayments/JsonLint/JsonLinter.php:627 | a `\uXXXX` whose code point HTML 4.01 allows decodes to that code point's UTF-8 bytes |
| Values.UnicodeEscape | src/CMPayments/JsonLint/JsonLinter.php:443 | a `\u` with four hexadecimal digits is replaced by its decoding, and the scan resumes after the six characters |
| Values.InterpolateEscape | src/CMPayments/JsonLint/JsonLinter.php:598-625 | interpolation undoes escaping: `Interpolate(Escape(s)) == s` |
| Values.EscapeIsStringBody | src/CMPayments/JsonLint/Lexer.php:21 | escaping a text of escapable characters gives a body the string rule accepts |
| Actions.NewObject | src/CMPayments/JsonLint/JsonLinter.php:475-481 | an empty object is an assoc array under PARSE_TO_ASSOC and a stdClass otherwise |
| Actions.EmptyAlias | src/CMPayments/JsonLint/JsonLinter.php:493 | the stored key is never empty and differs from the key only when that is empty |
| Actions.ObjectWellFormed | src/CMPayments/JsonLint/JsonLinter.php:484-564 | an object is well formed exactly when its keys are unique and its members well formed |
| Actions.AddMemberFits | src/CMPayments/JsonLint/JsonLinter.php:506-564 | adding a member to a well-formed object yields a well-formed object of the same kind |
| Actions.ActionFits | src/CMPayments/JsonLint/JsonLinter.php:441-586 | every action, given values that fit the right-hand side, yields a value that fits the left-hand side |
| Actions.RejectLine | src/CMPayments/JsonLint/JsonLinter.php:540-549 | only production 17 rejects, with the member's key and line `yLineNo + 1` |
| Actions.MemberActionFits | src/CMPayments/JsonLint/JsonLinter.php:506-564 | production 17 yields an object that fits, or a duplicate key |
| Actions.ObjectActionFits | src/CMPayments/JsonLint/JsonLinter.php:473-504 | productions 13, 14 and 16 yield values that fit |
| Actions.ArrayActionFits | src/CMPayments/JsonLint/JsonLinter.php:488-585 | productions 15 and 18 to 21 yield values that fit |
| Actions.ScalarActionFits | src/CMPayments/JsonLint/JsonLinter.php:443-471 | productions 1 to 12 yield values that fit |
| Actions.DetectRejectsSetKeys | src/CMPayments/JsonLint/JsonLinter.php:540-549 | under DETECT_KEY_CONFLICTS a member is rejected exactly when its key is set, with the raw key and line yLineNo + 1 |
| Actions.AllowRenamesSetKeys | src/CMPayments/JsonLint/JsonLinter.php:550-562 | under ALLOW_DUPLICATE_KEYS a set key is stored as the least free `key.N`; every other key keeps its value |
| Actions.SuffixedIsNotKey | src/CMPayments/JsonLint/JsonLinter.php:528 | `key.N` is never the key itself |
| Actions.PlainAssignment | src/CMPayments/JsonLint/JsonLinter.php:534 | without a conflict flag, or for a key not set, the member is assigned and nothing else changes |
| Actions.EmptyKeyAliasing | src/CMPayments/JsonLint/JsonLinter.php:493 | the empty key is stored as `_empty_` in objects and as the empty key in assoc arrays |
| Actions.AllowStores | src/CMPayments/JsonLint/JsonLinter.php:550-562 | under ALLOW_DUPLICATE_KEYS a member is stored under the renamed key |
| Actions.AllowAppendsFresh | src/CMPayments/JsonLint/JsonLinter.php:550-562 | under ALLOW_DUPLICATE_KEYS a member whose stored key is new is appended at the end |
| Actions.SecondKeyIsFree | tests/JsonLintTest.php:338-350 | after `a`, the renaming picks `a.1` |
| Actions.ThirdKeyIsFree | tests/JsonLintTest.php:338-350 | after `a` and `a.1`, the renaming picks `a.2` |
| Actions.DetectFixture | tests/JsonLintTest.php:297-311 | `{"a":"b", "a":"c"}` with DETECT_KEY_CONFLICTS is rejected with key `a` on line 1 |
| Actions.DetectEmptyFixture | tests/JsonLintTest.php:316-333 | `""` then `_empty_` is rejected with key `_empty_` on line 3 |
| Actions.AllowFixtureSecond | tests/JsonLintTest.php:338-350 | the second `a` under ALLOW_DUPLICATE_KEYS is stored as `a.1` |
| Actions.AllowFixtureThird | tests/JsonLintTest.php:338-350 | the third `a` is stored as `a.2` |
| Scanner.RuleToken | src/CMPayments/JsonLint/Lexer.php:250-301 | only whitespace yields no token; rule 13 yields `INVALID`; every other token is a terminal above `error` |
| Scanner.RuleTokenInjective | src/CMPayments/JsonLint/Lexer.php:250-301 | distinct token-yielding rules yield distinct tokens |
| Scanner.PunctuatorTokenNames | src/CMPayments/JsonLint/Lexer.php:265-281 | a punctuator's token is the terminal whose name is the matched character |
| Scanner.CountNewlines | src/CMPayments/JsonLint/Lexer.php:195-201 | the line count grows exactly when the match holds a line feed |
| Scanner.CountNewlinesIsCount | src/CMPayments/JsonLint/Lexer.php:195-201 | the line count grows by exactly the number of line feeds in the match |
| Scanner.ColumnAfterLastNewline | src/CMPayments/JsonLint/Lexer.php:207 | the column is the length of the text after the last line feed |
| Scanner.Unquote | src/CMPayments/JsonLint/Lexer.php:261 | the string rule's text drops the first and last character |
| Scanner.NextColumns | src/CMPayments/JsonLint/Lexer.php:203-208 | without a line feed the column advances by the match length; with one it is the length after the last line feed |
| Scanner.StepApplies | src/CMPayments/JsonLint/Lexer.php:191-224 | a step on input whose first matching rule is (rule, n) consumes n characters and yields that rule's token, or skips for whitespace |
| Scanner.StepTokens | src/CMPayments/JsonLint/Lexer.php:165-235 | a step's token is a terminal above `error` |
| Scanner.InitialConsistent | src/CMPayments/JsonLint/Lexer.php:102-113 | after `setInput` the scanner invariant holds |
| Scanner.DoneConsumed | src/CMPayments/JsonLint/Lexer.php:172-175 | a done scanner has consumed the whole text |
| Scanner.StepAccounts | src/CMPayments/JsonLint/Lexer.php:193-216 | one step consumes exactly its match from the input, appends it to `matched`, and advances line and location as the source does |
| Scanner.StepColumns | src/CMPayments/JsonLint/Lexer.php:203-208 | the new location starts where the last ended and ends at the column after the match |
| Scanner.StringTokenText | src/CMPayments/JsonLint/Lexer.php:260-263 | a STRING token's match is a quoted valid body, and its text is the body |
| Scanner.DoneIsFinal | src/CMPayments/JsonLint/Lexer.php:167-170 | a done scanner answers `$end` and changes nothing |
| Scanner.EofBeforeEnd | src/CMPayments/JsonLint/Lexer.php:172-175 | a scanner that is not done never answers `$end`; it becomes done exactly when it answers EOF, with the input used up |
| Scanner.ZeroEndsWithoutEof | src/CMPayments/JsonLint/Lexer.php:172-175 | as written, the text `0` yields NUMBER and then `$end`, without EOF |
| Scanner.ZeroEndsWithEof | src/CMPayments/JsonLint/Lexer.php:172-175 | corrected, the text `0` yields NUMBER, EOF, then `$end` |
| Scanner.StepShrinks | src/CMPayments/JsonLint/Lexer.php:165-224 | each step of a scanner that is not done decreases the work left |
| Scanner.LexAccounts | src/CMPayments/JsonLint/Lexer.php:85-95 | `lex` keeps the scanner invariant, answers `$end` only when already done, and becomes done exactly when it answers EOF |
| Scanner.LexShrinks | src/CMPayments/JsonLint/Lexer.php:85-95 | `lex` on a scanner that is not done decreases the work left |
| Scanner.LexTokens | src/CMPayments/JsonLint/Lexer.php:85-95 | `lex` yields a terminal above `error`, `INVALID`, or `$end` |
| Scanner.Before | src/CMPayments/JsonLint/Lexer.php:131 | the past input followed by the current match is all consumed text |
| Scanner.PastInput | src/CMPayments/JsonLint/Lexer.php:129-134 | the last 20 consumed characters before the match, after `...` when there are more |
| Scanner.UpcomingInput | src/CMPayments/JsonLint/Lexer.php:139-149 | the match and what follows it, cut at 20 characters, with `...` when the match alone is longer |
| Scanner.WithoutNewlines | src/CMPayments/JsonLint/Lexer.php:120 | `str_replace("\n", '', …)`: no line feed is left and the text does not grow |
| Scanner.WithoutNewlinesCounts | src/CMPayments/JsonLint/Lexer.php:120 | every character but the line feed is kept as often as it occurs, and the length drops by the number of line feeds |
| Scanner.WithoutNewlinesAppend | src/CMPayments/JsonLint/Lexer.php:120 | the removal works piecewise on a concatenation, so the remaining characters keep their order |
| Scanner.WithoutNewlinesKeeps | src/CMPayments/JsonLint/Lexer.php:120 | a text without line feeds is left as it is |
| Scanner.ShowPosition | src/CMPayments/JsonLint/Lexer.php:118-124 | the past line, then the upcoming line, then one line feed, then dashes up to the caret under the last past character; nothing else |
| Scanner.Lexer.constructor | src/CMPayments/JsonLint/Lexer.php:102-113 | a new scanner is in the state `setInput` leaves |
| Scanner.Lexer.SetInput | src/CMPayments/JsonLint/Lexer.php:102-113 | the fields are reset onto the new text |
| Scanner.Lexer.PerformAction | src/CMPayments/JsonLint/Lexer.php:250-301 | yields the rule's token and strips the quotes of a string's text |
| Scanner.Lexer.TakeMatch | src/CMPayments/JsonLint/Lexer.php:195-215 | the field updates of a match |
| Scanner.Lexer.Next | src/CMPayments/JsonLint/Lexer.php:165-235 | the new fields and the outcome are those of the corrected step function |
| Scanner.Lexer.Lex | src/CMPayments/JsonLint/Lexer.php:85-95 | repeats `next` until a token; its result is the pure `lex` |
| Scanner.LexAligned | src/CMPayments/JsonLint/Lexer.php:200-208 | `lex` keeps the span's last line at `yLineNo + 1` |
| Driver.ReducedStore | src/CMPayments/JsonLint/JsonLinter.php:371-374 | JsonLinter stores only the last line and column; JsonParser (`JsonParser.php:338-343`) stores a full span that starts where the first popped entry starts (the top entry when nothing is popped); both end where the top entry ends |
| Driver.DropLast | src/CMPayments/JsonLint/JsonLinter.php:636-641 | `array_slice($s, 0, -$k)`: all but the last k entries, and nothing for k = 0 |
| Driver.LexStep | src/CMPayments/JsonLint/JsonLinter.php:646-657 | the parser's `lex` keeps the scanner invariant, yields a symbol the table knows, and makes progress unless it answers `$end` |
| Driver.ShiftKeeps | src/CMPayments/JsonLint/JsonLinter.php:338-342 | a shift keeps the stack invariant; state 16 is entered only on EOF |
| Driver.RhsOnTop | src/CMPayments/JsonLint/JsonLinter.php:364-376 | when the top state completes p, the top values fit p's right-hand side |
| Driver.ReduceReady | src/CMPayments/JsonLint/JsonLinter.php:364-393 | when the top state completes p, the stacks hold p's right-hand side and the state below has a goto on the left-hand side |
| Driver.ReduceKeeps | src/CMPayments/JsonLint/JsonLinter.php:383-393 | a reduction other than 6 keeps the invariant, does not enter state 16, and lightens the stack |
| Driver.AssignMember | src/CMPayments/JsonLint/JsonLinter.php:506-564 | production 17's assignment computes the member effect, renaming by the do-while loop |
| Driver.Machine.constructor | src/CMPayments/JsonLint/JsonLinter.php:172-186 | `$stack = [0]`, `$vStack = [null]`, one location, a fresh scanner on the text; the invariant holds |
| Driver.Machine.Lex | src/CMPayments/JsonLint/JsonLinter.php:646-657 | the scanner moves by one pure `lex` |
| Driver.Machine.PopStack | src/CMPayments/JsonLint/JsonLinter.php:636-641 | drops 2n states and n values and locations |
| Driver.Machine.PerformAction | src/CMPayments/JsonLint/JsonLinter.php:437-589 | the action's effect on the top values; it fits the left-hand side |
| Driver.Machine.AddMemberStep | src/CMPayments/JsonLint/JsonLinter.php:506-564 | production 17 on the stack's top three values |
| Driver.Machine.AppendStep | src/CMPayments/JsonLint/JsonLinter.php:581-585 | production 21 appends the element to the list |
| Driver.Machine.ShiftTurn | src/CMPayments/JsonLint/JsonLinter.php:338-351 | pushes symbol, text, span and target state, keeping the invariant; the next pass holds no lookahead and takes the scanner's text and line, and for JsonParser (`JsonParser.php:305-316`) its span, so the line stays one below the new top store's last line |
| Driver.ShiftLines | src/CMPayments/JsonLint/JsonLinter.php:338-351 | after a shift, the loop's line and span agree with the pushed span (`LinesAgree`), given that the scanner's span ends on `yLineNo + 1` |
| Driver.Machine.GotoStep | src/CMPayments/JsonLint/JsonLinter.php:383-393 | pops the right-hand side, pushes the left-hand side, its value and store, then the goto state |
| Driver.Machine.Goto | src/CMPayments/JsonLint/JsonLinter.php:371-393 | the reduction's stacks with the class's store; the invariant holds and the stack is lighter |
| Driver.Machine.Lookahead | src/CMPayments/JsonLint/JsonLinter.php:200-209 | the lookahead and the scanner after it are `Fetch`'s: the held lookahead with the scanner untouched, or the pure `lex` of the scanner; the result is a known symbol, the scan makes progress, and the span stays aligned with the line counter |
| Driver.Machine.AcceptTurn | src/CMPayments/JsonLint/JsonLinter.php:376-381 | the default reduction of state 16 returns the value just below `$end` on the value stack; it is well formed, and the whole text has been consumed |
| Driver.ActionOnFacts | src/CMPayments/JsonLint/JsonLinter.php:364-376 | the action on a run's stacks is `Action` on the top Len(p) values; for p other than 6 it never finishes, a value fits lhs(p), and a rejection comes under DETECT_KEY_CONFLICTS on line `yLineNo + 1` |
| Driver.Machine.ActOnTop | src/CMPayments/JsonLint/JsonLinter.php:364-376 | `performAction` on the stacks of a run computes `ActionOn` |
| Driver.Machine.ReduceTurn | src/CMPayments/JsonLint/JsonLinter.php:364-394 | either goes on with the same lookahead and locals, the stacks being exactly those after the reduction by p with `Action`'s value and `ReducedStore` (`Reduction`), valid, lighter and in line agreement; or stops, only under DETECT_KEY_CONFLICTS, with the key and line `Action` rejects (`yLineNo + 1`) and the stacks untouched |
| Driver.Machine.Dispatch | src/CMPayments/JsonLint/JsonLinter.php:206-394 | the table's answer for the lookahead (`Answered`): stuck at the top state and the lookahead where the cell has no action, a shift of it, or the reduction the cell names, keeping it; `$end` never goes on; the loop's line stays in agreement with the location stack |
| Driver.Machine.Cycle | src/CMPayments/JsonLint/JsonLinter.php:191-400 | one pass: state 16 accepts the value below `$end` with the stacks and scanner untouched; otherwise the lookahead and scanner are `Fetch`'s and the outcome is `Dispatch`'s answer for that lookahead (`Answered`); a pass that goes on keeps the invariant, makes progress and keeps the line agreement |
| Driver.Machine.Run | src/CMPayments/JsonLint/JsonLinter.php:191-401 | from the start of `parse`, the loop terminates; a root is well formed and ends a fully consumed text; a stuck stop names a state without action for the lookahead and carries the line and span of the last shifted token (`LinesAgree`); a rejected key is one the duplicate-key action rejects at the final stacks (`Rejection`), reported on the line after the last shifted token's line, which is the last line of the top store |
| Errors.ParsingKind | src/CMPayments/JsonLint/Exceptions/ParsingException.php:10-19 | codes 1..10 name exactly the ten parsing kinds |
| Errors.ParsingCodesRoundTrip | src/CMPayments/JsonLint/Exceptions/ParsingException.php:10-19 | decoding a kind's code gives the kind back |
| Errors.BadEscapeFromIff | src/CMPayments/JsonLint/JsonLinter.php:234 | the scan finds a backslash with a disallowed letter exactly when one follows on the same line |
| Errors.UnescapedFromIff | src/CMPayments/JsonLint/JsonLinter.php:234 | the scan from i finds the backslash pattern exactly when a match starts at or after i |
| Errors.UnescapedBackslashIff | src/CMPayments/JsonLint/JsonLinter.php:234 | the test holds exactly when a quote is followed on its line by at least one character and then a bad escape |
| Errors.EscapedToLineEndIff | src/CMPayments/JsonLint/JsonLinter.php:237 | the scan reaches a line end exactly when every quote on the way is escaped |
| Errors.UnterminatedFromIff | src/CMPayments/JsonLint/JsonLinter.php:237 | the scan from i finds the pattern exactly when a match starts at or after i |
| Errors.UnterminatedIff | src/CMPayments/JsonLint/JsonLinter.php:237 | the test holds exactly when some quote is followed up to a line end by escaped quotes only |
| Errors.TrimEnd | src/CMPayments/JsonLint/JsonLinter.php:257 | the longest prefix not ending in a trimmed character |
| Errors.TrimStart | src/CMPayments/JsonLint/JsonLinter.php:257 | a suffix; empty only for all-whitespace text |
| Errors.TrailingCommaIff | src/CMPayments/JsonLint/JsonLinter.php:257 | the test holds exactly when a comma is followed by whitespace only |
| Errors.CollapseKeepsNewlines | src/CMPayments/JsonLint/JsonLinter.php:189 | replacing `\n\r` by `\n` keeps line feeds |
| Errors.PieceCount | src/CMPayments/JsonLint/JsonLinter.php:189 | `explode` gives one piece exactly when there is no line feed |
| Errors.MultiLineIff | src/CMPayments/JsonLint/JsonLinter.php:189 | an input is multi-line exactly when it holds a line feed |
| Errors.CommaBeforeWhitespace | src/CMPayments/JsonLint/JsonLinter.php:257 | a comma followed by whitespace only passes the test |
| Errors.FlatObjectCase | tests/JsonLintTest.php:170-180 | `{"foo":"bar",}` ends its past input with a comma and is one line |
| Errors.TallObjectCase | tests/JsonLintTest.php:182-194 | the three-line object ends its past input with a comma and is multi-line |
| Linting.TokenOf | src/CMPayments/JsonLint/JsonLinter.php:273 | the terminal's name when there is one, otherwise the symbol |
| Linting.Classify | src/CMPayments/JsonLint/JsonLinter.php:223-249 | the error kind, in priority order, each case given by the meaning of the two regular expressions |
| Linting.Quoted | src/CMPayments/JsonLint/JsonParser.php:204-211 | each expected name between single quotes |
| Linting.QuotedStringTest | src/CMPayments/JsonLint/JsonParser.php:214 | testing for `'STRING'` in the quoted list is testing for `STRING` in the plain one |
| Linting.LinterLine | src/CMPayments/JsonLint/JsonLinter.php:257-269 | the scanner's line after a trailing comma in a multi-line input, one past it otherwise |
| Linting.LinterReport | src/CMPayments/JsonLint/JsonLinter.php:212-276 | the kind from Classify on `yText`, the trailing comma, the line rule, the match, token and expected list |
| Linting.ParserReport | src/CMPayments/JsonLint/JsonParser.php:201-253 | the kind from Classify on `match`; the message line is the parser's line + 1 whatever the comma; the hash line is the scanner's |
| Linting.LinterParse | src/CMPayments/JsonLint/JsonLinter.php:155-401 | a non-string fails on line 1, then a byte-order mark fails; otherwise a result is a well-formed, fully scanned value, a report of the stuck state, or a detected duplicate |
| Linting.ParserParse | src/CMPayments/JsonLint/JsonParser.php:154-372 | a byte-order mark fails; otherwise as for the linter, with JsonParser's report |
| Linting.ParserLint | src/CMPayments/JsonLint/JsonParser.php:133-144 | nothing exactly when `parse` accepts; otherwise the byte-order-mark error, or the report of the stuck parse (never a duplicate key, since no flags are passed) |
| Linting.ReportsAgree | src/CMPayments/JsonLint/JsonLinter.php:223 | where `yText` and `match` start alike, both classes give the same kind and comma, and the linter's line is the parser's hash line + 1 without a comma |
| Linting.BackslashCase | tests/JsonLintTest.php:216-232 | `"bar\z",` is classified as an unescaped backslash |
| Linting.UnterminatedCase | tests/JsonLintTest.php:234-248 | `"foo}` is classified as not terminated |
| Linting.MultiLineStringCase | tests/JsonLintTest.php:250-264 | a string broken by a line feed is classified as not terminated |
| Linting.SingleLineCommaCase | tests/JsonLintTest.php:170-180 | the one-line trailing comma is reported on line 1 |
| Linting.MultiLineCommaCase | tests/JsonLintTest.php:182-194 | the three-line trailing comma is reported on line 2 |
| Linting.ZeroStuckAsWritten | src/CMPayments/JsonLint/JsonLinter.php:194-224 | with the scanner as written, `0` shifts NUMBER into state 13, which has neither an entry nor a default action for the `$end` that follows, and the stop is classified as "expected input to be something else" |

## Left out

- Error recovery (`JsonLinter.php:279-327`, `JsonParser.php:256-300`) is left out. It only runs once `$recovering` is non-zero, and the first error always throws before that. So it is unreachable.
- The check for multiple actions (`JsonLinter.php:330-333`) is left out: no table entry holds more than one action.
- The scanner's "Unrecognized text" error and its trailing `$this->input === ''` test are not modelled as paths. `Rules.FirstRuleTotal` proves that some rule always matches.
- Message texts (`vsprintf` templates, `appendMessage`, JsonParser's `$errStr` and `utf8_encode`) are left out. Reports carry the code or kind and the fields the message is built from.
- The column number is left out. `JsonLinter` reads `$this->lexer->yColumnNo`, which the scanner never sets.
- JsonParser's text after "unescaped backslash at:" is not modelled. That text is the capture group of the regular expression.
- `JsonLinter::lint` is not a separate member. It returns `parse`'s result or the exception, which `Linting.LinterParse` already gives as a `Result`.
- The converted number values are left out: `intval`, which saturates at the 64-bit bounds, and `floatval`, which rounds to IEEE double (`JsonLinter.php:447-455`, `JsonParser.php:407-414`). A number keeps its lexeme and its integer or float kind (`Values.KindMatchesShape`). The source has no overflow-to-float path, so none is modelled.
- PHP array key coercion (numeric-string keys becoming integers) is left out. Keys are strings.
- The undeclared constant `DuplicateKeyException::ERROR_PARSE_ERROR_DUPLICATE_KEY` is left out. The model uses the declared `PARSE_ERROR_DUPLICATE_KEY` (code 1).
- `html_entity_decode` for `\uXXXX` is modelled for the code points HTML 4.01 allows, from knowledge of PHP's entity table. That table is not part of this model.
- Strings are sequences of characters, one per byte of the PHP string. There is no multi-byte or encoding handling.
- The regular-expression engine is replaced by proved matchers for these particular patterns. The PCRE backtracking limit is left out.
- `Scanner.Lexer` keeps no `more` flag and no condition stack. `more` is never set, and the stack never leaves `INITIAL`.
- The in-place update `$tokens[$len - 2][$key] = …` through a PHP reference is modelled as producing the new list value. Aliasing between the reference and the value stack is not modelled.
- Driver.Machine.Run: for a stuck stop it states the table condition (`StuckAt`), not which inputs are rejected. There is no grammar-level statement of the accepted language. It also runs the corrected scanner (`Scanner.Step`), not `Lexer.php:172-175` as written. So for texts whose remaining input becomes `"0"`, such as `0`, ` 0` or `[0`, its stops follow the intended behaviour and not the program's. What the program does with `0` is stated by `Scanner.ZeroEndsWithoutEof` and `Linting.ZeroStuckAsWritten` (see Findings). Each pass's effect on the stacks is pinned by `Driver.Machine.Cycle` (`Answered`: the shifted text, the action's value, the goto state). Run does not restate the whole sequence of passes, so an accepted root is not tied at Run's level to the token sequence as one formula.
- Linting.LinterParse: it runs `Driver.Machine.Run` with the corrected scanner. So it returns the number for `0`, where `JsonLinter::parse` as written throws "expected input to be something else" on line 1. The same holds for every text whose remaining input becomes `"0"`.
- Scanner.Lexer.Next: it runs the corrected done test `input == ""` (`Scanner.Step`), not the falsy test of `Lexer.php:172-175`. So on a remaining input of `"0"` it leaves `done` unset, and its next call scans the empty input into the EOF token; the program sets `done` there and answers `$end` with no EOF token. The as-written step is `Scanner.StepAsWritten` (see Findings).
- Scanner.Lexer.Lex: it repeats the corrected `Scanner.Lexer.Next`, so the same difference applies to its tokens on a remaining input of `"0"`.
- Linting.ParserParse: as for `Linting.LinterParse`. `JsonParser::parse` as written throws on `0`, where the model accepts.
- Linting.ParserLint: as for `Linting.ParserParse`. It returns nothing for `0`, where `JsonParser::lint` as written returns the exception.
- The JsonParser exception's `$message`-as-code quirk (`ParsingException($str, $hash)`) is left out. Reports carry the message parts and the hash.
- File input, the command-line use and the `Undefined` marker class are left out. `Undefined` becomes the `Skip` outcome.

## Findings

| source | as written | input that shows it | evidently intended | confidence | as-written member | corrected member |
|---|---|---|---|---|---|---|
| src/CMPayments/JsonLint/Lexer.php:172-175 | `if (!$this->input)` sets `done` when the remaining input is PHP-falsy, which includes the string `"0"` | the text `0`: the scanner becomes done while still matching NUMBER, answers `$end` next, and no EOF token is produced, so the table (state 13 has no `$end` entry) rejects the valid document `0` | set `done` only when the input is empty, so every text ends with EOF then `$end` | not executed | Scanner.ZeroEndsWithoutEof | Scanner.ZeroEndsWithEof |
