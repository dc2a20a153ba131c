/**
 * The table-driven LALR(1) driver of `JsonLinter::parse`
 * (`JsonLinter.php:172-401`) and `JsonParser::parse`
 * (`JsonParser.php:154-372`): the two classes run the same loop over the
 * same tables with three stacks as fields, and differ only in the location
 * they record for a reduction and in how they report an error. The class
 * `Machine` is that shared loop; the two entry points and their error
 * reports are in module `Linting`.
 */
module Driver {
  import opened Wrappers
  import opened Grammar
  import opened Values
  import opened Actions
  import Scanner

  /** Which of the two parser classes runs the loop. */
  datatype Variant = Linter | Parser

  /**
   * An entry of the location stack: a span the scanner produced, or the
   * `{last_line, last_column}` store JsonLinter builds for a reduction.
   */
  datatype Store = Located(loc: Scanner.Location) | LastOnly(lastLine: nat, lastColumn: nat)

  function LastLine(s: Store): nat {
    if s.Located? then s.loc.lastLine else s.lastLine
  }

  function LastColumn(s: Store): nat {
    if s.Located? then s.loc.lastColumn else s.lastColumn
  }

  /**
   * `$yVal->store` of a reduction of length len: JsonLinter keeps the last
   * line and column of the top entry (`JsonLinter.php:371-374`); JsonParser
   * also takes the first line and column from the first popped entry, the
   * top one when len is 0 (`JsonParser.php:338-343`).
   */
  function ReducedStore(variant: Variant, lStack: seq<Store>, len: nat): (r: Store)
    requires 1 <= |lStack| && len <= |lStack|
    requires variant == Parser ==> forall i :: 0 <= i < |lStack| ==> lStack[i].Located?
    ensures r.Located? <==> variant == Parser
    ensures LastLine(r) == LastLine(lStack[|lStack| - 1]) && LastColumn(r) == LastColumn(lStack[|lStack| - 1])
    ensures variant == Parser ==>
              && r.loc.firstLine == lStack[|lStack| - (if len == 0 then 1 else len)].loc.firstLine
              && r.loc.firstColumn == lStack[|lStack| - (if len == 0 then 1 else len)].loc.firstColumn
  {
    var top := lStack[|lStack| - 1];
    match variant
    case Linter => LastOnly(LastLine(top), LastColumn(top))
    case Parser =>
      var first := lStack[|lStack| - (if len == 0 then 1 else len)].loc;
      Located(Scanner.Location(first.firstLine, LastLine(top), first.firstColumn, LastColumn(top)))
  }

  /**
   * `array_slice($s, 0, -$k)`: everything but the last k entries; a length
   * of `-0` is a length of 0, so dropping nothing leaves nothing, as does
   * dropping more than there is.
   */
  function DropLast<T>(s: seq<T>, k: nat): (r: seq<T>)
    ensures 0 < k < |s| ==> r == s[..|s| - k]
    ensures k == 0 || k >= |s| ==> r == []
  {
    if k == 0 || k >= |s| then [] else s[..|s| - k]
  }

  /** `$this->table[$state][$symbol]` for a scanned token; `'INVALID'` has no column in the table. */
  function TableEntry(state: int, symbol: Scanner.Tok): Option<Entry> {
    if symbol.Sym? then Lookup(state, symbol.id) else None
  }

  /** What the driver's `lex()` can hand the loop: a terminal id, `$end`, or `'INVALID'`. */
  predicate IsScanned(symbol: Scanner.Tok) {
    symbol.Invalid? || IsTerminal(symbol.id) || symbol.id == END
  }

  /** How the loop stops: with the root value, at a cell without action, or at a rejected duplicate key. */
  datatype Stop =
    | Accepted(root: Value)
    | Stuck(state: int, symbol: Scanner.Tok, yLineNo: nat, yLocation: Scanner.Location)
    | Conflict(key: string, line: nat, yLineNo: nat)

  /** One pass of the loop either goes on with the loop's locals or stops. */
  datatype Turn =
    | Go(symbol: Option<Scanner.Tok>, yText: string, yLineNo: nat, yLocation: Scanner.Location)
    | Halt(r: Stop)

  /**
   * What the loop still has to read: twice the scanner's budget, plus one
   * while a lookahead is held. Lexing and shifting make it smaller;
   * reductions keep it and make the stack lighter instead.
   */
  function Rank(st: Scanner.ScanState, symbol: Option<Scanner.Tok>): nat {
    2 * Scanner.Budget(st) + if symbol.Some? then 1 else 0
  }

  /**
   * A `lex()` of the parser keeps the scanner consistent with the text,
   * answers what the table can be asked about, answers EOF only as it
   * finishes, and makes progress unless it answers `$end`.
   */
  lemma LexStep(st: Scanner.ScanState, text: string)
    requires Scanner.Consistent(st, text)
    ensures Scanner.Consistent(Scanner.LexFrom(st).0, text)
    ensures IsScanned(Scanner.LexFrom(st).1)
    ensures Scanner.LexFrom(st).1 == Scanner.Sym(EOF) ==> Scanner.LexFrom(st).0.done
    ensures Scanner.LexFrom(st).1 == Scanner.Sym(END) || Rank(Scanner.LexFrom(st).0, Some(Scanner.LexFrom(st).1)) <= Rank(st, None)
  {
    Scanner.LexTokens(st);
    Scanner.LexAccounts(st, text);
    if !st.done {
      Scanner.LexShrinks(st);
    }
  }

  /** The values on top of a stack that fits its symbols fit the top symbols. */
  lemma FitsAllSuffix(syms: seq<int>, vals: seq<Value>, k: nat, assoc: bool)
    requires FitsAll(syms, vals, assoc) && k <= |syms|
    ensures FitsAll(syms[|syms| - k..], vals[|vals| - k..], assoc)
  {
    var s, v := syms[|syms| - k..], vals[|vals| - k..];
    forall i | 0 <= i < k
      ensures Fits(s[i], v[i], assoc)
    {
      assert s[i] == syms[|syms| - k + i] && v[i] == vals[|vals| - k + i];
    }
  }

  /** The values below the top k fit the symbols below the top k. */
  lemma FitsAllPrefix(syms: seq<int>, vals: seq<Value>, k: nat, assoc: bool)
    requires FitsAll(syms, vals, assoc) && k <= |syms|
    ensures FitsAll(syms[..|syms| - k], vals[..|vals| - k], assoc)
  {
    var s, v := syms[..|syms| - k], vals[..|vals| - k];
    forall i | 0 <= i < |s|
      ensures Fits(s[i], v[i], assoc)
    {
      assert s[i] == syms[i] && v[i] == vals[i];
    }
  }

  /** Replacing the top k symbols and values by one symbol and a value that fits it keeps the stack fitting. */
  lemma FitsAllReplace(syms: seq<int>, vals: seq<Value>, k: nat, symbol: int, v: Value, assoc: bool)
    requires FitsAll(syms, vals, assoc) && k <= |syms| && Fits(symbol, v, assoc)
    ensures FitsAll(syms[..|syms| - k] + [symbol], vals[..|vals| - k] + [v], assoc)
  {
    var s, w := syms[..|syms| - k] + [symbol], vals[..|vals| - k] + [v];
    forall i | 0 <= i < |s|
      ensures Fits(s[i], w[i], assoc)
    {
      if i < |syms| - k {
        assert s[i] == syms[i] && w[i] == vals[i];
      }
    }
  }

  /**
   * A state stack and a value stack that belong together: a valid LR stack,
   * `null` at the bottom of the values, and one value per symbol that fits it.
   */
  ghost predicate Typed(st: seq<int>, vs: seq<Value>, assoc: bool) {
    && ValidStack(st)
    && |st| == 2 * |vs| - 1
    && vs[0] == Null
    && FitsAll(StackSymbols(st), vs[1..], assoc)
  }

  /** A reduction by p whose goto exists, with a value that fits lhs(p), keeps the stacks typed. */
  lemma ReduceTyped(st: seq<int>, vs: seq<Value>, p: int, token: Value, assoc: bool)
    requires Typed(st, vs, assoc) && IsProduction(p)
    requires 2 * Len(p) < |st| && Transition(Uncovered(st, p), Lhs(p)).Some?
    requires Fits(Lhs(p), token, assoc)
    ensures |vs| > Len(p)
    ensures Typed(AfterReduce(st, p), vs[..|vs| - Len(p)] + [token], assoc)
  {
    var len := Len(p);
    TypedPop(st, vs, len, assoc);
    var below := st[..|st| - 2 * len];
    assert below[|below| - 1] == Uncovered(st, p);
    TypedPush(below, vs[..|vs| - len], Lhs(p), Transition(Uncovered(st, p), Lhs(p)).value, token, assoc);
  }

  /** Popping n whole frames keeps the stacks typed. */
  lemma TypedPop(st: seq<int>, vs: seq<Value>, n: nat, assoc: bool)
    requires Typed(st, vs, assoc) && 2 * n < |st|
    ensures |vs| > n && Typed(st[..|st| - 2 * n], vs[..|vs| - n], assoc)
  {
    PopKeepsValid(st, n);
    var syms := StackSymbols(st);
    var below := st[..|st| - 2 * n];
    assert StackSymbols(below) == syms[..|syms| - n];
    FitsAllPrefix(syms, vs[1..], n, assoc);
    assert vs[..|vs| - n][1..] == vs[1..][..|vs| - 1 - n];
  }

  /** Pushing a goto frame with a value that fits its symbol keeps the stacks typed. */
  lemma TypedPush(st: seq<int>, vs: seq<Value>, symbol: int, target: nat, token: Value, assoc: bool)
    requires Typed(st, vs, assoc) && Transition(st[|st| - 1], symbol) == Some(target) && Fits(symbol, token, assoc)
    ensures Typed(st + [symbol, target], vs + [token], assoc)
  {
    PushKeepsValid(st, symbol, target);
    var syms := StackSymbols(st);
    FitsAllReplace(syms, vs[1..], 0, symbol, token, assoc);
    assert syms[..|syms| - 0] == syms && vs[1..][..|vs[1..]| - 0] == vs[1..];
    assert (vs + [token])[1..] == vs[1..] + [token];
  }

  /**
   * The three stacks of a run: typed, one store per value, the accepting
   * state 1 never on top, and JsonParser's stores all full spans.
   */
  ghost predicate Stacks(variant: Variant, assoc: bool, st: seq<int>, vs: seq<Value>, ls: seq<Store>) {
    && Typed(st, vs, assoc)
    && |vs| == |ls|
    && st[|st| - 1] != 1
    && (variant == Parser ==> forall i :: 0 <= i < |ls| ==> ls[i].Located?)
  }

  /**
   * A shift of a scanned symbol the table allows keeps the stacks of a run,
   * and enters the EOF state 16 only on EOF.
   */
  lemma ShiftKeeps(variant: Variant, assoc: bool, st: seq<int>, vs: seq<Value>, ls: seq<Store>,
                   symbol: int, target: nat, yText: string, loc: Scanner.Location)
    requires Stacks(variant, assoc, st, vs, ls) && Lookup(st[|st| - 1], symbol) == Some(Shift(target))
    requires IsTerminal(symbol) || symbol == END
    ensures Stacks(variant, assoc, st + [symbol, target], vs + [Str(yText)], ls + [Located(loc)])
    ensures target == 16 ==> symbol == EOF
  {
    TransitionInto(st[|st| - 1], symbol, target);
    TypedPush(st, vs, symbol, target, Str(yText), assoc);
    var ls' := ls + [Located(loc)];
    if variant == Parser {
      forall i | 0 <= i < |ls'|
        ensures ls'[i].Located?
      {
        if i < |ls| {
          assert ls'[i] == ls[i];
        }
      }
    }
  }

  /**
   * The stacks (st, vs, ls) are those of (st0, vs0, ls0) after a reduction
   * by p with value token and location store: the top len(p) frames are
   * popped, lhs(p) with token and store is pushed, then the state the table
   * gives for the uncovered state and lhs(p).
   */
  predicate Reduced(p: int, st0: seq<int>, vs0: seq<Value>, ls0: seq<Store>, token: Value, store: Store,
                    st: seq<int>, vs: seq<Value>, ls: seq<Store>)
  {
    && IsProduction(p) && 2 * Len(p) < |st0| && Len(p) < |vs0| && Len(p) < |ls0|
    && Transition(Uncovered(st0, p), Lhs(p)).Some?
    && st == AfterReduce(st0, p)
    && vs == vs0[..|vs0| - Len(p)] + [token]
    && ls == ls0[..|ls0| - Len(p)] + [store]
  }

  /** When the reducing state of p is on top, the top Len(p) values fit rhs(p), as the action expects. */
  lemma RhsOnTop(variant: Variant, assoc: bool, st: seq<int>, vs: seq<Value>, ls: seq<Store>, p: int)
    requires Stacks(variant, assoc, st, vs, ls) && IsProduction(p) && st[|st| - 1] == Reducer(p)
    ensures Len(p) < |vs| && FitsAll(Rhs(p), vs[|vs| - Len(p)..], assoc)
  {
    ReduceShape(st, p);
    FitsAllSuffix(StackSymbols(st), vs[1..], Len(p), assoc);
    assert vs[1..][|vs[1..]| - Len(p)..] == vs[|vs| - Len(p)..];
  }

  /** A reduction by p (not the accepting one) on the stacks of a run has frames to pop and a goto entry. */
  lemma ReduceReady(variant: Variant, assoc: bool, st: seq<int>, vs: seq<Value>, ls: seq<Store>, p: int)
    requires Stacks(variant, assoc, st, vs, ls) && IsProduction(p) && p != 6 && st[|st| - 1] == Reducer(p)
    ensures 2 * Len(p) < |st| && Len(p) < |vs| && Len(p) < |ls| && Transition(Uncovered(st, p), Lhs(p)).Some?
  {
    ReduceStack(st, p);
  }

  /**
   * A reduction by p (not the accepting one) whose value fits lhs(p) keeps
   * the stacks of a run, never lands in the EOF state 16, and makes the
   * state stack lighter.
   */
  lemma ReduceKeeps(variant: Variant, assoc: bool, st: seq<int>, vs: seq<Value>, ls: seq<Store>, p: int, token: Value, store: Store,
                    st': seq<int>, vs': seq<Value>, ls': seq<Store>)
    requires Reduced(p, st, vs, ls, token, store, st', vs', ls')
    requires Stacks(variant, assoc, st, vs, ls) && p != 6 && st[|st| - 1] == Reducer(p)
    requires Fits(Lhs(p), token, assoc) && (variant == Parser ==> store.Located?)
    ensures Stacks(variant, assoc, st', vs', ls')
    ensures st'[|st'| - 1] != 16
    ensures SeqWeight(StackSymbols(st')) < SeqWeight(StackSymbols(st))
  {
    ReduceStack(st, p);
    ReduceTyped(st, vs, p, token, assoc);
    assert st'[|st'| - 1] == Transition(Uncovered(st, p), Lhs(p)).value;
    if variant == Parser {
      forall i | 0 <= i < |ls'|
        ensures ls'[i].Located?
      {
        if i < |ls'| - 1 {
          assert ls'[i] == ls[i];
        }
      }
    }
  }

  /** The lookahead of a pass and the scanner after it: the one held, or a fresh `lex()`. */
  function Fetch(st: Scanner.ScanState, symbol: Option<Scanner.Tok>): (Scanner.ScanState, Scanner.Tok) {
    if symbol.Some? then (st, symbol.value) else Scanner.LexFrom(st)
  }

  /**
   * A shift of lookahead la from the stacks (st0, vs0, ls0): the table
   * says shift from the top state, and the symbol and the target state, the
   * scanned text, and the scanned span are pushed.
   */
  predicate ShiftPass(la: Scanner.Tok, lex: Scanner.ScanState, st0: seq<int>, vs0: seq<Value>, ls0: seq<Store>,
                      st: seq<int>, vs: seq<Value>, ls: seq<Store>)
  {
    && |st0| > 0
    && TableEntry(st0[|st0| - 1], la).Some? && TableEntry(st0[|st0| - 1], la).value.Shift?
    && st == st0 + [la.id, TableEntry(st0[|st0| - 1], la).value.target]
    && vs == vs0 + [Str(lex.yText)]
    && ls == ls0 + [Located(lex.yLocation)]
  }

  /** What `performAction` makes of production p on the top of a run's stacks. */
  ghost function ActionOn(variant: Variant, flags: nat, st: seq<int>, vs: seq<Value>, ls: seq<Store>,
                          p: int, yText: string, yLineNo: nat): Effect
    requires Stacks(variant, IsAssoc(flags), st, vs, ls) && IsProduction(p) && st[|st| - 1] == Reducer(p)
  {
    RhsOnTop(variant, IsAssoc(flags), st, vs, ls, p);
    Action(p, flags, yText, yLineNo, vs[|vs| - Len(p)..])
  }

  /**
   * A reduction by p (not the accepting one) from the stacks (st0, vs0,
   * ls0): the action gives a value, and (st, vs, ls) are the stacks with
   * that value and the reduction's store in place of the right-hand side.
   */
  ghost predicate Reduction(variant: Variant, flags: nat, p: int, yText: string, yLineNo: nat,
                            st0: seq<int>, vs0: seq<Value>, ls0: seq<Store>, st: seq<int>, vs: seq<Value>, ls: seq<Store>)
  {
    && Stacks(variant, IsAssoc(flags), st0, vs0, ls0) && IsProduction(p) && p != 6 && st0[|st0| - 1] == Reducer(p)
    && Len(p) < |ls0|
    && ActionOn(variant, flags, st0, vs0, ls0, p, yText, yLineNo).Continue?
    && Reduced(p, st0, vs0, ls0, ActionOn(variant, flags, st0, vs0, ls0, p, yText, yLineNo).token,
               ReducedStore(variant, ls0, Len(p)), st, vs, ls)
  }

  /** A reduction by p from (st0, vs0, ls0) that the action stops with the duplicate key `key` on line `line`. */
  ghost predicate Rejection(variant: Variant, flags: nat, p: int, yText: string, yLineNo: nat,
                            st0: seq<int>, vs0: seq<Value>, ls0: seq<Store>, key: string, line: nat)
  {
    && Stacks(variant, IsAssoc(flags), st0, vs0, ls0) && IsProduction(p) && st0[|st0| - 1] == Reducer(p)
    && ActionOn(variant, flags, st0, vs0, ls0, p, yText, yLineNo) == DuplicateKey(key, line)
  }

  /** A reduction whose stacks follow `Reduced` with the action's value is a `Reduction`. */
  lemma ReductionOf(variant: Variant, flags: nat, p: int, yText: string, yLineNo: nat,
                    st0: seq<int>, vs0: seq<Value>, ls0: seq<Store>, token: Value, st: seq<int>, vs: seq<Value>, ls: seq<Store>)
    requires Stacks(variant, IsAssoc(flags), st0, vs0, ls0) && IsProduction(p) && p != 6 && st0[|st0| - 1] == Reducer(p)
    requires ActionOn(variant, flags, st0, vs0, ls0, p, yText, yLineNo) == Continue(token)
    requires Len(p) < |ls0| && Reduced(p, st0, vs0, ls0, token, ReducedStore(variant, ls0, Len(p)), st, vs, ls)
    ensures Reduction(variant, flags, p, yText, yLineNo, st0, vs0, ls0, st, vs, ls)
  {
  }

  /**
   * The action on a run's stacks is `Action` on the top Len(p) values; it
   * never ends the parse for a production other than 6, gives a value that
   * fits lhs(p), or rejects a duplicate key on the line after the last
   * shifted token's line.
   */
  lemma ActionOnFacts(variant: Variant, flags: nat, st: seq<int>, vs: seq<Value>, ls: seq<Store>,
                      p: int, yText: string, yLineNo: nat)
    requires Stacks(variant, IsAssoc(flags), st, vs, ls) && IsProduction(p) && p != 6 && st[|st| - 1] == Reducer(p)
    ensures Len(p) < |vs| && FitsAll(Rhs(p), vs[|vs| - Len(p)..], IsAssoc(flags))
    ensures ActionOn(variant, flags, st, vs, ls, p, yText, yLineNo) == Action(p, flags, yText, yLineNo, vs[|vs| - Len(p)..])
    ensures var e := ActionOn(variant, flags, st, vs, ls, p, yText, yLineNo);
            && !e.Finish?
            && (e.Continue? ==> Fits(Lhs(p), e.token, IsAssoc(flags)))
            && (e.DuplicateKey? ==>
                  && HasFlag(flags, DETECT_KEY_CONFLICTS) && e.line == yLineNo + 1
                  && Rejection(variant, flags, p, yText, yLineNo, st, vs, ls, e.key, e.line))
  {
    RhsOnTop(variant, IsAssoc(flags), st, vs, ls, p);
    var args := vs[|vs| - Len(p)..];
    ActionFits(p, flags, yText, yLineNo, args);
    RejectLine(p, flags, yText, yLineNo, args);
  }

  /** The production the table reduces by from the top state of st0 on lookahead la, if it says reduce. */
  function ReduceBy(st0: seq<int>, la: Scanner.Tok): Option<nat> {
    if |st0| > 0 && TableEntry(st0[|st0| - 1], la).Some? && TableEntry(st0[|st0| - 1], la).value.Reduce?
    then Some(TableEntry(st0[|st0| - 1], la).value.production)
    else None
  }

  /**
   * What a pass that looked lookahead la up from the stacks (st0, vs0, ls0)
   * comes to, with the scanner at lex: a shift hands the next pass no
   * lookahead and the scanner's text, line and (for JsonParser) span; a
   * reduction keeps the lookahead and the locals; a stop leaves the stacks
   * as they were, at the top state and la, or at the key the action
   * rejects on the line after the last shifted token's line.
   */
  ghost predicate Answered(variant: Variant, flags: nat, la: Scanner.Tok, yText: string, yLineNo: nat, yLocation: Scanner.Location,
                           st0: seq<int>, vs0: seq<Value>, ls0: seq<Store>, lex: Scanner.ScanState,
                           t: Turn, st: seq<int>, vs: seq<Value>, ls: seq<Store>)
  {
    && |st0| > 0
    && (t.Go? && t.symbol.None? ==>
          && ShiftPass(la, lex, st0, vs0, ls0, st, vs, ls)
          && t == Go(None, lex.yText, lex.yLineNo, if variant == Parser then lex.yLocation else yLocation))
    && (t.Go? && t.symbol.Some? ==>
          && t == Go(Some(la), yText, yLineNo, yLocation)
          && ReduceBy(st0, la).Some?
          && Reduction(variant, flags, ReduceBy(st0, la).value, yText, yLineNo, st0, vs0, ls0, st, vs, ls))
    && (t.Halt? ==> !t.r.Accepted? && st == st0 && vs == vs0 && ls == ls0)
    && (t.Halt? && t.r.Stuck? ==> t.r == Stuck(st0[|st0| - 1], la, yLineNo, yLocation))
    && (t.Halt? && t.r.Conflict? ==>
          && t.r.yLineNo == yLineNo && t.r.line == yLineNo + 1
          && ReduceBy(st0, la).Some?
          && Rejection(variant, flags, ReduceBy(st0, la).value, yText, yLineNo, st0, vs0, ls0, t.r.key, t.r.line))
  }

  /**
   * The loop's locals agree with the location stack: `$yLineNo` is one
   * below the last line of the top store; JsonLinter never moves
   * `$yLocation` off the start, and JsonParser's ends where the top store
   * ends.
   */
  predicate LinesAgree(variant: Variant, yLineNo: nat, yLocation: Scanner.Location, ls: seq<Store>) {
    && |ls| > 0
    && yLineNo + 1 == LastLine(ls[|ls| - 1])
    && (variant == Linter ==> yLocation == Scanner.StartLocation)
    && (variant == Parser ==> yLocation.lastLine == LastLine(ls[|ls| - 1]) && yLocation.lastColumn == LastColumn(ls[|ls| - 1]))
  }

  /**
   * A shift hands the next pass the line and, for JsonParser, the span of
   * the token it pushes, so the locals agree with the new top store.
   */
  lemma ShiftLines(variant: Variant, lex: Scanner.ScanState, yLineNo: nat, yLocation: Scanner.Location, ls0: seq<Store>)
    requires Scanner.LineAligned(lex) && LinesAgree(variant, yLineNo, yLocation, ls0)
    ensures LinesAgree(variant, lex.yLineNo, if variant == Parser then lex.yLocation else yLocation, ls0 + [Located(lex.yLocation)])
  {
  }

  /**
   * Production 17 (`JsonLinter.php:506-565`): reject a set key under
   * DETECT_KEY_CONFLICTS, rename it to the first free `key.N` under
   * ALLOW_DUPLICATE_KEYS, and assign the member into the list.
   */
  method AssignMember(list: Value, pair: Value, flags: nat, yLineNo: nat) returns (e: Effect)
    requires list.Obj? || list.Assoc?
    requires IsPair(pair)
    ensures e == AddMember(list, pair, flags, yLineNo)
  {
    var key := if IsAssoc(flags) then pair.items[0].s else EmptyAlias(pair.items[0].s);
    if HasFlag(flags, DETECT_KEY_CONFLICTS) && IsSet(list.members, key) {
      e := DuplicateKey(pair.items[0].s, yLineNo + 1);
      return;
    } else if HasFlag(flags, ALLOW_DUPLICATE_KEYS) && IsSet(list.members, key) {
      key := RenameDuplicate(list.members, key);
    }
    e := Continue(list.(members := Put(list.members, key, pair.items[1])));
  }

  /**
   * The parser object: its flags, its scanner, and the state, value and
   * location stacks (`$stack`, `$vStack`, `$lStack`).
   */
  class Machine {
    const variant: Variant
    const flags: nat
    ghost const text: string
    const lexer: Scanner.Lexer
    var stack: seq<int>
    var vStack: seq<Value>
    var lStack: seq<Store>

    /**
     * The loop invariant: the state stack is a valid LR stack whose top is
     * never the accepting state 1, one value and one location per
     * (symbol, state) frame plus the bottom, each value fits its symbol, the
     * EOF state 16 is only reached once the scanner is done, and JsonParser's
     * locations are all full spans.
     */
    ghost predicate Valid()
      reads this, lexer
    {
      && Stacks(variant, IsAssoc(flags), stack, vStack, lStack)
      && (stack[|stack| - 1] == 16 ==> lexer.done)
      && Scanner.Consistent(lexer.State(), text)
    }

    /**
     * Where the loop stops without an action: the state on top of a valid
     * stack has no default action, and its row has no action (or only a
     * goto) for the scanned lookahead.
     */
    ghost predicate StuckAt(state: int, symbol: Scanner.Tok)
      reads this, lexer
    {
      && Valid() && state == stack[|stack| - 1] && IsScanned(symbol) && DefaultAction(state).None?
      && (TableEntry(state, symbol).None? || TableEntry(state, symbol).value.Goto?)
    }

    /** The start of `parse`: a scanner set on the text, `$stack = [0]`, `$vStack = [null]`, `$lStack = [its location]`. */
    constructor (variant: Variant, text: string, flags: nat)
      ensures this.variant == variant && this.text == text && this.flags == flags
      ensures fresh(lexer) && lexer.State() == Scanner.Initial(text)
      ensures stack == [0] && vStack == [Null] && lStack == [Located(Scanner.StartLocation)]
      ensures Valid()
    {
      this.variant := variant;
      this.text := text;
      this.flags := flags;
      var scanner := new Scanner.Lexer(text);
      this.lexer := scanner;
      stack := [0];
      vStack := [Null];
      lStack := [Located(scanner.yLocation)];
      new;
      Scanner.InitialConsistent(text);
    }

    /** `lex()`: the scanner's next token (`lex() ?: 1`; `'INVALID'` is no symbol name and stays as it is). */
    method Lex() returns (symbol: Scanner.Tok)
      modifies lexer
      ensures (lexer.State(), symbol) == Scanner.LexFrom(old(lexer.State()))
    {
      symbol := lexer.Lex();
    }

    /** `popStack(n)`: drop 2n states and n values and locations. */
    method PopStack(n: nat)
      modifies this
      ensures stack == DropLast(old(stack), 2 * n)
      ensures vStack == DropLast(old(vStack), n) && lStack == DropLast(old(lStack), n)
    {
      stack := DropLast(stack, 2 * n);
      vStack := DropLast(vStack, n);
      lStack := DropLast(lStack, n);
    }

    /**
     * `performAction` for production p, read off the top Len(p) entries of
     * the value stack: the effect is `Action`'s, and it fits the production.
     */
    method PerformAction(p: nat, yText: string, yLineNo: nat) returns (e: Effect)
      requires IsProduction(p) && Len(p) < |vStack|
      requires FitsAll(Rhs(p), vStack[|vStack| - Len(p)..], IsAssoc(flags))
      ensures e == Action(p, flags, yText, yLineNo, vStack[|vStack| - Len(p)..])
      ensures TypedEffect(p, flags, e)
    {
      ghost var args := vStack[|vStack| - Len(p)..];
      ActionFits(p, flags, yText, yLineNo, args);
      var len := |vStack| - 1;
      var assoc := IsAssoc(flags);
      if p == 17 {
        e := AddMemberStep(yLineNo);
      } else if p == 21 {
        e := AppendStep();
      } else if p == 1 {
        e := Continue(Str(Interpolate(yText)));
      } else if p == 2 {
        e := Continue(Number(KindOf(yText), yText));
      } else if p == 3 {
        e := Continue(Null);
      } else if p == 4 {
        e := Continue(Bool(true));
      } else if p == 5 {
        e := Continue(Bool(false));
      } else if p == 6 {
        assert args[0] == vStack[len - 1];
        e := Finish(vStack[len - 1]);
      } else if p == 13 {
        e := Continue(NewObject(assoc, []));
      } else if p == 14 {
        assert args[1] == vStack[len - 1];
        e := Continue(vStack[len - 1]);
      } else if p == 15 {
        assert args[0] == vStack[len - 2] && args[2] == vStack[len];
        e := Continue(Arr([vStack[len - 2], vStack[len]]));
      } else if p == 16 {
        assert args[0] == vStack[len] && Fits(Rhs(16)[0], args[0], assoc);
        var property := EmptyAlias(vStack[len].items[0].s);
        e := Continue(NewObject(assoc, [(property, vStack[len].items[1])]));
      } else if p == 18 {
        e := Continue(Arr([]));
      } else if p == 19 {
        assert args[1] == vStack[len - 1];
        e := Continue(vStack[len - 1]);
      } else if p == 20 {
        assert args[0] == vStack[len];
        e := Continue(Arr([vStack[len]]));
      } else {
        // productions 7 to 12 keep the default `$yVal->token`, the first value of the right-hand side
        e := Continue(vStack[|vStack| - Len(p)]);
      }
    }

    /** Production 17 on the value stack: the list is two entries below the member on top. */
    method AddMemberStep(yLineNo: nat) returns (e: Effect)
      requires 3 < |vStack| && FitsAll(Rhs(17), vStack[|vStack| - 3..], IsAssoc(flags))
      ensures e == Action(17, flags, "", yLineNo, vStack[|vStack| - 3..])
    {
      var len := |vStack| - 1;
      ghost var args := vStack[|vStack| - 3..];
      assert Rhs(17)[0] == JSON_MEMBER_LIST && Rhs(17)[2] == JSON_MEMBER;
      assert args[0] == vStack[len - 2] && args[2] == vStack[len];
      assert Fits(JSON_MEMBER_LIST, args[0], IsAssoc(flags)) && Fits(JSON_MEMBER, args[2], IsAssoc(flags));
      e := AssignMember(vStack[len - 2], vStack[len], flags, yLineNo);
    }

    /** Production 21: append the element to the list below it. */
    method AppendStep() returns (e: Effect)
      requires 3 < |vStack| && FitsAll(Rhs(21), vStack[|vStack| - 3..], IsAssoc(flags))
      ensures e == Action(21, flags, "", 0, vStack[|vStack| - 3..])
    {
      var len := |vStack| - 1;
      ghost var args := vStack[|vStack| - 3..];
      assert Rhs(21)[0] == JSON_ELEMENT_LIST;
      assert args[0] == vStack[len - 2] && args[2] == vStack[len];
      assert Fits(JSON_ELEMENT_LIST, args[0], IsAssoc(flags));
      var list := vStack[len - 2];
      e := Continue(list.(items := list.items + [vStack[len]]));
    }

    /**
     * A shift (`JsonLinter.php:338-351`): push the symbol, the scanned text,
     * the scanned span and the target state; the next pass holds no
     * lookahead and takes the scanner's text and line, and JsonParser also
     * its span (`JsonParser.php:305-316`).
     */
    method ShiftTurn(symbol: int, target: nat, yLineNo: nat, yLocation: Scanner.Location) returns (t: Turn)
      requires Valid() && Lookup(stack[|stack| - 1], symbol) == Some(Shift(target))
      requires IsTerminal(symbol) || symbol == END
      requires symbol == EOF ==> lexer.done
      requires Scanner.LineAligned(lexer.State()) && LinesAgree(variant, yLineNo, yLocation, lStack)
      modifies this
      ensures stack == old(stack) + [symbol, target]
      ensures vStack == old(vStack) + [Str(lexer.yText)]
      ensures lStack == old(lStack) + [Located(lexer.yLocation)]
      ensures Valid()
      ensures t == Go(None, lexer.yText, lexer.yLineNo, if variant == Parser then lexer.yLocation else yLocation)
      ensures LinesAgree(variant, t.yLineNo, t.yLocation, lStack)
    {
      ShiftKeeps(variant, IsAssoc(flags), stack, vStack, lStack, symbol, target, lexer.yText, lexer.yLocation);
      ShiftLines(variant, lexer.State(), yLineNo, yLocation, lStack);
      stack := stack + [symbol, target];
      vStack := vStack + [Str(lexer.yText)];
      lStack := lStack + [Located(lexer.yLocation)];
      var location := if variant == Parser then lexer.yLocation else yLocation;
      t := Go(None, lexer.yText, lexer.yLineNo, location);
    }

    /**
     * The rest of a reduction by p once the action has produced its value
     * (`JsonLinter.php:371-393`): the location store of the reduction is
     * pushed with the value, and the stacks after it are still valid and
     * lighter.
     */
    method Goto(p: nat, token: Value)
      requires Valid() && IsProduction(p) && p != 6 && stack[|stack| - 1] == Reducer(p)
      requires Fits(Lhs(p), token, IsAssoc(flags))
      modifies this
      ensures old(|lStack|) >= 1 && Len(p) <= old(|lStack|)
      ensures Reduced(p, old(stack), old(vStack), old(lStack), token, ReducedStore(variant, old(lStack), Len(p)), stack, vStack, lStack)
      ensures Valid()
      ensures SeqWeight(StackSymbols(stack)) < SeqWeight(StackSymbols(old(stack)))
    {
      ReduceReady(variant, IsAssoc(flags), stack, vStack, lStack, p);
      var store := ReducedStore(variant, lStack, Len(p));
      GotoStep(p, token, store);
      ReduceKeeps(variant, IsAssoc(flags), old(stack), old(vStack), old(lStack), p, token, store, stack, vStack, lStack);
    }

    /**
     * The stack work of a reduction (`JsonLinter.php:383-392`): unless the
     * right-hand side is empty, `popStack(len)`; push the left-hand symbol,
     * its value and its store; then push the state the table gives for the
     * uncovered state and that symbol.
     */
    method GotoStep(p: nat, token: Value, store: Store)
      requires IsProduction(p) && 2 * Len(p) < |stack| && Len(p) < |vStack| && Len(p) < |lStack|
      requires Transition(Uncovered(stack, p), Lhs(p)).Some?
      modifies this
      ensures Reduced(p, old(stack), old(vStack), old(lStack), token, store, stack, vStack, lStack)
    {
      var len, lhs := Len(p), Lhs(p);
      ghost var s0 := stack;
      if len > 0 {
        PopStack(len);
      }
      assert stack == s0[..|s0| - 2 * len];
      stack := stack + [lhs];
      vStack := vStack + [token];
      lStack := lStack + [store];
      var newState := Transition(stack[|stack| - 2], stack[|stack| - 1]).value;
      stack := stack + [newState];
    }

    /**
     * The lookahead of a pass that has no default action: the one held, or
     * `lex()` when none is (`JsonLinter.php:200-205`). Lexing makes
     * progress unless the scanner is done and answers `$end`.
     */
    method Lookahead(symbol: Option<Scanner.Tok>) returns (lookahead: Scanner.Tok)
      requires Valid() && stack[|stack| - 1] != 16
      requires symbol.Some? ==> IsScanned(symbol.value)
      requires symbol == Some(Scanner.Sym(EOF)) ==> lexer.done
      modifies lexer
      ensures symbol.Some? ==> lookahead == symbol.value
      ensures (lexer.State(), lookahead) == Fetch(old(lexer.State()), symbol)
      ensures Scanner.LineAligned(old(lexer.State())) ==> Scanner.LineAligned(lexer.State())
      ensures IsScanned(lookahead) && (lookahead == Scanner.Sym(EOF) ==> lexer.done)
      ensures lookahead == Scanner.Sym(END) || Rank(lexer.State(), Some(lookahead)) <= Rank(old(lexer.State()), symbol)
      ensures Valid()
    {
      if symbol.Some? {
        return symbol.value;
      }
      LexStep(lexer.State(), text);
      if Scanner.LineAligned(lexer.State()) {
        Scanner.LexAligned(lexer.State());
      }
      lookahead := Lex();
    }

    /**
     * The default action of the EOF state 16, a reduction by production 6
     * (`JsonLinter.php:197-200`, `378-381`, `470-471`): `performAction`
     * returns the value below `$end`, which ends `parse`. It is only reached
     * once the scanner has consumed the whole text.
     */
    method AcceptTurn(yText: string, yLineNo: nat) returns (root: Value)
      requires Valid() && stack[|stack| - 1] == 16
      ensures WellFormed(root, IsAssoc(flags)) && lexer.done && lexer.matched == text
      ensures |vStack| >= 2 && root == vStack[|vStack| - 2]
    {
      assert Reducer(6) == 16;
      RhsOnTop(variant, IsAssoc(flags), stack, vStack, lStack, 6);
      Scanner.DoneConsumed(lexer.State(), text);
      var e := PerformAction(6, yText, yLineNo);
      match e
      case Finish(r) =>
        root := r;
      case Continue(_) =>
        assert false;
      case DuplicateKey(_, _) =>
        assert false;
    }

    /** `performAction` for production p on the stacks of a run. */
    method ActOnTop(p: nat, yText: string, yLineNo: nat) returns (e: Effect)
      requires Stacks(variant, IsAssoc(flags), stack, vStack, lStack) && IsProduction(p) && p != 6 && stack[|stack| - 1] == Reducer(p)
      ensures e == ActionOn(variant, flags, stack, vStack, lStack, p, yText, yLineNo)
    {
      RhsOnTop(variant, IsAssoc(flags), stack, vStack, lStack, p);
      ActionOnFacts(variant, flags, stack, vStack, lStack, p, yText, yLineNo);
      e := PerformAction(p, yText, yLineNo);
    }

    /**
     * The reduce case of a pass for any production but 6
     * (`JsonLinter.php:364-394`): the stack holds the right-hand side of p,
     * so the action applies; the pass stops at a rejected key, or goes on
     * with a lighter stack and the same lookahead.
     */
    method ReduceTurn(p: nat, lookahead: Option<Scanner.Tok>, yText: string, yLineNo: nat, yLocation: Scanner.Location) returns (t: Turn)
      requires Valid() && IsProduction(p) && p != 6 && stack[|stack| - 1] == Reducer(p)
      requires LinesAgree(variant, yLineNo, yLocation, lStack)
      modifies this
      ensures t.Go? ==> LinesAgree(variant, yLineNo, yLocation, lStack)
      ensures t.Go? ==>
                && Valid() && t == Go(lookahead, yText, yLineNo, yLocation)
                && Reduction(variant, flags, p, yText, yLineNo, old(stack), old(vStack), old(lStack), stack, vStack, lStack)
                && SeqWeight(StackSymbols(stack)) < SeqWeight(StackSymbols(old(stack)))
      ensures t.Halt? ==>
                && t.r.Conflict? && HasFlag(flags, DETECT_KEY_CONFLICTS)
                && t.r.yLineNo == yLineNo && t.r.line == yLineNo + 1
                && Rejection(variant, flags, p, yText, yLineNo, old(stack), old(vStack), old(lStack), t.r.key, t.r.line)
                && stack == old(stack) && vStack == old(vStack) && lStack == old(lStack)
    {
      ghost var st0, vs0, ls0 := stack, vStack, lStack;
      var e := ActOnTop(p, yText, yLineNo);
      ActionOnFacts(variant, flags, stack, vStack, lStack, p, yText, yLineNo);
      if e.DuplicateKey? {
        t := Halt(Conflict(e.key, e.line, yLineNo));
      } else {
        ReduceReady(variant, IsAssoc(flags), stack, vStack, lStack, p);
        Goto(p, e.token);
        ReductionOf(variant, flags, p, yText, yLineNo, st0, vs0, ls0, e.token, stack, vStack, lStack);
        t := Go(lookahead, yText, yLineNo, yLocation);
      }
    }

    /**
     * One pass of `while (true)` (`JsonLinter.php:191-400`): take the
     * default action of the top state, or fetch the lookahead and take the
     * table's answer for it. A pass that goes on keeps the invariant and the
     * line agreement, and makes progress.
     */
    method Cycle(symbol: Option<Scanner.Tok>, yText: string, yLineNo: nat, yLocation: Scanner.Location) returns (t: Turn)
      requires Valid()
      requires symbol.Some? ==> IsScanned(symbol.value)
      requires symbol == Some(Scanner.Sym(EOF)) ==> lexer.done
      requires Scanner.LineAligned(lexer.State()) && LinesAgree(variant, yLineNo, yLocation, lStack)
      modifies this, lexer
      ensures t.Go? ==> Scanner.LineAligned(lexer.State()) && LinesAgree(variant, t.yLineNo, t.yLocation, lStack)
      ensures t.Halt? && t.r.Stuck? ==> LinesAgree(variant, t.r.yLineNo, t.r.yLocation, lStack)
      ensures t.Halt? && t.r.Conflict? ==> t.r.line == t.r.yLineNo + 1 && LinesAgree(variant, t.r.yLineNo, yLocation, lStack)
      ensures t.Go? ==>
                && Valid()
                && (t.symbol.Some? ==> IsScanned(t.symbol.value))
                && (t.symbol == Some(Scanner.Sym(EOF)) ==> lexer.done)
                && (|| Rank(lexer.State(), t.symbol) < Rank(old(lexer.State()), symbol)
                    || (&& Rank(lexer.State(), t.symbol) == Rank(old(lexer.State()), symbol)
                        && SeqWeight(StackSymbols(stack)) < SeqWeight(StackSymbols(old(stack)))))
      ensures t.Halt? && t.r.Accepted? ==>
                && WellFormed(t.r.root, IsAssoc(flags)) && lexer.done && lexer.matched == text
                && lexer.State() == old(lexer.State()) && stack == old(stack) && vStack == old(vStack) && lStack == old(lStack)
                && |vStack| >= 2 && t.r.root == vStack[|vStack| - 2]
      ensures !(t.Halt? && t.r.Accepted?) ==>
                && lexer.State() == Fetch(old(lexer.State()), symbol).0
                && Answered(variant, flags, Fetch(old(lexer.State()), symbol).1, yText, yLineNo, yLocation,
                            old(stack), old(vStack), old(lStack), lexer.State(), t, stack, vStack, lStack)
      ensures t.Halt? && t.r.Stuck? ==> StuckAt(t.r.state, t.r.symbol)
      ensures t.Halt? && t.r.Conflict? ==> HasFlag(flags, DETECT_KEY_CONFLICTS)
    {
      var state := stack[|stack| - 1];
      if DefaultAction(state).Some? {
        var root := AcceptTurn(yText, yLineNo);
        return Halt(Accepted(root));
      }
      var lookahead := Lookahead(symbol);
      t := Dispatch(lookahead, yText, yLineNo, yLocation);
    }

    /**
     * The table's answer for the top state and the lookahead
     * (`JsonLinter.php:206-394`): stop at a cell without action, shift the
     * lookahead with the scanner's text and span, or reduce and keep the
     * lookahead.
     */
    method Dispatch(lookahead: Scanner.Tok, yText: string, yLineNo: nat, yLocation: Scanner.Location) returns (t: Turn)
      requires Valid() && DefaultAction(stack[|stack| - 1]).None?
      requires IsScanned(lookahead) && (lookahead == Scanner.Sym(EOF) ==> lexer.done)
      requires Scanner.LineAligned(lexer.State()) && LinesAgree(variant, yLineNo, yLocation, lStack)
      modifies this
      ensures Answered(variant, flags, lookahead, yText, yLineNo, yLocation, old(stack), old(vStack), old(lStack),
                       lexer.State(), t, stack, vStack, lStack)
      ensures t.Go? ==> LinesAgree(variant, t.yLineNo, t.yLocation, lStack)
      ensures t.Halt? && t.r.Stuck? ==> LinesAgree(variant, t.r.yLineNo, t.r.yLocation, lStack)
      ensures t.Halt? && t.r.Conflict? ==> t.r.line == t.r.yLineNo + 1 && LinesAgree(variant, t.r.yLineNo, yLocation, lStack)
      ensures t.Go? ==> Valid()
      ensures t.Go? ==> lookahead != Scanner.Sym(END) && (t.symbol.None? || t.symbol == Some(lookahead))
      ensures t.Go? && t.symbol.Some? ==> SeqWeight(StackSymbols(stack)) < SeqWeight(StackSymbols(old(stack)))
      ensures t.Halt? && t.r.Stuck? ==> StuckAt(t.r.state, t.r.symbol)
      ensures t.Halt? && t.r.Conflict? ==> HasFlag(flags, DETECT_KEY_CONFLICTS)
    {
      var state := stack[|stack| - 1];
      var entry := TableEntry(state, lookahead);
      if entry.None? || entry.value.Goto? {
        return Halt(Stuck(state, lookahead, yLineNo, yLocation));
      }
      EndOfInputCells(state);
      match entry.value
      case Accept =>
        AcceptOnlyInStateOne(state, lookahead.id);
        assert false;
      case Shift(target) =>
        t := ShiftTurn(lookahead.id, target, yLineNo, yLocation);
      case Reduce(p) =>
        ReduceCell(state, lookahead.id, p);
        assert Reducer(6) == 16;
        t := ReduceTurn(p, Some(lookahead), yText, yLineNo, yLocation);
    }

    /**
     * `parse`'s loop (`JsonLinter.php:191-401`, `JsonParser.php:177-371`)
     * with error recovery left out, run from the state `parse` sets up: it
     * stops with the root value once the final production reduces, which
     * only happens once the whole text is consumed; at a state and
     * lookahead the table has no action for, with the line and span of the
     * last shifted token; or at a key DETECT_KEY_CONFLICTS rejects.
     */
    method Run() returns (r: Stop)
      requires Valid() && lexer.State() == Scanner.Initial(text) && lStack == [Located(Scanner.StartLocation)]
      modifies this, lexer
      ensures r.Accepted? ==> WellFormed(r.root, IsAssoc(flags)) && lexer.done && lexer.matched == text
      ensures r.Stuck? ==> StuckAt(r.state, r.symbol) && LinesAgree(variant, r.yLineNo, r.yLocation, lStack)
      ensures r.Conflict? ==>
                && HasFlag(flags, DETECT_KEY_CONFLICTS)
                && r.line == r.yLineNo + 1 && |lStack| > 0 && r.line == LastLine(lStack[|lStack| - 1])
      ensures r.Conflict? ==> exists p, yText :: Rejection(variant, flags, p, yText, r.yLineNo, stack, vStack, lStack, r.key, r.line)
    {
      var symbol: Option<Scanner.Tok> := None;
      var yText, yLineNo, yLocation := "", 0, lexer.yLocation;
      while true
        invariant Valid()
        invariant symbol.Some? ==> IsScanned(symbol.value)
        invariant symbol == Some(Scanner.Sym(EOF)) ==> lexer.done
        invariant Scanner.LineAligned(lexer.State())
        invariant LinesAgree(variant, yLineNo, yLocation, lStack)
        decreases Rank(lexer.State(), symbol), SeqWeight(StackSymbols(stack))
      {
        ghost var la := Fetch(lexer.State(), symbol).1;
        var t := Cycle(symbol, yText, yLineNo, yLocation);
        if t.Halt? {
          if t.r.Conflict? {
            assert Rejection(variant, flags, ReduceBy(stack, la).value, yText, yLineNo, stack, vStack, lStack, t.r.key, t.r.line);
          }
          return t.r;
        }
        symbol, yText, yLineNo, yLocation := t.symbol, t.yText, t.yLineNo, t.yLocation;
      }
    }
  }
}
