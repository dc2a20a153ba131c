/**
 * The constant grammar tables shared by JsonLinter and JsonParser
 * (JsonLinter.php:47-127, JsonParser.php:46-126): symbol ids, terminal
 * names, the 22-entry production table, the 32-state action/goto table and
 * the default actions; plus the LR stack invariant the driver keeps.
 */
module Grammar {
  import opened Wrappers

  // Symbol ids (the `symbols` table).
  const ACCEPT := 0
  const END := 1            // `$end`, what the scanner returns once it is done
  const ERROR := 2
  const JSON_STRING := 3
  const STRING := 4
  const JSON_NUMBER := 5
  const NUMBER := 6
  const JSON_NULL_LITERAL := 7
  const NULL := 8
  const JSON_BOOLEAN_LITERAL := 9
  const TRUE := 10
  const FALSE := 11
  const JSON_TEXT := 12
  const JSON_VALUE := 13
  const EOF := 14
  const JSON_OBJECT := 15
  const JSON_ARRAY := 16
  const LBRACE := 17
  const RBRACE := 18
  const JSON_MEMBER_LIST := 19
  const JSON_MEMBER := 20
  const COLON := 21
  const COMMA := 22
  const LBRACKET := 23
  const RBRACKET := 24
  const JSON_ELEMENT_LIST := 25

  /** The `symbols` table: name to id. */
  const Symbols: map<string, int> := map[
    "error" := 2, "JSONString" := 3, "STRING" := 4, "JSONNumber" := 5, "NUMBER" := 6,
    "JSONNullLiteral" := 7, "NULL" := 8, "JSONBooleanLiteral" := 9, "TRUE" := 10,
    "FALSE" := 11, "JSONText" := 12, "JSONValue" := 13, "EOF" := 14, "JSONObject" := 15,
    "JSONArray" := 16, "{" := 17, "}" := 18, "JSONMemberList" := 19, "JSONMember" := 20,
    ":" := 21, "," := 22, "[" := 23, "]" := 24, "JSONElementList" := 25,
    "$accept" := 0, "$end" := 1]

  /** The `terminals` table: id to name. */
  const Terminals: map<int, string> := map[
    2 := "error", 4 := "STRING", 6 := "NUMBER", 8 := "NULL", 10 := "TRUE", 11 := "FALSE",
    14 := "EOF", 17 := "{", 18 := "}", 21 := ":", 22 := ",", 23 := "[", 24 := "]"]

  /** Membership in `terminals`, spelled out so that it costs the solver no map reasoning. */
  predicate IsTerminal(symbol: int) {
    symbol == 2 || symbol == 4 || symbol == 6 || symbol == 8 || symbol == 10 || symbol == 11 ||
    symbol == 14 || symbol == 17 || symbol == 18 || symbol == 21 || symbol == 22 || symbol == 23 || symbol == 24
  }

  lemma TerminalKeys(symbol: int)
    ensures IsTerminal(symbol) <==> symbol in Terminals
  {
  }

  /** The keys of `terminals`, in the order the table lists them. */
  const TerminalIds: seq<int> := [2, 4, 6, 8, 10, 11, 14, 17, 18, 21, 22, 23, 24]

  /** The `productions` table: (left-hand nonterminal, right-hand length); entry 0 is unused. */
  const Productions: seq<(int, nat)> := [
    (0, 0), (3, 1), (5, 1), (7, 1), (9, 1), (9, 1), (12, 2), (13, 1), (13, 1), (13, 1),
    (13, 1), (13, 1), (13, 1), (15, 2), (15, 3), (20, 3), (19, 1), (19, 3), (16, 2),
    (16, 3), (25, 1), (25, 3)]

  predicate IsProduction(p: int) { 1 <= p <= 21 }

  /** The left-hand nonterminal of production p, as `productions[p][0]`. */
  function Lhs(p: int): int
    requires IsProduction(p)
  {
    match p
    case 1 => JSON_STRING
    case 2 => JSON_NUMBER
    case 3 => JSON_NULL_LITERAL
    case 4 | 5 => JSON_BOOLEAN_LITERAL
    case 6 => JSON_TEXT
    case 7 | 8 | 9 | 10 | 11 | 12 => JSON_VALUE
    case 13 | 14 => JSON_OBJECT
    case 15 => JSON_MEMBER
    case 16 | 17 => JSON_MEMBER_LIST
    case 18 | 19 => JSON_ARRAY
    case 20 | 21 => JSON_ELEMENT_LIST
  }

  /** The length of production p's right-hand side, as `productions[p][1]`. */
  function Len(p: int): nat
    requires IsProduction(p)
  {
    match p
    case 6 | 13 | 18 => 2
    case 14 | 15 | 17 | 19 | 21 => 3
    case _ => 1
  }

  /** `Lhs` and `Len` read the `productions` table. */
  lemma ProductionsTable(p: int)
    requires IsProduction(p)
    ensures p < |Productions| && Productions[p] == (Lhs(p), Len(p))
  {
  }

  /**
   * The right-hand sides of the grammar the tables were generated from
   * (the table itself records only their lengths).
   */
  function Rhs(p: int): (rhs: seq<int>)
    requires IsProduction(p)
  {
    match p
    case 1 => [STRING]
    case 2 => [NUMBER]
    case 3 => [NULL]
    case 4 => [TRUE]
    case 5 => [FALSE]
    case 6 => [JSON_VALUE, EOF]
    case 7 => [JSON_NULL_LITERAL]
    case 8 => [JSON_BOOLEAN_LITERAL]
    case 9 => [JSON_STRING]
    case 10 => [JSON_NUMBER]
    case 11 => [JSON_OBJECT]
    case 12 => [JSON_ARRAY]
    case 13 => [LBRACE, RBRACE]
    case 14 => [LBRACE, JSON_MEMBER_LIST, RBRACE]
    case 15 => [JSON_STRING, COLON, JSON_VALUE]
    case 16 => [JSON_MEMBER]
    case 17 => [JSON_MEMBER_LIST, COMMA, JSON_MEMBER]
    case 18 => [LBRACKET, RBRACKET]
    case 19 => [LBRACKET, JSON_ELEMENT_LIST, RBRACKET]
    case 20 => [JSON_VALUE]
    case 21 => [JSON_ELEMENT_LIST, COMMA, JSON_VALUE]
  }

  /** A table cell: `[1, s]` shift, `[2, p]` reduce, `[3]` accept, or a bare state number (goto). */
  datatype Entry = Shift(target: nat) | Reduce(production: nat) | Accept | Goto(target: nat)

  const StateCount := 32

  predicate IsState(s: int) { 0 <= s < StateCount }

  /**
   * The action/goto `table`: the cell of `state` for `symbol`, `None` where
   * the row has no such key (`isset($this->table[$state][$symbol])` is false).
   */
  function Lookup(state: int, symbol: int): Option<Entry> {
    match state
    case 0 =>
      if symbol == 3 then Some(Goto(5))
      else if symbol == 4 then Some(Shift(12))
      else if symbol == 5 then Some(Goto(6))
      else if symbol == 6 then Some(Shift(13))
      else if symbol == 7 then Some(Goto(3))
      else if symbol == 8 then Some(Shift(9))
      else if symbol == 9 then Some(Goto(4))
      else if symbol == 10 then Some(Shift(10))
      else if symbol == 11 then Some(Shift(11))
      else if symbol == 12 then Some(Goto(1))
      else if symbol == 13 then Some(Goto(2))
      else if symbol == 15 then Some(Goto(7))
      else if symbol == 16 then Some(Goto(8))
      else if symbol == 17 then Some(Shift(14))
      else if symbol == 23 then Some(Shift(15))
      else None
    case 1 =>
      if symbol == 1 then Some(Accept)
      else None
    case 2 =>
      if symbol == 14 then Some(Shift(16))
      else None
    case 3 =>
      if symbol == 14 || symbol == 18 || symbol == 22 || symbol == 24 then Some(Reduce(7))
      else None
    case 4 =>
      if symbol == 14 || symbol == 18 || symbol == 22 || symbol == 24 then Some(Reduce(8))
      else None
    case 5 =>
      if symbol == 14 || symbol == 18 || symbol == 22 || symbol == 24 then Some(Reduce(9))
      else None
    case 6 =>
      if symbol == 14 || symbol == 18 || symbol == 22 || symbol == 24 then Some(Reduce(10))
      else None
    case 7 =>
      if symbol == 14 || symbol == 18 || symbol == 22 || symbol == 24 then Some(Reduce(11))
      else None
    case 8 =>
      if symbol == 14 || symbol == 18 || symbol == 22 || symbol == 24 then Some(Reduce(12))
      else None
    case 9 =>
      if symbol == 14 || symbol == 18 || symbol == 22 || symbol == 24 then Some(Reduce(3))
      else None
    case 10 =>
      if symbol == 14 || symbol == 18 || symbol == 22 || symbol == 24 then Some(Reduce(4))
      else None
    case 11 =>
      if symbol == 14 || symbol == 18 || symbol == 22 || symbol == 24 then Some(Reduce(5))
      else None
    case 12 =>
      if symbol == 14 || symbol == 18 || symbol == 21 || symbol == 22 || symbol == 24 then Some(Reduce(1))
      else None
    case 13 =>
      if symbol == 14 || symbol == 18 || symbol == 22 || symbol == 24 then Some(Reduce(2))
      else None
    case 14 =>
      if symbol == 3 then Some(Goto(20))
      else if symbol == 4 then Some(Shift(12))
      else if symbol == 18 then Some(Shift(17))
      else if symbol == 19 then Some(Goto(18))
      else if symbol == 20 then Some(Goto(19))
      else None
    case 15 =>
      if symbol == 3 then Some(Goto(5))
      else if symbol == 4 then Some(Shift(12))
      else if symbol == 5 then Some(Goto(6))
      else if symbol == 6 then Some(Shift(13))
      else if symbol == 7 then Some(Goto(3))
      else if symbol == 8 then Some(Shift(9))
      else if symbol == 9 then Some(Goto(4))
      else if symbol == 10 then Some(Shift(10))
      else if symbol == 11 then Some(Shift(11))
      else if symbol == 13 then Some(Goto(23))
      else if symbol == 15 then Some(Goto(7))
      else if symbol == 16 then Some(Goto(8))
      else if symbol == 17 then Some(Shift(14))
      else if symbol == 23 then Some(Shift(15))
      else if symbol == 24 then Some(Shift(21))
      else if symbol == 25 then Some(Goto(22))
      else None
    case 16 =>
      if symbol == 1 then Some(Reduce(6))
      else None
    case 17 =>
      if symbol == 14 || symbol == 18 || symbol == 22 || symbol == 24 then Some(Reduce(13))
      else None
    case 18 =>
      if symbol == 18 then Some(Shift(24))
      else if symbol == 22 then Some(Shift(25))
      else None
    case 19 =>
      if symbol == 18 || symbol == 22 then Some(Reduce(16))
      else None
    case 20 =>
      if symbol == 21 then Some(Shift(26))
      else None
    case 21 =>
      if symbol == 14 || symbol == 18 || symbol == 22 || symbol == 24 then Some(Reduce(18))
      else None
    case 22 =>
      if symbol == 22 then Some(Shift(28))
      else if symbol == 24 then Some(Shift(27))
      else None
    case 23 =>
      if symbol == 22 || symbol == 24 then Some(Reduce(20))
      else None
    case 24 =>
      if symbol == 14 || symbol == 18 || symbol == 22 || symbol == 24 then Some(Reduce(14))
      else None
    case 25 =>
      if symbol == 3 then Some(Goto(20))
      else if symbol == 4 then Some(Shift(12))
      else if symbol == 20 then Some(Goto(29))
      else None
    case 26 =>
      if symbol == 3 then Some(Goto(5))
      else if symbol == 4 then Some(Shift(12))
      else if symbol == 5 then Some(Goto(6))
      else if symbol == 6 then Some(Shift(13))
      else if symbol == 7 then Some(Goto(3))
      else if symbol == 8 then Some(Shift(9))
      else if symbol == 9 then Some(Goto(4))
      else if symbol == 10 then Some(Shift(10))
      else if symbol == 11 then Some(Shift(11))
      else if symbol == 13 then Some(Goto(30))
      else if symbol == 15 then Some(Goto(7))
      else if symbol == 16 then Some(Goto(8))
      else if symbol == 17 then Some(Shift(14))
      else if symbol == 23 then Some(Shift(15))
      else None
    case 27 =>
      if symbol == 14 || symbol == 18 || symbol == 22 || symbol == 24 then Some(Reduce(19))
      else None
    case 28 =>
      if symbol == 3 then Some(Goto(5))
      else if symbol == 4 then Some(Shift(12))
      else if symbol == 5 then Some(Goto(6))
      else if symbol == 6 then Some(Shift(13))
      else if symbol == 7 then Some(Goto(3))
      else if symbol == 8 then Some(Shift(9))
      else if symbol == 9 then Some(Goto(4))
      else if symbol == 10 then Some(Shift(10))
      else if symbol == 11 then Some(Shift(11))
      else if symbol == 13 then Some(Goto(31))
      else if symbol == 15 then Some(Goto(7))
      else if symbol == 16 then Some(Goto(8))
      else if symbol == 17 then Some(Shift(14))
      else if symbol == 23 then Some(Shift(15))
      else None
    case 29 =>
      if symbol == 18 || symbol == 22 then Some(Reduce(17))
      else None
    case 30 =>
      if symbol == 18 || symbol == 22 then Some(Reduce(15))
      else None
    case 31 =>
      if symbol == 22 || symbol == 24 then Some(Reduce(21))
      else None
    case _ => None
  }

  /** The `defaultActions` table: state 16 reduces by production 6 without a lookahead. */
  function DefaultAction(state: int): Option<Entry> {
    if state == 16 then Some(Reduce(6)) else None
  }

  /** The state entered from `state` on `symbol`, by a shift or a goto. */
  function Transition(state: int, symbol: int): Option<nat> {
    match Lookup(state, symbol)
    case Some(Shift(t)) => Some(t)
    case Some(Goto(t)) => Some(t)
    case _ => None
  }

  /** The symbol on which each state is entered (every state has exactly one). */
  function Accessing(state: int): int {
    match state
    case 1 => JSON_TEXT
    case 2 => JSON_VALUE
    case 3 => JSON_NULL_LITERAL
    case 4 => JSON_BOOLEAN_LITERAL
    case 5 => JSON_STRING
    case 6 => JSON_NUMBER
    case 7 => JSON_OBJECT
    case 8 => JSON_ARRAY
    case 9 => NULL
    case 10 => TRUE
    case 11 => FALSE
    case 12 => STRING
    case 13 => NUMBER
    case 14 => LBRACE
    case 15 => LBRACKET
    case 16 => EOF
    case 17 => RBRACE
    case 18 => JSON_MEMBER_LIST
    case 19 => JSON_MEMBER
    case 20 => JSON_STRING
    case 21 => RBRACKET
    case 22 => JSON_ELEMENT_LIST
    case 23 => JSON_VALUE
    case 24 => RBRACE
    case 25 => COMMA
    case 26 => COLON
    case 27 => RBRACKET
    case 28 => COMMA
    case 29 => JSON_MEMBER
    case 30 => JSON_VALUE
    case 31 => JSON_VALUE
    case _ => ACCEPT
  }

  /** The states from which each state can be entered. */
  predicate Precedes(below: int, state: int) {
    match state
    case 1 | 2 => below == 0
    case 3 | 4 | 5 | 6 | 7 | 8 | 9 | 10 | 11 | 13 | 14 | 15 =>
      below == 0 || below == 15 || below == 26 || below == 28
    case 12 => below == 0 || below == 14 || below == 15 || below == 25 || below == 26 || below == 28
    case 16 => below == 2
    case 17 | 18 | 19 => below == 14
    case 20 => below == 14 || below == 25
    case 21 | 22 | 23 => below == 15
    case 24 | 25 => below == 18
    case 26 => below == 20
    case 27 | 28 => below == 22
    case 29 => below == 25
    case 30 => below == 26
    case 31 => below == 28
    case _ => false
  }

  /** Every transition lands in a state, on that state's accessing symbol, from one of its predecessors. */
  lemma TransitionInto(state: int, symbol: int, target: nat)
    requires Transition(state, symbol) == Some(target)
    ensures IsState(state) && IsState(target)
    ensures symbol == Accessing(target) && Precedes(state, target)
  {
  }

  /** The only cell that accepts is (1, $end); $end has no other entry outside default-action state 16. */
  lemma EndOfInputCells(state: int)
    ensures Lookup(state, END).Some? <==> state == 1 || state == 16
    ensures Lookup(state, END) == Some(Accept) <==> state == 1
  {
  }

  lemma AcceptOnlyInStateOne(state: int, symbol: int)
    requires Lookup(state, symbol) == Some(Accept)
    ensures state == 1 && symbol == END
  {
  }

  /** Only production 6 reduces to JSONText; no production reduces to a terminal. */
  lemma LhsIsNonterminal(p: int)
    requires IsProduction(p)
    ensures !IsTerminal(Lhs(p)) && Lhs(p) != END
    ensures Lhs(p) == JSON_TEXT <==> p == 6
  {
  }

  /**
   * `state` is entered on `symbol` from `below`, as the accessing symbols and
   * predecessor sets say; by `LinkedIsTransition` this is exactly the table's transition.
   */
  predicate Linked(below: int, symbol: int, state: int) {
    0 < state < StateCount && symbol == Accessing(state) && Precedes(below, state)
  }

  lemma LinkedIsTransition(below: int, symbol: int, state: int)
    ensures Linked(below, symbol, state) <==> Transition(below, symbol) == Some(state)
  {
    if Transition(below, symbol) == Some(state) {
      TransitionInto(below, symbol, state);
    }
  }

  /**
   * The interleaved state stack `[s0, X1, s1, ..., Xn, sn]` of a run:
   * it starts in state 0 and every `si` is entered from `s(i-1)` on `Xi`.
   */
  ghost predicate ValidStack(st: seq<int>)
    decreases |st|
  {
    if |st| == 1 then st[0] == 0
    else |st| >= 3 && ValidStack(st[..|st| - 2]) && Linked(st[|st| - 3], st[|st| - 2], st[|st| - 1])
  }

  /** The grammar symbols of a state stack, bottom first. */
  function StackSymbols(st: seq<int>): (syms: seq<int>)
    ensures |syms| == |st| / 2
    decreases |st|
  {
    if |st| < 2 then [] else StackSymbols(st[..|st| - 2]) + [st[|st| - 2]]
  }

  lemma {:induction false} ValidStackShape(st: seq<int>)
    requires ValidStack(st)
    ensures |st| % 2 == 1 && IsState(st[|st| - 1])
    decreases |st|
  {
    if |st| > 1 {
      ValidStackShape(st[..|st| - 2]);
    }
  }

  /** Pushing a symbol and the state the table leads to keeps the stack valid. */
  lemma PushKeepsValid(st: seq<int>, symbol: int, target: nat)
    requires ValidStack(st) && Transition(st[|st| - 1], symbol) == Some(target)
    ensures ValidStack(st + [symbol, target])
    ensures StackSymbols(st + [symbol, target]) == StackSymbols(st) + [symbol]
  {
    var st' := st + [symbol, target];
    assert st'[..|st'| - 2] == st;
    LinkedIsTransition(st[|st| - 1], symbol, target);
  }

  /** Popping whole (symbol, state) frames keeps the stack valid and drops the top symbols. */
  lemma {:induction false} PopKeepsValid(st: seq<int>, n: nat)
    requires ValidStack(st) && 2 * n < |st|
    ensures ValidStack(st[..|st| - 2 * n])
    ensures StackSymbols(st) == StackSymbols(st[..|st| - 2 * n]) + StackSymbols(st)[|StackSymbols(st)| - n..]
    decreases n
  {
    if n == 0 {
      assert st[..|st|] == st;
    } else {
      var st1 := st[..|st| - 2];
      Frame(st);
      PopKeepsValid(st1, n - 1);
      assert st1[..|st1| - 2 * (n - 1)] == st[..|st| - 2 * n];
      var ss1 := StackSymbols(st1);
      SuffixSnoc(ss1, st[|st| - 2], n - 1);
      AppendAssoc(StackSymbols(st[..|st| - 2 * n]), ss1[|ss1| - (n - 1)..], [st[|st| - 2]]);
    }
  }

  /** The weight of a symbol: each reduction replaces its right-hand side by something lighter. */
  function Weight(symbol: int): nat {
    if IsTerminal(symbol) || symbol == END then 3
    else if symbol in {JSON_STRING, JSON_NUMBER, JSON_NULL_LITERAL, JSON_BOOLEAN_LITERAL, JSON_OBJECT, JSON_ARRAY} then 2
    else if symbol in {JSON_VALUE, JSON_MEMBER} then 1
    else 0
  }

  function SeqWeight(syms: seq<int>): nat {
    if syms == [] then 0 else SeqWeight(syms[..|syms| - 1]) + Weight(syms[|syms| - 1])
  }

  /** Reductions make progress: a production's left side weighs less than its right side. */
  lemma ReductionIsLighter(p: int)
    requires IsProduction(p)
    ensures Weight(Lhs(p)) < SeqWeight(Rhs(p))
  {
  }

  lemma {:induction false} SeqWeightAppend(a: seq<int>, b: seq<int>)
    ensures SeqWeight(a + b) == SeqWeight(a) + SeqWeight(b)
    decreases |b|
  {
    if b == [] {
      assert a + b == a;
    } else {
      SeqWeightAppend(a, b[..|b| - 1]);
      assert (a + b)[..|a + b| - 1] == a + b[..|b| - 1];
    }
  }

  /**
   * The states on top of the stack when production p is reduced, bottom
   * first: the last is the one state that reduces by p, and each is entered
   * on the matching symbol of rhs(p).
   */
  function Chain(p: int): (c: seq<int>)
    requires IsProduction(p)
  {
    match p
    case 1 => [12]
    case 2 => [13]
    case 3 => [9]
    case 4 => [10]
    case 5 => [11]
    case 6 => [2, 16]
    case 7 => [3]
    case 8 => [4]
    case 9 => [5]
    case 10 => [6]
    case 11 => [7]
    case 12 => [8]
    case 13 => [14, 17]
    case 14 => [14, 18, 24]
    case 15 => [20, 26, 30]
    case 16 => [19]
    case 17 => [18, 25, 29]
    case 18 => [15, 21]
    case 19 => [15, 22, 27]
    case 20 => [23]
    case 21 => [22, 28, 31]
  }

  /** The state that reduces by p: the last state of `Chain(p)`. */
  function Reducer(p: int): int
    requires IsProduction(p)
  {
    match p
    case 1 => 12
    case 2 => 13
    case 3 => 9
    case 4 => 10
    case 5 => 11
    case 6 => 16
    case 7 => 3
    case 8 => 4
    case 9 => 5
    case 10 => 6
    case 11 => 7
    case 12 => 8
    case 13 => 17
    case 14 => 24
    case 15 => 30
    case 16 => 19
    case 17 => 29
    case 18 => 21
    case 19 => 27
    case 20 => 23
    case 21 => 31
  }

  /** Every reduce cell of the table, and the default action, names a production and sits in its reducing state. */
  lemma ReduceCell(state: int, symbol: int, p: nat)
    requires Lookup(state, symbol) == Some(Reduce(p)) || DefaultAction(state) == Some(Reduce(p))
    ensures IsProduction(p) && state == Reducer(p)
  {
  }

  /** The accessing symbols of a sequence of states. */
  function AccessingAll(c: seq<int>): (syms: seq<int>)
    ensures |syms| == |c|
  {
    seq(|c|, i requires 0 <= i < |c| => Accessing(c[i]))
  }

  /** The table facts behind `ReduceShape`, production by production. */
  lemma ChainFacts(p: int)
    requires IsProduction(p)
    ensures 1 <= |Chain(p)| == Len(p) && AccessingAll(Chain(p)) == Rhs(p)
    ensures Chain(p)[|Chain(p)| - 1] == Reducer(p)
    ensures forall i :: 0 <= i < |Chain(p)| ==> Chain(p)[i] != 0
    ensures forall i, b :: 0 < i < |Chain(p)| && Precedes(b, Chain(p)[i]) ==> b == Chain(p)[i - 1]
    ensures p != 6 ==> forall b :: Precedes(b, Chain(p)[0]) ==> Transition(b, Lhs(p)).Some?
  {
  }

  /**
   * The LR property of the table: when the reducing state of production p is
   * on top of a valid stack, the top |rhs(p)| symbols are exactly rhs(p) and,
   * unless p is the final production 6, the state uncovered below them has a
   * transition on lhs(p).
   */
  lemma ReduceShape(st: seq<int>, p: int)
    requires ValidStack(st) && IsProduction(p) && st[|st| - 1] == Reducer(p)
    ensures |st| >= 2 * Len(p) + 1
    ensures StackSymbols(st)[|StackSymbols(st)| - Len(p)..] == Rhs(p)
    ensures p != 6 ==> Transition(st[|st| - 2 * Len(p) - 1], Lhs(p)).Some?
  {
    ChainFacts(p);
    var c := Chain(p);
    TopFollowsChain(st, c);
    var below := st[|st| - 2 * |c| - 1];
    assert Precedes(below, c[0]);
  }

  /** The state a reduction by p uncovers: the one below the top Len(p) frames. */
  function Uncovered(st: seq<int>, p: int): int
    requires IsProduction(p) && 2 * Len(p) < |st|
  {
    st[|st| - 2 * Len(p) - 1]
  }

  /**
   * The state stack after a reduction by p: the top Len(p) frames give way
   * to lhs(p) and the state the table leads to from the uncovered state.
   */
  function AfterReduce(st: seq<int>, p: int): seq<int>
    requires IsProduction(p) && 2 * Len(p) < |st| && Transition(Uncovered(st, p), Lhs(p)).Some?
  {
    st[..|st| - 2 * Len(p)] + [Lhs(p), Transition(Uncovered(st, p), Lhs(p)).value]
  }

  /**
   * A whole reduction by p on a valid stack: popping the right-hand side
   * and pushing lhs(p) with the state the table leads to leaves a valid,
   * lighter stack whose top is neither the accepting state 1 nor the EOF
   * state 16.
   */
  lemma ReduceStack(st: seq<int>, p: int)
    requires ValidStack(st) && IsProduction(p) && p != 6 && st[|st| - 1] == Reducer(p)
    ensures 2 * Len(p) < |st| && Transition(Uncovered(st, p), Lhs(p)).Some?
    ensures ValidStack(AfterReduce(st, p))
    ensures StackSymbols(AfterReduce(st, p)) == StackSymbols(st)[..|StackSymbols(st)| - Len(p)] + [Lhs(p)]
    ensures SeqWeight(StackSymbols(AfterReduce(st, p))) < SeqWeight(StackSymbols(st))
    ensures Transition(Uncovered(st, p), Lhs(p)).value != 1 && Transition(Uncovered(st, p), Lhs(p)).value != 16
  {
    var len := Len(p);
    ReduceShape(st, p);
    LhsIsNonterminal(p);
    PopKeepsValid(st, len);
    var below := st[..|st| - 2 * len];
    var syms := StackSymbols(st);
    assert below[|below| - 1] == Uncovered(st, p);
    var target := Transition(below[|below| - 1], Lhs(p)).value;
    TransitionInto(below[|below| - 1], Lhs(p), target);
    PushKeepsValid(below, Lhs(p), target);
    assert syms == StackSymbols(below) + syms[|syms| - len..];
    assert StackSymbols(below) == syms[..|syms| - len];
    SeqWeightAppend(StackSymbols(below), syms[|syms| - len..]);
    SeqWeightAppend(StackSymbols(below), [Lhs(p)]);
    ReductionIsLighter(p);
    assert SeqWeight([Lhs(p)]) == Weight(Lhs(p));
  }

  /** The top frame of a valid stack above the bottom: what lies below it is valid and linked to it. */
  lemma TopFrame(st: seq<int>)
    requires ValidStack(st) && st[|st| - 1] != 0
    ensures |st| >= 3
    ensures ValidStack(st[..|st| - 2]) && Linked(st[|st| - 3], st[|st| - 2], st[|st| - 1])
    ensures StackSymbols(st) == StackSymbols(st[..|st| - 2]) + [st[|st| - 2]]
  {
    Frame(st);
  }

  /** The top (symbol, state) frame of a valid stack that has one. */
  lemma Frame(st: seq<int>)
    requires ValidStack(st) && |st| >= 3
    ensures ValidStack(st[..|st| - 2]) && Linked(st[|st| - 3], st[|st| - 2], st[|st| - 1])
    ensures StackSymbols(st) == StackSymbols(st[..|st| - 2]) + [st[|st| - 2]]
  {
  }

  lemma AppendAssoc(a: seq<int>, b: seq<int>, c: seq<int>)
    ensures a + (b + c) == (a + b) + c
  {
  }

  /** The accessing symbols of a chain end with those of its last state. */
  lemma AccessingAllSnoc(c: seq<int>)
    requires |c| >= 1
    ensures AccessingAll(c) == AccessingAll(c[..|c| - 1]) + [Accessing(c[|c| - 1])]
  {
    var c1 := c[..|c| - 1];
    assert forall i :: 0 <= i < |c1| ==> AccessingAll(c)[i] == Accessing(c1[i]);
  }

  /** The last k + 1 entries of a + [x]. */
  lemma SuffixSnoc(a: seq<int>, x: int, k: nat)
    requires k <= |a|
    ensures (a + [x])[|a + [x]| - (k + 1)..] == a[|a| - k..] + [x]
  {
  }

  /**
   * When the top state of a valid stack ends a chain of states, each of
   * which can only be entered from the one before it, the stack holds the
   * whole chain and the chain's accessing symbols.
   */
  lemma {:induction false} TopFollowsChain(st: seq<int>, c: seq<int>)
    requires ValidStack(st) && 1 <= |c| && st[|st| - 1] == c[|c| - 1]
    requires forall i :: 0 <= i < |c| ==> c[i] != 0
    requires forall i, b :: 0 < i < |c| && Precedes(b, c[i]) ==> b == c[i - 1]
    ensures |st| >= 2 * |c| + 1
    ensures StackSymbols(st)[|StackSymbols(st)| - |c|..] == AccessingAll(c)
    ensures Precedes(st[|st| - 2 * |c| - 1], c[0])
    decreases |c|
  {
    TopFrame(st);
    var st1 := st[..|st| - 2];
    var c1 := c[..|c| - 1];
    AccessingAllSnoc(c);
    if |c| > 1 {
      assert Precedes(st[|st| - 3], c[|c| - 1]);
      assert st1[|st1| - 1] == c1[|c1| - 1];
      TopFollowsChain(st1, c1);
      assert st[|st| - 2 * |c| - 1] == st1[|st1| - 2 * |c1| - 1];
    }
    SuffixSnoc(StackSymbols(st1), st[|st| - 2], |c1|);
  }

  /** The k-th frame from the top of a valid stack, when its state is not the bottom state 0. */
  lemma FrameAt(st: seq<int>, k: nat)
    requires ValidStack(st) && |st| >= 2 * k + 1 && st[|st| - 2 * k - 1] != 0
    ensures |st| >= 2 * k + 3
    ensures Linked(st[|st| - 2 * k - 3], st[|st| - 2 * k - 2], st[|st| - 2 * k - 1])
    ensures StackSymbols(st)[|StackSymbols(st)| - k - 1] == st[|st| - 2 * k - 2]
  {
    PopKeepsValid(st, k);
    var st' := st[..|st| - 2 * k];
    assert StackSymbols(st') == StackSymbols(st'[..|st'| - 2]) + [st'[|st'| - 2]];
  }

  /**
   * The expected-token list of the error report: the name of every terminal
   * id above 2 that has an entry in the state's row, in table order.
   */
  function Expected(state: int): (names: seq<string>)
    ensures forall n :: n in names <==> exists id :: id in TerminalIds && id > ERROR && Lookup(state, id).Some? && n == Terminals[id]
  {
    ExpectedAmong(state, TerminalIds)
  }

  function ExpectedAmong(state: int, ids: seq<int>): (names: seq<string>)
    requires forall id :: id in ids ==> id in Terminals
    ensures forall n :: n in names <==> exists id :: id in ids && id > ERROR && Lookup(state, id).Some? && n == Terminals[id]
  {
    if ids == [] then []
    else
      var rest := ExpectedAmong(state, ids[1..]);
      assert forall id :: id in ids <==> id == ids[0] || id in ids[1..];
      if ids[0] > ERROR && Lookup(state, ids[0]).Some? then [Terminals[ids[0]]] + rest else rest
  }
}
