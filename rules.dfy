/**
 * The fourteen anchored rules of the scanner (Lexer.php:18-33), each as a
 * prefix matcher that yields the length PCRE would match at the start of the
 * remaining input, or None. Characters stand for the bytes of a PHP string.
 */
module Rules {
  import opened Wrappers

  const RuleCount := 14

  const WHITESPACE_RULE := 0
  const NUMBER_RULE := 1
  const STRING_RULE := 2
  const END_RULE := 12
  const ANY_RULE := 13

  predicate IsDigit(c: char) { '0' <= c <= '9' }

  predicate IsHexDigit(c: char) { IsDigit(c) || 'a' <= c <= 'f' || 'A' <= c <= 'F' }

  /** PCRE `\w` outside UTF mode. */
  predicate IsWordChar(c: char) { IsDigit(c) || 'a' <= c <= 'z' || 'A' <= c <= 'Z' || c == '_' }

  /** PCRE `\s` outside UTF mode: space, tab, line feed, vertical tab, form feed, carriage return. */
  predicate IsSpace(c: char) {
    c == ' ' || c == '\t' || c == '\n' || c == 11 as char || c == 12 as char || c == '\r'
  }

  /** The characters that may follow a backslash in a short escape: `" b f n r t / \`. */
  predicate IsShortEscape(c: char) {
    c == '"' || c == 'b' || c == 'f' || c == 'n' || c == 'r' || c == 't' || c == '/' || c == '\\'
  }

  /** A character a string may hold literally: not a control character, not `"`, not `\`. */
  predicate IsPlain(c: char) { c >= ' ' && c != '"' && c != '\\' }

  /** `\b` right after a word character at position k: the text ends there or a non-word character follows. */
  predicate BoundaryAt(s: string, k: nat)
    requires k <= |s|
  {
    k == |s| || !IsWordChar(s[k])
  }

  /** The length of the run of digits starting at i. */
  function DigitsFrom(s: string, i: nat): (n: nat)
    requires i <= |s|
    ensures i + n <= |s|
    ensures forall k :: i <= k < i + n ==> IsDigit(s[k])
    ensures i + n == |s| || !IsDigit(s[i + n])
    decreases |s| - i
  {
    if i < |s| && IsDigit(s[i]) then 1 + DigitsFrom(s, i + 1) else 0
  }

  /** The length of the run of `\s` characters at the start of s. */
  function SpacesFrom(s: string, i: nat): (n: nat)
    requires i <= |s|
    ensures i + n <= |s|
    ensures forall k :: i <= k < i + n ==> IsSpace(s[k])
    ensures i + n == |s| || !IsSpace(s[i + n])
    decreases |s| - i
  {
    if i < |s| && IsSpace(s[i]) then 1 + SpacesFrom(s, i + 1) else 0
  }

  // ---------------------------------------------------------------------
  // Rule 0: `^\s+`

  function MatchWhitespace(s: string): (r: Option<nat>)
    ensures r.Some? <==> |s| > 0 && IsSpace(s[0])
    ensures r.Some? ==> 0 < r.value <= |s| && (forall k :: 0 <= k < r.value ==> IsSpace(s[k]))
                        && (r.value == |s| || !IsSpace(s[r.value]))
  {
    var n := SpacesFrom(s, 0);
    if n > 0 then Some(n) else None
  }

  // ---------------------------------------------------------------------
  // Rule 1: `^-?([0-9]|[1-9][0-9]+)(\.[0-9]+)?([eE][+-]?[0-9]+)?\b`

  /** The length of the greedy fraction `\.[0-9]+` at q, or 0 when there is none. */
  function FractionAt(s: string, q: nat): (f: nat)
    requires q <= |s|
    ensures q + f <= |s|
  {
    if q < |s| && s[q] == '.' && DigitsFrom(s, q + 1) > 0 then 1 + DigitsFrom(s, q + 1) else 0
  }

  /** The length of the greedy exponent `[eE][+-]?[0-9]+` at q, or 0 when there is none. */
  function ExponentAt(s: string, q: nat): (x: nat)
    requires q <= |s|
    ensures q + x <= |s|
  {
    if q < |s| && (s[q] == 'e' || s[q] == 'E') then
      var sign := if q + 1 < |s| && (s[q + 1] == '+' || s[q + 1] == '-') then 1 else 0;
      var d := DigitsFrom(s, q + 1 + sign);
      if d > 0 then 1 + sign + d else 0
    else 0
  }

  /** 1 when the text starts with a minus sign, else 0. */
  function SignLength(s: string): (n: nat)
    ensures n <= |s|
  {
    if |s| > 0 && s[0] == '-' then 1 else 0
  }

  /** `[0-9]|[1-9][0-9]+` can cover the digit run after the sign only if it is one digit or does not start with 0. */
  predicate IntRunOk(s: string) {
    var d := DigitsFrom(s, SignLength(s));
    d > 0 && !(d >= 2 && s[SignLength(s)] == '0')
  }

  /** The first of "integer, fraction and exponent", "integer and fraction", "integer" that ends at a word boundary. */
  function PickNumberEnd(s: string, i: nat, f: nat, x: nat): (r: Option<nat>)
    requires i + f + x <= |s|
    ensures r.Some? ==> i <= r.value <= i + f + x && BoundaryAt(s, r.value)
  {
    if x > 0 && BoundaryAt(s, i + f + x) then Some(i + f + x)
    else if f > 0 && BoundaryAt(s, i + f) then Some(i + f)
    else if BoundaryAt(s, i) then Some(i)
    else None
  }

  /**
   * The backtracking outcome of the number rule: the integer part is the
   * whole digit run (a single `0`, or a run not starting with `0`), and the
   * longest of the greedy alternatives that ends at a word boundary is the match.
   */
  function MatchNumber(s: string): (r: Option<nat>)
    ensures r.Some? ==> 0 < r.value <= |s|
  {
    if !IntRunOk(s) then None
    else
      var i := SignLength(s) + DigitsFrom(s, SignLength(s));
      var f := FractionAt(s, i);
      PickNumberEnd(s, i, f, ExponentAt(s, i + f))
  }

  // The number grammar of section 6 of RFC 8259, as an independent reference,
  // stated over index ranges [lo, hi) of a text t.

  predicate DigitsIn(t: string, lo: int, hi: int)
    requires 0 <= lo <= hi <= |t|
  {
    forall k :: lo <= k < hi ==> IsDigit(t[k])
  }

  /** int = zero / ( digit1-9 *DIGIT ) */
  predicate IsIntPart(t: string, lo: int, hi: int)
    requires 0 <= lo <= hi <= |t|
  {
    (hi == lo + 1 && t[lo] == '0') || (hi > lo && '1' <= t[lo] <= '9' && DigitsIn(t, lo, hi))
  }

  /** frac = decimal-point 1*DIGIT */
  predicate IsFracPart(t: string, lo: int, hi: int)
    requires 0 <= lo <= hi <= |t|
  {
    hi >= lo + 2 && t[lo] == '.' && DigitsIn(t, lo + 1, hi)
  }

  /** exp = e [ minus / plus ] 1*DIGIT */
  predicate IsExpPart(t: string, lo: int, hi: int)
    requires 0 <= lo <= hi <= |t|
  {
    hi >= lo + 2 && (t[lo] == 'e' || t[lo] == 'E')
    && ((IsDigit(t[lo + 1]) && DigitsIn(t, lo + 1, hi))
        || ((t[lo + 1] == '+' || t[lo + 1] == '-') && hi >= lo + 3 && DigitsIn(t, lo + 2, hi)))
  }

  /**
   * number = [ minus ] int [ frac ] [ exp ] occupies t[..n], split at a (after
   * the sign), b (after int) and c (after frac).
   */
  predicate NumberShape(t: string, n: int, a: int, b: int, c: int) {
    0 <= a <= b <= c <= n <= |t| && (a == 0 || (a == 1 && t[0] == '-'))
    && IsIntPart(t, a, b) && (c == b || IsFracPart(t, b, c)) && (c == n || IsExpPart(t, c, n))
  }

  ghost predicate IsJsonNumber(t: string) {
    exists a, b, c :: NumberShape(t, |t|, a, b, c)
  }

  /** A number shape in the prefix t[..n] is the same shape read in t itself. */
  lemma ShapeOfPrefix(s: string, n: nat, a: int, b: int, c: int)
    requires n <= |s|
    ensures NumberShape(s, n, a, b, c) <==> NumberShape(s[..n], |s[..n]|, a, b, c)
  {
    var t := s[..n];
    assert |t| == n;
    assert forall k :: 0 <= k < n ==> t[k] == s[k];
  }

  /** A shape found in t itself makes the prefix t[..n] a number. */
  lemma PrefixIsNumber(s: string, n: nat, a: int, b: int, c: int)
    requires NumberShape(s, n, a, b, c)
    ensures IsJsonNumber(s[..n])
  {
    ShapeOfPrefix(s, n, a, b, c);
  }

  /** Each candidate end the pick can return closes a number shape. */
  lemma PickIsShape(s: string, sign: nat, i: nat, f: nat, x: nat)
    requires sign <= i && i + f + x <= |s| && (sign == 0 || (sign == 1 && s[0] == '-'))
    requires IsIntPart(s, sign, i)
    requires f > 0 ==> IsFracPart(s, i, i + f)
    requires x > 0 ==> IsExpPart(s, i + f, i + f + x)
    requires PickNumberEnd(s, i, f, x).Some?
    ensures NumberShape(s, PickNumberEnd(s, i, f, x).value, sign, i,
                        if PickNumberEnd(s, i, f, x).value == i then i else i + f)
  {
  }

  /** The number rule matches an RFC 8259 number that ends at a word boundary. */
  lemma NumberMatchSound(s: string)
    requires MatchNumber(s).Some?
    ensures IsJsonNumber(s[..MatchNumber(s).value]) && BoundaryAt(s, MatchNumber(s).value)
  {
    var sign := SignLength(s);
    var i := sign + DigitsFrom(s, sign);
    var f := FractionAt(s, i);
    var x := ExponentAt(s, i + f);
    MatchNumberIsPick(s, i, f, x);
    var n := MatchNumber(s).value;
    IntPartOfRun(s, sign);
    FractionIsFracPart(s, i);
    ExponentIsExpPart(s, i + f);
    PickIsShape(s, sign, i, f, x);
    PrefixIsNumber(s, n, sign, i, if n == i then i else i + f);
  }

  lemma IntPartOfRun(s: string, sign: nat)
    requires sign <= |s|
    requires DigitsFrom(s, sign) > 0 && !(DigitsFrom(s, sign) >= 2 && s[sign] == '0')
    ensures IsIntPart(s, sign, sign + DigitsFrom(s, sign))
  {
  }

  lemma FractionIsFracPart(s: string, q: nat)
    requires q <= |s|
    ensures FractionAt(s, q) > 0 ==> IsFracPart(s, q, q + FractionAt(s, q))
  {
  }

  lemma ExponentIsExpPart(s: string, q: nat)
    requires q <= |s|
    ensures ExponentAt(s, q) > 0 ==> IsExpPart(s, q, q + ExponentAt(s, q))
  {
  }

  /** A digit run from p to q that does not reach the end of the run is followed by a digit. */
  lemma DigitRunExact(s: string, p: nat, q: nat)
    requires p <= q <= |s| && DigitsIn(s, p, q)
    ensures q - p <= DigitsFrom(s, p)
    ensures q - p < DigitsFrom(s, p) ==> q < |s| && IsDigit(s[q])
    decreases q - p
  {
    if p < q {
      DigitRunExact(s, p + 1, q);
    }
  }

  /** The integer part of a number shape followed by a word boundary is the whole digit run after the sign. */
  lemma IntOfShape(s: string, m: nat, a: int, b: int, c: int)
    requires NumberShape(s, m, a, b, c) && BoundaryAt(s, m)
    ensures a == SignLength(s) && b == a + DigitsFrom(s, a) && IntRunOk(s)
  {
    DigitRunExact(s, a, b);
  }

  /** A fraction in a number shape, or an exponent right after the integer, sits where FractionAt puts it. */
  lemma FracOfShape(s: string, m: nat, a: int, b: int, c: int)
    requires NumberShape(s, m, a, b, c) && BoundaryAt(s, m)
    ensures (c > b || m > c) ==> c == b + FractionAt(s, b)
  {
    if c > b {
      DigitRunExact(s, b + 1, c);
    }
  }

  /** An exponent in a number shape followed by a word boundary is the greedy exponent. */
  lemma ExpOfShape(s: string, m: nat, a: int, b: int, c: int)
    requires NumberShape(s, m, a, b, c) && BoundaryAt(s, m) && m > c
    ensures ExponentAt(s, c) == m - c
  {
    var sign := if s[c + 1] == '+' || s[c + 1] == '-' then 1 else 0;
    DigitRunExact(s, c + 1 + sign, m);
  }

  /** Any of the three candidate ends that sits at a word boundary is reached or passed by the pick. */
  lemma PickCovers(s: string, i: nat, f: nat, x: nat, m: nat)
    requires i + f + x <= |s| && m <= |s| && BoundaryAt(s, m)
    requires m == i || (f > 0 && m == i + f) || (x > 0 && m == i + f + x)
    ensures PickNumberEnd(s, i, f, x).Some? && m <= PickNumberEnd(s, i, f, x).value
  {
  }

  /**
   * The number rule picks the LONGEST prefix that is an RFC 8259 number and
   * ends at a word boundary; in particular it matches whenever one exists.
   */
  lemma NumberMatchLongest(s: string, m: nat)
    requires m <= |s| && IsJsonNumber(s[..m]) && BoundaryAt(s, m)
    ensures MatchNumber(s).Some? && m <= MatchNumber(s).value
  {
    var a, b, c := ShapeOfNumber(s, m);
    IntOfShape(s, m, a, b, c);
    FracOfShape(s, m, a, b, c);
    var f := FractionAt(s, b);
    var x := ExponentAt(s, b + f);
    if m > c {
      ExpOfShape(s, m, a, b, c);
      assert m == b + f + x;
    } else if c > b {
      assert m == b + f;
    }
    PickCovers(s, b, f, x, m);
    MatchNumberIsPick(s, b, f, x);
  }

  /** Once the integer part is accepted, the number rule is the pick among the greedy candidates. */
  lemma MatchNumberIsPick(s: string, i: nat, f: nat, x: nat)
    requires IntRunOk(s) && i == SignLength(s) + DigitsFrom(s, SignLength(s))
    requires f == FractionAt(s, i) && x == ExponentAt(s, i + f)
    ensures MatchNumber(s) == PickNumberEnd(s, i, f, x)
  {
  }

  /** The split points of a number prefix, read in the whole text. */
  lemma ShapeOfNumber(s: string, m: nat) returns (a: int, b: int, c: int)
    requires m <= |s| && IsJsonNumber(s[..m])
    ensures NumberShape(s, m, a, b, c)
  {
    a, b, c :| NumberShape(s[..m], |s[..m]|, a, b, c);
    ShapeOfPrefix(s, m, a, b, c);
  }

  // ---------------------------------------------------------------------
  // Rule 2: `^"(?:\\["bfnrt/\\]|\\u[a-fA-F0-9]{4}|[^\0-\x1f\\"]+)*"`

  /** Four hexadecimal digits at positions i..i+3. */
  predicate Hex4At(s: string, i: nat) {
    i + 4 <= |s| && IsHexDigit(s[i]) && IsHexDigit(s[i + 1]) && IsHexDigit(s[i + 2]) && IsHexDigit(s[i + 3])
  }

  /**
   * Where the item loop of the string rule stops when started at i. The
   * three alternatives begin with different characters, so the loop is
   * deterministic and backtracking cannot end it anywhere else.
   */
  function ScanItems(s: string, i: nat): (e: nat)
    requires i <= |s|
    ensures i <= e <= |s|
    decreases |s| - i
  {
    if i == |s| then i
    else if s[i] == '\\' then
      if i + 1 < |s| && IsShortEscape(s[i + 1]) then ScanItems(s, i + 2)
      else if i + 1 < |s| && s[i + 1] == 'u' && Hex4At(s, i + 2) then ScanItems(s, i + 6)
      else i
    else if IsPlain(s[i]) then ScanItems(s, i + 1)
    else i
  }

  function MatchString(s: string): (r: Option<nat>)
    ensures r.Some? ==> 2 <= r.value <= |s| && s[0] == '"' && s[r.value - 1] == '"'
  {
    if |s| >= 1 && s[0] == '"' then
      var e := ScanItems(s, 1);
      if e < |s| && s[e] == '"' then Some(e + 1) else None
    else None
  }

  /**
   * The characters of a string between its quotation marks, per section 7
   * of RFC 8259: unescaped characters, two-character escapes and `\u`
   * followed by four hexadecimal digits.
   */
  ghost predicate IsStringBody(t: string)
    decreases |t|
  {
    t == []
    || (IsPlain(t[0]) && IsStringBody(t[1..]))
    || (|t| >= 2 && t[0] == '\\' && IsShortEscape(t[1]) && IsStringBody(t[2..]))
    || (|t| >= 6 && t[0] == '\\' && t[1] == 'u' && Hex4At(t, 2) && IsStringBody(t[6..]))
  }

  lemma {:induction false} ScanItemsIsBody(s: string, i: nat)
    requires i <= |s|
    ensures IsStringBody(s[i..ScanItems(s, i)])
    decreases |s| - i
  {
    var e := ScanItems(s, i);
    if i == e {
      assert s[i..e] == [];
    } else if s[i] == '\\' {
      if IsShortEscape(s[i + 1]) {
        ScanItemsIsBody(s, i + 2);
        assert s[i..e][2..] == s[i + 2..e];
      } else {
        ScanItemsIsBody(s, i + 6);
        assert s[i..e][6..] == s[i + 6..e];
        assert s[i..e][2..6] == s[i + 2..i + 6];
      }
    } else {
      ScanItemsIsBody(s, i + 1);
      assert s[i..e][1..] == s[i + 1..e];
    }
  }

  lemma {:induction false} BodyScansToQuote(s: string, i: nat, j: nat)
    requires i <= j < |s| && s[j] == '"' && IsStringBody(s[i..j])
    ensures ScanItems(s, i) == j
    decreases j - i
  {
    var t := s[i..j];
    if i < j {
      assert t[0] == s[i];
      if IsPlain(t[0]) && IsStringBody(t[1..]) {
        assert t[1..] == s[i + 1..j];
        BodyScansToQuote(s, i + 1, j);
      } else if |t| >= 2 && t[0] == '\\' && IsShortEscape(t[1]) && IsStringBody(t[2..]) {
        assert t[1] == s[i + 1] && t[2..] == s[i + 2..j];
        BodyScansToQuote(s, i + 2, j);
      } else {
        assert t[1] == s[i + 1] && t[2..6] == s[i + 2..i + 6] && t[6..] == s[i + 6..j];
        assert !IsShortEscape(s[i + 1]);
        BodyScansToQuote(s, i + 6, j);
      }
    }
  }

  /** The string rule matches exactly a quoted RFC 8259 string body, ending at the first unescaped `"`. */
  lemma StringMatchIff(s: string, n: nat)
    ensures MatchString(s) == Some(n) <==> 2 <= n <= |s| && s[0] == '"' && s[n - 1] == '"' && IsStringBody(s[1..n - 1])
  {
    if MatchString(s) == Some(n) {
      ScanItemsIsBody(s, 1);
    }
    if 2 <= n <= |s| && s[0] == '"' && s[n - 1] == '"' && IsStringBody(s[1..n - 1]) {
      BodyScansToQuote(s, 1, n - 1);
    }
  }

  // ---------------------------------------------------------------------
  // Rules 3-11 and 12-13

  /** A one-character punctuator rule. */
  function MatchChar(s: string, c: char): (r: Option<nat>)
    ensures r.Some? <==> |s| > 0 && s[0] == c
    ensures r.Some? ==> r.value == 1
  {
    if |s| > 0 && s[0] == c then Some(1) else None
  }

  /** A literal-name rule: `^true\b`, `^false\b`, `^null\b`. */
  function MatchKeyword(s: string, w: string): (r: Option<nat>)
    requires |w| > 0 && IsWordChar(w[|w| - 1])
    ensures r.Some? <==> |w| <= |s| && s[..|w|] == w && BoundaryAt(s, |w|)
    ensures r.Some? ==> r.value == |w|
  {
    if |w| <= |s| && s[..|w|] == w && BoundaryAt(s, |w|) then Some(|w|) else None
  }

  /** Rule 12, `^$`: without the multi-line flag `$` also matches before a final line feed. */
  function MatchEnd(s: string): (r: Option<nat>)
    ensures r.Some? <==> s == "" || s == "\n"
    ensures r.Some? ==> r.value == 0
  {
    if s == "" || s == "\n" then Some(0) else None
  }

  /** Rule 13, `^.`: any one character but a line feed. */
  function MatchAny(s: string): (r: Option<nat>)
    ensures r.Some? <==> |s| > 0 && s[0] != '\n'
    ensures r.Some? ==> r.value == 1
  {
    if |s| > 0 && s[0] != '\n' then Some(1) else None
  }

  /** Rule `rule` of the `rules` table applied to the remaining input. */
  function RuleMatch(rule: nat, s: string): (r: Option<nat>)
    requires rule < RuleCount
    ensures r.Some? ==> r.value <= |s|
  {
    match rule
    case 0 => MatchWhitespace(s)
    case 1 => MatchNumber(s)
    case 2 => MatchString(s)
    case 3 => MatchChar(s, '{')
    case 4 => MatchChar(s, '}')
    case 5 => MatchChar(s, '[')
    case 6 => MatchChar(s, ']')
    case 7 => MatchChar(s, ',')
    case 8 => MatchChar(s, ':')
    case 9 => MatchKeyword(s, "true")
    case 10 => MatchKeyword(s, "false")
    case 11 => MatchKeyword(s, "null")
    case 12 => MatchEnd(s)
    case 13 => MatchAny(s)
  }

  /** The first rule at or after `from` that matches, with its match length. */
  function FirstRuleFrom(s: string, from: nat): (r: Option<(nat, nat)>)
    requires from <= RuleCount
    ensures r.Some? ==> from <= r.value.0 < RuleCount && RuleMatch(r.value.0, s) == Some(r.value.1)
    ensures r.Some? ==> forall k :: from <= k < r.value.0 ==> RuleMatch(k, s).None?
    ensures r.None? ==> forall k :: from <= k < RuleCount ==> RuleMatch(k, s).None?
    decreases RuleCount - from
  {
    if from == RuleCount then None
    else match RuleMatch(from, s)
      case Some(n) => Some((from, n))
      case None => FirstRuleFrom(s, from + 1)
  }

  /**
   * Some rule always matches, so the lexical-error branch of `next()` is
   * unreachable: a lone line feed is claimed by whitespace, any other
   * character by the catch-all, and the empty input by rule 12.
   */
  lemma FirstRuleTotal(s: string)
    ensures FirstRuleFrom(s, 0).Some?
  {
    if s == "" {
      assert RuleMatch(12, s).Some?;
    } else if s[0] == '\n' {
      assert RuleMatch(0, s).Some?;
    } else {
      assert RuleMatch(13, s).Some?;
    }
  }

  /** The rule `next()` applies: the first of the fourteen, in index order, that matches, with its match length. */
  function FirstRule(s: string): (r: (nat, nat))
    ensures r.0 < RuleCount && r.1 <= |s|
  {
    FirstRuleTotal(s);
    FirstRuleFrom(s, 0).value
  }

  /** The rule applied matches, and every rule before it fails. */
  lemma FirstRuleMatches(s: string)
    ensures RuleMatch(FirstRule(s).0, s) == Some(FirstRule(s).1)
    ensures forall k :: 0 <= k < FirstRule(s).0 ==> RuleMatch(k, s).None?
  {
  }

  /** A rule that matches after all earlier ones failed is the one `next()` applies. */
  lemma FirstRuleIs(s: string, rule: nat, n: nat)
    requires rule < RuleCount && RuleMatch(rule, s) == Some(n)
    requires forall k :: 0 <= k < rule ==> RuleMatch(k, s).None?
    ensures FirstRule(s) == (rule, n)
  {
    FirstRuleMatches(s);
  }

  /**
   * What the scanner needs of the rule applied: the match is empty exactly
   * for the empty input, which is the one case for rule 12 (end of input);
   * a whitespace match is never empty; a string match is the string rule's.
   */
  lemma FirstRuleFacts(s: string)
    ensures FirstRule(s).1 == 0 <==> s == ""
    ensures FirstRule(s).0 == END_RULE <==> s == ""
    ensures FirstRule(s).0 == WHITESPACE_RULE ==> FirstRule(s).1 > 0
    ensures FirstRule(s).0 == STRING_RULE ==> MatchString(s) == Some(FirstRule(s).1)
  {
    var r := FirstRule(s);
    FirstRuleMatches(s);
    if s == "" {
      assert RuleMatch(0, s).None? && RuleMatch(1, s).None? && RuleMatch(2, s).None?;
      assert r.0 == END_RULE;
    }
  }
}
