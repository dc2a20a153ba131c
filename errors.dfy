/**
 * The error side of linting: the error kinds of the two exception classes,
 * the hand-written counterparts of the two regular expressions the error
 * classifier runs over the upcoming-input window, PHP's `trim` for the
 * trailing-comma test, and the byte-order-mark and multi-line tests of the
 * raw input.
 */
module Errors {
  import opened Wrappers

  /**
   * The kinds of `ParsingException` (ParsingException.php:10-19) and the one
   * kind of `DuplicateKeyException` (DuplicateKeyException.php:10).
   */
  datatype ErrorKind =
    | NotAString
    | InvalidString
    | UsedSingleQuotes
    | UnescapedBackslash
    | NotTerminatedOrMultiLine
    | ExpectedInputToBeSomethingElse
    | AppendTrailingCommaError
    | ParsingHalted
    | MultipleActions
    | ByteOrderMarkDetected
    | DuplicateKey

  /** The exception code of a kind: its class constant. */
  function Code(k: ErrorKind): nat {
    match k
    case NotAString => 1
    case InvalidString => 2
    case UsedSingleQuotes => 3
    case UnescapedBackslash => 4
    case NotTerminatedOrMultiLine => 5
    case ExpectedInputToBeSomethingElse => 6
    case AppendTrailingCommaError => 7
    case ParsingHalted => 8
    case MultipleActions => 9
    case ByteOrderMarkDetected => 10
    case DuplicateKey => 1
  }

  /** The `ParsingException` kind a code names. */
  function ParsingKind(code: nat): (k: Option<ErrorKind>)
    ensures k.Some? <==> 1 <= code <= 10
    ensures k.Some? ==> k.value != DuplicateKey && Code(k.value) == code
  {
    if code == 1 then Some(NotAString)
    else if code == 2 then Some(InvalidString)
    else if code == 3 then Some(UsedSingleQuotes)
    else if code == 4 then Some(UnescapedBackslash)
    else if code == 5 then Some(NotTerminatedOrMultiLine)
    else if code == 6 then Some(ExpectedInputToBeSomethingElse)
    else if code == 7 then Some(AppendTrailingCommaError)
    else if code == 8 then Some(ParsingHalted)
    else if code == 9 then Some(MultipleActions)
    else if code == 10 then Some(ByteOrderMarkDetected)
    else None
  }

  /** Within `ParsingException` the codes are distinct: a code names its kind back. */
  lemma ParsingCodesRoundTrip(k: ErrorKind)
    requires k != DuplicateKey
    ensures ParsingKind(Code(k)) == Some(k)
  {
  }

  // ---------------------------------------------------------------------
  // `{".+?(\\\\[^"bfnrt/\\\\u])}` (JsonLinter.php:234, JsonParser.php:216)

  /** A character that may follow a backslash in a JSON string (the negated class). */
  predicate IsEscapeLetter(c: char) {
    c == '"' || c == 'b' || c == 'f' || c == 'n' || c == 'r' || c == 't' || c == '/' || c == '\\' || c == 'u'
  }

  /** No newline among u[a..b]. */
  ghost predicate NoNewline(u: string, a: int, b: int) {
    forall m :: a <= m < b && 0 <= m < |u| ==> u[m] != '\n'
  }

  /** A backslash at k followed by a character that starts no escape: the group `(\\[^"bfnrt/\\u])`. */
  predicate BadEscapeAt(u: string, k: int) {
    0 <= k && k + 1 < |u| && u[k] == '\\' && !IsEscapeLetter(u[k + 1])
  }

  /**
   * The expression matches at quote i with its group at j: one or more
   * characters other than a newline after the quote, then a backslash and
   * a character that starts no escape.
   */
  ghost predicate BackslashMatch(u: string, i: int, j: int) {
    0 <= i && i + 1 < j && BadEscapeAt(u, j) && u[i] == '"' && NoNewline(u, i + 1, j)
  }

  /** A bad escape at j or later, before the first newline from j on. */
  function BadEscapeFrom(u: string, j: nat): bool
    decreases |u| - j
  {
    if j + 1 >= |u| then false
    else if BadEscapeAt(u, j) then true
    else if u[j] == '\n' then false
    else BadEscapeFrom(u, j + 1)
  }

  lemma {:induction false} BadEscapeFromIff(u: string, j: nat)
    ensures BadEscapeFrom(u, j) <==> exists k :: j <= k && BadEscapeAt(u, k) && NoNewline(u, j, k)
    decreases |u| - j
  {
    if j + 1 < |u| && !BadEscapeAt(u, j) && u[j] != '\n' {
      BadEscapeFromIff(u, j + 1);
      if exists k :: j <= k && BadEscapeAt(u, k) && NoNewline(u, j, k) {
        var k :| j <= k && BadEscapeAt(u, k) && NoNewline(u, j, k);
        assert j + 1 <= k && NoNewline(u, j + 1, k);
      }
      if BadEscapeFrom(u, j + 1) {
        var k :| j + 1 <= k && BadEscapeAt(u, k) && NoNewline(u, j + 1, k);
        assert NoNewline(u, j, k);
      }
    } else if BadEscapeAt(u, j) {
      assert NoNewline(u, j, j);
    } else if j + 1 < |u| {
      forall k | j <= k && BadEscapeAt(u, k)
        ensures !NoNewline(u, j, k)
      {
        assert j < k && u[j] == '\n';
      }
    }
  }

  /** The expression matches at a quote at index i or later. */
  function UnescapedFrom(u: string, i: nat): bool
    decreases |u| - i
  {
    if i >= |u| then false
    else (u[i] == '"' && i + 1 < |u| && u[i + 1] != '\n' && BadEscapeFrom(u, i + 2)) || UnescapedFrom(u, i + 1)
  }

  /** `preg_match` of the unescaped-backslash expression on the window u. */
  predicate HasUnescapedBackslash(u: string) {
    UnescapedFrom(u, 0)
  }

  lemma {:induction false} UnescapedFromIff(u: string, i: nat)
    ensures UnescapedFrom(u, i) <==> exists q, j :: i <= q && BackslashMatch(u, q, j)
    decreases |u| - i
  {
    if i < |u| {
      UnescapedFromIff(u, i + 1);
      BadEscapeFromIff(u, i + 2);
      if u[i] == '"' && i + 1 < |u| && u[i + 1] != '\n' && BadEscapeFrom(u, i + 2) {
        var k :| i + 2 <= k && BadEscapeAt(u, k) && NoNewline(u, i + 2, k);
        assert BackslashMatch(u, i, k);
      }
      if exists j :: BackslashMatch(u, i, j) {
        var j :| BackslashMatch(u, i, j);
        assert u[i + 1] != '\n';
        assert i + 2 <= j && NoNewline(u, i + 2, j);
      }
    }
  }

  /** The unescaped-backslash test holds exactly when the expression matches somewhere in the window. */
  lemma UnescapedBackslashIff(u: string)
    ensures HasUnescapedBackslash(u) <==> exists i, j :: BackslashMatch(u, i, j)
  {
    UnescapedFromIff(u, 0);
  }

  // ---------------------------------------------------------------------
  // `{"(?:[^"]+|\\\\")*$}m` (JsonLinter.php:237, JsonParser.php:219)

  /** Where `$` matches in multi-line mode: the end of the window or before a newline. */
  predicate LineEnd(u: string, k: int) {
    k == |u| || (0 <= k < |u| && u[k] == '\n')
  }

  /** Every quote among u[a..b] is preceded by a backslash that comes after i. */
  ghost predicate EscapedQuotes(u: string, i: int, a: int, b: int) {
    forall m :: a <= m < b && 0 <= m < |u| && u[m] == '"' ==> 0 <= i < m - 1 && u[m - 1] == '\\'
  }

  /**
   * The expression matches from quote i up to k: k is a line end, and
   * every quote strictly between is the second half of a `\"` inside the
   * match; everything else is taken by `[^"]+`.
   */
  ghost predicate UnterminatedMatch(u: string, i: int, k: int) {
    0 <= i < k && LineEnd(u, k) && u[i] == '"' && EscapedQuotes(u, i, i + 1, k)
  }

  /** From j on, every quote up to the first line end is escaped by a backslash after i. */
  function EscapedToLineEnd(u: string, i: nat, j: nat): bool
    requires i < j <= |u|
    decreases |u| - j
  {
    if LineEnd(u, j) then true
    else if u[j] == '"' && !(i < j - 1 && u[j - 1] == '\\') then false
    else EscapedToLineEnd(u, i, j + 1)
  }

  lemma {:induction false} EscapedToLineEndIff(u: string, i: nat, j: nat)
    requires i < j <= |u|
    ensures EscapedToLineEnd(u, i, j) <==> exists k :: j <= k && LineEnd(u, k) && EscapedQuotes(u, i, j, k)
    decreases |u| - j
  {
    if LineEnd(u, j) {
      assert EscapedQuotes(u, i, j, j);
    } else if u[j] == '"' && !(i < j - 1 && u[j - 1] == '\\') {
      forall k | j <= k && LineEnd(u, k)
        ensures !EscapedQuotes(u, i, j, k)
      {
        assert j < k;
      }
    } else {
      EscapedToLineEndIff(u, i, j + 1);
      if EscapedToLineEnd(u, i, j + 1) {
        var k :| j + 1 <= k && LineEnd(u, k) && EscapedQuotes(u, i, j + 1, k);
        assert EscapedQuotes(u, i, j, k);
      }
      if exists k :: j <= k && LineEnd(u, k) && EscapedQuotes(u, i, j, k) {
        var k :| j <= k && LineEnd(u, k) && EscapedQuotes(u, i, j, k);
        assert j + 1 <= k && EscapedQuotes(u, i, j + 1, k);
      }
    }
  }

  /** The expression matches at a quote at index i or later. */
  function UnterminatedFrom(u: string, i: nat): bool
    decreases |u| - i
  {
    if i >= |u| then false
    else (u[i] == '"' && EscapedToLineEnd(u, i, i + 1)) || UnterminatedFrom(u, i + 1)
  }

  /** `preg_match` of the unterminated-string expression on the window u. */
  predicate HasUnterminatedString(u: string) {
    UnterminatedFrom(u, 0)
  }

  lemma {:induction false} UnterminatedFromIff(u: string, i: nat)
    ensures UnterminatedFrom(u, i) <==> exists q, k :: i <= q && UnterminatedMatch(u, q, k)
    decreases |u| - i
  {
    if i < |u| {
      UnterminatedFromIff(u, i + 1);
      EscapedToLineEndIff(u, i, i + 1);
      if u[i] == '"' && EscapedToLineEnd(u, i, i + 1) {
        var k :| i + 1 <= k && LineEnd(u, k) && EscapedQuotes(u, i, i + 1, k);
        assert UnterminatedMatch(u, i, k);
      }
    }
  }

  /** The unterminated-string test holds exactly when the expression matches somewhere in the window. */
  lemma UnterminatedIff(u: string)
    ensures HasUnterminatedString(u) <==> exists i, k :: UnterminatedMatch(u, i, k)
  {
    UnterminatedFromIff(u, 0);
  }

  // ---------------------------------------------------------------------
  // `substr(trim($past), -1) === ','` (JsonLinter.php:257, JsonParser.php:242)

  /** The characters PHP's `trim` strips by default. */
  predicate IsTrimmed(c: char) {
    c == ' ' || c == '\t' || c == '\n' || c == '\r' || c == '\0' || c == '\U{000B}'
  }

  function TrimEnd(s: string): (r: string)
    ensures |r| <= |s| && r == s[..|r|]
    ensures r == [] || !IsTrimmed(r[|r| - 1])
    ensures forall m :: |r| <= m < |s| ==> IsTrimmed(s[m])
  {
    if s != [] && IsTrimmed(s[|s| - 1]) then TrimEnd(s[..|s| - 1]) else s
  }

  function TrimStart(s: string): (r: string)
    ensures |r| <= |s| && r == s[|s| - |r|..]
    ensures r == [] ==> forall m :: 0 <= m < |s| ==> IsTrimmed(s[m])
  {
    if s != [] && IsTrimmed(s[0]) then TrimStart(s[1..]) else s
  }

  /** PHP's `trim`. */
  function Trim(s: string): string {
    TrimStart(TrimEnd(s))
  }

  /** The past input ends in a comma once surrounding whitespace is trimmed. */
  predicate EndsWithComma(past: string) {
    LastIsComma(Trim(past))
  }

  /** `substr($t, -1) === ','`. */
  predicate LastIsComma(t: string) {
    |t| > 0 && t[|t| - 1] == ','
  }

  /** Only trimmed characters after index k. */
  ghost predicate TrimmedAfter(s: string, k: int) {
    forall m :: k < m < |s| && 0 <= m ==> IsTrimmed(s[m])
  }

  /** A trailing comma is a comma followed by nothing but whitespace. */
  lemma TrailingCommaIff(s: string)
    ensures EndsWithComma(s) <==> exists k :: 0 <= k < |s| && s[k] == ',' && TrimmedAfter(s, k)
  {
    var e := TrimEnd(s);
    var t := TrimStart(e);
    if |t| > 0 {
      assert t[|t| - 1] == e[|e| - 1] == s[|e| - 1];
      if t[|t| - 1] == ',' {
        assert TrimmedAfter(s, |e| - 1);
      }
    }
    if exists k :: 0 <= k < |s| && s[k] == ',' && TrimmedAfter(s, k) {
      var k :| 0 <= k < |s| && s[k] == ',' && TrimmedAfter(s, k);
      assert |e| == k + 1 by {
        if |e| <= k {
          assert false;
        } else if |e| > k + 1 {
          assert false;
        }
      }
      assert e[|e| - 1] == ',' && !IsTrimmed(e[|e| - 1]);
      assert |t| > 0;
      assert t[|t| - 1] == e[|e| - 1];
    }
  }

  // ---------------------------------------------------------------------
  // The raw input

  /** The UTF-8 byte-order mark, one character per byte. */
  const Bom: string := "\U{EF}\U{BB}\U{BF}"

  /** `failOnBOM` (JsonLinter.php:666-675, JsonParser.php:617-625): the first three bytes are the mark. */
  predicate HasBom(s: string) {
    |s| >= 3 && s[..3] == Bom
  }

  /** `str_replace("\n\r", "\n", $input)`: each `\n\r` pair, scanned left to right, loses its `\r`. */
  function CollapseNewlineReturn(s: string): (r: string)
    ensures |r| <= |s|
  {
    if |s| >= 2 && s[0] == '\n' && s[1] == '\r' then "\n" + CollapseNewlineReturn(s[2..])
    else if s == [] then []
    else [s[0]] + CollapseNewlineReturn(s[1..])
  }

  /** Collapsing `\n\r` keeps exactly the newlines there are. */
  lemma {:induction false} CollapseKeepsNewlines(s: string)
    ensures '\n' in CollapseNewlineReturn(s) <==> '\n' in s
  {
    if |s| >= 2 && s[0] == '\n' && s[1] == '\r' {
      assert CollapseNewlineReturn(s)[0] == '\n' && s[0] == '\n';
    } else if s != [] {
      CollapseKeepsNewlines(s[1..]);
      var r := CollapseNewlineReturn(s);
      assert r == [s[0]] + CollapseNewlineReturn(s[1..]);
      assert '\n' in s <==> s[0] == '\n' || '\n' in s[1..];
    }
  }

  /**
   * `$isMultiLine` (JsonLinter.php:189): exploding the collapsed input on
   * `\n` gives more than one piece, one more than it has newlines.
   */
  predicate IsMultiLine(input: string) {
    PieceCount(CollapseNewlineReturn(input)) > 1
  }

  /** `count(explode("\n", s))`. */
  function PieceCount(s: string): (n: nat)
    ensures n >= 1
    ensures n == 1 <==> '\n' !in s
  {
    if s == [] then 1
    else PieceCount(s[1..]) + (if s[0] == '\n' then 1 else 0)
  }

  /** The input is multi-line exactly when it has a newline. */
  lemma MultiLineIff(input: string)
    ensures IsMultiLine(input) <==> '\n' in input
  {
    CollapseKeepsNewlines(input);
  }

  // ---------------------------------------------------------------------
  // Cases from the library's own test suite

  /** A comma followed by whitespace only is a trailing comma. */
  lemma CommaBeforeWhitespace(past: string, k: nat)
    requires k < |past| && past[k] == ','
    requires forall m :: k < m < |past| ==> IsTrimmed(past[m])
    ensures EndsWithComma(past)
  {
    TrailingCommaIff(past);
    assert TrimmedAfter(past, k);
  }

  /** `{"foo":"bar",}`, and what the scanner has consumed before its closing brace. */
  const FlatObject: string := "{\"foo\":\"bar\",}"
  const FlatPast: string := "{\"foo\":\"bar\","

  /** The same object over three lines, and what precedes its closing brace. */
  const TallObject: string := "{\n    \"foo\":\"bar\",\n}"
  const TallPast: string := "{\n    \"foo\":\"bar\",\n"

  lemma FlatObjectHasNoLineFeed()
    ensures '\n' !in FlatObject
  {
  }

  /** The one-line object ends its past input with a comma and is not multi-line. */
  lemma FlatObjectCase()
    ensures EndsWithComma(FlatPast) && !IsMultiLine(FlatObject)
  {
    CommaBeforeWhitespace(FlatPast, 12);
    FlatObjectHasNoLineFeed();
    MultiLineIff(FlatObject);
  }

  /** The three-line object ends its past input with a comma and is multi-line. */
  lemma TallObjectCase()
    ensures EndsWithComma(TallPast) && IsMultiLine(TallObject)
  {
    CommaBeforeWhitespace(TallPast, 17);
    MultiLineIff(TallObject);
    assert TallObject[1] == '\n';
  }
}
