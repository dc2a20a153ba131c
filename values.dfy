/**
 * The values the semantic actions build (`JsonLinter.php:437-589`): PHP
 * scalars, lists and ordered key/value maps, together with the operations
 * the actions apply to them: `isset`, member assignment, the `key.N`
 * renaming of duplicate keys, the number classification and the decoding of
 * escapes in strings (`stringInterpolation`, `JsonLinter.php:598-629`).
 */
module Values {
  import opened Wrappers
  import opened Rules

  /** `intval` or `floatval`: which conversion the number action applies to the lexeme. */
  datatype NumberKind = IntNumber | FloatNumber

  /**
   * A parsed value. A JSON object becomes a stdClass object (`Obj`) or, with
   * PARSE_TO_ASSOC, an associative array (`Assoc`); both are ordered
   * key/value lists. Numbers keep their kind and their lexeme.
   */
  datatype Value =
    | Null
    | Bool(b: bool)
    | Number(kind: NumberKind, lexeme: string)
    | Str(s: string)
    | Arr(items: seq<Value>)
    | Obj(members: seq<(string, Value)>)
    | Assoc(members: seq<(string, Value)>)

  type Members = seq<(string, Value)>

  // ---------------------------------------------------------------------
  // Flags (`JsonLinter.php:15-17`)

  const DETECT_KEY_CONFLICTS := 1
  const ALLOW_DUPLICATE_KEYS := 2
  const PARSE_TO_ASSOC := 4

  /** `$flags & $bit` is non-zero, for a bit that is a power of two. */
  predicate HasFlag(flags: nat, bit: nat)
    requires bit == 1 || bit == 2 || bit == 4
  {
    (flags / bit) % 2 == 1
  }

  // ---------------------------------------------------------------------
  // Keyed members

  function Keys(ms: Members): (ks: seq<string>)
    ensures |ks| == |ms| && forall i :: 0 <= i < |ms| ==> ks[i] == ms[i].0
  {
    if ms == [] then [] else [ms[0].0] + Keys(ms[1..])
  }

  /** No key occurs twice, as in a PHP array or object. */
  predicate UniqueKeys(ms: Members) {
    forall i, j :: 0 <= i < j < |ms| ==> ms[i].0 != ms[j].0
  }

  /** The value under key k. */
  function Get(ms: Members, k: string): (r: Option<Value>)
    ensures r.Some? <==> k in Keys(ms)
    ensures r.Some? ==> (k, r.value) in ms
  {
    if ms == [] then None
    else if ms[0].0 == k then Some(ms[0].1)
    else Get(ms[1..], k)
  }

  /** PHP `isset`: the key is present and its value is not null. */
  predicate IsSet(ms: Members, k: string) {
    exists i :: 0 <= i < |ms| && ms[i].0 == k && ms[i].1 != Null
  }

  /** In a map without repeated keys, `isset` is "present with a non-null value". */
  lemma IsSetIsGet(ms: Members, k: string)
    requires UniqueKeys(ms)
    ensures IsSet(ms, k) <==> Get(ms, k).Some? && Get(ms, k).value != Null
  {
    if Get(ms, k).Some? {
      var i :| 0 <= i < |ms| && ms[i] == (k, Get(ms, k).value);
      assert forall j :: 0 <= j < |ms| && ms[j].0 == k ==> j == i;
    }
  }

  /**
   * `$obj->$k = $v` / `$arr[$k] = $v`: an existing key keeps its place and
   * takes the new value, a new key goes last.
   */
  function Put(ms: Members, k: string, v: Value): (r: Members)
    ensures Keys(r) == if k in Keys(ms) then Keys(ms) else Keys(ms) + [k]
    ensures Get(r, k) == Some(v)
    ensures forall j :: j != k ==> Get(r, j) == Get(ms, j)
  {
    if ms == [] then [(k, v)]
    else if ms[0].0 == k then [(k, v)] + ms[1..]
    else [ms[0]] + Put(ms[1..], k, v)
  }

  /** Assignment never makes a key occur twice. */
  lemma PutKeepsUnique(ms: Members, k: string, v: Value)
    requires UniqueKeys(ms)
    ensures UniqueKeys(Put(ms, k, v))
  {
    var r := Put(ms, k, v);
    var ks, rs := Keys(ms), Keys(r);
    forall i, j | 0 <= i < j < |r|
      ensures r[i].0 != r[j].0
    {
      assert r[i].0 == rs[i] && r[j].0 == rs[j];
      if j < |ms| {
        assert rs[i] == ks[i] == ms[i].0 && rs[j] == ks[j] == ms[j].0;
      } else {
        assert rs[j] == k && rs[i] == ks[i];
      }
    }
  }

  /** A new key is appended after all existing members. */
  lemma {:induction false} PutAppends(ms: Members, k: string, v: Value)
    requires k !in Keys(ms)
    ensures Put(ms, k, v) == ms + [(k, v)]
  {
    if ms != [] {
      var rest := ms[1..];
      assert Keys(ms)[0] == ms[0].0;
      assert k !in Keys(rest) by {
        assert forall i :: 0 <= i < |rest| ==> Keys(rest)[i] == Keys(ms)[i + 1];
      }
      PutAppends(rest, k, v);
      assert ms + [(k, v)] == [ms[0]] + (rest + [(k, v)]);
    }
  }

  /**
   * What PHP guarantees of a decoded value: no object has a key twice, and
   * objects are stdClass objects or, with PARSE_TO_ASSOC, associative arrays.
   */
  predicate WellFormed(v: Value, assoc: bool)
    decreases v
  {
    match v
    case Arr(items) => forall i :: 0 <= i < |items| ==> WellFormed(items[i], assoc)
    case Obj(ms) => !assoc && UniqueKeys(ms) && forall i :: 0 <= i < |ms| ==> WellFormed(ms[i].1, assoc)
    case Assoc(ms) => assoc && UniqueKeys(ms) && forall i :: 0 <= i < |ms| ==> WellFormed(ms[i].1, assoc)
    case _ => true
  }

  /** Assignment of a well-formed value leaves only well-formed values in the members. */
  lemma {:induction false} PutWellFormed(ms: Members, k: string, v: Value, assoc: bool)
    requires forall i :: 0 <= i < |ms| ==> WellFormed(ms[i].1, assoc)
    requires WellFormed(v, assoc)
    ensures forall i :: 0 <= i < |Put(ms, k, v)| ==> WellFormed(Put(ms, k, v)[i].1, assoc)
  {
    if ms != [] && ms[0].0 != k {
      PutWellFormed(ms[1..], k, v, assoc);
    }
  }

  // ---------------------------------------------------------------------
  // Renaming duplicate keys: `$key . '.' . $duplicateCount`

  function DigitChar(d: nat): char
    requires d < 10
  {
    ('0' as int + d) as char
  }

  /** The number a string of decimal digits denotes. */
  function DigitsValue(s: string): nat
    requires forall i :: 0 <= i < |s| ==> IsDigit(s[i])
  {
    if s == [] then 0
    else
      assert IsDigit(s[|s| - 1]);
      DigitsValue(s[..|s| - 1]) * 10 + (s[|s| - 1] as int - '0' as int)
  }

  /** PHP's decimal rendering of a non-negative integer. */
  function NatToString(n: nat): (s: string)
    ensures |s| >= 1 && (forall i :: 0 <= i < |s| ==> IsDigit(s[i]))
    ensures |s| > 1 ==> s[0] != '0'
  {
    if n < 10 then [DigitChar(n)] else NatToString(n / 10) + [DigitChar(n % 10)]
  }

  /** The rendering denotes the number: its digits read back as n. */
  lemma {:induction false} NatToStringValue(n: nat)
    ensures DigitsValue(NatToString(n)) == n
  {
    if n >= 10 {
      var s := NatToString(n);
      assert s[..|s| - 1] == NatToString(n / 10);
      NatToStringValue(n / 10);
    }
  }

  /** Different numbers render differently. */
  lemma {:induction false} NatToStringInjective(a: nat, b: nat)
    requires NatToString(a) == NatToString(b)
    ensures a == b
  {
    var s := NatToString(a);
    if a >= 10 && b >= 10 {
      assert NatToString(a / 10) == s[..|s| - 1] == NatToString(b / 10);
      NatToStringInjective(a / 10, b / 10);
    }
  }

  function Pow10(e: nat): (p: nat)
    ensures p >= 1
  {
    if e == 0 then 1 else 10 * Pow10(e - 1)
  }

  /** A number of at least 10^e takes more than e digits. */
  lemma {:induction false} LongNumbers(n: nat, e: nat)
    requires n >= Pow10(e)
    ensures |NatToString(n)| > e
  {
    if e > 0 {
      assert n >= 10;
      LongNumbers(n / 10, e - 1);
    }
  }

  /** The key a duplicate gets with counter value n. */
  function Suffixed(key: string, n: nat): string {
    key + "." + NatToString(n)
  }

  /** Distinct counter values give distinct keys. */
  lemma SuffixedInjective(key: string, a: nat, b: nat)
    requires Suffixed(key, a) == Suffixed(key, b)
    ensures a == b
  {
    var sa := Suffixed(key, a);
    assert NatToString(a) == sa[|key| + 1..];
    assert NatToString(b) == Suffixed(key, b)[|key| + 1..];
    NatToStringInjective(a, b);
  }

  function MaxKeyLength(ms: Members): (l: nat)
    ensures forall i :: 0 <= i < |ms| ==> |ms[i].0| <= l
  {
    if ms == [] then 0
    else
      var l := MaxKeyLength(ms[..|ms| - 1]);
      if |ms[|ms| - 1].0| > l then |ms[|ms| - 1].0| else l
  }

  /** Past 10^(longest key length), every suffixed key is longer than all keys present, so it is free. */
  lemma LongSuffixFree(ms: Members, key: string, n: nat)
    requires n >= Pow10(MaxKeyLength(ms))
    ensures !IsSet(ms, Suffixed(key, n))
  {
    LongNumbers(n, MaxKeyLength(ms));
  }

  /**
   * The counter the rename loop stops at when it starts at n: the smallest
   * m >= n whose `key.m` is not set. Every counter before it is taken.
   */
  function FirstFree(ms: Members, key: string, n: nat): (m: nat)
    ensures n <= m && !IsSet(ms, Suffixed(key, m))
    ensures forall j :: n <= j < m ==> IsSet(ms, Suffixed(key, j))
    decreases Pow10(MaxKeyLength(ms)) - n
  {
    if IsSet(ms, Suffixed(key, n)) then
      if n >= Pow10(MaxKeyLength(ms)) then LongSuffixFree(ms, key, n); n
      else FirstFree(ms, key, n + 1)
    else n
  }

  /**
   * The do-while loop of `JsonLinter.php:526-529`: try `key.1`, `key.2`, ...
   * until one is not set.
   */
  method RenameDuplicate(ms: Members, key: string) returns (renamed: string)
    ensures renamed == Suffixed(key, FirstFree(ms, key, 1))
    ensures !IsSet(ms, renamed)
  {
    var duplicateCount := 1;
    renamed := Suffixed(key, duplicateCount);
    duplicateCount := duplicateCount + 1;
    while IsSet(ms, renamed)
      invariant duplicateCount >= 2 && renamed == Suffixed(key, duplicateCount - 1)
      invariant forall j :: 1 <= j < duplicateCount - 1 ==> IsSet(ms, Suffixed(key, j))
      decreases Pow10(MaxKeyLength(ms)) + 1 - duplicateCount
    {
      if duplicateCount - 1 >= Pow10(MaxKeyLength(ms)) {
        LongSuffixFree(ms, key, duplicateCount - 1);
      }
      renamed := Suffixed(key, duplicateCount);
      duplicateCount := duplicateCount + 1;
    }
    FirstFreeIsLeast(ms, key, duplicateCount - 1);
  }

  /** A free counter after a run of taken ones from 1 is the one FirstFree finds. */
  lemma FirstFreeIsLeast(ms: Members, key: string, m: nat)
    requires 1 <= m && !IsSet(ms, Suffixed(key, m))
    requires forall j :: 1 <= j < m ==> IsSet(ms, Suffixed(key, j))
    ensures FirstFree(ms, key, 1) == m
  {
  }

  // ---------------------------------------------------------------------
  // Numbers (`JsonLinter.php:448-456`)

  /** A lexeme with `e` or `E` is a float; otherwise one with `.` is a float; otherwise an int. */
  function KindOf(lexeme: string): NumberKind {
    if 'e' in lexeme || 'E' in lexeme then FloatNumber
    else if '.' in lexeme then FloatNumber
    else IntNumber
  }

  /**
   * For an RFC 8259 number, the classification is the grammar's: an int
   * exactly when the number has neither a fraction nor an exponent.
   */
  lemma KindMatchesShape(t: string, a: int, b: int, c: int)
    requires NumberShape(t, |t|, a, b, c)
    ensures KindOf(t) == IntNumber <==> b == |t|
  {
    if b == |t| {
      assert forall k :: 0 <= k < |t| ==> t[k] == '-' || IsDigit(t[k]);
    } else if c > b {
      assert t[b] == '.';
    } else {
      assert t[c] == 'e' || t[c] == 'E';
    }
  }

  // ---------------------------------------------------------------------
  // Strings (`JsonLinter.php:444`, `598-629`)

  /** The character a two-character escape stands for. */
  function EscapedChar(c: char): (r: char)
    requires IsShortEscape(c)
  {
    match c
    case '"' => '"'
    case '\\' => '\\'
    case '/' => '/'
    case 'b' => 8 as char
    case 'f' => 12 as char
    case 'n' => '\n'
    case 'r' => '\r'
    case 't' => '\t'
  }

  function HexDigitValue(c: char): (v: nat)
    requires IsHexDigit(c)
    ensures v < 16
  {
    if IsDigit(c) then c as int - '0' as int
    else if 'a' <= c <= 'f' then c as int - 'a' as int + 10
    else c as int - 'A' as int + 10
  }

  function HexValue(h: string): (v: nat)
    requires forall i :: 0 <= i < |h| ==> IsHexDigit(h[i])
    ensures v < Pow16(|h|)
  {
    if h == [] then 0 else HexValue(h[..|h| - 1]) * 16 + HexDigitValue(h[|h| - 1])
  }

  function Pow16(e: nat): (p: nat)
    ensures p >= 1
  {
    if e == 0 then 1 else 16 * Pow16(e - 1)
  }

  /** `ltrim($hex, '0')`. */
  function TrimZeros(h: string): (r: string)
    ensures |r| <= |h| && r == h[|h| - |r|..]
    ensures forall i :: 0 <= i < |h| - |r| ==> h[i] == '0'
    ensures r == [] || r[0] != '0'
  {
    if h != [] && h[0] == '0' then TrimZeros(h[1..]) else h
  }

  /** The code points HTML 4.01 lets a numeric character reference stand for, quotes excluded (no ENT_QUOTES flag). */
  predicate EntityAllowed(cp: nat) {
    (cp == 0x09 || cp == 0x0A || cp == 0x0D || (0x20 <= cp <= 0x7E) || (0xA0 <= cp <= 0xD7FF)
     || (0xE000 <= cp <= 0xFFFD && !(0xFDD0 <= cp <= 0xFDEF)))
    && cp != 0x22 && cp != 0x27
  }

  /** The UTF-8 bytes of a code point below 0x10000, each byte as one character. */
  function Utf8(cp: nat): (r: string)
    requires cp < 0x10000
    ensures 1 <= |r| <= 3
  {
    if cp < 0x80 then [cp as char]
    else if cp < 0x800 then [(0xC0 + cp / 64) as char, (0x80 + cp % 64) as char]
    else [(0xE0 + cp / 4096) as char, (0x80 + (cp / 64) % 64) as char, (0x80 + cp % 64) as char]
  }

  /**
   * The bytes are UTF-8's: one byte below 0x80; otherwise a lead byte of the
   * length's range and continuation bytes, whose payload bits make up cp.
   */
  lemma Utf8Encodes(cp: nat)
    requires cp < 0x10000
    ensures var r := Utf8(cp);
            && (cp < 0x80 ==> r == [cp as char])
            && (0x80 <= cp < 0x800 ==>
                  && |r| == 2 && 0xC2 <= r[0] as int <= 0xDF && 0x80 <= r[1] as int <= 0xBF
                  && (r[0] as int - 0xC0) * 64 + (r[1] as int - 0x80) == cp)
            && (0x800 <= cp ==>
                  && |r| == 3 && 0xE0 <= r[0] as int <= 0xEF && 0x80 <= r[1] as int <= 0xBF
                  && 0x80 <= r[2] as int <= 0xBF
                  && (r[0] as int - 0xE0) * 4096 + (r[1] as int - 0x80) * 64 + (r[2] as int - 0x80) == cp)
  {
    if 0x80 <= cp < 0x800 {
      assert cp == (cp / 64) * 64 + cp % 64;
    } else if 0x800 <= cp {
      assert cp / 64 == (cp / 4096) * 64 + (cp / 64) % 64;
      assert cp == (cp / 64) * 64 + cp % 64;
    }
  }

  /**
   * `html_entity_decode('&#x' . ltrim($hex, '0') . ';', 0, 'UTF-8')`: the
   * UTF-8 bytes of the code point when HTML 4.01 allows it, and the
   * reference text itself otherwise (`\u0000` gives `&#x;`).
   */
  function EntityDecode(hex: string): (r: string)
    requires |hex| == 4 && forall i :: 0 <= i < 4 ==> IsHexDigit(hex[i])
  {
    var digits := TrimZeros(hex);
    var cp := HexValue(hex);
    if digits != [] && EntityAllowed(cp) && cp < 0x10000 then Utf8(cp)
    else "&#x" + digits + ";"
  }

  /**
   * `preg_replace_callback` with `stringInterpolation`: scanning left to
   * right, each two-character escape and each `\u` with four hexadecimal
   * digits is replaced, and the scan resumes after it; every other
   * character is copied.
   */
  function Interpolate(t: string): string
    decreases |t|
  {
    if t == [] then []
    else if t[0] == '\\' && |t| >= 2 && IsShortEscape(t[1]) then [EscapedChar(t[1])] + Interpolate(t[2..])
    else if t[0] == '\\' && |t| >= 6 && t[1] == 'u' && Hex4At(t, 2) then EntityDecode(t[2..6]) + Interpolate(t[6..])
    else [t[0]] + Interpolate(t[1..])
  }

  /** Hexadecimal digits that are all `0` denote zero. */
  lemma {:induction false} ZerosValue(h: string)
    requires forall i :: 0 <= i < |h| ==> h[i] == '0'
    ensures HexValue(h) == 0
  {
    if h != [] {
      ZerosValue(h[..|h| - 1]);
    }
  }

  /** A reference to a code point HTML 4.01 allows decodes to that code point's UTF-8 bytes. */
  lemma EntityDecodeAllowed(hex: string)
    requires |hex| == 4 && forall i :: 0 <= i < 4 ==> IsHexDigit(hex[i])
    requires EntityAllowed(HexValue(hex))
    ensures HexValue(hex) < 0x10000 && EntityDecode(hex) == Utf8(HexValue(hex))
  {
    assert Pow16(4) == 0x10000;
    if TrimZeros(hex) == [] {
      ZerosValue(hex);
    }
  }

  /** A `\u` escape with four hexadecimal digits is replaced by its decoding, and the scan resumes after it. */
  lemma UnicodeEscape(hex: string, rest: string)
    requires |hex| == 4 && forall i :: 0 <= i < 4 ==> IsHexDigit(hex[i])
    ensures Interpolate("\\u" + hex + rest) == EntityDecode(hex) + Interpolate(rest)
  {
    var t := "\\u" + hex + rest;
    assert t[2..6] == hex && t[6..] == rest;
  }

  /** Text without a backslash comes out unchanged. */
  lemma {:induction false} InterpolateWithoutBackslash(t: string)
    requires '\\' !in t
    ensures Interpolate(t) == t
  {
    if t != [] {
      assert '\\' !in t[1..];
      InterpolateWithoutBackslash(t[1..]);
    }
  }

  /** The text between the quotes that renders a string: backslash, quote and five control characters escaped. */
  function Escape(s: string): (t: string)
  {
    if s == [] then []
    else EscapeChar(s[0]) + Escape(s[1..])
  }

  function EscapeChar(c: char): (t: string)
    ensures 1 <= |t| <= 2
    ensures |t| == 2 ==> t[0] == '\\' && IsShortEscape(t[1]) && EscapedChar(t[1]) == c
    ensures |t| == 1 ==> t[0] == c && c != '\\'
  {
    if c == '\\' then "\\\\"
    else if c == '"' then "\\\""
    else if c == 8 as char then "\\b"
    else if c == 12 as char then "\\f"
    else if c == '\n' then "\\n"
    else if c == '\r' then "\\r"
    else if c == '\t' then "\\t"
    else [c]
  }

  /** Decoding undoes escaping: every string survives the round trip. */
  lemma {:induction false} InterpolateEscape(s: string)
    ensures Interpolate(Escape(s)) == s
  {
    if s != [] {
      var e := EscapeChar(s[0]);
      var rest := Escape(s[1..]);
      assert Escape(s) == e + rest;
      InterpolateEscape(s[1..]);
      var t := e + rest;
      if |e| == 2 {
        assert t[0] == '\\' && t[1] == e[1] && t[2..] == rest;
      } else {
        assert t[0] == s[0] && t[1..] == rest;
      }
    }
  }

  /** A character a string may hold once escaped: any but the control characters without a short escape. */
  predicate Escapable(c: char) {
    c >= ' ' || c == 8 as char || c == 12 as char || c == '\n' || c == '\r' || c == '\t'
  }

  /** Escaping yields text the string rule of the scanner accepts between quotes. */
  lemma {:induction false} EscapeIsStringBody(s: string)
    requires forall i :: 0 <= i < |s| ==> Escapable(s[i])
    ensures IsStringBody(Escape(s))
  {
    if s != [] {
      var e := EscapeChar(s[0]);
      var rest := Escape(s[1..]);
      EscapeIsStringBody(s[1..]);
      var t := e + rest;
      assert Escape(s) == t;
      if |e| == 2 {
        assert t[2..] == rest;
      } else {
        assert t[1..] == rest;
      }
    }
  }
}
