/**
 * The small part of JavaScript's value semantics that the dashboard's data
 * code relies on: JSON values as the code receives them, truthiness, `??`,
 * property access, `String(x)`, `Number(x)`, `Number.isFinite`,
 * `String.prototype.trim` and `slice` on arrays and strings.
 */
module Js {
  import opened Wrappers
  import Seqs

  /**
   * A JavaScript number as produced by `Number(x)`. Finite doubles are
   * represented by the exact real they denote.
   */
  datatype JsNumber = Finite(r: real) | NaN | PosInfinity | NegInfinity

  /**
   * A value of the parsed JSON payload. A number carries, beside its value,
   * the text `String(n)` prints for it (double formatting is not modelled).
   */
  datatype Json =
    | Undefined
    | Null
    | Bool(b: bool)
    | Num(value: real, text: string)
    | Str(s: string)
    | Arr(items: seq<Json>)
    | Obj(fields: map<string, Json>)

  /** `Boolean(j)`: false exactly for undefined, null, false, 0 and "". */
  predicate Truthy(j: Json) {
    match j
    case Undefined => false
    case Null => false
    case Bool(b) => b
    case Num(v, _) => v != 0.0
    case Str(s) => s != ""
    case Arr(_) => true
    case Obj(_) => true
  }

  /** The values `??` and `?.` treat as missing. */
  predicate Nullish(j: Json) {
    j.Undefined? || j.Null?
  }

  /** `a ?? b`. */
  function Coalesce(a: Json, b: Json): (r: Json)
    ensures !Nullish(a) ==> r == a
    ensures Nullish(a) ==> r == b
  {
    if Nullish(a) then b else a
  }

  /** `j?.key` (and `j.key` on a non-nullish value): a missing property reads as undefined. */
  function Get(j: Json, key: string): (r: Json)
    ensures j.Obj? && key in j.fields ==> r == j.fields[key]
    ensures !(j.Obj? && key in j.fields) ==> r == Undefined
  {
    match j
    case Obj(fields) => if key in fields then fields[key] else Undefined
    case _ => Undefined
  }

  /** `typeof j === "object"`: true for null, arrays and objects. */
  predicate IsObjectType(j: Json) {
    j.Null? || j.Arr? || j.Obj?
  }

  /** `Number.isFinite(n)`. */
  predicate IsFinite(n: JsNumber) {
    n.Finite?
  }

  /** `Number.isFinite(n) && n > 0`. */
  predicate IsPositiveFinite(n: JsNumber) {
    n.Finite? && n.r > 0.0
  }

  // ---------------------------------------------------------------------
  // slice
  // ---------------------------------------------------------------------

  /** How `slice` turns a relative index into an absolute one for a length `len`. */
  function RelativeIndex(i: int, len: nat): (r: nat)
    ensures r <= len
    ensures 0 <= i ==> r == if i <= len then i else len
    ensures i < 0 ==> r == if len + i >= 0 then len + i else 0
  {
    if i < 0 then (if len + i >= 0 then len + i else 0)
    else if i <= len then i else len
  }

  /** `Array.prototype.slice(start, end)` and `String.prototype.slice(start, end)`. */
  function Slice<T>(s: seq<T>, start: int, end: int): (r: seq<T>)
    ensures 0 <= start <= end ==> r == s[(if start <= |s| then start else |s|)..(if end <= |s| then end else |s|)]
    ensures 0 <= end ==> |r| <= end
  {
    var from := RelativeIndex(start, |s|);
    var to := RelativeIndex(end, |s|);
    if from < to then s[from..to] else []
  }

  /** `s.slice(0, end)` is always a prefix; for `end >= 0` it keeps the first `min(end, |s|)` elements. */
  lemma SlicePrefix<T>(s: seq<T>, end: int)
    ensures 0 <= end ==> |Slice(s, 0, end)| == if end <= |s| then end else |s|
    ensures end < 0 ==> |Slice(s, 0, end)| == if |s| + end >= 0 then |s| + end else 0
    ensures Slice(s, 0, end) == s[..|Slice(s, 0, end)|]
  {
  }

  /** Taking a prefix commutes with `map`. */
  lemma SliceMap<A, B>(s: seq<A>, end: int, f: A -> B)
    ensures Slice(Seqs.Map(s, f), 0, end) == Seqs.Map(Slice(s, 0, end), f)
  {
    SlicePrefix(s, end);
    SlicePrefix(Seqs.Map(s, f), end);
  }

  // ---------------------------------------------------------------------
  // trim
  // ---------------------------------------------------------------------

  /** ECMAScript WhiteSpace and LineTerminator code points, which `trim` removes. */
  predicate IsJsWhitespace(c: char) {
    c == '\t' || c == '\n' || c == '\U{000B}' || c == '\U{000C}' || c == '\r' || c == ' '
    || c == '\U{00A0}' || c == '\U{1680}' || ('\U{2000}' <= c <= '\U{200A}')
    || c == '\U{2028}' || c == '\U{2029}' || c == '\U{202F}' || c == '\U{205F}'
    || c == '\U{3000}' || c == '\U{FEFF}'
  }

  function TrimStart(s: string): (r: string)
    ensures |r| <= |s| && r == s[|s| - |r|..]
    ensures r != [] ==> !IsJsWhitespace(r[0])
    ensures forall i :: 0 <= i < |s| - |r| ==> IsJsWhitespace(s[i])
  {
    if s != [] && IsJsWhitespace(s[0]) then TrimStart(s[1..]) else s
  }

  function TrimEnd(s: string): (r: string)
    ensures |r| <= |s| && r == s[..|r|]
    ensures r != [] ==> !IsJsWhitespace(r[|r| - 1])
    ensures forall i :: |r| <= i < |s| ==> IsJsWhitespace(s[i])
  {
    if s != [] && IsJsWhitespace(s[|s| - 1]) then TrimEnd(s[..|s| - 1]) else s
  }

  /** `String.prototype.trim`: the longest infix without leading or trailing white space. */
  function Trim(s: string): (r: string)
    ensures r != [] ==> !IsJsWhitespace(r[0]) && !IsJsWhitespace(r[|r| - 1])
    ensures |r| <= |TrimStart(s)| <= |s|
    ensures r == s[|s| - |TrimStart(s)|..|s| - |TrimStart(s)| + |r|]
  {
    TrimEnd(TrimStart(s))
  }

  // ---------------------------------------------------------------------
  // String(x)
  // ---------------------------------------------------------------------

  /** `parts.join(sep)`. */
  function Join(parts: seq<string>, sep: string): string {
    if parts == [] then ""
    else if |parts| == 1 then parts[0]
    else parts[0] + sep + Join(parts[1..], sep)
  }

  /**
   * `String(j)`. An array prints as its elements joined by ",", with null and
   * undefined elements printing as the empty string; a plain object prints as
   * "[object Object]".
   */
  function ToJsString(j: Json): string
    decreases j
  {
    match j
    case Undefined => "undefined"
    case Null => "null"
    case Bool(b) => if b then "true" else "false"
    case Num(_, text) => text
    case Str(s) => s
    case Arr(items) =>
      Join(seq(|items|, i requires 0 <= i < |items| =>
             if Nullish(items[i]) then "" else ToJsString(items[i])), ",")
    case Obj(_) => "[object Object]"
  }

  // ---------------------------------------------------------------------
  // Number(x)
  // ---------------------------------------------------------------------

  /** The value of `c` as a digit in `radix` (2, 8, 10 or 16), or -1. */
  function DigitValue(c: char, radix: nat): (d: int)
    ensures -1 <= d < radix
  {
    var v :=
      if '0' <= c <= '9' then c as int - '0' as int
      else if 'a' <= c <= 'f' then c as int - 'a' as int + 10
      else if 'A' <= c <= 'F' then c as int - 'A' as int + 10
      else -1;
    if v < radix then v else -1
  }

  predicate AllDigits(s: string, radix: nat) {
    forall i :: 0 <= i < |s| ==> DigitValue(s[i], radix) >= 0
  }

  /** The value of the digit string `s` in `radix`. */
  function DigitsValue(s: string, radix: nat): nat
    requires AllDigits(s, radix)
  {
    if s == [] then 0
    else DigitsValue(s[..|s| - 1], radix) * radix + DigitValue(s[|s| - 1], radix)
  }

  function Pow10(n: nat): (r: nat)
    ensures r >= 1
  {
    if n == 0 then 1 else 10 * Pow10(n - 1)
  }

  /** Index of the first occurrence of a character satisfying `p`, or |s|. */
  function IndexWhere(s: string, p: char -> bool): (i: nat)
    ensures i <= |s|
    ensures forall k :: 0 <= k < i ==> !p(s[k])
    ensures i < |s| ==> p(s[i])
  {
    if s == [] then 0 else if p(s[0]) then 0 else 1 + IndexWhere(s[1..], p)
  }

  /** `[+-]? digits`, the exponent of a decimal literal. */
  function ParseSignedInteger(s: string): Option<int> {
    if s != [] && (s[0] == '+' || s[0] == '-') then
      var u := s[1..];
      if u != [] && AllDigits(u, 10) then
        Some(if s[0] == '-' then -(DigitsValue(u, 10) as int) else DigitsValue(u, 10))
      else None
    else if s != [] && AllDigits(s, 10) then Some(DigitsValue(s, 10))
    else None
  }

  /** `10^e` as a real, for any integer `e`. */
  function Scale(e: int): (r: real)
    ensures r > 0.0
  {
    if e >= 0 then Pow10(e) as real else 1.0 / (Pow10(-e) as real)
  }

  /**
   * StrUnsignedDecimalLiteral without `Infinity`: `digits [. digits?] [exp]`
   * or `. digits [exp]`.
   */
  function ParseUnsignedDecimal(u: string): Option<real> {
    var e := IndexWhere(u, c => c == 'e' || c == 'E');
    var exponent := if e < |u| then ParseSignedInteger(u[e + 1..]) else Some(0);
    var mantissa := u[..e];
    var d := IndexWhere(mantissa, c => c == '.');
    var whole := mantissa[..d];
    var fraction := if d < |mantissa| then mantissa[d + 1..] else "";
    if exponent.Some? && AllDigits(whole, 10) && AllDigits(fraction, 10) && |whole| + |fraction| > 0 then
      Some((DigitsValue(whole, 10) as real
            + DigitsValue(fraction, 10) as real / (Pow10(|fraction|) as real))
           * Scale(exponent.value))
    else None
  }

  /** A StrNumericLiteral with its white space already trimmed. */
  function ParseNumericLiteral(t: string): JsNumber {
    if t == [] then Finite(0.0)
    else if |t| > 2 && t[0] == '0' && (t[1] == 'x' || t[1] == 'X' || t[1] == 'o' || t[1] == 'O' || t[1] == 'b' || t[1] == 'B') then
      var radix := if t[1] == 'x' || t[1] == 'X' then 16 else if t[1] == 'o' || t[1] == 'O' then 8 else 2;
      if AllDigits(t[2..], radix) then Finite(DigitsValue(t[2..], radix) as real) else NaN
    else
      var negative := t[0] == '-';
      var u := if t[0] == '+' || t[0] == '-' then t[1..] else t;
      if u == "Infinity" then (if negative then NegInfinity else PosInfinity)
      else match ParseUnsignedDecimal(u)
        case Some(r) => Finite(if negative then -r else r)
        case None => NaN
  }

  /** `Number(s)` for a string: surrounding white space is ignored and "" is 0. */
  function StringToNumber(s: string): JsNumber {
    ParseNumericLiteral(Trim(s))
  }

  /** `Number(j)`. Arrays convert through their `String` form; objects give NaN. */
  function ToNumber(j: Json): JsNumber {
    match j
    case Undefined => NaN
    case Null => Finite(0.0)
    case Bool(b) => Finite(if b then 1.0 else 0.0)
    case Num(v, _) => Finite(v)
    case Str(s) => StringToNumber(s)
    case Arr(_) => StringToNumber(ToJsString(j))
    case Obj(_) => NaN
  }

  // ---------------------------------------------------------------------
  // Printing small integers (template literals such as `${h}:00`)
  // ---------------------------------------------------------------------

  /** The decimal digits of `n` without leading zeros. */
  function NatToString(n: nat): (s: string)
    ensures s != []
    ensures AllDigits(s, 10) && DigitsValue(s, 10) == n
    decreases n
  {
    var last := ['0' + ((n % 10) as char)];
    assert DigitValue(last[0], 10) == n % 10;
    if n < 10 then
      last
    else
      var prefix := NatToString(n / 10);
      assert (prefix + last)[..|prefix + last| - 1] == prefix;
      prefix + last
  }
}
