/**
 * The JavaScript values and built-ins that the kiosk's decision procedures rely on:
 * primitive values with their truthiness, `==` (loose equality), `String(v)`,
 * `String.prototype.trim`, `parseInt(s, 10)` and `Array.prototype.find`.
 * Numbers are restricted to integers: the kiosk only ever handles ids.
 */
module JsValues {

  datatype Option<+T> = None | Some(value: T)

  /** The outcome of a call that may throw: the value, or the thrown error's message. */
  datatype Result<+T> = Ok(value: T) | Err(message: string)

  /** A JavaScript primitive value. */
  datatype Scalar = Undefined | Null | Bool(b: bool) | Num(n: int) | NaN | Str(s: string)

  /** A plain object of primitive fields, as `Object.entries` lists it (insertion order). */
  type Entries = seq<(string, Scalar)>

  function Keys(e: Entries): (ks: seq<string>)
    ensures |ks| == |e|
    ensures forall i :: 0 <= i < |e| ==> ks[i] == e[i].0
  {
    seq(|e|, i requires 0 <= i < |e| => e[i].0)
  }

  /** No key occurs twice, as in every JavaScript object. */
  predicate DistinctKeys(e: Entries) {
    forall i, j :: 0 <= i < j < |e| ==> e[i].0 != e[j].0
  }

  /** The value stored under `key`, or `undefined` when the object has no such key. */
  function Get(e: Entries, key: string): Scalar {
    if e == [] then Undefined
    else if e[0].0 == key then e[0].1
    else Get(e[1..], key)
  }

  /** In an object with distinct keys, each key reads back the value stored beside it. */
  lemma {:induction false} GetAt(e: Entries, i: nat)
    requires DistinctKeys(e) && i < |e|
    ensures Get(e, e[i].0) == e[i].1
  {
    if i > 0 {
      assert e[0].0 != e[i].0;
      assert e[1..][i - 1] == e[i];
      GetAt(e[1..], i - 1);
    }
  }

  // ---------------------------------------------------------------------------
  // Truthiness and `||`

  /** `Boolean(v)`: false exactly for undefined, null, false, 0, NaN and "". */
  predicate Truthy(v: Scalar) {
    match v
    case Undefined => false
    case Null => false
    case NaN => false
    case Bool(b) => b
    case Num(n) => n != 0
    case Str(s) => s != ""
  }

  /** The six falsy values of the language. */
  const FalsyValues: set<Scalar> := {Undefined, Null, Bool(false), Num(0), NaN, Str("")}

  /** A value is truthy exactly when it is none of the six falsy values. */
  lemma TruthyIffNotFalsy(v: Scalar)
    ensures Truthy(v) <==> v !in FalsyValues
  {
  }

  /** `a || b`. */
  function Or(a: Scalar, b: Scalar): Scalar {
    if Truthy(a) then a else b
  }

  // ---------------------------------------------------------------------------
  // Whitespace and trimming

  /**
   * The characters matched by `\s` and removed by `trim()`: the WhiteSpace and
   * LineTerminator productions of ECMAScript.
   */
  predicate IsWhitespace(c: char) {
    c == '\t' || c == '\n' || c == '\U{000B}' || c == '\U{000C}' || c == '\r' || c == ' '
    || c == '\U{00A0}' || c == '\U{1680}' || ('\U{2000}' <= c <= '\U{200A}')
    || c == '\U{2028}' || c == '\U{2029}' || c == '\U{202F}' || c == '\U{205F}'
    || c == '\U{3000}' || c == '\U{FEFF}'
  }

  predicate AllWhitespace(s: string) {
    forall i :: 0 <= i < |s| ==> IsWhitespace(s[i])
  }

  /** `s` neither starts nor ends with whitespace. */
  predicate Trimmed(s: string) {
    s == [] || (!IsWhitespace(s[0]) && !IsWhitespace(s[|s| - 1]))
  }

  /** `trimStart()`: the suffix left after the leading whitespace. */
  function TrimStart(s: string): string {
    if s != [] && IsWhitespace(s[0]) then TrimStart(s[1..]) else s
  }

  /** `trimStart()` keeps a suffix that does not start with whitespace, and drops only
      whitespace. */
  lemma {:induction false} TrimStartSpec(s: string)
    ensures |TrimStart(s)| <= |s| && TrimStart(s) == s[|s| - |TrimStart(s)|..]
    ensures TrimStart(s) == [] || !IsWhitespace(TrimStart(s)[0])
    ensures AllWhitespace(s[..|s| - |TrimStart(s)|])
  {
    if s != [] && IsWhitespace(s[0]) {
      TrimStartSpec(s[1..]);
      var r := TrimStart(s[1..]);
      assert s[..|s| - |r|] == [s[0]] + s[1..][..|s| - 1 - |r|];
    }
  }

  /** `trimEnd()`: the prefix left before the trailing whitespace. */
  function TrimEnd(s: string): string {
    if s != [] && IsWhitespace(s[|s| - 1]) then TrimEnd(s[..|s| - 1]) else s
  }

  /** `trimEnd()` keeps a prefix that does not end with whitespace, and drops only
      whitespace. */
  lemma {:induction false} TrimEndSpec(s: string)
    ensures |TrimEnd(s)| <= |s| && TrimEnd(s) == s[..|TrimEnd(s)|]
    ensures TrimEnd(s) == [] || !IsWhitespace(TrimEnd(s)[|TrimEnd(s)| - 1])
    ensures AllWhitespace(s[|TrimEnd(s)|..])
  {
    if s != [] && IsWhitespace(s[|s| - 1]) {
      TrimEndSpec(s[..|s| - 1]);
      var r := TrimEnd(s[..|s| - 1]);
      assert s[|r|..] == s[..|s| - 1][|r|..] + [s[|s| - 1]];
    }
  }

  /** `trim()`. */
  function Trim(s: string): string {
    TrimEnd(TrimStart(s))
  }

  /** `trim()` keeps a contiguous run of `s` that has no whitespace at either end,
      and everything it drops is whitespace. */
  lemma TrimSpec(s: string)
    ensures Trimmed(Trim(s))
    ensures exists k :: 0 <= k <= |s| - |Trim(s)| && Trim(s) == s[k..k + |Trim(s)|]
                        && AllWhitespace(s[..k]) && AllWhitespace(s[k + |Trim(s)|..])
  {
    var t := TrimStart(s);
    var r := TrimEnd(t);
    TrimStartSpec(s);
    TrimEndSpec(t);
    var k := |s| - |t|;
    assert t == s[k..];
    assert r == s[k..k + |r|];
    assert s[k + |r|..] == t[|r|..];
    if r != [] {
      assert r[0] == t[0];
    }
  }

  /** Trimming twice is trimming once. */
  lemma TrimIdempotent(s: string)
    ensures Trim(Trim(s)) == Trim(s)
  {
    var r := Trim(s);
    TrimSpec(s);
    assert TrimStart(r) == r;
    assert TrimEnd(r) == r;
  }

  /** `trim()` yields "" exactly when the string is whitespace only. */
  lemma TrimEmptyIffWhitespace(s: string)
    ensures Trim(s) == "" <==> AllWhitespace(s)
  {
    var t := TrimStart(s);
    TrimStartSpec(s);
    TrimEndSpec(t);
    var k := |s| - |t|;
    assert s[k..] == t;
    assert t != [] ==> s[k] == t[0] && !IsWhitespace(s[k]);
    if Trim(s) == "" {
      assert t[0..] == t;
      assert t == [];
      assert s[..k] == s;
    }
  }

  // ---------------------------------------------------------------------------
  // Decimal digits: `String(n)` and `parseInt(s, 10)`

  predicate IsDigit(c: char) { '0' <= c <= '9' }

  predicate AllDigits(s: string) {
    forall i :: 0 <= i < |s| ==> IsDigit(s[i])
  }

  function DigitChar(d: nat): char
    requires d < 10
  {
    "0123456789"[d]
  }

  /** The decimal representation of `n`, without leading zeros. */
  function NatToString(n: nat): (s: string)
    ensures |s| > 0 && AllDigits(s)
    decreases n
  {
    if n < 10 then [DigitChar(n)] else NatToString(n / 10) + [DigitChar(n % 10)]
  }

  function IntToString(i: int): string {
    if i < 0 then "-" + NatToString(-i) else NatToString(i)
  }

  /** The number a non-empty string of decimal digits denotes. */
  function DigitsValue(s: string): nat
    requires AllDigits(s)
  {
    if s == [] then 0
    else DigitsValue(s[..|s| - 1]) * 10 + (s[|s| - 1] as int - '0' as int)
  }

  /** The longest prefix of `s` made of decimal digits. */
  function DigitPrefix(s: string): (p: string)
    ensures |p| <= |s| && p == s[..|p|] && AllDigits(p)
    ensures |p| < |s| ==> !IsDigit(s[|p|])
  {
    if s != [] && IsDigit(s[0]) then [s[0]] + DigitPrefix(s[1..]) else []
  }

  /** `parseInt(s, 10)`: leading whitespace, an optional sign, then the longest run of
      digits; NaN when there is no digit. */
  function ParseInt(s: string): Scalar {
    var t := TrimStart(s);
    var negative := t != [] && t[0] == '-';
    var rest := if t != [] && (t[0] == '-' || t[0] == '+') then t[1..] else t;
    var digits := DigitPrefix(rest);
    if digits == [] then NaN else Num(Signed(negative, DigitsValue(digits)))
  }

  function Signed(negative: bool, magnitude: nat): int {
    if negative then 0 - magnitude else magnitude
  }

  lemma {:induction false} DigitsValueOfNatToString(n: nat)
    ensures DigitsValue(NatToString(n)) == n
    decreases n
  {
    var s := NatToString(n);
    if n >= 10 {
      DigitsValueOfNatToString(n / 10);
      assert s[..|s| - 1] == NatToString(n / 10);
    }
  }

  lemma {:induction false} DigitPrefixOfDigits(s: string)
    requires AllDigits(s)
    ensures DigitPrefix(s) == s
  {
    if s != [] {
      DigitPrefixOfDigits(s[1..]);
    }
  }

  /** The text of an integer: an optional '-' and then the digits of its magnitude. */
  lemma IntToStringShape(n: int)
    ensures var s := IntToString(n);
      s != [] && !IsWhitespace(s[0]) && !IsWhitespace(s[|s| - 1]) && s[0] != '+'
      && (s[0] == '-' <==> n < 0)
      && (if s[0] == '-' then s[1..] else s) == NatToString(if n < 0 then -n else n)
  {
    var m: nat := if n < 0 then -n else n;
    var d := NatToString(m);
    assert IsDigit(d[0]) && IsDigit(d[|d| - 1]);
    if n < 0 {
      assert IntToString(n)[1..] == d;
    }
  }

  /** `parseInt(String(n), 10) === n` for every integer `n`. */
  lemma ParseIntOfIntToString(n: int)
    ensures ParseInt(IntToString(n)) == Num(n)
  {
    var s := IntToString(n);
    var m: nat := if n < 0 then -n else n;
    IntToStringShape(n);
    assert TrimStart(s) == s;
    var rest := if s[0] == '-' then s[1..] else s;
    assert rest == NatToString(m);
    DigitPrefixOfDigits(rest);
    DigitsValueOfNatToString(m);
  }

  /** `Number(s)` restricted to the integer literals: surrounding whitespace, then ""
      (which is 0) or an optional sign followed by decimal digits. Anything else is NaN. */
  function StringToNumber(s: string): (r: Scalar)
    ensures r.Num? || r.NaN?
  {
    var t := Trim(s);
    if t == "" then Num(0)
    else
      var negative := t[0] == '-';
      var rest := if t[0] == '-' || t[0] == '+' then t[1..] else t;
      if rest != [] && AllDigits(rest) then Num(Signed(negative, DigitsValue(rest))) else NaN
  }

  /** The numeric conversion applied by `==` to a primitive that is not null or undefined. */
  function ToNumber(v: Scalar): (r: Scalar)
    ensures r.Num? || r.NaN?
  {
    match v
    case Undefined => NaN
    case Null => Num(0)
    case NaN => NaN
    case Bool(b) => Num(if b then 1 else 0)
    case Num(n) => v
    case Str(s) => StringToNumber(s)
  }

  predicate Nullish(v: Scalar) { v.Undefined? || v.Null? }

  /**
   * `a == b` on primitives: null and undefined equal only each other; two strings
   * compare as strings, two booleans as booleans; otherwise both sides are converted
   * to numbers, and NaN equals nothing.
   */
  predicate LooseEq(a: Scalar, b: Scalar) {
    if Nullish(a) || Nullish(b) then Nullish(a) && Nullish(b)
    else if a.Str? && b.Str? then a.s == b.s
    else if a.Bool? && b.Bool? then a.b == b.b
    else ToNumber(a).Num? && ToNumber(a) == ToNumber(b)
  }

  /** A numeric id and its decimal text are loosely equal, the way `3 == "3"` holds. */
  lemma LooseEqNumAndItsString(n: int)
    ensures LooseEq(Num(n), Str(IntToString(n)))
  {
    var s := IntToString(n);
    var m: nat := if n < 0 then -n else n;
    IntToStringShape(n);
    assert TrimStart(s) == s;
    assert TrimEnd(s) == s;
    var rest := if s[0] == '-' then s[1..] else s;
    assert rest == NatToString(m);
    DigitsValueOfNatToString(m);
  }

  /** `String(v)`, as template literals render a value. */
  function ToString(v: Scalar): string {
    match v
    case Undefined => "undefined"
    case Null => "null"
    case NaN => "NaN"
    case Bool(b) => if b then "true" else "false"
    case Num(n) => IntToString(n)
    case Str(s) => s
  }

  // ---------------------------------------------------------------------------
  // Array.prototype.find

  /** The index of the first element of `xs` that satisfies `matches`, as `find` picks it. */
  function FindFirst<T>(xs: seq<T>, matches: T -> bool): (r: Option<nat>)
    ensures r.Some? ==> r.value < |xs| && matches(xs[r.value])
    ensures r.Some? ==> forall j :: 0 <= j < r.value ==> !matches(xs[j])
    ensures r.None? ==> forall j :: 0 <= j < |xs| ==> !matches(xs[j])
  {
    if xs == [] then None
    else if matches(xs[0]) then Some(0)
    else
      match FindFirst(xs[1..], matches)
      case None => None
      case Some(i) => Some(i + 1)
  }

  // ---------------------------------------------------------------------------
  // String.prototype.includes

  /** `sub` occurs in `s` starting at index `i`. */
  predicate OccursAt(s: string, sub: string, i: int) {
    0 <= i <= |s| - |sub| && s[i..i + |sub|] == sub
  }

  /** `s.includes(sub)`: `sub` occurs somewhere in `s`. */
  function Includes(s: string, sub: string): (r: bool)
    ensures r <==> exists i :: OccursAt(s, sub, i)
    decreases |s|
  {
    if |s| < |sub| then false
    else if s[..|sub|] == sub then
      assert OccursAt(s, sub, 0);
      true
    else
      var rest := s[1..];
      var found := Includes(rest, sub);
      if found then
        var i :| OccursAt(rest, sub, i);
        assert OccursAt(s, sub, i + 1);
        true
      else
        assert forall i :: OccursAt(s, sub, i) ==> i == 0 || OccursAt(rest, sub, i - 1);
        false
  }
}
