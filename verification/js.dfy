/** The slice of JavaScript semantics the server and client logic relies on:
    untyped JSON-like values, truthiness, property lookup with optional
    chaining, `String.prototype.trim`, `slice(0, n)` and `Number(string)`. */
module Js {
  import opened Wrappers

  /** A JavaScript value as produced by `JSON.parse` plus `undefined` and
      `NaN`. Numbers are exact reals; object key order is not represented. */
  datatype Value =
    | Undefined
    | Null
    | Bool(b: bool)
    | Num(n: real)
    | NaN
    | Str(s: string)
    | Arr(items: seq<Value>)
    | Obj(fields: map<string, Value>)

  /** JavaScript truthiness: `undefined`, `null`, `false`, `0`, `NaN` and
      the empty string are falsy; every array and object is truthy. */
  predicate Truthy(v: Value) {
    match v
    case Undefined => false
    case Null => false
    case Bool(b) => b
    case Num(n) => n != 0.0
    case NaN => false
    case Str(s) => s != ""
    case Arr(_) => true
    case Obj(_) => true
  }

  /** `a || b` */
  function Or(a: Value, b: Value): (r: Value)
    ensures Truthy(a) ==> r == a
    ensures !Truthy(a) ==> r == b
  {
    if Truthy(a) then a else b
  }

  /** `typeof v === 'number'` (NaN included). */
  predicate IsNumber(v: Value) {
    v.Num? || v.NaN?
  }

  predicate IsDigit(c: char) {
    '0' <= c <= '9'
  }

  predicate AllDigits(s: string) {
    forall i :: 0 <= i < |s| ==> IsDigit(s[i])
  }

  /** The canonical array-index spelling of a key: decimal digits with no
      leading zero (except "0" itself). */
  predicate IsIndexKey(k: string) {
    |k| > 0 && AllDigits(k) && (k[0] != '0' || |k| == 1)
  }

  function DigitsValue(s: string): (n: nat)
    requires AllDigits(s)
    decreases |s|
  {
    if |s| == 0 then 0
    else 10 * DigitsValue(s[..|s| - 1]) + (s[|s| - 1] as int - '0' as int)
  }

  /** `v?.[key]`: a missing object key and any lookup on `undefined` or
      `null` give `undefined`; a string or an array answers `length` and
      its in-range index keys (a string with one-character strings). The
      properties objects inherit from their prototypes, and the methods of
      primitives, are not modelled. */
  function Get(v: Value, key: string): (r: Value)
    ensures v.Obj? && key in v.fields ==> r == v.fields[key]
    ensures v.Obj? && key !in v.fields ==> r == Undefined
    ensures v.Arr? && key == "length" ==> r == Num(|v.items| as real)
    ensures v.Str? && key == "length" ==> r == Num(Length(v.s) as real)
    ensures v.Str? && IsIndexKey(key) && DigitsValue(key) < |v.s| ==> r == Str([v.s[DigitsValue(key)]])
    ensures !v.Obj? && !v.Arr? && !v.Str? ==> r == Undefined
  {
    match v
    case Obj(m) => if key in m then m[key] else Undefined
    case Arr(items) =>
      if key == "length" then Num(|items| as real)
      else if IsIndexKey(key) && DigitsValue(key) < |items| then items[DigitsValue(key)] else Undefined
    case Str(s) =>
      if key == "length" then Num(Length(s) as real)
      else if IsIndexKey(key) && DigitsValue(key) < |s| then Str([s[DigitsValue(key)]]) else Undefined
    case _ => Undefined
  }

  /** The message of the TypeError thrown by destructuring `v` (which is
      `undefined` or `null`) out of the variable `name`, whose first
      destructured property is `property`. */
  function DestructureError(property: string, name: string, v: Value): string {
    "Cannot destructure property '" + property + "' of '" + name + "' as it is "
      + (if v.Null? then "null" else "undefined") + "."
  }

  /** Spreading `{...v}` for the object case; every other value spreads to
      no named keys. */
  function Fields(v: Value): map<string, Value> {
    if v.Obj? then v.fields else map[]
  }

  /** The characters `String.prototype.trim` removes: ECMAScript WhiteSpace
      and LineTerminator code points. */
  predicate IsSpace(c: char) {
    || c == '\t' || c == '\n' || c == '\U{000B}' || c == '\U{000C}' || c == '\r'
    || c == ' ' || c == '\U{00A0}' || c == '\U{1680}'
    || ('\U{2000}' <= c <= '\U{200A}')
    || c == '\U{2028}' || c == '\U{2029}' || c == '\U{202F}' || c == '\U{205F}'
    || c == '\U{3000}' || c == '\U{FEFF}'
  }

  function TrimStart(s: string): (r: string)
    ensures |r| <= |s| && r == s[|s| - |r|..]
    ensures r == "" || !IsSpace(r[0])
    ensures forall i :: 0 <= i < |s| - |r| ==> IsSpace(s[i])
  {
    if |s| > 0 && IsSpace(s[0]) then TrimStart(s[1..]) else s
  }

  function TrimEnd(s: string): (r: string)
    ensures |r| <= |s| && r == s[..|r|]
    ensures r == "" || !IsSpace(r[|r| - 1])
    ensures forall i :: |r| <= i < |s| ==> IsSpace(s[i])
  {
    if |s| > 0 && IsSpace(s[|s| - 1]) then TrimEnd(s[..|s| - 1]) else s
  }

  /** `s.trim()` */
  function Trim(s: string): (r: string) {
    TrimEnd(TrimStart(s))
  }

  /** A trimmed string neither starts nor ends with white space, is a
      contiguous piece of the input, and trimming it again changes nothing. */
  lemma TrimFacts(s: string)
    ensures Trim(s) == "" || (!IsSpace(Trim(s)[0]) && !IsSpace(Trim(s)[|Trim(s)| - 1]))
    ensures exists i, j :: 0 <= i <= j <= |s| && Trim(s) == s[i..j]
    ensures Trim(Trim(s)) == Trim(s)
  {
    TrimEnds(s);
    TrimSlice(s);
    TrimFixedPoint(Trim(s));
  }

  lemma TrimEnds(s: string)
    ensures Trim(s) == "" || (!IsSpace(Trim(s)[0]) && !IsSpace(Trim(s)[|Trim(s)| - 1]))
  {
    var a := TrimStart(s);
    var r := TrimEnd(a);
    if r != "" {
      assert r[0] == a[0];
    }
  }

  lemma TrimSlice(s: string)
    ensures exists i, j :: 0 <= i <= j <= |s| && Trim(s) == s[i..j]
  {
    var a := TrimStart(s);
    var r := TrimEnd(a);
    assert r == s[|s| - |a|..][..|r|];
    assert r == s[|s| - |a|..|s| - |a| + |r|];
  }

  /** A string that neither starts nor ends with white space is its own trim. */
  lemma TrimFixedPoint(t: string)
    requires t == "" || (!IsSpace(t[0]) && !IsSpace(t[|t| - 1]))
    ensures Trim(t) == t
  {
  }

  /** `s.slice(0, n)` for `n >= 0`. */
  function Prefix(s: string, n: nat): (r: string)
    ensures |r| == if |s| <= n then |s| else n
    ensures r == s[..|r|]
  {
    if |s| <= n then s else s[..n]
  }

  /** The UTF-16 code units of one code point: two for a code point
      outside the Basic Multilingual Plane, which JavaScript stores as a
      surrogate pair. */
  function Units(c: char): nat {
    if c as int >= 0x1_0000 then 2 else 1
  }

  /** `s.length`: the number of UTF-16 code units, so every code point
      outside the Basic Multilingual Plane counts twice. */
  function Length(s: string): (n: nat)
    ensures |s| <= n <= 2 * |s|
  {
    if |s| == 0 then 0 else Length(s[..|s| - 1]) + Units(s[|s| - 1])
  }

  /** The length of a concatenation is the sum of the lengths. */
  lemma {:induction false} LengthAppend(a: string, b: string)
    ensures Length(a + b) == Length(a) + Length(b)
    decreases |b|
  {
    if |b| == 0 {
      assert a + b == a;
    } else {
      var b' := b[..|b| - 1];
      assert (a + b)[..|a + b| - 1] == a + b';
      LengthAppend(a, b');
    }
  }

  /** Text inside the Basic Multilingual Plane has one code unit per code
      point. */
  lemma {:induction false} LengthBmp(s: string)
    requires forall i :: 0 <= i < |s| ==> s[i] as int < 0x1_0000
    ensures Length(s) == |s|
  {
    if |s| > 0 {
      LengthBmp(s[..|s| - 1]);
    }
  }

  /** Text made only of code points outside the Basic Multilingual Plane
      (emoji, say) has two code units per code point. */
  lemma {:induction false} LengthAstral(s: string)
    requires forall i :: 0 <= i < |s| ==> s[i] as int >= 0x1_0000
    ensures Length(s) == 2 * |s|
  {
    if |s| > 0 {
      LengthAstral(s[..|s| - 1]);
    }
  }

  /** `s.slice(-n)` for `n > 0`: the last `n` elements, or all of them. */
  function Last<T>(s: seq<T>, n: nat): (r: seq<T>)
    ensures |r| == if |s| <= n then |s| else n
    ensures r == s[|s| - |r|..]
  {
    if |s| <= n then s else s[|s| - n..]
  }

  /** Every element of `Last(s, n)` is an element of `s`. */
  lemma LastIn<T>(s: seq<T>, n: nat)
    ensures forall i :: 0 <= i < |Last(s, n)| ==> Last(s, n)[i] in s
  {
    var r := Last(s, n);
    forall i | 0 <= i < |r|
      ensures r[i] in s
    {
      assert r[i] == s[|s| - |r| + i];
    }
  }

  /** No element occurs twice. */
  predicate Distinct<T(==)>(s: seq<T>) {
    forall i, j :: 0 <= i < j < |s| ==> s[i] != s[j]
  }

  /** `items.join(sep)` */
  function Join(items: seq<string>, sep: string): string {
    if |items| == 0 then ""
    else if |items| == 1 then items[0]
    else Join(items[..|items| - 1], sep) + sep + items[|items| - 1]
  }

  /** `p.endsWith(q)` */
  predicate EndsWith(p: string, q: string) {
    |q| <= |p| && p[|p| - |q|..] == q
  }

  /** `p.startsWith(q)` */
  predicate StartsWith(p: string, q: string) {
    |q| <= |p| && p[..|q|] == q
  }

  /** Value of an unsigned decimal numeral `a.b` (either part may be empty,
      but not both). */
  function DecimalValue(a: string, b: string): real
    requires AllDigits(a) && AllDigits(b)
  {
    DigitsValue(a) as real + DigitsValue(b) as real / Pow10(|b|) as real
  }

  function Pow10(n: nat): (r: nat)
    ensures r >= 1
  {
    if n == 0 then 1 else 10 * Pow10(n - 1)
  }

  /** Position of the first '.' in `s`, if any. */
  function IndexOfDot(s: string): (r: Option<nat>)
    ensures r.Some? ==> r.value < |s| && s[r.value] == '.' && '.' !in s[..r.value]
    ensures r.None? ==> '.' !in s
  {
    if |s| == 0 then None
    else if s[0] == '.' then Some(0)
    else match IndexOfDot(s[1..])
      case None => None
      case Some(i) => assert s[1..][..i] == s[1..i + 1]; Some(i + 1)
  }

  /** Unsigned decimal literal: digits with at most one '.', at least one digit. */
  function UnsignedDecimal(t: string): Option<real> {
    match IndexOfDot(t)
    case None => if |t| > 0 && AllDigits(t) then Some(DigitsValue(t) as real) else None
    case Some(i) =>
      var a := t[..i];
      var b := t[i + 1..];
      if |a| + |b| > 0 && AllDigits(a) && AllDigits(b) then Some(DecimalValue(a, b)) else None
  }

  /** `Number(s)` for the decimal forms: white space around the numeral is
      ignored, a blank string is 0, and an optional sign may lead. Anything
      else is NaN. */
  function NumberOf(s: string): (r: Value)
    ensures r.Num? || r.NaN?
    ensures Trim(s) == "" ==> r == Num(0.0)
  {
    var t := Trim(s);
    if t == "" then Num(0.0)
    else
      var (neg, body) :=
        if t[0] == '-' then (true, t[1..])
        else if t[0] == '+' then (false, t[1..])
        else (false, t);
      match UnsignedDecimal(body)
      case Some(x) => Num(if neg then -x else x)
      case None => NaN
  }

  /** `Number` reads a run of decimal digits as its value. */
  lemma NumberOfDigits(d: string)
    requires |d| > 0 && AllDigits(d)
    ensures NumberOf(d) == Num(DigitsValue(d) as real)
  {
    DigitIsPlain(d[0]);
    DigitIsPlain(d[|d| - 1]);
    TrimFixedPoint(d);
    UnsignedDigits(d);
    NumberOfPlain(d, DigitsValue(d) as real);
  }

  /** A minus sign in front of the digits negates their value. */
  lemma NumberOfNegative(s: string)
    requires |s| > 1 && s[0] == '-' && AllDigits(s[1..])
    ensures NumberOf(s) == Num(-(DigitsValue(s[1..]) as real))
  {
    var d := s[1..];
    DigitIsPlain(d[|d| - 1]);
    TrimFixedPoint(s);
    UnsignedDigits(d);
    NumberOfMinus(s, d, DigitsValue(d) as real);
  }

  /** A digit is neither white space nor a sign. */
  lemma DigitIsPlain(c: char)
    requires IsDigit(c)
    ensures !IsSpace(c) && c != '-' && c != '+'
  {
  }

  /** Trimmed, unsigned text reads as its unsigned literal. */
  lemma NumberOfPlain(s: string, x: real)
    requires |s| > 0 && Trim(s) == s && s[0] != '-' && s[0] != '+' && UnsignedDecimal(s) == Some(x)
    ensures NumberOf(s) == Num(x)
  {
  }

  /** Trimmed text made of a minus sign and an unsigned literal is the
      literal's value negated. */
  lemma NumberOfMinus(s: string, d: string, x: real)
    requires |s| > 0 && Trim(s) == s && s[0] == '-' && s[1..] == d && UnsignedDecimal(d) == Some(x)
    ensures NumberOf(s) == Num(-x)
  {
  }

  /** Digits without a point are an unsigned decimal literal. */
  lemma UnsignedDigits(d: string)
    requires |d| > 0 && AllDigits(d)
    ensures UnsignedDecimal(d) == Some(DigitsValue(d) as real)
  {
    assert forall i :: 0 <= i < |d| ==> d[i] != '.';
  }

  /** `s.split(sep)` for a one-character separator. */
  function Split(s: string, sep: char): (r: seq<string>)
    ensures |r| >= 1
    ensures forall i :: 0 <= i < |r| ==> sep !in r[i]
    decreases |s|
  {
    if |s| == 0 then [""]
    else
      var rest := Split(s[1..], sep);
      if s[0] == sep then [""] + rest
      else
        assert sep !in [s[0]] + rest[0];
        [[s[0]] + rest[0]] + rest[1..]
  }

  lemma {:induction false} JoinCons(x: string, rest: seq<string>, sep: string)
    requires |rest| >= 1
    ensures Join([x] + rest, sep) == x + sep + Join(rest, sep)
    decreases |rest|
  {
    if |rest| > 1 {
      var init := rest[..|rest| - 1];
      assert ([x] + rest)[..|rest|] == [x] + init;
      JoinCons(x, init, sep);
    }
  }

  lemma {:induction false} SplitNoSep(s: string, sep: char)
    requires sep !in s
    ensures Split(s, sep) == [s]
    decreases |s|
  {
    if |s| > 0 {
      SplitNoSep(s[1..], sep);
      assert [s[0]] + s[1..] == s;
    }
  }

  /** Splitting at the first separator. */
  lemma {:induction false} SplitCons(a: string, b: string, sep: char)
    requires sep !in a
    ensures Split(a + [sep] + b, sep) == [a] + Split(b, sep)
    decreases |a|
  {
    var s := a + [sep] + b;
    if |a| == 0 {
      assert s[1..] == b;
    } else {
      assert s[1..] == a[1..] + [sep] + b;
      SplitCons(a[1..], b, sep);
      assert [a[0]] + a[1..] == a;
    }
  }

  /** Joining the pieces with the separator gives back the string. */
  lemma {:induction false} SplitJoin(s: string, sep: char)
    ensures Join(Split(s, sep), [sep]) == s
    decreases |s|
  {
    if |s| > 0 {
      var rest := Split(s[1..], sep);
      SplitJoin(s[1..], sep);
      if s[0] == sep {
        JoinCons("", rest, [sep]);
        assert s == [sep] + s[1..];
      } else if |rest| == 1 {
        assert s == [s[0]] + s[1..];
      } else {
        JoinGlue(s[0], rest, [sep]);
        assert s == [s[0]] + s[1..];
      }
    }
  }

  /** Gluing a character to the first piece glues it to the join. */
  lemma JoinGlue(c: char, rest: seq<string>, sep: string)
    requires |rest| >= 2
    ensures Join([[c] + rest[0]] + rest[1..], sep) == [c] + Join(rest, sep)
  {
    JoinCons([c] + rest[0], rest[1..], sep);
    JoinCons(rest[0], rest[1..], sep);
    assert [rest[0]] + rest[1..] == rest;
  }

  /** Splitting a join of separator-free pieces gives back the pieces. */
  lemma {:induction false} JoinSplit(parts: seq<string>, sep: char)
    requires |parts| >= 1
    requires forall i :: 0 <= i < |parts| ==> sep !in parts[i]
    ensures Split(Join(parts, [sep]), sep) == parts
    decreases |parts|
  {
    if |parts| == 1 {
      SplitNoSep(parts[0], sep);
    } else {
      var rest := parts[1..];
      assert parts == [parts[0]] + rest;
      JoinCons(parts[0], rest, [sep]);
      SplitCons(parts[0], Join(rest, [sep]), sep);
      JoinSplit(rest, sep);
    }
  }
}
