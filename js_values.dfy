/**
 * The slice of JavaScript's value model that the provisioning helper, the
 * strategy adapter and the example database depend on: values and `typeof`
 * tests, truthiness, property reads on plain objects, `Object.assign`,
 * `String.prototype.trim`, the decimal rendering of integral numbers and
 * thrown errors.
 */
module JsValues {

  /** A JavaScript value. Numbers are integral; a function is known by its identity. */
  datatype JsVal =
    | Undefined
    | Null
    | Bool(b: bool)
    | Num(n: int)
    | Str(s: string)
    | Func(id: nat)
    | Obj(props: map<string, JsVal>)

  /** The own enumerable properties of a plain object. */
  type Props = map<string, JsVal>

  /** An exception thrown by `throw new TypeError(...)` and the like. */
  datatype ErrorKind = TypeError | RangeError
  datatype JsError = Thrown(kind: ErrorKind, message: string)

  /** JavaScript's ToBoolean: the values `if (v)` and `v || w` treat as true. */
  predicate Truthy(v: JsVal) {
    match v
    case Undefined => false
    case Null => false
    case Bool(b) => b
    case Num(n) => n != 0
    case Str(s) => s != ""
    case Func(_) => true
    case Obj(_) => true
  }

  /** `a || b`: the first operand when it is truthy, otherwise the second. */
  function Or(a: JsVal, b: JsVal): (r: JsVal)
    ensures Truthy(a) ==> r == a
    ensures !Truthy(a) ==> r == b
    ensures Truthy(r) <==> Truthy(a) || Truthy(b)
  {
    if Truthy(a) then a else b
  }

  /** Reading `o[key]`: a property the object does not have reads as `undefined`. */
  function Get(o: Props, key: string): JsVal {
    if key in o then o[key] else Undefined
  }

  /**
   * The properties `Object.assign` copies out of one source argument: those of
   * an object; `undefined`, `null`, booleans, numbers and functions add none.
   */
  function OwnProps(v: JsVal): Props {
    if v.Obj? then v.props else map[]
  }

  /** `Object.assign(target, source)`: the source's own properties overwrite the target's. */
  function Assign(target: Props, source: JsVal): (r: Props)
    ensures r.Keys == target.Keys + OwnProps(source).Keys
    ensures forall k :: Get(r, k) == if k in OwnProps(source) then OwnProps(source)[k] else Get(target, k)
  {
    target + OwnProps(source)
  }

  // ---------------------------------------------------------------------------
  // String.prototype.trim

  /**
   * The characters `trim` removes: the WhiteSpace and LineTerminator code
   * points of ECMAScript (section 12.2 and 12.3 of ECMA-262), i.e. TAB, VT,
   * FF, SP, NBSP, ZWNBSP, the Unicode space separators, LF, CR, LS and PS.
   */
  const WhiteSpace: set<char> := {
    '\U{9}', '\U{A}', '\U{B}', '\U{C}', '\U{D}', '\U{20}', '\U{A0}', '\U{1680}',
    '\U{2000}', '\U{2001}', '\U{2002}', '\U{2003}', '\U{2004}', '\U{2005}', '\U{2006}', '\U{2007}',
    '\U{2008}', '\U{2009}', '\U{200A}', '\U{2028}', '\U{2029}', '\U{202F}', '\U{205F}', '\U{3000}',
    '\U{FEFF}'
  }

  predicate IsWhiteSpace(c: char) {
    c in WhiteSpace
  }

  /** Drops the leading white space. */
  function TrimStart(s: string): string {
    if |s| > 0 && IsWhiteSpace(s[0]) then TrimStart(s[1..]) else s
  }

  /** Drops the trailing white space. */
  function TrimEnd(s: string): string {
    if |s| > 0 && IsWhiteSpace(s[|s| - 1]) then TrimEnd(s[..|s| - 1]) else s
  }

  /** What `TrimStart` drops is white space, and what it leaves, a suffix of `s`, does not start with any. */
  lemma {:induction false} TrimStartShape(s: string)
    ensures |TrimStart(s)| <= |s| && TrimStart(s) == s[|s| - |TrimStart(s)|..]
    ensures forall i :: 0 <= i < |s| - |TrimStart(s)| ==> IsWhiteSpace(s[i])
    ensures TrimStart(s) == [] || !IsWhiteSpace(TrimStart(s)[0])
  {
    if |s| > 0 && IsWhiteSpace(s[0]) {
      TrimStartShape(s[1..]);
    }
  }

  /** What `TrimEnd` drops is white space, and what it leaves, a prefix of `s`, does not end with any. */
  lemma {:induction false} TrimEndShape(s: string)
    ensures |TrimEnd(s)| <= |s| && TrimEnd(s) == s[..|TrimEnd(s)|]
    ensures forall i :: |TrimEnd(s)| <= i < |s| ==> IsWhiteSpace(s[i])
    ensures TrimEnd(s) == [] || !IsWhiteSpace(TrimEnd(s)[|TrimEnd(s)| - 1])
  {
    if |s| > 0 && IsWhiteSpace(s[|s| - 1]) {
      TrimEndShape(s[..|s| - 1]);
    }
  }

  /** `s.trim()`. */
  function Trim(s: string): string {
    TrimEnd(TrimStart(s))
  }

  /**
   * `s.trim()` is the slice `s[i..j]` between a white-space prefix and a
   * white-space suffix, and the slice neither starts nor ends with white space.
   */
  lemma TrimIsCore(s: string) returns (i: nat, j: nat)
    ensures i <= j <= |s| && Trim(s) == s[i..j]
    ensures forall k :: 0 <= k < i ==> IsWhiteSpace(s[k])
    ensures forall k :: j <= k < |s| ==> IsWhiteSpace(s[k])
    ensures Trim(s) == [] || (!IsWhiteSpace(Trim(s)[0]) && !IsWhiteSpace(Trim(s)[|Trim(s)| - 1]))
  {
    var t := TrimStart(s);
    var u := TrimEnd(t);
    TrimStartShape(s);
    TrimEndShape(t);
    i := |s| - |t|;
    j := i + |u|;
    if u != [] {
      assert u[0] == t[0];
    }
  }

  /** A string trims to the empty string exactly when every character of it is white space. */
  lemma TrimEmptyIffBlank(s: string)
    ensures Trim(s) == "" <==> forall k :: 0 <= k < |s| ==> IsWhiteSpace(s[k])
  {
    var i, j := TrimIsCore(s);
  }

  /** Trimming twice is trimming once. */
  lemma TrimIdempotent(s: string)
    ensures Trim(Trim(s)) == Trim(s)
  {
    var i, j := TrimIsCore(s);
    var r := Trim(s);
    if r != [] {
      assert TrimStart(r) == r;
      assert TrimEnd(r) == r;
    }
  }

  /** `s.replace(/c/g, '')` for a single ordinary character `c`: every occurrence of `c` is dropped. */
  function RemoveAll(s: string, c: char): string {
    if s == [] then []
    else if s[0] == c then RemoveAll(s[1..], c)
    else [s[0]] + RemoveAll(s[1..], c)
  }

  /** The characters left are exactly those of `s` other than `c`. */
  lemma {:induction false} RemoveAllMembers(s: string, c: char)
    ensures |RemoveAll(s, c)| <= |s|
    ensures forall x :: x in RemoveAll(s, c) <==> x in s && x != c
  {
    if s != [] {
      RemoveAllMembers(s[1..], c);
      assert forall x :: x in s <==> x == s[0] || x in s[1..];
    }
  }

  lemma {:induction false} RemoveAllAppend(a: string, b: string, c: char)
    ensures RemoveAll(a + b, c) == RemoveAll(a, c) + RemoveAll(b, c)
  {
    if a != [] {
      assert (a + b)[1..] == a[1..] + b;
      RemoveAllAppend(a[1..], b, c);
    } else {
      assert a + b == b;
    }
  }

  /** With no `c` in it, the string is left as it is. */
  lemma {:induction false} RemoveAllAbsent(s: string, c: char)
    requires c !in s
    ensures RemoveAll(s, c) == s
  {
    if s != [] {
      assert s == [s[0]] + s[1..];
      RemoveAllAbsent(s[1..], c);
    }
  }

  /** A string made only of `c` is removed entirely. */
  lemma {:induction false} RemoveAllOnly(s: string, c: char)
    requires forall i :: 0 <= i < |s| ==> s[i] == c
    ensures RemoveAll(s, c) == []
  {
    if s != [] {
      RemoveAllOnly(s[1..], c);
    }
  }

  // ---------------------------------------------------------------------------
  // Number to string, for integral numbers

  function DigitChar(d: int): (c: char)
    requires 0 <= d < 10
    ensures '0' <= c <= '9'
  {
    "0123456789"[d]
  }

  function DigitValue(c: char): int {
    c as int - '0' as int
  }

  /** The decimal digits of `n`, most significant first, without leading zeros. */
  function Digits(n: nat): (r: string)
    ensures |r| >= 1
    ensures forall i :: 0 <= i < |r| ==> '0' <= r[i] <= '9'
    ensures r[0] == '0' ==> n == 0
  {
    if n < 10 then [DigitChar(n)] else Digits(n / 10) + [DigitChar(n % 10)]
  }

  /** The value of a string of decimal digits. */
  function DigitsValue(s: string): int {
    if s == [] then 0 else DigitsValue(s[..|s| - 1]) * 10 + DigitValue(s[|s| - 1])
  }

  /** `String(n)` (and `'' + n`) for an integral number: an optional minus sign, then its digits. */
  function NumberToString(n: int): string {
    if n < 0 then "-" + Digits(-n) else Digits(n)
  }

  /** Reading a number back from its decimal text (`Number(s)` on such a text). */
  function ParseNumber(s: string): int {
    if |s| > 0 && s[0] == '-' then -DigitsValue(s[1..]) else DigitsValue(s)
  }

  lemma {:induction false} DigitsRoundTrip(n: nat)
    ensures DigitsValue(Digits(n)) == n
  {
    if n >= 10 {
      var d, q, m := Digits(n), n / 10, n % 10;
      assert d == Digits(q) + [DigitChar(m)];
      assert d[..|d| - 1] == Digits(q);
      assert DigitValue(d[|d| - 1]) == m;
      DigitsRoundTrip(q);
      assert n == q * 10 + m;
    }
  }

  /** Rendering an integral number and reading the text back gives the number. */
  lemma NumberRoundTrip(n: int)
    ensures ParseNumber(NumberToString(n)) == n
  {
    var magnitude: nat := if n < 0 then -n else n;
    DigitsRoundTrip(magnitude);
    ParseSigned(Digits(magnitude));
  }

  /** A digit string reads as its value, and with a leading '-' as the negated value. */
  lemma ParseSigned(d: string)
    requires |d| >= 1 && '0' <= d[0] <= '9'
    ensures ParseNumber(d) == DigitsValue(d)
    ensures ParseNumber("-" + d) == -DigitsValue(d)
  {
    assert ("-" + d)[0] == '-';
    assert ("-" + d)[1..] == d;
  }

  /** Different integral numbers render as different texts. */
  lemma NumberToStringInjective(m: int, n: int)
    requires NumberToString(m) == NumberToString(n)
    ensures m == n
  {
    NumberRoundTrip(m);
    NumberRoundTrip(n);
  }
}
