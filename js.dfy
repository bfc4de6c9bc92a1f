/**
 * JavaScript values as they arrive from `JSON.parse` and the operators the
 * application applies to them: truthiness, `||`, `??`, property access,
 * `String(v)`, `Number(v)`, `Number.parseInt(String(v), 10)` and
 * `Number.parseFloat`.
 *
 * Numbers are exact reals (JSON numbers are always finite, so NaN and the
 * infinities only arise from conversions, which return `None` for NaN).
 * An object is the list of its own properties in insertion order; property
 * lookup takes the first pair with the key.
 */
module Js {
  import opened Opt
  import opened Text

  datatype Value =
    | Undefined
    | Null
    | Bool(b: bool)
    | Num(n: real)
    | Str(s: string)
    | Arr(items: seq<Value>)
    | Obj(props: seq<(string, Value)>)

  /** `v == null` (loose equality: null or undefined) */
  predicate Nullish(v: Value) {
    v.Undefined? || v.Null?
  }

  /** `Boolean(v)` */
  predicate Truthy(v: Value) {
    match v
    case Undefined => false
    case Null => false
    case Bool(b) => b
    case Num(n) => n != 0.0
    case Str(s) => s != ""
    case Arr(_) => true
    case Obj(_) => true
  }

  /** `v && typeof v === "object"`: arrays and plain objects. */
  predicate IsObject(v: Value) {
    v.Arr? || v.Obj?
  }

  /** `a || b` */
  function Or(a: Value, b: Value): (r: Value)
    ensures Truthy(a) ==> r == a
    ensures !Truthy(a) ==> r == b
  {
    if Truthy(a) then a else b
  }

  /** `a ?? b` */
  function Coalesce(a: Value, b: Value): (r: Value)
    ensures !Nullish(a) ==> r == a
    ensures Nullish(a) ==> r == b
  {
    if Nullish(a) then b else a
  }

  function Lookup(props: seq<(string, Value)>, key: string): (r: Value)
    ensures (forall i :: 0 <= i < |props| ==> props[i].0 != key) ==> r == Undefined
    ensures r != Undefined ==> exists i :: 0 <= i < |props| && props[i] == (key, r)
  {
    if props == [] then Undefined
    else if props[0].0 == key then props[0].1
    else Lookup(props[1..], key)
  }

  /**
   * `v[key]` for a non-nullish `v`: an object's own property, an array's
   * element or a string's character at a canonical index, and the `length`
   * of an array or a string. Inherited members (methods) are not values here.
   */
  function Get(v: Value, key: string): Value {
    match v
    case Obj(props) => Lookup(props, key)
    case Arr(items) => ArrayMember(items, key)
    case Str(s) => StringMember(s, key)
    case _ => Undefined
  }

  /** `a[key]` for an array `a`. */
  function ArrayMember(items: seq<Value>, key: string): Value {
    if key == "length" then Num(|items| as real)
    else match ArrayIndex(key)
      case Some(i) => if i < |items| then items[i] else Undefined
      case None => Undefined
  }

  /** `s[key]` for a string `s`: one character, or its length. */
  function StringMember(s: string, key: string): Value {
    if key == "length" then Num(|s| as real)
    else match ArrayIndex(key)
      case Some(i) => if i < |s| then Str([s[i]]) else Undefined
      case None => Undefined
  }

  /** The index a property key names: the decimal digits of a natural number, without leading zeros. */
  function ArrayIndex(key: string): (r: Option<nat>)
    ensures r.Some? ==> key == NatToString(r.value)
  {
    if key != [] && IsDigit(key[0]) && DigitRun(key) == |key| && NatToString(DigitsValue(key)) == key
    then Some(DigitsValue(key)) else None
  }

  /** Every index, written in decimal, names itself. */
  lemma IndexKey(n: nat)
    ensures ArrayIndex(NatToString(n)) == Some(n)
  {
    DigitRunAll(NatToString(n));
    NatToStringValue(n);
  }

  /** `a[i]` and `s[i]` below the length, `a.length` and `s.length`. */
  lemma GetElement(v: Value, n: nat)
    ensures v.Arr? && n < |v.items| ==> Get(v, NatToString(n)) == v.items[n]
    ensures v.Str? && n < |v.s| ==> Get(v, NatToString(n)) == Str([v.s[n]])
    ensures v.Arr? ==> Get(v, "length") == Num(|v.items| as real)
    ensures v.Str? ==> Get(v, "length") == Num(|v.s| as real)
  {
    IndexKey(n);
    assert NatToString(n) != "length" by {
      assert IsDigit(NatToString(n)[0]);
    }
  }

  /** The members every plain `{}` inherits from `Object.prototype`. */
  const ObjectPrototypeNames: set<string> := {
    "constructor", "__proto__", "__defineGetter__", "__defineSetter__", "__lookupGetter__", "__lookupSetter__",
    "hasOwnProperty", "isPrototypeOf", "propertyIsEnumerable", "toString", "toLocaleString", "valueOf"}

  /** `obj[key] = val` on an own-property list: an existing key keeps its place. */
  function SetProp(props: seq<(string, Value)>, key: string, val: Value): (r: seq<(string, Value)>)
    ensures Lookup(r, key) == val
    ensures forall k :: k != key ==> Lookup(r, k) == Lookup(props, k)
  {
    if props == [] then [(key, val)]
    else if props[0].0 == key then [(key, val)] + props[1..]
    else [props[0]] + SetProp(props[1..], key, val)
  }

  /**
   * `{...target, ...source}`: the source's pairs defined one after the other. A spread
   * defines own properties, so even a `__proto__` pair of the source is copied as one.
   */
  function Assign(target: seq<(string, Value)>, source: seq<(string, Value)>): seq<(string, Value)>
    decreases |source|
  {
    if source == [] then target
    else Assign(SetProp(target, source[0].0, source[0].1), source[1..])
  }

  predicate HasKey(props: seq<(string, Value)>, key: string) {
    exists i :: 0 <= i < |props| && props[i].0 == key
  }

  /** The value of the last pair with `key`: the one that wins when the pairs are set in order. */
  function LastValue(props: seq<(string, Value)>, key: string): Value
    decreases |props|
  {
    if props == [] then Undefined
    else if HasKey(props[1..], key) then LastValue(props[1..], key)
    else if props[0].0 == key then props[0].1
    else Undefined
  }

  /** After a spread, a key the source sets has the source's last value; any other key keeps the target's. */
  lemma {:induction false} AssignLookup(target: seq<(string, Value)>, source: seq<(string, Value)>, key: string)
    ensures Lookup(Assign(target, source), key) == if HasKey(source, key) then LastValue(source, key) else Lookup(target, key)
    decreases |source|
  {
    if source != [] {
      AssignLookup(SetProp(target, source[0].0, source[0].1), source[1..], key);
      assert HasKey(source, key) <==> source[0].0 == key || HasKey(source[1..], key) by {
        if HasKey(source, key) && source[0].0 != key {
          var i :| 0 <= i < |source| && source[i].0 == key;
          assert source[1..][i - 1].0 == key;
        }
        if HasKey(source[1..], key) {
          var i :| 0 <= i < |source[1..]| && source[1..][i].0 == key;
          assert source[i + 1].0 == key;
        }
      }
    }
  }

  /** `Object.entries(v)` for an array or a plain object. */
  function Entries(v: Value): seq<(string, Value)> {
    match v
    case Obj(props) => props
    case Arr(items) => seq(|items|, i requires 0 <= i < |items| => (NatToString(i), items[i]))
    case _ => []
  }

  function DigitChar(d: nat): char
    requires d < 10
  {
    "0123456789"[d]
  }

  predicate IsDigit(c: char) {
    '0' <= c <= '9'
  }

  function DigitValue(c: char): (d: nat)
    requires IsDigit(c)
    ensures d < 10
  {
    c as int - '0' as int
  }

  /** The decimal digits of `n`, without leading zeros. */
  function NatToString(n: nat): (s: string)
    ensures |s| >= 1
    ensures forall i :: 0 <= i < |s| ==> IsDigit(s[i])
  {
    if n < 10 then [DigitChar(n)] else NatToString(n / 10) + [DigitChar(n % 10)]
  }

  function IntToString(i: int): string {
    if i < 0 then "-" + NatToString(-i) else NatToString(i)
  }

  predicate IsIntegral(x: real) {
    x.Floor as real == x
  }

  /** Up to `k` decimal digits of the fraction `f`, stopping as soon as nothing is left. */
  function FractionText(f: real, k: nat): string
    requires 0.0 <= f < 1.0
    decreases k
  {
    if f == 0.0 || k == 0 then ""
    else
      var d := (10.0 * f).Floor;
      [DigitChar(d)] + FractionText(10.0 * f - d as real, k - 1)
  }

  /** The digits of `x >= 0`: the whole part, then a point and at most 20 fraction digits when there is a fraction. */
  function UnsignedToString(x: real): string
    requires x >= 0.0
  {
    var frac := FractionText(x - x.Floor as real, 20);
    NatToString(x.Floor) + (if frac == "" then "" else "." + frac)
  }

  /** `String(n)` for a number, in plain (non-exponent) decimal notation. */
  function NumberToString(n: real): string {
    if n < 0.0 then "-" + UnsignedToString(-n) else UnsignedToString(n)
  }

  /** `String(v)` */
  function ToStr(v: Value): string {
    match v
    case Undefined => "undefined"
    case Null => "null"
    case Bool(b) => if b then "true" else "false"
    case Num(n) => NumberToString(n)
    case Str(s) => s
    case Arr(items) => JoinItems(items)
    case Obj(_) => "[object Object]"
  }

  /** `items.join(",")`, where null and undefined items print as the empty string. */
  function JoinItems(items: seq<Value>): string
    decreases items
  {
    if items == [] then ""
    else
      var first := if Nullish(items[0]) then "" else ToStr(items[0]);
      if |items| == 1 then first else first + "," + JoinItems(items[1..])
  }

  /** `String(v || "")` */
  function ToStrOrEmpty(v: Value): (s: string)
    ensures !Truthy(v) ==> s == ""
    ensures v.Str? ==> s == v.s
  {
    if Truthy(v) then ToStr(v) else ""
  }

  /** The length of the longest prefix of `s` made of decimal digits. */
  function DigitRun(s: string): (k: nat)
    ensures k <= |s|
    ensures k < |s| ==> !IsDigit(s[k])
  {
    if s != [] && IsDigit(s[0]) then 1 + DigitRun(s[1..]) else 0
  }

  /** The run is made of digits. */
  lemma {:induction false} DigitRunDigits(s: string)
    ensures forall i :: 0 <= i < DigitRun(s) ==> IsDigit(s[i])
  {
    if s != [] && IsDigit(s[0]) {
      DigitRunDigits(s[1..]);
      assert forall i :: 1 <= i < DigitRun(s) ==> s[i] == s[1..][i - 1];
    }
  }

  /** The value of a string of decimal digits (callers pass only digits; any other character would count as 0). */
  function DigitsValue(s: string): nat {
    if s == [] then 0
    else 10 * DigitsValue(s[..|s| - 1]) + (if IsDigit(s[|s| - 1]) then DigitValue(s[|s| - 1]) else 0)
  }

  /** The value of the digits `s` written after a decimal point. */
  function Fraction(s: string): (r: real)
    requires forall i :: 0 <= i < |s| ==> IsDigit(s[i])
    ensures r >= 0.0
  {
    if s == [] then 0.0 else (DigitValue(s[0]) as real + Fraction(s[1..])) / 10.0
  }

  /**
   * The longest prefix of `s` that is an unsigned decimal literal
   * (`digits`, `digits.`, `digits.digits` or `.digits`), as its value and
   * its length; `None` when `s` does not start with one.
   */
  function ScanUnsignedDecimal(s: string): (r: Option<(real, nat)>)
    ensures r.Some? ==> 0 < r.value.1 <= |s| && r.value.0 >= 0.0
  {
    var a := DigitRun(s);
    var whole := DigitsValue(s[..a]) as real;
    if a < |s| && s[a] == '.' then
      var b := DigitRun(s[a + 1..]);
      DigitRunDigits(s[a + 1..]);
      if a == 0 && b == 0 then None
      else Some((whole + Fraction(s[a + 1..][..b]), a + 1 + b))
    else if a == 0 then None
    else Some((whole, a))
  }

  /** An optional sign followed by an unsigned decimal literal, as a prefix of `s`. */
  function ScanDecimal(s: string): (r: Option<(real, nat)>)
    ensures r.Some? ==> 0 < r.value.1 <= |s|
  {
    if s != [] && (s[0] == '-' || s[0] == '+') then
      match ScanUnsignedDecimal(s[1..])
      case None => None
      case Some((x, k)) => Some((if s[0] == '-' then -x else x, k + 1))
    else ScanUnsignedDecimal(s)
  }

  /** `Number(s)` for a string: the whole trimmed string must be a literal; empty means 0. */
  function StringToNumber(s: string): Option<real> {
    var t := Trim(s);
    if t == "" then Some(0.0)
    else match ScanDecimal(t)
      case Some((x, k)) => if k == |t| then Some(x) else None
      case None => None
  }

  /** `Number(v)`; `None` stands for NaN. */
  function ToNumber(v: Value): Option<real> {
    match v
    case Undefined => None
    case Null => Some(0.0)
    case Bool(b) => Some(if b then 1.0 else 0.0)
    case Num(n) => Some(n)
    case Str(s) => StringToNumber(s)
    case _ => StringToNumber(ToStr(v))
  }

  /** `Number(v) || 0` */
  function NumberOrZero(v: Value): real {
    match ToNumber(v)
    case Some(n) => n
    case None => 0.0
  }

  /** `Number.parseFloat(s)`: the longest decimal prefix after leading white space. */
  function ParseFloat(s: string): Option<real> {
    match ScanDecimal(TrimStart(s))
    case Some((x, _)) => Some(x)
    case None => None
  }

  /** `Number.parseInt(s, 10)`; `None` stands for NaN. */
  function ParseInt(s: string): Option<int> {
    var t := TrimStart(s);
    if t != [] && (t[0] == '-' || t[0] == '+') then SignedDigits(t[1..], t[0] == '-')
    else SignedDigits(t, false)
  }

  /** The value of the leading digits of `u`, negated when `neg`; `None` when there are none. */
  function SignedDigits(u: string, neg: bool): Option<int> {
    var k := DigitRun(u);
    if k == 0 then None
    else
      var n: int := DigitsValue(u[..k]);
      Some(if neg then -n else n)
  }

  /** `Number.parseInt(String(v), 10)` */
  function ParseIntOf(v: Value): Option<int> {
    ParseInt(ToStr(v))
  }

  lemma {:induction false} NatToStringValue(n: nat)
    ensures DigitsValue(NatToString(n)) == n
  {
    if n >= 10 {
      var q, d := n / 10, n % 10;
      NatToStringValue(q);
      DigitCharValue(d);
      LastDigit(NatToString(q), d, q);
      assert NatToString(n) == NatToString(q) + [DigitChar(d)];
    }
  }

  lemma DigitsValueSnoc(t: string, c: char)
    requires IsDigit(c)
    ensures DigitsValue(t + [c]) == 10 * DigitsValue(t) + DigitValue(c)
  {
    assert (t + [c])[..|t|] == t;
  }

  lemma LastDigit(t: string, d: nat, q: nat)
    requires d < 10 && DigitsValue(t) == q
    ensures DigitsValue(t + [DigitChar(d)]) == 10 * q + d
  {
    DigitCharValue(d);
    DigitsValueSnoc(t, DigitChar(d));
  }

  lemma DigitCharValue(d: nat)
    requires d < 10
    ensures IsDigit(DigitChar(d)) && DigitValue(DigitChar(d)) == d
  {
  }

  /** Printing an integer and parsing it back with `parseInt` gives the integer. */
  lemma IntegerRoundTrip(i: int)
    ensures ParseIntOf(Num(i as real)) == Some(i)
  {
    IntegerToString(i);
    var m: nat := if i < 0 then -i else i;
    ParseDigits(m);
  }

  lemma IntegerToString(i: int)
    ensures ToStr(Num(i as real)) == IntToString(i)
  {
    if i < 0 {
      NegativeToString(-i);
    } else {
      NonNegativeToString(i);
    }
  }

  lemma NegativeToString(m: nat)
    requires m > 0
    ensures NumberToString(-(m as real)) == "-" + NatToString(m)
  {
    UnsignedOfNat(m);
  }

  lemma NonNegativeToString(m: nat)
    ensures NumberToString(m as real) == NatToString(m)
  {
    UnsignedOfNat(m);
  }

  lemma UnsignedOfNat(m: nat)
    ensures UnsignedToString(m as real) == NatToString(m)
  {
    var x := m as real;
    assert x.Floor == m;
    assert FractionText(x - x.Floor as real, 20) == "";
  }

  lemma ParseDigits(m: nat)
    ensures ParseInt(NatToString(m)) == Some(m as int)
    ensures ParseInt("-" + NatToString(m)) == Some(-(m as int))
  {
    ParseUnsigned(m);
    ParseNegative(m);
  }

  lemma ParseUnsigned(m: nat)
    ensures ParseInt(NatToString(m)) == Some(m as int)
  {
    var digits := NatToString(m);
    assert !IsSpace(digits[0]) && !IsDigit('-') && !IsDigit('+');
    assert TrimStart(digits) == digits;
    AllDigits(digits, false);
    NatToStringValue(m);
  }

  lemma ParseNegative(m: nat)
    ensures ParseInt("-" + NatToString(m)) == Some(-(m as int))
  {
    var digits := NatToString(m);
    var s := "-" + digits;
    assert !IsSpace(s[0]);
    assert TrimStart(s) == s;
    assert s[1..] == digits;
    AllDigits(digits, true);
    NatToStringValue(m);
  }

  lemma AllDigits(u: string, neg: bool)
    requires u != [] && forall i :: 0 <= i < |u| ==> IsDigit(u[i])
    ensures SignedDigits(u, neg) == Some(if neg then -(DigitsValue(u) as int) else DigitsValue(u))
  {
    DigitRunAll(u);
    TakeAll(u);
    WholeRun(u, neg);
  }

  lemma WholeRun(u: string, neg: bool)
    requires DigitRun(u) > 0 && u[..DigitRun(u)] == u
    ensures SignedDigits(u, neg) == Some(if neg then -(DigitsValue(u) as int) else DigitsValue(u))
  {
  }

  lemma TakeAll<T>(s: seq<T>)
    ensures s[..|s|] == s
  {
  }

  lemma {:induction false} DigitRunAll(s: string)
    requires forall i :: 0 <= i < |s| ==> IsDigit(s[i])
    ensures DigitRun(s) == |s|
  {
    if s != [] {
      DigitRunAll(s[1..]);
    }
  }
}
