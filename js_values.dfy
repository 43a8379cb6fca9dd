/**
 * The slice of JavaScript's value semantics the frontend services rely on:
 * truthiness and `||`, plain objects with property read and assignment,
 * `String(v)`, and the global `parseInt` / `parseFloat` functions.
 *
 * Numbers are exact reals: double rounding, overflow to Infinity and the
 * sign of zero are not modelled. The two host services whose results depend
 * on floating point or the time zone — `Number.prototype.toString` for
 * numbers and `new Date(v).toISOString()` — are the fields of `Builtins`.
 */
module JsValues {
  import opened Common

  datatype JsValue =
    | Undefined
    | Null
    | Bool(b: bool)
    | Num(n: real)
    | NaN
    | Infinity(negative: bool)
    | Str(s: string)
    | Obj(fields: seq<(string, JsValue)>)

  /** The exceptions the modelled code can throw. */
  datatype JsError = TypeError | RangeError

  /**
   * Host functions: the text of a number, and `new Date(v).toISOString()`,
   * which is `None` when it throws a RangeError (an invalid date).
   */
  datatype Builtins = Builtins(numberToString: real -> string, toIsoString: JsValue -> Option<string>)

  /** ToBoolean: what `if (v)`, `a || b` and `!v` test. */
  predicate Truthy(v: JsValue) {
    match v
    case Undefined => false
    case Null => false
    case Bool(b) => b
    case Num(n) => n != 0.0
    case NaN => false
    case Infinity(_) => true
    case Str(s) => s != ""
    case Obj(_) => true
  }

  /** `a || b`: the first operand when it is truthy, otherwise the second. */
  function Or(a: JsValue, b: JsValue): JsValue {
    if Truthy(a) then a else b
  }

  function Keys(fields: seq<(string, JsValue)>): (r: seq<string>)
    ensures |r| == |fields|
    ensures forall i :: 0 <= i < |fields| ==> r[i] == fields[i].0
  {
    seq(|fields|, i requires 0 <= i < |fields| => fields[i].0)
  }

  /** The value of an own property, `undefined` when there is none. */
  function Lookup(fields: seq<(string, JsValue)>, key: string): (r: JsValue)
    ensures key !in Keys(fields) ==> r == Undefined
  {
    if |fields| == 0 then Undefined
    else if fields[0].0 == key then fields[0].1
    else
      assert Keys(fields[1..]) == Keys(fields)[1..];
      Lookup(fields[1..], key)
  }

  /** `null` and `undefined`, the values whose properties cannot be read. */
  predicate IsNullish(v: JsValue) {
    v.Undefined? || v.Null?
  }

  /** The value `v.key` reads when `v` is not nullish. */
  function Prop(v: JsValue, key: string): JsValue {
    if v.Obj? then Lookup(v.fields, key) else Undefined
  }

  /** `v.key`: reading a property of `null` or `undefined` throws; other primitives have none of the keys read here. */
  function Get(v: JsValue, key: string): (r: Result<JsValue, JsError>)
    ensures r.Err? <==> IsNullish(v)
    ensures r.Err? ==> r.error == TypeError
    ensures !IsNullish(v) ==> r == Ok(Prop(v, key))
  {
    match v
    case Undefined => Err(TypeError)
    case Null => Err(TypeError)
    case Obj(fields) => Ok(Lookup(fields, key))
    case _ => Ok(Undefined)
  }

  /**
   * `o[key] = value`: an existing property keeps its place in the key
   * order, a new one is added last; no other property changes.
   */
  function Put(fields: seq<(string, JsValue)>, key: string, value: JsValue): (r: seq<(string, JsValue)>)
    ensures Lookup(r, key) == value
    ensures forall k :: k != key ==> Lookup(r, k) == Lookup(fields, k)
    ensures key in Keys(fields) ==> Keys(r) == Keys(fields)
    ensures key !in Keys(fields) ==> r == fields + [(key, value)]
  {
    if |fields| == 0 then [(key, value)]
    else if fields[0].0 == key then
      PutFront(fields, key, value);
      [(key, value)] + fields[1..]
    else
      var tail := Put(fields[1..], key, value);
      PutBehind(fields, key, value, tail);
      [fields[0]] + tail
  }

  /** Overwriting the first entry keeps the other entries and the key order. */
  lemma PutFront(fields: seq<(string, JsValue)>, key: string, value: JsValue)
    requires |fields| > 0 && fields[0].0 == key
    ensures var r := [(key, value)] + fields[1..];
            && Lookup(r, key) == value
            && (forall k :: k != key ==> Lookup(r, k) == Lookup(fields, k))
            && Keys(r) == Keys(fields)
  {
    var r := [(key, value)] + fields[1..];
    assert r[1..] == fields[1..];
    assert forall i :: 0 <= i < |r| ==> Keys(r)[i] == Keys(fields)[i];
  }

  /** Putting behind a first entry with another key: what the put into the rest gives, behind that entry. */
  lemma PutBehind(fields: seq<(string, JsValue)>, key: string, value: JsValue, tail: seq<(string, JsValue)>)
    requires |fields| > 0 && fields[0].0 != key
    requires Lookup(tail, key) == value
    requires forall k :: k != key ==> Lookup(tail, k) == Lookup(fields[1..], k)
    requires key in Keys(fields[1..]) ==> Keys(tail) == Keys(fields[1..])
    requires key !in Keys(fields[1..]) ==> tail == fields[1..] + [(key, value)]
    ensures var r := [fields[0]] + tail;
            && Lookup(r, key) == value
            && (forall k :: k != key ==> Lookup(r, k) == Lookup(fields, k))
            && (key in Keys(fields) ==> Keys(r) == Keys(fields))
            && (key !in Keys(fields) ==> r == fields + [(key, value)])
  {
    PutBehindReads(fields, key, value, tail);
    KeysBehindFirst(fields);
    if key in Keys(fields) {
      assert key in Keys(fields[1..]);
      SameKeysBehindFirst(fields, tail);
    } else {
      assert key !in Keys(fields[1..]);
      AppendBehindFirst(fields, (key, value));
    }
  }

  lemma AppendBehindFirst<T>(s: seq<T>, x: T)
    requires |s| > 0
    ensures [s[0]] + (s[1..] + [x]) == s + [x]
  {
  }

  /** Replacing the rest of an object by entries with the same keys keeps its keys. */
  lemma SameKeysBehindFirst(fields: seq<(string, JsValue)>, tail: seq<(string, JsValue)>)
    requires |fields| > 0 && Keys(tail) == Keys(fields[1..])
    ensures Keys([fields[0]] + tail) == Keys(fields)
  {
    var r := [fields[0]] + tail;
    assert r[1..] == tail;
    KeysBehindFirst(fields);
    KeysBehindFirst(r);
  }

  /** What the object put behind a first entry reads: `value` at `key`, and what `fields` reads elsewhere. */
  lemma PutBehindReads(fields: seq<(string, JsValue)>, key: string, value: JsValue, tail: seq<(string, JsValue)>)
    requires |fields| > 0 && fields[0].0 != key
    requires Lookup(tail, key) == value
    requires forall k :: k != key ==> Lookup(tail, k) == Lookup(fields[1..], k)
    ensures Lookup([fields[0]] + tail, key) == value
    ensures forall k :: k != key ==> Lookup([fields[0]] + tail, k) == Lookup(fields, k)
  {
    var r := [fields[0]] + tail;
    assert r[1..] == tail;
    forall k | k != key
      ensures Lookup(r, k) == Lookup(fields, k)
    {
      if fields[0].0 != k {
        assert Lookup(r, k) == Lookup(tail, k);
      }
    }
  }

  /** The keys of a non-empty object: its first key, then the keys of the rest. */
  lemma KeysBehindFirst(fields: seq<(string, JsValue)>)
    requires |fields| > 0
    ensures Keys(fields) == [fields[0].0] + Keys(fields[1..])
  {
  }

  /** Reading a property of two objects' entries laid end to end: the first object's entry wins. */
  lemma {:induction false} LookupAppend(a: seq<(string, JsValue)>, b: seq<(string, JsValue)>, key: string)
    ensures Lookup(a + b, key) == if key in Keys(a) then Lookup(a, key) else Lookup(b, key)
  {
    if |a| == 0 {
      assert a + b == b;
    } else {
      assert (a + b)[1..] == a[1..] + b;
      assert Keys(a[1..]) == Keys(a)[1..];
      LookupAppend(a[1..], b, key);
      if a[0].0 != key {
        assert Keys(a) == [a[0].0] + Keys(a[1..]);
      }
    }
  }

  /** In an object whose keys are distinct, each entry is what its key reads. */
  lemma {:induction false} LookupAt(fields: seq<(string, JsValue)>, i: nat)
    requires i < |fields|
    requires NoDuplicates(Keys(fields))
    ensures Lookup(fields, fields[i].0) == fields[i].1
  {
    if i > 0 {
      assert Keys(fields)[0] != Keys(fields)[i];
      assert Keys(fields[1..]) == Keys(fields)[1..];
      LookupAt(fields[1..], i - 1);
    }
  }

  /** `String(v)` for the values the services pass around. */
  function ToJsString(v: JsValue, host: Builtins): string {
    match v
    case Undefined => "undefined"
    case Null => "null"
    case Bool(b) => if b then "true" else "false"
    case Num(n) => host.numberToString(n)
    case NaN => "NaN"
    case Infinity(negative) => if negative then "-Infinity" else "Infinity"
    case Str(s) => s
    case Obj(_) => "[object Object]"
  }

  /** WhiteSpace and LineTerminator code points, which `parseInt` and `parseFloat` skip at the front. */
  predicate IsJsSpace(c: char) {
    c == '\t' || c == '\n' || c == '\U{B}' || c == '\U{C}' || c == '\r' || c == ' ' ||
    c == '\U{A0}' || c == '\U{1680}' || ('\U{2000}' <= c <= '\U{200A}') ||
    c == '\U{2028}' || c == '\U{2029}' || c == '\U{202F}' || c == '\U{205F}' ||
    c == '\U{3000}' || c == '\U{FEFF}'
  }

  function TrimLeadingSpace(s: string): (r: string)
    ensures |r| <= |s| && r == s[|s| - |r|..]
    ensures |r| > 0 ==> !IsJsSpace(r[0])
  {
    if |s| > 0 && IsJsSpace(s[0]) then TrimLeadingSpace(s[1..]) else s
  }

  /** The value of `c` as a digit in `radix` (10 or 16), if it is one. */
  function DigitValue(c: char, radix: nat): (r: Option<nat>)
    ensures r.Some? ==> r.value < radix
  {
    var d: int :=
      if '0' <= c <= '9' then c as int - '0' as int
      else if 'a' <= c <= 'z' then c as int - 'a' as int + 10
      else if 'A' <= c <= 'Z' then c as int - 'A' as int + 10
      else radix;
    if 0 <= d < radix then Some(d) else None
  }

  predicate AllDigits(s: string, radix: nat) {
    forall i :: 0 <= i < |s| ==> DigitValue(s[i], radix).Some?
  }

  /** Length of the longest prefix of `s` made of `radix` digits. */
  function DigitPrefix(s: string, radix: nat): (n: nat)
    ensures n <= |s| && AllDigits(s[..n], radix)
    ensures n < |s| ==> DigitValue(s[n], radix).None?
  {
    if |s| == 0 || DigitValue(s[0], radix).None? then 0
    else
      var n := DigitPrefix(s[1..], radix);
      assert forall i :: 0 <= i < n ==> s[..n + 1][i + 1] == s[1..][..n][i];
      n + 1
  }

  /** The number a digit string denotes, most significant digit first. */
  function DigitsValue(s: string, radix: nat): nat
    requires AllDigits(s, radix)
  {
    if |s| == 0 then 0
    else DigitsValue(s[..|s| - 1], radix) * radix + DigitValue(s[|s| - 1], radix).value
  }

  predicate StartsWith(s: string, prefix: string) {
    |prefix| <= |s| && s[..|prefix|] == prefix
  }

  /** A leading `-` makes the number negative; a leading `+` or `-` is removed. */
  function Unsigned(t: string): string {
    if |t| > 0 && (t[0] == '-' || t[0] == '+') then t[1..] else t
  }

  predicate IsNegative(t: string) {
    |t| > 0 && t[0] == '-'
  }

  function Signed(negative: bool, magnitude: real): real {
    if negative then -magnitude else magnitude
  }

  /** `0x` or `0X` at the front selects base 16 and is skipped; otherwise base 10. */
  function RadixAndBody(u: string): (nat, string) {
    if |u| >= 2 && u[0] == '0' && (u[1] == 'x' || u[1] == 'X') then (16, u[2..]) else (10, u)
  }

  /** The longest run of `radix` digits at the front of `body`, if there is one. */
  function LeadingNumber(body: string, radix: nat): Option<nat> {
    var n := DigitPrefix(body, radix);
    if n == 0 then None else Some(DigitsValue(body[..n], radix))
  }

  /**
   * The integer `parseInt(s)` (no radix) finds: leading white space
   * skipped, an optional sign, a `0x`/`0X` prefix selecting base 16, then
   * the longest run of digits; `None` when there is no digit at all.
   */
  function ParseIntValue(s: string): Option<int> {
    var t := TrimLeadingSpace(s);
    var (radix, body) := RadixAndBody(Unsigned(t));
    match LeadingNumber(body, radix)
    case None => None
    case Some(m) =>
      var k: int := if IsNegative(t) then -(m as int) else m;
      Some(k)
  }

  /** `parseInt(s)`: NaN, or a whole number. */
  function ParseIntText(s: string): (r: JsValue)
    ensures r.NaN? || (r.Num? && r.n == r.n.Floor as real)
  {
    match ParseIntValue(s)
    case None => NaN
    case Some(k) => Num(k as real)
  }

  function Pow10(e: nat): (r: nat)
    ensures r >= 1
  {
    if e == 0 then 1 else 10 * Pow10(e - 1)
  }

  /** `10^e` as a real. */
  function Scale(e: int): real {
    if e >= 0 then Pow10(e) as real else 1.0 / Pow10(-e) as real
  }

  /** The exponent of `e12`, `E-3`, `e+7`; 0 when `s` does not begin with a complete exponent. */
  function ExponentOf(s: string): int {
    if |s| < 2 || (s[0] != 'e' && s[0] != 'E') then 0
    else
      var signed := s[1] == '-' || s[1] == '+';
      var digits := if signed then s[2..] else s[1..];
      var n := DigitPrefix(digits, 10);
      if n == 0 then 0
      else if s[1] == '-' then -(DigitsValue(digits[..n], 10) as int)
      else DigitsValue(digits[..n], 10)
  }

  /**
   * The magnitude of the longest unsigned decimal literal at the front of
   * `u`: digits with an optional fraction and exponent (`12`, `1.5`, `.5`,
   * `5.`, `2e3`); `None` when there is no digit before the exponent.
   */
  function DecimalPrefix(u: string): Option<real> {
    var whole := DigitPrefix(u, 10);
    var rest := u[whole..];
    var dot := |rest| > 0 && rest[0] == '.';
    var fraction := if dot then DigitPrefix(rest[1..], 10) else 0;
    if whole == 0 && fraction == 0 then None
    else
      var digits := u[..whole] + (if dot then rest[1..1 + fraction] else "");
      var after := if dot then rest[1 + fraction..] else rest;
      assert AllDigits(digits, 10) by {
        assert forall i :: whole <= i < |digits| ==> digits[i] == rest[1..][..fraction][i - whole];
      }
      Some(DigitsValue(digits, 10) as real / Pow10(fraction) as real * Scale(ExponentOf(after)))
  }

  /**
   * `parseFloat(s)`: leading white space skipped, an optional sign, then
   * `Infinity` or the longest decimal literal; none of these gives NaN.
   */
  function ParseFloatText(s: string): JsValue {
    var t := TrimLeadingSpace(s);
    var u := Unsigned(t);
    if StartsWith(u, "Infinity") then Infinity(IsNegative(t))
    else match DecimalPrefix(u)
      case None => NaN
      case Some(x) => Num(Signed(IsNegative(t), x))
  }

  function ParseInt(v: JsValue, host: Builtins): JsValue {
    ParseIntText(ToJsString(v, host))
  }

  function ParseFloat(v: JsValue, host: Builtins): JsValue {
    ParseFloatText(ToJsString(v, host))
  }

  /** The decimal text of a natural number, without leading zeros. */
  function NatText(n: nat): (s: string)
    ensures |s| > 0
    ensures forall i :: 0 <= i < |s| ==> '0' <= s[i] <= '9'
  {
    if n < 10 then [(48 + n) as char] else NatText(n / 10) + [(48 + n % 10) as char]
  }

  /** The decimal text of an integer, as `String(n)` writes it. */
  function IntText(n: int): string {
    if n < 0 then "-" + NatText(-n) else NatText(n)
  }

  /** `Number.prototype.toString` writes whole numbers below 10^21 as plain decimal integers. */
  ghost predicate FormatsIntegers(host: Builtins) {
    forall n: int :: -(Pow10(21) as int) < n < Pow10(21) ==> host.numberToString(n as real) == IntText(n)
  }

  lemma DigitPrefixOfDigits(s: string, radix: nat)
    requires AllDigits(s, radix)
    ensures DigitPrefix(s, radix) == |s|
  {
    DigitPrefixOfDigitsThen(s, "", radix);
    assert s + "" == s;
  }

  /** The digit run at the front of `d + rest` is exactly `d` when `rest` does not begin with a digit. */
  lemma {:induction false} DigitPrefixOfDigitsThen(d: string, rest: string, radix: nat)
    requires AllDigits(d, radix)
    requires |rest| == 0 || DigitValue(rest[0], radix).None?
    ensures DigitPrefix(d + rest, radix) == |d|
  {
    if |d| == 0 {
      assert d + rest == rest;
    } else {
      assert (d + rest)[0] == d[0];
      assert (d + rest)[1..] == d[1..] + rest;
      assert AllDigits(d[1..], radix) by {
        assert forall i :: 0 <= i < |d| - 1 ==> d[1..][i] == d[i + 1];
      }
      DigitPrefixOfDigitsThen(d[1..], rest, radix);
    }
  }

  lemma {:induction false} NatTextDigits(n: nat)
    ensures AllDigits(NatText(n), 10)
    ensures DigitsValue(NatText(n), 10) == n
    ensures NatText(n)[0] == '0' ==> n == 0
  {
    if n >= 10 {
      NatTextDigits(n / 10);
      var s := NatText(n);
      assert s[..|s| - 1] == NatText(n / 10);
    }
  }

  /** `String(n)` starts with a digit or a minus sign, so nothing is trimmed, and the sign is read back. */
  lemma IntTextShape(n: int)
    ensures TrimLeadingSpace(IntText(n)) == IntText(n)
    ensures Unsigned(IntText(n)) == NatText(if n < 0 then -n else n)
    ensures IsNegative(IntText(n)) <==> n < 0
  {
    var t := IntText(n);
    if n < 0 {
      assert t[0] == '-';
      NotTrimmed(t);
      assert t[1..] == NatText(-n);
    } else {
      DigitFirst(t);
    }
  }

  /** Text that does not start with white space is not trimmed. */
  lemma NotTrimmed(t: string)
    requires |t| > 0 && !IsJsSpace(t[0])
    ensures TrimLeadingSpace(t) == t
  {
  }

  /** Text starting with a decimal digit is not trimmed and has no sign. */
  lemma DigitFirst(t: string)
    requires |t| > 0 && '0' <= t[0] <= '9'
    ensures TrimLeadingSpace(t) == t && Unsigned(t) == t && !IsNegative(t)
  {
    NotTrimmed(t);
  }

  /** The digits of `NatText(m)` are all taken, in base 10, and denote `m`. */
  lemma LeadingNumberOfNatText(m: nat)
    ensures RadixAndBody(NatText(m)) == (10, NatText(m))
    ensures LeadingNumber(NatText(m), 10) == Some(m)
  {
    var u := NatText(m);
    NatTextDigits(m);
    if m == 0 {
      assert u == "0";
    }
    DigitPrefixOfDigits(u, 10);
    assert u[..|u|] == u;
  }

  /** `parseInt(String(n)) === n` for every integer. */
  lemma ParseIntOfIntText(n: int)
    ensures ParseIntText(IntText(n)) == Num(n as real)
  {
    IntTextShape(n);
    LeadingNumberOfNatText(if n < 0 then -n else n);
  }

  /** `parseFloat(String(n)) === n` for every integer. */
  lemma ParseFloatOfIntText(n: int)
    ensures ParseFloatText(IntText(n)) == Num(n as real)
  {
    var m: nat := if n < 0 then -n else n;
    IntTextShape(n);
    NotInfinity(NatText(m));
    DecimalPrefixOfNatText(m);
  }

  /** Text starting with a decimal digit does not start with `Infinity`. */
  lemma NotInfinity(u: string)
    requires |u| > 0 && '0' <= u[0] <= '9'
    ensures !StartsWith(u, "Infinity")
  {
    if |u| >= 8 {
      assert u[..8][0] == u[0];
    }
  }

  lemma DecimalPrefixOfNatText(m: nat)
    ensures DecimalPrefix(NatText(m)) == Some(m as real)
  {
    var u := NatText(m);
    NatTextDigits(m);
    DigitPrefixOfDigits(u, 10);
    assert u[..|u|] == u;
    assert u[|u|..] == "";
    assert u[..|u|] + "" == u;
    assert ExponentOf("") == 0;
  }

  /**
   * Decimal digits not starting with `0`, then text not starting with a
   * digit: `parseInt` reads the digits and ignores the rest.
   */
  lemma ParseIntOfDigitsThen(d: string, rest: string)
    requires |d| > 0 && AllDigits(d, 10) && d[0] != '0'
    requires |rest| == 0 || DigitValue(rest[0], 10).None?
    ensures ParseIntText(d + rest) == Num(DigitsValue(d, 10) as real)
  {
    var s := d + rest;
    DecimalDigit(d[0]);
    assert s[0] == d[0];
    DigitFirst(s);
    assert RadixAndBody(s) == (10, s);
    DigitPrefixOfDigitsThen(d, rest, 10);
    assert s[..|d|] == d;
    assert LeadingNumber(s, 10) == Some(DigitsValue(d, 10));
  }

  /** A decimal digit is one of `0` to `9`. */
  lemma DecimalDigit(c: char)
    requires DigitValue(c, 10).Some?
    ensures '0' <= c <= '9'
  {
  }

  /** `parseInt` stops at the first character that is not a digit: `12abc` gives 12. */
  lemma ParseIntStopsAtNonDigit()
    ensures ParseIntText("12" + "abc") == Num(12.0)
  {
    assert DigitValue('a', 10).None?;
    ParseIntOfDigitsThen("12", "abc");
    assert DigitsValue("12", 10) == 12 by {
      assert "12"[..1] == "1" && "1"[..0] == "";
    }
  }

  /** White space in front of `t` is skipped. */
  lemma {:induction false} LeadingSpaceSkipped(sp: string, t: string)
    requires forall i :: 0 <= i < |sp| ==> IsJsSpace(sp[i])
    ensures TrimLeadingSpace(sp + t) == TrimLeadingSpace(t)
  {
    if |sp| == 0 {
      assert sp + t == t;
    } else {
      assert (sp + t)[0] == sp[0];
      assert (sp + t)[1..] == sp[1..] + t;
      LeadingSpaceSkipped(sp[1..], t);
    }
  }

  /** Leading white space is skipped and a minus sign negates: `  -7` gives -7. */
  lemma ParseIntSkipsSpaceAndSign(sp: string, n: nat)
    requires forall i :: 0 <= i < |sp| ==> IsJsSpace(sp[i])
    ensures ParseIntText(sp + "-" + NatText(n)) == Num(-(n as real))
  {
    var t := "-" + NatText(n);
    assert sp + "-" + NatText(n) == sp + t;
    LeadingSpaceSkipped(sp, t);
    ParseIntOfNegated(n);
    ParseIntReadsTrimmed(sp + t, t);
  }

  /** `-` and the digits of `n` give -n. */
  lemma ParseIntOfNegated(n: nat)
    ensures TrimLeadingSpace("-" + NatText(n)) == "-" + NatText(n)
    ensures ParseIntText("-" + NatText(n)) == Num(-(n as real))
  {
    var t := "-" + NatText(n);
    assert t[0] == '-';
    NotTrimmed(t);
    assert Unsigned(t) == NatText(n) && IsNegative(t);
    LeadingNumberOfNatText(n);
  }

  /** `parseInt` sees only the text after the leading white space. */
  lemma ParseIntReadsTrimmed(a: string, b: string)
    requires TrimLeadingSpace(a) == TrimLeadingSpace(b)
    ensures ParseIntText(a) == ParseIntText(b)
  {
  }

  /** A `0x` prefix switches to base 16. */
  lemma ParseIntHexPrefix(body: string)
    requires |body| > 0 && AllDigits(body, 16)
    ensures ParseIntText("0x" + body) == Num(DigitsValue(body, 16) as real)
  {
    DigitPrefixOfDigits(body, 16);
    assert body[..|body|] == body;
    assert LeadingNumber(body, 16) == Some(DigitsValue(body, 16));
    HexDigitsRead(body);
  }

  /** `1A` is a base-16 numeral for 26, so `parseInt("0x1A")` is 26. */
  lemma HexOneA()
    ensures AllDigits("1A", 16) && DigitsValue("1A", 16) == 26
  {
    assert "1A"[..1] == "1" && "1"[..0] == "";
  }

  /** After `0x`, `parseInt` reads the rest in base 16. */
  lemma HexDigitsRead(body: string)
    ensures TrimLeadingSpace("0x" + body) == "0x" + body
    ensures RadixAndBody(Unsigned("0x" + body)) == (16, body) && !IsNegative("0x" + body)
  {
    var s := "0x" + body;
    assert s[0] == '0' && s[1] == 'x';
    DigitFirst(s);
    assert s[2..] == body;
  }

  /** Text with no leading digit gives NaN. */
  lemma ParseIntNoDigits()
    ensures ParseIntText("abc") == NaN
    ensures ParseIntText("undefined") == NaN
    ensures ParseIntText("") == NaN
  {
    NoLeadingDigit("abc");
    NoLeadingDigit("undefined");
  }

  /** Text starting with a character that is no space, sign or decimal digit has no leading number. */
  lemma NoLeadingDigit(s: string)
    requires |s| > 0 && !IsJsSpace(s[0]) && s[0] != '-' && s[0] != '+' && DigitValue(s[0], 10).None?
    ensures ParseIntText(s) == NaN
  {
    assert TrimLeadingSpace(s) == s;
    assert Unsigned(s) == s;
    assert RadixAndBody(s) == (10, s);
    assert DigitPrefix(s, 10) == 0;
  }
}
