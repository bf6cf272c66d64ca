/** The JavaScript notions the components rely on, stated once: JSON values and
    their truthiness, `||` and optional chaining, `String.prototype.trim`,
    `toLowerCase`, `includes`, decimal rendering of integers, `parseFloat`, and
    the order-preserving `Array.prototype.filter`. */
module Common {

  datatype Option<T> = None | Some(value: T)

  datatype Result<T> = Ok(value: T) | Err(message: string)

  /** A JavaScript value as the components hold it: what `res.json()` returns,
      plus `undefined` for a property that is absent. JSON has no NaN. */
  datatype Json =
    | Undefined
    | Null
    | Bool(b: bool)
    | Num(n: real)
    | Str(s: string)
    | Obj(fields: map<string, Json>)
    | Arr(items: seq<Json>)

  /** `new Date(x).getTime()`: milliseconds since the epoch, or NaN (`Invalid`)
      for text that is not a date. Every comparison with NaN is false. */
  datatype Millis = Invalid | At(ms: int)

  /** JavaScript truthiness of a value. */
  predicate Truthy(v: Json) {
    match v
    case Undefined => false
    case Null => false
    case Bool(b) => b
    case Num(n) => n != 0.0
    case Str(s) => s != ""
    case Obj(_) => true
    case Arr(_) => true
  }

  /** `a || b`: the first operand when it is truthy, else the second. */
  function Or(a: Json, b: Json): Json {
    if Truthy(a) then a else b
  }

  /** Reading property `key` of an object record; an absent key reads as `undefined`. */
  function Get(o: map<string, Json>, key: string): Json {
    if key in o then o[key] else Undefined
  }

  /** `v?.[key]`: `undefined` unless `v` is an object that has the key
      (a string, number or boolean has none of the keys used here). */
  function Prop(v: Json, key: string): Json {
    match v
    case Obj(o) => Get(o, key)
    case _ => Undefined
  }

  // ---------------------------------------------------------------------------
  // String.prototype.trim

  /** The characters `trim` removes: ECMAScript WhiteSpace and LineTerminator. */
  predicate IsJsSpace(c: char) {
    || c == '\t' || c == '\n' || c == '\r' || c == ' '
    || c == '\U{000B}' || c == '\U{000C}' || c == '\U{00A0}' || c == '\U{1680}'
    || ('\U{2000}' <= c <= '\U{200A}')
    || c == '\U{2028}' || c == '\U{2029}' || c == '\U{202F}' || c == '\U{205F}'
    || c == '\U{3000}' || c == '\U{FEFF}'
  }

  predicate AllSpace(s: string) {
    forall i :: 0 <= i < |s| ==> IsJsSpace(s[i])
  }

  /** The index of the first character at or after `i` that is not white
      space (`|s|` when there is none). */
  function SkipSpaces(s: string, i: nat): (k: nat)
    requires i <= |s|
    ensures i <= k <= |s|
    ensures forall j :: i <= j < k ==> IsJsSpace(s[j])
    ensures k < |s| ==> !IsJsSpace(s[k])
    decreases |s| - i
  {
    if i < |s| && IsJsSpace(s[i]) then SkipSpaces(s, i + 1) else i
  }

  /** The index just past the last character before `j` that is not white
      space (0 when there is none). */
  function BackSpaces(s: string, j: nat): (k: nat)
    requires j <= |s|
    ensures k <= j
    ensures forall i :: k <= i < j ==> IsJsSpace(s[i])
    ensures k > 0 ==> !IsJsSpace(s[k - 1])
  {
    if j > 0 && IsJsSpace(s[j - 1]) then BackSpaces(s, j - 1) else j
  }

  /** `trimStart`: the longest suffix that does not begin with white space. */
  function TrimStart(s: string): (r: string)
    ensures |r| <= |s| && r == s[|s| - |r|..]
    ensures AllSpace(s[..|s| - |r|])
    ensures r == [] || !IsJsSpace(r[0])
  {
    s[SkipSpaces(s, 0)..]
  }

  /** `trimEnd`: the longest prefix that does not end with white space. */
  function TrimEnd(s: string): (r: string)
    ensures |r| <= |s| && r == s[..|r|]
    ensures AllSpace(s[|r|..])
    ensures r == [] || !IsJsSpace(r[|r| - 1])
  {
    s[..BackSpaces(s, |s|)]
  }

  function Trim(s: string): string {
    TrimEnd(TrimStart(s))
  }

  /** A string is empty after `trim` exactly when it consists of white space only. */
  lemma TrimEmptyIff(s: string)
    ensures Trim(s) == "" <==> AllSpace(s)
  {
    var t := TrimStart(s);
    var k := |s| - |t|;
    if Trim(s) == "" {
      assert AllSpace(t[0..]);
      assert t == [];
      assert s == s[..k];
    }
  }

  /** `trim` keeps a contiguous run of the input, has no white space at either
      end, and trimming again changes nothing. */
  lemma TrimShape(s: string)
    ensures |Trim(s)| <= |s|
    ensures exists i :: OccursAt(s, Trim(s), i)
    ensures Trim(s) == [] || (!IsJsSpace(Trim(s)[0]) && !IsJsSpace(Trim(s)[|Trim(s)| - 1]))
    ensures Trim(Trim(s)) == Trim(s)
  {
    var t := TrimStart(s);
    var r := TrimEnd(t);
    var i := |s| - |t|;
    assert r == s[i..i + |r|];
    assert OccursAt(s, r, i);
    if r != [] {
      assert r[0] == t[0];
    }
    assert TrimStart(r) == r;
    TrimEndIdempotent(r);
  }

  lemma TrimEndIdempotent(r: string)
    requires r == [] || !IsJsSpace(r[|r| - 1])
    ensures TrimEnd(r) == r
  {
  }

  // ---------------------------------------------------------------------------
  // toLowerCase and includes

  /** Lower-casing of one character, for the Basic Latin and Latin-1
      letters: 'A' to 'Z' and 'À' to 'Þ' (except the multiplication sign)
      become the letter 32 code points further on; every other character is
      kept. */
  function LowerChar(c: char): char {
    if 'A' <= c <= 'Z' || ('\U{00C0}' <= c <= '\U{00DE}' && c != '\U{00D7}') then (c as int + 32) as char else c
  }

  function ToLower(s: string): (r: string)
    ensures |r| == |s| && forall i :: 0 <= i < |s| ==> r[i] == LowerChar(s[i])
  {
    if s == [] then [] else [LowerChar(s[0])] + ToLower(s[1..])
  }

  /** `sub` stands in `s` at position `i`. */
  predicate OccursAt(s: string, sub: string, i: int) {
    0 <= i && i + |sub| <= |s| && s[i..i + |sub|] == sub
  }

  predicate IsPrefix(p: string, s: string) {
    |p| <= |s| && s[..|p|] == p
  }

  /** `s.includes(sub)`. */
  predicate Includes(s: string, sub: string)
    decreases |s|
  {
    IsPrefix(sub, s) || (|s| > 0 && Includes(s[1..], sub))
  }

  /** `includes` holds exactly when `sub` occurs at some position of `s`. */
  lemma {:induction false} IncludesIff(s: string, sub: string)
    ensures Includes(s, sub) <==> exists i :: OccursAt(s, sub, i)
    decreases |s|
  {
    if IsPrefix(sub, s) {
      assert OccursAt(s, sub, 0);
    } else if |s| > 0 {
      IncludesIff(s[1..], sub);
      if Includes(s[1..], sub) {
        var i :| OccursAt(s[1..], sub, i);
        assert s[1..][i..] == s[i + 1..];
        assert s[i + 1..i + 1 + |sub|] == s[1..][i..i + |sub|];
        assert OccursAt(s, sub, i + 1);
      } else {
        forall i | OccursAt(s, sub, i)
          ensures false
        {
          if i > 0 {
            assert s[1..][i - 1..] == s[i..];
            assert s[i..i + |sub|] == s[1..][i - 1..i - 1 + |sub|];
            assert OccursAt(s[1..], sub, i - 1);
          }
        }
      }
    } else {
      forall i | OccursAt(s, sub, i)
        ensures false
      {
      }
    }
  }

  // ---------------------------------------------------------------------------
  // Decimal digits: String(n) for a non-negative integer, and its inverse

  predicate IsDigit(c: char) {
    '0' <= c <= '9'
  }

  predicate AllDigits(s: string) {
    forall i :: 0 <= i < |s| ==> IsDigit(s[i])
  }

  function DigitChar(d: nat): (c: char)
    requires d < 10
    ensures IsDigit(c) && c as int - '0' as int == d
  {
    (d + '0' as int) as char
  }

  /** `String(n)` for a non-negative integer: no sign, no leading zero. */
  function NatToString(n: nat): (r: string)
    ensures |r| >= 1 && AllDigits(r)
    ensures |r| == 1 <==> n < 10
    ensures |r| > 1 ==> r[0] != '0'
  {
    if n < 10 then [DigitChar(n)] else NatToString(n / 10) + [DigitChar(n % 10)]
  }

  /** The value of a string of decimal digits. */
  function ParseNat(s: string): nat
    requires AllDigits(s)
  {
    if s == [] then 0 else ParseNat(s[..|s| - 1]) * 10 + (s[|s| - 1] as int - '0' as int)
  }

  /** Reading back the decimal rendering of `n` gives `n`. */
  lemma {:induction false} ParseNatToString(n: nat)
    ensures ParseNat(NatToString(n)) == n
  {
    if n >= 10 {
      var r := NatToString(n);
      assert r[..|r| - 1] == NatToString(n / 10);
      ParseNatToString(n / 10);
    }
  }

  // ---------------------------------------------------------------------------
  // parseFloat

  function Pow10(k: nat): (p: nat)
    ensures p >= 1
  {
    if k == 0 then 1 else 10 * Pow10(k - 1)
  }

  /** The longest prefix of `s` made of decimal digits. */
  function DigitRun(s: string): (r: string)
    ensures |r| <= |s| && r == s[..|r|] && AllDigits(r)
    ensures |r| < |s| ==> !IsDigit(s[|r|])
  {
    if |s| > 0 && IsDigit(s[0]) then [s[0]] + DigitRun(s[1..]) else []
  }

  /** `parseFloat` of a string with no sign: digits, optionally a point and
      more digits; at least one digit overall, otherwise NaN (`None`). */
  function UnsignedDecimal(s: string): Option<real> {
    var whole := DigitRun(s);
    var rest := s[|whole|..];
    var frac := if |rest| > 0 && rest[0] == '.' then DigitRun(rest[1..]) else [];
    if |whole| + |frac| == 0 then None
    else Some(ParseNat(whole) as real + ParseNat(frac) as real / Pow10(|frac|) as real)
  }

  /** `parseFloat(s)`: leading white space skipped, an optional sign, then the
      longest decimal prefix. */
  function ParseFloatString(s: string): Option<real> {
    var t := TrimStart(s);
    if |t| > 0 && (t[0] == '-' || t[0] == '+') then
      match UnsignedDecimal(t[1..])
      case None => None
      case Some(x) => Some(if t[0] == '-' then -x else x)
    else UnsignedDecimal(t)
  }

  /** `parseFloat(v)` for any value: a number is itself; a string is parsed;
      `true`, `null`, `undefined` and objects render as text that is not a
      number. */
  function ParseFloat(v: Json): Option<real> {
    match v
    case Num(x) => Some(x)
    case Str(s) => ParseFloatString(s)
    case _ => None
  }

  /** `parseFloat(v) || 0`. */
  function ParseFloatOrZero(v: Json): real {
    match ParseFloat(v)
    case Some(x) => x
    case None => 0.0
  }

  /** How many characters of `s` the numeral `UnsignedDecimal` reads spans:
      the digits, and the point with its digits when there is one. */
  function DecimalLength(s: string): (n: nat)
    ensures n <= |s|
  {
    var whole := DigitRun(s);
    var rest := s[|whole|..];
    if |rest| > 0 && rest[0] == '.' then |whole| + 1 + |DigitRun(rest[1..])| else |whole|
  }

  /** `Number(s)` for a string (`None` for NaN): surrounding white space is
      ignored, the empty string is 0, and otherwise the whole text must be a
      signed decimal numeral. */
  function ToNumberString(s: string): Option<real> {
    var t := Trim(s);
    if t == "" then Some(0.0)
    else
      var signed := t[0] == '-' || t[0] == '+';
      var u := if signed then t[1..] else t;
      if DecimalLength(u) != |u| then None
      else
        match UnsignedDecimal(u)
        case None => None
        case Some(x) => Some(if t[0] == '-' then -x else x)
  }

  /** `Number` reads back the decimal rendering of a non-negative integer, and
      the empty string is 0. */
  lemma ToNumberOfNatString(n: nat)
    ensures ToNumberString(NatToString(n)) == Some(n as real)
    ensures ToNumberString("") == Some(0.0)
  {
    var s := NatToString(n);
    TrimDigits(s);
    assert !(s[0] == '-' || s[0] == '+');
    DecimalLengthOfDigits(s);
    UnsignedDecimalOfDigits(s);
    ParseNatToString(n);
  }

  lemma TrimDigits(s: string)
    requires AllDigits(s) && |s| > 0
    ensures Trim(s) == s
  {
    assert SkipSpaces(s, 0) == 0;
    assert BackSpaces(s, |s|) == |s|;
  }

  lemma DecimalLengthOfDigits(s: string)
    requires AllDigits(s)
    ensures DecimalLength(s) == |s|
  {
    DigitRunAll(s);
    assert s[|s|..] == [];
  }

  lemma {:induction false} DigitRunAll(s: string)
    requires AllDigits(s)
    ensures DigitRun(s) == s
  {
    if |s| > 0 {
      DigitRunAll(s[1..]);
    }
  }

  lemma UnsignedDecimalOfDigits(s: string)
    requires AllDigits(s) && |s| > 0
    ensures UnsignedDecimal(s) == Some(ParseNat(s) as real)
  {
    DigitRunAll(s);
    assert s[|s|..] == [];
  }

  /** `parseFloat` reads back the decimal rendering of a non-negative integer. */
  lemma ParseFloatOfNatString(n: nat)
    ensures ParseFloatString(NatToString(n)) == Some(n as real)
  {
    var s := NatToString(n);
    assert TrimStart(s) == s;
    assert !(s[0] == '-' || s[0] == '+');
    UnsignedDecimalOfDigits(s);
    ParseNatToString(n);
  }

  // ---------------------------------------------------------------------------
  // Array.prototype.filter

  function Filter<T>(s: seq<T>, keep: T -> bool): (r: seq<T>)
    ensures |r| <= |s|
    ensures forall i :: 0 <= i < |r| ==> r[i] in s && keep(r[i])
    ensures forall i :: 0 <= i < |s| && keep(s[i]) ==> s[i] in r
  {
    if s == [] then [] else (if keep(s[0]) then [s[0]] else []) + Filter(s[1..], keep)
  }

  /** `filter` works element by element, so it keeps the original order. */
  lemma {:induction false} FilterAppend<T>(a: seq<T>, b: seq<T>, keep: T -> bool)
    ensures Filter(a + b, keep) == Filter(a, keep) + Filter(b, keep)
  {
    if a != [] {
      var head := if keep(a[0]) then [a[0]] else [];
      assert (a + b)[0] == a[0];
      assert (a + b)[1..] == a[1..] + b;
      FilterAppend(a[1..], b, keep);
      calc {
        Filter(a + b, keep);
        head + Filter(a[1..] + b, keep);
        head + (Filter(a[1..], keep) + Filter(b, keep));
        (head + Filter(a[1..], keep)) + Filter(b, keep);
      }
    } else {
      assert a + b == b;
    }
  }

  /** An element every one of which is kept comes through `filter` unchanged. */
  lemma {:induction false} FilterAll<T>(s: seq<T>, keep: T -> bool)
    requires forall i :: 0 <= i < |s| ==> keep(s[i])
    ensures Filter(s, keep) == s
  {
    if s != [] {
      FilterAll(s[1..], keep);
    }
  }
}
