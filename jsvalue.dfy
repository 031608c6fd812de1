/**
 * JSON values as the dashboard receives them in record fields, with the parts
 * of JavaScript's semantics the components rely on: truthiness and `a || b`,
 * `Number(x)` and `Number(x) || 0`, and `String.prototype.trim`.
 */
module JsValue {
  import opened Wrappers
  import Calendar

  /** A scalar field value; Undefined is a field the record does not have. */
  datatype JsVal = Undefined | Null | Bool(b: bool) | Num(x: real) | Str(s: string)

  /** A JSON object: field name to value. */
  type Record = map<string, JsVal>

  /** `item.field`: a missing field reads as undefined. */
  function Get(r: Record, field: string): JsVal {
    if field in r then r[field] else Undefined
  }

  /** ToBoolean: undefined, null, false, 0 and "" are falsy. */
  predicate Truthy(v: JsVal) {
    match v
    case Undefined => false
    case Null => false
    case Bool(b) => b
    case Num(x) => x != 0.0
    case Str(s) => s != ""
  }

  /** `a || b`: the first operand when it is truthy, otherwise the second. */
  function Or(a: JsVal, b: JsVal): JsVal {
    if Truthy(a) then a else b
  }

  /** The first truthy of three operands, else the last: `a || b || c`. */
  lemma OrChain(a: JsVal, b: JsVal, c: JsVal)
    ensures Truthy(a) ==> Or(Or(a, b), c) == a
    ensures !Truthy(a) && Truthy(b) ==> Or(Or(a, b), c) == b
    ensures !Truthy(a) && !Truthy(b) ==> Or(Or(a, b), c) == c
  {
  }

  // ---------------------------------------------------------------------------
  // Whitespace and trim

  /** ECMA-262 WhiteSpace and LineTerminator code points. */
  predicate IsWhitespace(c: char) {
    c == '\U{0009}' || c == '\U{000A}' || c == '\U{000B}' || c == '\U{000C}' || c == '\U{000D}' ||
    c == '\U{0020}' || c == '\U{00A0}' || c == '\U{1680}' || ('\U{2000}' <= c <= '\U{200A}') ||
    c == '\U{2028}' || c == '\U{2029}' || c == '\U{202F}' || c == '\U{205F}' || c == '\U{3000}' ||
    c == '\U{FEFF}'
  }

  function TrimStart(s: string): (t: string)
    ensures |t| <= |s| && t == s[|s| - |t|..]
    ensures forall i :: 0 <= i < |s| - |t| ==> IsWhitespace(s[i])
    ensures |t| > 0 ==> !IsWhitespace(t[0])
  {
    if |s| > 0 && IsWhitespace(s[0]) then TrimStart(s[1..]) else s
  }

  function TrimEnd(s: string): (t: string)
    ensures |t| <= |s| && t == s[..|t|]
    ensures forall i :: |t| <= i < |s| ==> IsWhitespace(s[i])
    ensures |t| > 0 ==> !IsWhitespace(t[|t| - 1])
  {
    if |s| > 0 && IsWhitespace(s[|s| - 1]) then TrimEnd(s[..|s| - 1]) else s
  }

  /** `s.trim()`. */
  function Trim(s: string): string {
    TrimEnd(TrimStart(s))
  }

  /** Trimming yields "" exactly when every character is whitespace. */
  lemma TrimEmptyIff(s: string)
    ensures Trim(s) == "" <==> forall i :: 0 <= i < |s| ==> IsWhitespace(s[i])
  {
    var a := TrimStart(s);
    if |a| > 0 {
      assert TrimEnd(a)[0] == a[0];
    }
  }

  /** A trimmed text neither starts nor ends with whitespace and is a slice of the input. */
  lemma TrimShape(s: string)
    ensures |Trim(s)| > 0 ==> !IsWhitespace(Trim(s)[0]) && !IsWhitespace(Trim(s)[|Trim(s)| - 1])
    ensures exists i, j :: 0 <= i <= j <= |s| && Trim(s) == s[i..j]
  {
    var a := TrimStart(s);
    var t := Trim(s);
    assert t == a[..|t|];
    assert t == s[|s| - |a|..|s| - |a| + |t|];
  }

  // ---------------------------------------------------------------------------
  // Number(x)

  /** The first index of c in s, or |s| when c does not occur. */
  function IndexOf(s: string, c: char): (i: nat)
    ensures i <= |s| && (i < |s| ==> s[i] == c)
    ensures forall j :: 0 <= j < i ==> s[j] != c
  {
    if |s| == 0 then 0 else if s[0] == c then 0 else 1 + IndexOf(s[1..], c)
  }

  /** An unsigned decimal literal: digits, an optional point and fraction digits, at least one digit. */
  function UnsignedDecimal(b: string): Option<real> {
    var i := IndexOf(b, '.');
    var intPart := b[..i];
    var fracPart := if i < |b| then b[i + 1..] else "";
    if Calendar.AllDigits(intPart) && Calendar.AllDigits(fracPart) && |intPart| + |fracPart| > 0 then
      Some(Calendar.DigitsValue(intPart) as real
           + Calendar.DigitsValue(fracPart) as real / Calendar.Pow10(|fracPart|) as real)
    else None
  }

  /** StringToNumber for trimmed-empty and signed decimal texts; None is NaN. */
  function StringToNumber(s: string): (r: Option<real>)
    ensures Trim(s) == "" ==> r == Some(0.0)
  {
    var t := Trim(s);
    if t == "" then Some(0.0)
    else
      var negative := t[0] == '-';
      var body := if t[0] == '-' || t[0] == '+' then t[1..] else t;
      match UnsignedDecimal(body)
      case None => None
      case Some(v) => Some(if negative then -v else v)
  }

  /** `Number(v)`; None is NaN. */
  function ToNumber(v: JsVal): (r: Option<real>)
    ensures r.None? ==> v == Undefined || v.Str?
  {
    match v
    case Undefined => None
    case Null => Some(0.0)
    case Bool(b) => Some(if b then 1.0 else 0.0)
    case Num(x) => Some(x)
    case Str(s) => StringToNumber(s)
  }

  /** Every falsy value but undefined is the number 0, undefined is NaN, and a number is itself. */
  lemma ToNumberCases(v: JsVal)
    ensures !Truthy(v) ==> ToNumber(v) == if v == Undefined then None else Some(0.0)
    ensures v.Num? ==> ToNumber(v) == Some(v.x)
  {
  }

  /** A text that neither starts nor ends with whitespace is its own trim. */
  lemma TrimUnpadded(s: string)
    requires |s| > 0 && !IsWhitespace(s[0]) && !IsWhitespace(s[|s| - 1])
    ensures Trim(s) == s
  {
    assert TrimStart(s) == s;
  }

  /** Digits without a point are an integer literal. */
  lemma UnsignedDecimalDigits(s: string)
    requires |s| > 0 && Calendar.AllDigits(s)
    ensures UnsignedDecimal(s) == Some(Calendar.DigitsValue(s) as real)
  {
    assert forall i :: 0 <= i < |s| ==> s[i] != '.';
    var i := IndexOf(s, '.');
    assert i == |s|;
    assert s[..i] == s;
    assert Calendar.DigitsValue("") == 0;
  }

  /** A text of decimal digits is the number they denote. */
  lemma StringToNumberDigits(s: string)
    requires |s| > 0 && Calendar.AllDigits(s)
    ensures StringToNumber(s) == Some(Calendar.DigitsValue(s) as real)
  {
    assert Calendar.IsDigit(s[0]) && Calendar.IsDigit(s[|s| - 1]);
    TrimUnpadded(s);
    UnsignedDecimalDigits(s);
  }

  /** `Number(v) || 0`: NaN becomes 0, every other number is kept. */
  function NumberOrZero(v: JsVal): (r: real)
    ensures ToNumber(v).Some? ==> r == ToNumber(v).value
    ensures ToNumber(v).None? ==> r == 0.0
  {
    match ToNumber(v)
    case None => 0.0
    case Some(x) => x
  }

  /** `a - b`: both operands go through Number; None is NaN. */
  function Subtract(a: JsVal, b: JsVal): (r: Option<real>)
    ensures r.Some? <==> ToNumber(a).Some? && ToNumber(b).Some?
    ensures r.Some? ==> r.value == ToNumber(a).value - ToNumber(b).value
  {
    match (ToNumber(a), ToNumber(b))
    case (Some(x), Some(y)) => Some(x - y)
    case _ => None
  }

  /** Missing, null, NaN-producing and zero values all coerce to 0; a number is itself. */
  lemma NumberOrZeroCases(v: JsVal)
    ensures v == Undefined || v == Null ==> NumberOrZero(v) == 0.0
    ensures v.Num? ==> NumberOrZero(v) == v.x
    ensures v == Str("") ==> NumberOrZero(v) == 0.0
  {
  }
}
