/**
 * The parts of JavaScript's value semantics the program relies on: truthiness,
 * template-literal rendering of `undefined`, and loose equality (`==`) between a
 * numeric player id and a key that may be a string.
 */
module Js {
  import opened Results
  import opened Decimal

  /** A scalar JSON value as found in a VLC status answer (JSON numbers there are integers). */
  datatype Value = Undefined | Null | Bool(b: bool) | Number(n: int) | Str(s: string)

  /** `!!v` */
  predicate Truthy(v: Value) {
    match v
    case Undefined => false
    case Null => false
    case Bool(b) => b
    case Number(n) => n != 0
    case Str(s) => s != ""
  }

  /** Truthiness of a property that is a string or missing. */
  predicate IsTruthyText(o: Option<string>) {
    Truthy(if o.Some? then Str(o.value) else Undefined)
  }

  /** `${o}` for a string-or-undefined property. */
  function Text(o: Option<string>): string {
    if o.Some? then o.value else "undefined"
  }

  /** `${o}` for a number-or-undefined value. */
  function NumberText(o: Option<int>): (s: string)
    ensures s == "undefined" <==> o.None?
  {
    if o.Some? then
      var t := IntText(o.value);
      assert t[0] != "undefined"[0];
      t
    else "undefined"
  }

  /** StrWhiteSpaceChar of the ECMAScript grammar: WhiteSpace and LineTerminator code points. */
  predicate IsWhitespace(c: char) {
    var n := c as int;
    (0x09 <= n <= 0x0D) || n == 0x20 || n == 0xA0 || n == 0x1680 || (0x2000 <= n <= 0x200A)
    || n == 0x2028 || n == 0x2029 || n == 0x202F || n == 0x205F || n == 0x3000 || n == 0xFEFF
  }

  function TrimStart(s: string): (t: string)
    ensures |t| <= |s| && t == s[|s| - |t|..]
    ensures t != [] ==> !IsWhitespace(t[0])
  {
    if s != [] && IsWhitespace(s[0]) then TrimStart(s[1..]) else s
  }

  function TrimEnd(s: string): (t: string)
    ensures |t| <= |s| && t == s[..|t|]
    ensures t != [] ==> !IsWhitespace(t[|t| - 1])
  {
    if s != [] && IsWhitespace(s[|s| - 1]) then TrimEnd(s[..|s| - 1]) else s
  }

  function Trim(s: string): string {
    TrimEnd(TrimStart(s))
  }

  /**
   * ToNumber applied to a string, for the decimal integer literals: surrounding
   * white space is ignored, the empty string is 0, a sign is allowed. None stands
   * for NaN and for the literal forms this model does not read.
   */
  function StringToNumber(s: string): Option<int> {
    var t := Trim(s);
    var magnitude: int := if |t| > 0 && AllDigits(t[1..]) then Decimal.Value(t[1..]) else 0;
    if t == [] then Some(0)
    else if t[0] == '+' && IsDigits(t[1..]) then Some(magnitude)
    else if t[0] == '-' && IsDigits(t[1..]) then Some(-magnitude)
    else if IsDigits(t) then Some(Decimal.Value(t))
    else None
  }

  /** A key a caller may look a player up by: a number, or a string such as a URL path parameter. */
  datatype Key = NumberKey(n: int) | StringKey(s: string)

  /** `id == key` */
  predicate LooseEquals(id: int, key: Key) {
    match key
    case NumberKey(n) => n == id
    case StringKey(s) => StringToNumber(s) == Some(id)
  }

  lemma TrimNoWhitespace(s: string)
    requires s != [] && !IsWhitespace(s[0]) && !IsWhitespace(s[|s| - 1])
    ensures Trim(s) == s
  {
  }

  lemma SignOrDigitIsNotWhitespace(c: char)
    requires IsDigit(c) || c == '-'
    ensures !IsWhitespace(c)
  {
  }

  lemma {:induction false} StringToNumberOfIntText(n: int)
    ensures StringToNumber(IntText(n)) == Some(n)
  {
    var t := IntText(n);
    SignOrDigitIsNotWhitespace(t[0]);
    SignOrDigitIsNotWhitespace(t[|t| - 1]);
    TrimNoWhitespace(t);
    assert Trim(t) == t;
    if n < 0 {
      assert t[0] == '-' && t[1..] == NatText(-n);
      ValueOfNatText(-n);
      assert t[0] != '+' && IsDigits(t[1..]);
      assert StringToNumber(t) == Some(n);
    } else {
      assert t == NatText(n) && IsDigit(t[0]);
      ValueOfNatText(n);
      assert t[0] != '+' && t[0] != '-' && IsDigits(t);
      assert StringToNumber(t) == Some(Decimal.Value(t));
    }
  }

  /** The decimal text of an id, as it arrives in a request path, finds that id and no other. */
  lemma TextKeyMatchesExactly(id: int, other: int)
    ensures LooseEquals(id, StringKey(IntText(id)))
    ensures LooseEquals(other, StringKey(IntText(id))) <==> other == id
  {
    StringToNumberOfIntText(id);
  }
}
