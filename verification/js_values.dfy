/**
 * The few JavaScript value semantics the room code relies on: loose
 * comparison with `null`, `isNaN`, truthiness and numeric coercion of the
 * settings a client sends.
 */
module JsValues {
  import opened Wrappers

  /** A client-supplied setting. Numbers are integers. */
  datatype Value = Undefined | Null | Bool(b: bool) | Num(n: int) | Str(s: string)

  /** `v == null` holds for `null` and `undefined` only. */
  predicate IsNullish(v: Value) {
    v.Undefined? || v.Null?
  }

  predicate IsDigit(c: char) { '0' <= c <= '9' }

  predicate AllDigits(s: string) {
    forall i :: 0 <= i < |s| ==> IsDigit(s[i])
  }

  /** The value of a digit in any radix up to 36; 36 for a character that is no digit. */
  function DigitValue(c: char): (d: nat)
    ensures d < 10 <==> IsDigit(c)
  {
    if '0' <= c <= '9' then c as int - '0' as int
    else if 'a' <= c <= 'z' then c as int - 'a' as int + 10
    else if 'A' <= c <= 'Z' then c as int - 'A' as int + 10
    else 36
  }

  predicate DigitsIn(s: string, radix: nat) {
    forall i :: 0 <= i < |s| ==> DigitValue(s[i]) < radix
  }

  /** Value of a digit string in the given radix, most significant digit first. */
  function ValueIn(s: string, radix: nat): (n: nat)
    requires DigitsIn(s, radix)
  {
    if |s| == 0 then 0
    else ValueIn(s[..|s| - 1], radix) * radix + DigitValue(s[|s| - 1])
  }

  /** Decimal value of a digit string. */
  function DecimalValue(s: string): (n: nat)
    requires AllDigits(s)
  {
    ValueIn(s, 10)
  }

  /** `String(n)` for a natural number: its decimal digits. */
  function NatToString(n: nat): (r: string)
    ensures |r| >= 1 && AllDigits(r)
  {
    var digit := ['0' + (n % 10) as char];
    if n < 10 then digit else NatToString(n / 10) + digit
  }

  /** The radix a `0x`, `0o` or `0b` prefix selects, either case; 0 for none. */
  function PrefixRadix(s: string): (radix: nat)
    ensures radix in {0, 2, 8, 16}
  {
    if |s| < 2 || s[0] != '0' then 0
    else if s[1] == 'x' || s[1] == 'X' then 16
    else if s[1] == 'o' || s[1] == 'O' then 8
    else if s[1] == 'b' || s[1] == 'B' then 2
    else 0
  }

  /**
   * `Number(s)` for a string, with NaN as None: the empty string is 0; an
   * unsigned `0x`/`0o`/`0b` literal needs at least one digit of its radix; a
   * decimal literal may carry one sign, which needs digits after it.
   */
  function StringToNumber(s: string): (r: Option<int>)
    ensures AllDigits(s) ==> r == Some(DecimalValue(s))
    ensures |s| > 0 && (s[0] == '+' || s[0] == '-') && !AllDigits(s[1..]) ==> r.None?
    ensures PrefixRadix(s) > 0 ==> (r.Some? <==> |s| > 2 && DigitsIn(s[2..], PrefixRadix(s)))
  {
    var radix := PrefixRadix(s);
    if radix > 0 then
      (if |s| > 2 && DigitsIn(s[2..], radix) then Some(ValueIn(s[2..], radix)) else None)
    else if AllDigits(s) then Some(DecimalValue(s))
    else if |s| > 1 && s[0] == '+' && AllDigits(s[1..]) then Some(DecimalValue(s[1..]))
    else if |s| > 1 && s[0] == '-' && AllDigits(s[1..]) then Some(0 - DecimalValue(s[1..]))
    else None
  }

  /** `Number(v)`, with NaN as None. */
  function ToNumber(v: Value): (r: Option<int>)
    ensures v.Num? ==> r == Some(v.n)
    ensures v.Undefined? ==> r.None?
    ensures v.Null? ==> r == Some(0)
    ensures v.Bool? ==> r == Some(if v.b then 1 else 0)
    ensures v.Str? ==> r == StringToNumber(v.s)
  {
    match v
    case Undefined => None
    case Null => Some(0)
    case Bool(b) => Some(if b then 1 else 0)
    case Num(n) => Some(n)
    case Str(s) => StringToNumber(s)
  }

  /** `Number(String(n)) == n`: a number's decimal text reads back as that number. */
  lemma {:induction false} DecimalRoundTrip(n: nat)
    ensures DecimalValue(NatToString(n)) == n
    decreases n
  {
    var r := NatToString(n);
    assert DigitValue(r[|r| - 1]) == n % 10;
    if n >= 10 {
      DecimalRoundTrip(n / 10);
      assert r[..|r| - 1] == NatToString(n / 10);
      assert ValueIn(r, 10) == ValueIn(NatToString(n / 10), 10) * 10 + n % 10;
    } else {
      assert r[..|r| - 1] == [];
      assert ValueIn(r, 10) == ValueIn([], 10) * 10 + n % 10;
    }
  }

  /** A signed decimal text reads back as the signed number. */
  lemma SignedRoundTrip(n: nat)
    ensures StringToNumber(NatToString(n)) == Some(n)
    ensures StringToNumber("+" + NatToString(n)) == Some(n)
    ensures StringToNumber("-" + NatToString(n)) == Some(0 - n)
  {
    DecimalRoundTrip(n);
    assert ("+" + NatToString(n))[1..] == NatToString(n);
    assert ("-" + NatToString(n))[1..] == NatToString(n);
  }

  /** Twenty in decimal, with and without a sign, reads as 20. */
  lemma DecimalTwenty()
    ensures StringToNumber("20") == Some(20) && StringToNumber("+20") == Some(20)
  {
    assert ValueIn("20", 10) == 20 by { assert "20"[..1] == "2"; assert "2"[..0] == ""; }
    assert "+20"[1..] == "20";
  }

  /** Twenty as a hexadecimal literal, either case of the prefix, reads as 20. */
  lemma HexTwenty()
    ensures StringToNumber("0x14") == Some(20) && StringToNumber("0X14") == Some(20)
  {
    assert ValueIn("14", 16) == 20 by { assert "14"[..1] == "1"; assert "1"[..0] == ""; }
    assert "0x14"[2..] == "14";
    assert "0X14"[2..] == "14";
  }

  /** Twenty as an octal literal reads as 20. */
  lemma OctalTwenty()
    ensures StringToNumber("0o24") == Some(20)
  {
    assert ValueIn("24", 8) == 20 by { assert "24"[..1] == "2"; assert "2"[..0] == ""; }
    assert "0o24"[2..] == "24";
  }

  /** Twenty as a binary literal reads as 20. */
  lemma BinaryTwenty()
    ensures StringToNumber("0b10100") == Some(20)
  {
    assert "10100"[..4] == "1010";
    assert "1010"[..3] == "101";
    assert "101"[..2] == "10";
    assert "10"[..1] == "1";
    assert "1"[..0] == "";
    assert ValueIn("10100", 2) == 20;
    assert "0b10100"[2..] == "10100";
  }

  /** A signed prefixed literal, a lone sign and a prefix without digits are NaN. */
  lemma MalformedNumbers()
    ensures StringToNumber("-0x14").None? && StringToNumber("+").None? && StringToNumber("0x").None?
  {
    assert !AllDigits("-0x14"[1..]) by { assert !IsDigit("-0x14"[2]); }
  }

  predicate IsNaN(v: Value) {
    ToNumber(v).None?
  }

  /** JavaScript truthiness (`v ? true : false`). */
  predicate Truthy(v: Value) {
    match v
    case Undefined => false
    case Null => false
    case Bool(b) => b
    case Num(n) => n != 0
    case Str(s) => s != ""
  }

  /** `v == text` for a text that is not numeric, such as "custom". */
  predicate LooselyEqualsText(v: Value, text: string)
    requires !AllDigits(text)
  {
    v.Str? && v.s == text
  }
}
