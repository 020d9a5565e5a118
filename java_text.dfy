/** The few pieces of java.lang.String behaviour that JdbcUtils relies on. */
module JavaText {
  import opened Wrappers

  /** The character of one decimal digit. */
  function Digit(d: nat): (c: char)
    requires d < 10
    ensures '0' <= c <= '9'
    ensures c as int - '0' as int == d
  {
    ('0' as int + d) as char
  }

  predicate AllDigits(s: string) {
    forall i :: 0 <= i < |s| ==> '0' <= s[i] <= '9'
  }

  /** The decimal value of a string of digits. */
  function DigitsValue(s: string): nat
    requires AllDigits(s)
  {
    if s == [] then 0 else 10 * DigitsValue(s[..|s| - 1]) + (s[|s| - 1] as int - '0' as int)
  }

  /** Integer.toString on a non-negative value: decimal digits, most significant first. */
  function NatToString(n: nat): string
    decreases n
  {
    if n < 10 then [Digit(n)] else NatToString(n / 10) + [Digit(n % 10)]
  }

  /** The rendering of n is the canonical decimal numeral of n: a non-empty
      string of digits whose value is n, with no leading zero unless n is 0. */
  lemma {:induction false} NatToStringCanonical(n: nat)
    ensures var s := NatToString(n);
      && s != [] && AllDigits(s) && DigitsValue(s) == n
      && (s[0] == '0' ==> n == 0)
    decreases n
  {
    if n >= 10 {
      NatToStringCanonical(n / 10);
      var s := NatToString(n);
      assert s[..|s| - 1] == NatToString(n / 10);
    }
  }

  /** Integer.toString, which is what `i + " row(s) affected"` prints for i. */
  function IntToString(i: int): string {
    if i < 0 then "-" + NatToString(-i) else NatToString(i)
  }

  /** Integer.toString renders a minus sign exactly for negative values,
      followed by the canonical decimal numeral of the magnitude. */
  lemma IntToStringCanonical(i: int)
    ensures var s := IntToString(i);
      && s != [] && ((s[0] == '-') <==> i < 0)
      && (i >= 0 ==> AllDigits(s) && DigitsValue(s) == i && (s[0] == '0' ==> i == 0))
      && (i < 0 ==> |s| > 1 && AllDigits(s[1..]) && DigitsValue(s[1..]) == -i && s[1] != '0')
  {
    if i < 0 {
      NatToStringCanonical(-i);
      var s := IntToString(i);
      assert s[1..] == NatToString(-i);
    } else {
      NatToStringCanonical(i);
    }
  }

  /** Java string concatenation of a possibly-null String: null prints as "null". */
  function ValueOf(s: Option<string>): string {
    match s
    case None => "null"
    case Some(t) => t
  }

  /** Character.toUpperCase restricted to ASCII letters. */
  function ToUpper(c: char): char {
    if 'a' <= c <= 'z' then (c as int - 32) as char else c
  }

  /** String.equalsIgnoreCase: same length and the same characters up to case. */
  predicate EqualsIgnoreCase(a: string, b: string) {
    |a| == |b| && forall i :: 0 <= i < |a| ==> ToUpper(a[i]) == ToUpper(b[i])
  }

  lemma EqualsIgnoreCaseIsEquivalence(a: string, b: string, c: string)
    ensures EqualsIgnoreCase(a, a)
    ensures EqualsIgnoreCase(a, b) ==> EqualsIgnoreCase(b, a)
    ensures EqualsIgnoreCase(a, b) && EqualsIgnoreCase(b, c) ==> EqualsIgnoreCase(a, c)
  {
  }
}
