/**
 * Python's `int()` applied to a string, restricted to ASCII.
 *
 * Base-10 `int()` accepts a run of decimal digits in which single underscores
 * may separate digits (`int("1_000") == 1000`), leading zeros included
 * (`int("007") == 7`), optionally preceded by a sign; anything else raises
 * ValueError, which is `None` here.
 */
module PyInt {
  import opened Wrappers

  predicate IsDigit(c: char) { '0' <= c <= '9' }

  function DigitValue(c: char): (d: nat)
    requires IsDigit(c)
    ensures d < 10
  {
    (c as int) - ('0' as int)
  }

  function DigitChar(d: nat): (c: char)
    requires d < 10
    ensures IsDigit(c) && DigitValue(c) == d
  {
    (('0' as int) + d) as char
  }

  /** A string `int()` accepts without a sign: digits, with single underscores only between digits. */
  predicate IsDecimalLiteral(s: string) {
    && |s| > 0
    && IsDigit(s[0])
    && IsDigit(s[|s| - 1])
    && (forall i :: 0 <= i < |s| ==> IsDigit(s[i]) || s[i] == '_')
    && (forall i :: 0 <= i < |s| - 1 ==> s[i] == '_' ==> s[i + 1] != '_')
  }

  /** The number the digits of `s` spell, underscores skipped. */
  function DigitsValue(s: string): nat
    requires forall i :: 0 <= i < |s| ==> IsDigit(s[i]) || s[i] == '_'
  {
    if s == [] then 0
    else if s[|s| - 1] == '_' then DigitsValue(s[..|s| - 1])
    else 10 * DigitsValue(s[..|s| - 1]) + DigitValue(s[|s| - 1])
  }

  /** `int(s)` for a string without sign or surrounding whitespace. */
  function ParseNat(s: string): Option<nat> {
    if IsDecimalLiteral(s) then Some(DigitsValue(s)) else None
  }

  /** `int(s)` for a string that may carry a leading `+` or `-`. */
  function ParseInt(s: string): (r: Option<int>)
    ensures r.Some? <==> IsDecimalLiteral(s) || (|s| > 0 && s[0] in "+-" && IsDecimalLiteral(s[1..]))
    ensures ParseNat(s).Some? ==> r == Some(ParseNat(s).value as int)
    ensures |s| > 0 && s[0] == '+' && ParseNat(s[1..]).Some? ==> r == Some(ParseNat(s[1..]).value as int)
    ensures |s| > 0 && s[0] == '-' && ParseNat(s[1..]).Some? ==> r == Some(-(ParseNat(s[1..]).value as int))
  {
    if |s| > 0 && (s[0] == '+' || s[0] == '-') then
      match ParseNat(s[1..])
      case None => None
      case Some(n) => Some(if s[0] == '-' then -(n as int) else n as int)
    else
      match ParseNat(s)
      case None => None
      case Some(n) => Some(n)
  }

  /** `str(n)` for a natural number: its decimal digits, no leading zero. */
  function NatToString(n: nat): (s: string)
    ensures |s| > 0
    ensures forall i :: 0 <= i < |s| ==> IsDigit(s[i])
    ensures |s| > 1 ==> s[0] != '0'
    decreases n
  {
    if n < 10 then [DigitChar(n)] else NatToString(n / 10) + [DigitChar(n % 10)]
  }

  /** `int(str(n)) == n`: rendering a count and reading it back recovers it. */
  lemma {:induction false} ParseNatToString(n: nat)
    ensures ParseNat(NatToString(n)) == Some(n)
    decreases n
  {
    var s := NatToString(n);
    assert IsDecimalLiteral(s);
    if n >= 10 {
      ParseNatToString(n / 10);
      var t := NatToString(n / 10);
      assert s == t + [DigitChar(n % 10)];
      assert s[..|s| - 1] == t;
      assert s[|s| - 1] != '_';
      assert DigitsValue(t) == n / 10;
      assert DigitsValue(s) == 10 * DigitsValue(t) + n % 10;
    } else {
      assert s == [DigitChar(n)] && s[..0] == [];
      assert DigitsValue(s) == 10 * DigitsValue([]) + DigitValue(DigitChar(n));
    }
  }

  /** `int("+" + str(n)) == n` and `int("-" + str(n)) == -n`. */
  lemma SignedNatToString(n: nat)
    ensures ParseInt("+" + NatToString(n)) == Some(n as int)
    ensures ParseInt("-" + NatToString(n)) == Some(-(n as int))
  {
    ParseNatToString(n);
    assert ("+" + NatToString(n))[1..] == NatToString(n);
    assert ("-" + NatToString(n))[1..] == NatToString(n);
  }
}
