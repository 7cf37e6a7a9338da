/** Decimal integers as text: the part of Python's int() on a string that the
    decoder relies on (an optional sign followed by ASCII digits), and the
    canonical rendering that it inverts. */
module IntText {
  import opened Wrappers

  predicate IsDigit(c: char)
  {
    '0' <= c <= '9'
  }

  predicate AllDigits(s: string)
  {
    forall i | 0 <= i < |s| :: IsDigit(s[i])
  }

  function DigitValue(c: char): (d: nat)
    requires IsDigit(c)
    ensures d < 10
  {
    (c as int) - ('0' as int)
  }

  function DigitChar(d: nat): (c: char)
    requires d < 10
    ensures IsDigit(c) && DigitValue(c) == d
  {
    ('0' as int + d) as char
  }

  /** The value of a digit string read most significant digit first. */
  function DigitsValue(s: string): nat
    requires AllDigits(s)
    decreases |s|
  {
    if s == [] then 0 else DigitsValue(s[..|s| - 1]) * 10 + DigitValue(s[|s| - 1])
  }

  predicate IsSign(c: char)
  {
    c == '+' || c == '-'
  }

  /** The integer literals int() accepts here: an optional sign, then one or
      more digits and nothing else. */
  predicate IsIntLiteral(s: string)
  {
    var digits := if s != [] && IsSign(s[0]) then s[1..] else s;
    digits != [] && AllDigits(digits)
  }

  /** One or more digits and nothing else. */
  function ParseNat(s: string): (r: Option<nat>)
    ensures r.Some? <==> s != [] && AllDigits(s)
  {
    if s != [] && AllDigits(s) then Some(DigitsValue(s)) else None
  }

  /** int(s): an optional '+' or '-' followed by one or more digits; anything
      else raises ValueError, modelled as None. */
  function ParseInt(s: string): (r: Option<int>)
    ensures r.Some? <==> IsIntLiteral(s)
    ensures s != [] && !IsDigit(s[0]) && !IsSign(s[0]) ==> r.None?
    ensures s == [] ==> r.None?
  {
    if s != [] && IsSign(s[0]) then
      match ParseNat(s[1..])
      case None => None
      case Some(n) => Some(if s[0] == '-' then -(n as int) else n as int)
    else
      match ParseNat(s)
      case None => None
      case Some(n) => Some(n)
  }

  /** The shortest decimal rendering of a natural number. */
  function ShowNat(n: nat): (s: string)
    ensures s != [] && AllDigits(s)
    decreases n
  {
    if n < 10 then [DigitChar(n)] else ShowNat(n / 10) + [DigitChar(n % 10)]
  }

  /** str(n) for an integer: a minus sign for negatives, then the digits. */
  function ShowInt(n: int): (s: string)
    ensures s != [] && (s[0] == '-' || IsDigit(s[0]))
  {
    if n < 0 then "-" + ShowNat(-n) else ShowNat(n)
  }

  lemma {:induction false} DigitsValueShowNat(n: nat)
    ensures DigitsValue(ShowNat(n)) == n
    decreases n
  {
    if n >= 10 {
      var s := ShowNat(n);
      assert s[..|s| - 1] == ShowNat(n / 10);
      DigitsValueShowNat(n / 10);
    }
  }

  /** Parsing inverts rendering: int(str(n)) == n. */
  lemma ParseShowInt(n: int)
    ensures ParseInt(ShowInt(n)) == Some(n)
  {
    var s := ShowInt(n);
    if n < 0 {
      assert s[1..] == ShowNat(-n);
      DigitsValueShowNat(-n);
    } else {
      assert !IsSign(s[0]);
      DigitsValueShowNat(n);
    }
  }

  /** Strings int() rejects: a decimal point, trailing garbage, a trailing
      sign, a sign alone. */
  lemma ParseIntRejects()
    ensures ParseInt("1.5") == None && ParseInt("12x") == None
    ensures ParseInt("5-") == None && ParseInt("+") == None
  {
    assert !IsDigit("1.5"[1]);
    assert !IsDigit("12x"[2]);
    assert !IsDigit("5-"[1]);
    assert "+"[1..] == [];
  }

  /** Literals int() accepts with a sign or with leading zeros. */
  lemma ParseIntAccepts()
    ensures ParseInt("+5") == Some(5) && ParseInt("-3") == Some(-3) && ParseInt("007") == Some(7)
  {
    assert "+5"[1..] == "5" && "-3"[1..] == "3";
    var z := "007";
    assert z[..2] == "00" && z[..2][..1] == "0" && z[..2][..1][..0] == [];
    assert DigitsValue(z[..2][..1]) == 0;
    assert DigitsValue(z[..2]) == 0;
    assert DigitsValue(z) == 7;
  }
}
