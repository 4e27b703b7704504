/*
 * Decimal conversion between Go's `int` (64 bits on the platforms the
 * monitor targets) and text: `strconv.Itoa`, used to build every title,
 * and `strconv.Atoi`, used to read the process ID from the command line.
 */
module Convert {

  datatype Option<+T> = None | Some(value: T)

  const MinInt64: int := -0x8000_0000_0000_0000
  const MaxInt64: int := 0x7FFF_FFFF_FFFF_FFFF

  predicate InInt64(n: int) {
    MinInt64 <= n <= MaxInt64
  }

  predicate IsDigit(c: char) {
    '0' <= c <= '9'
  }

  predicate AllDigits(s: string) {
    forall i :: 0 <= i < |s| ==> IsDigit(s[i])
  }

  function DigitChar(d: nat): (c: char)
    requires d < 10
    ensures IsDigit(c) && c as int - '0' as int == d
  {
    (d + '0' as int) as char
  }

  /** The decimal digits of a natural number, most significant first, without leading zeros. */
  function NatDigits(n: nat): (s: string)
    ensures |s| >= 1 && AllDigits(s)
    ensures s[0] == '0' <==> n == 0
    ensures n == 0 ==> s == "0"
    decreases n
  {
    if n < 10 then [DigitChar(n)] else NatDigits(n / 10) + [DigitChar(n % 10)]
  }

  /** The value of a string of decimal digits, read left to right as Go's parser does. */
  function DigitsValue(s: string): (v: nat)
    requires AllDigits(s)
    decreases |s|
  {
    if s == [] then 0
    else DigitsValue(s[..|s| - 1]) * 10 + (s[|s| - 1] as int - '0' as int)
  }

  /**
   * strconv.Itoa: an optional minus sign followed by the digits of the
   * magnitude, with no leading zero; zero is "0".
   */
  function Itoa(n: int): (s: string)
    ensures |s| >= 1
    ensures n < 0 <==> s[0] == '-'
    ensures n >= 0 ==> AllDigits(s)
    ensures n < 0 ==> |s| >= 2 && AllDigits(s[1..])
    ensures n == 0 <==> s == "0"
    ensures n != 0 ==> s[if n < 0 then 1 else 0] != '0'
  {
    if n < 0 then "-" + NatDigits(-n) else NatDigits(n)
  }

  /** The text after an optional leading '+' or '-'. */
  function Unsigned(s: string): (u: string)
    ensures |s| - 1 <= |u| <= |s| && u == s[|s| - |u|..]
  {
    if |s| >= 1 && (s[0] == '-' || s[0] == '+') then s[1..] else s
  }

  /** The value of an optionally signed digit string. */
  function SignedValue(s: string): (v: int)
    requires AllDigits(Unsigned(s))
  {
    if |s| >= 1 && s[0] == '-' then -(DigitsValue(Unsigned(s)) as int) else DigitsValue(Unsigned(s))
  }

  /**
   * strconv.Atoi: an optional '+' or '-', then one or more decimal digits,
   * whose value must fit in a 64-bit int; anything else is an error (None).
   */
  function Atoi(s: string): (r: Option<int>)
    ensures r.Some? <==> Unsigned(s) != [] && AllDigits(Unsigned(s)) && InInt64(SignedValue(s))
    ensures r.Some? ==> r.value == SignedValue(s)
    ensures s == [] ==> r == None
  {
    if s == [] then None
    else
      var negative := s[0] == '-';
      var body := if s[0] == '-' || s[0] == '+' then s[1..] else s;
      if body == [] || !AllDigits(body) then None
      else
        var v: int := DigitsValue(body);
        var n := if negative then -v else v;
        if InInt64(n) then Some(n) else None
  }

  lemma {:induction false} DigitsValueOfNatDigits(n: nat)
    ensures DigitsValue(NatDigits(n)) == n
    decreases n
  {
    if n >= 10 {
      DigitsValueOfNatDigits(n / 10);
      var s := NatDigits(n);
      assert s[..|s| - 1] == NatDigits(n / 10);
    }
  }

  /** Atoi reads back what Itoa writes, for every 64-bit int. */
  lemma AtoiItoa(n: int)
    requires InInt64(n)
    ensures Atoi(Itoa(n)) == Some(n)
  {
    var s := Itoa(n);
    if n < 0 {
      DigitsValueOfNatDigits(-n);
      assert Unsigned(s) == NatDigits(-n);
      assert SignedValue(s) == n;
    } else {
      DigitsValueOfNatDigits(n);
      assert Unsigned(s) == NatDigits(n);
      assert SignedValue(s) == n;
    }
  }

  /** A bare sign has no digits and is refused. */
  lemma AtoiRefusesBareSign()
    ensures Atoi("+") == None && Atoi("-") == None
  {
    assert Unsigned("+") == [] && Unsigned("-") == [];
  }

  /** A stray character or a space is refused. */
  lemma AtoiRefusesStrayCharacters()
    ensures Atoi("1a") == None && Atoi(" 1") == None
  {
    assert Unsigned("1a") == "1a" && "1a"[1] == 'a';
    assert Unsigned(" 1") == " 1" && " 1"[0] == ' ';
  }

  lemma AtoiReadsLeadingZeros()
    ensures Atoi("007") == Some(7)
  {
    assert "007"[..2] == "00" && "00"[..1] == "0" && "0"[..0] == "";
    assert DigitsValue("00") == 0;
    assert DigitsValue("007") == 7;
    assert Unsigned("007") == "007";
  }

  lemma AtoiReadsMinusZero()
    ensures Atoi("-0") == Some(0)
  {
    assert Unsigned("-0") == "0" && "0"[..0] == "";
    assert DigitsValue("0") == 0;
    assert SignedValue("-0") == 0;
  }

  lemma AtoiReadsPlusSign()
    ensures Atoi("+5") == Some(5)
  {
    assert Unsigned("+5") == "5" && "5"[..0] == "";
    assert DigitsValue("5") == 5;
    assert SignedValue("+5") == 5;
  }

  /** Leading zeros and a leading '+' are accepted, and minus zero is zero. */
  lemma AtoiReadsSignsAndZeros()
    ensures Atoi("007") == Some(7) && Atoi("-0") == Some(0) && Atoi("+5") == Some(5)
  {
    AtoiReadsLeadingZeros();
    AtoiReadsMinusZero();
    AtoiReadsPlusSign();
  }

  /** The decimal text of a number outside the 64-bit range is refused as out of range. */
  lemma AtoiRefusesOutOfRange(n: int)
    requires !InInt64(n)
    ensures Atoi(Itoa(n)) == None
  {
    var s := Itoa(n);
    if n < 0 {
      DigitsValueOfNatDigits(-n);
      assert Unsigned(s) == NatDigits(-n);
      assert SignedValue(s) == n;
    } else {
      DigitsValueOfNatDigits(n);
      assert Unsigned(s) == NatDigits(n);
      assert SignedValue(s) == n;
    }
  }

  /** Itoa never maps two ints to the same text. */
  lemma ItoaInjective(m: int, n: int)
    requires InInt64(m) && InInt64(n)
    ensures Itoa(m) == Itoa(n) ==> m == n
  {
    AtoiItoa(m);
    AtoiItoa(n);
  }
}
