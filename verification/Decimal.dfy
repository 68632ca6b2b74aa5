/** Decimal numerals: printing, and `str::parse` for Rust's integer types. */
module Decimal {
  import opened Wrappers

  predicate IsDigit(c: char) {
    '0' <= c <= '9'
  }

  function PrintNat(n: nat): (s: string)
    ensures |s| > 0 && forall i :: 0 <= i < |s| ==> IsDigit(s[i])
  {
    var digit := ('0' as int + n % 10) as char;
    if n < 10 then [digit] else PrintNat(n / 10) + [digit]
  }

  function PrintInt(n: int): (s: string)
    ensures |s| > 0 && forall i :: 0 <= i < |s| ==> IsDigit(s[i]) || s[i] == '-'
  {
    if n < 0 then "-" + PrintNat(-n) else PrintNat(n)
  }

  function ParseDigits(s: string): (r: Option<nat>) {
    if |s| == 0 then Some(0)
    else
      var last := s[|s| - 1];
      var front := ParseDigits(s[..|s| - 1]);
      if front.Some? && IsDigit(last) then Some(front.value * 10 + (last as int - '0' as int)) else None
  }

  /** `str::parse` to an integer type whose values run from `lo` to `hi`. A sign is allowed
      (the minus sign only when the type is signed), at least one digit is needed, and a value
      outside the type is an error. */
  function ParseBounded(s: string, lo: int, hi: int): (r: Option<int>)
    ensures r.Some? ==> lo <= r.value <= hi
  {
    if |s| == 0 then None
    else
      var signed := s[0] == '+' || (s[0] == '-' && lo < 0);
      var digits := if signed then s[1..] else s;
      if |digits| == 0 then None
      else
        match ParseDigits(digits)
        case None => None
        case Some(n) =>
          var value: int := if s[0] == '-' then 0 - n else n;
          if lo <= value <= hi then Some(value) else None
  }

  lemma {:induction false} ParsePrintNat(n: nat)
    ensures ParseDigits(PrintNat(n)) == Some(n)
  {
    var s := PrintNat(n);
    if n < 10 {
      assert s[..|s| - 1] == [];
    } else {
      ParsePrintNat(n / 10);
      assert s[..|s| - 1] == PrintNat(n / 10);
    }
  }

  /** Every value of a type is recovered from its numeral. */
  lemma ParsePrintInt(n: int, lo: int, hi: int)
    requires lo <= n <= hi && (lo < 0 || lo == 0)
    ensures ParseBounded(PrintInt(n), lo, hi) == Some(n)
  {
    var s := PrintInt(n);
    if n < 0 {
      ParsePrintNat(-n);
      assert s[1..] == PrintNat(-n);
    } else {
      ParsePrintNat(n);
      assert IsDigit(s[0]);
    }
  }

  /** A numeral may have a plus sign, and a minus sign when the type is signed; it parses exactly
      when its value is in the type. */
  lemma SignsAreRead(n: nat, lo: int, hi: int)
    requires lo <= 0
    ensures ParseBounded(PrintNat(n), lo, hi) == if n <= hi then Some(n) else None
    ensures ParseBounded("+" + PrintNat(n), lo, hi) == if n <= hi then Some(n) else None
    ensures ParseBounded("-" + PrintNat(n), lo, hi) == if lo < 0 && lo <= 0 - n <= hi then Some(0 - n) else None
  {
    var s := PrintNat(n);
    ParsePrintNat(n);
    assert IsDigit(s[0]);
    assert ("+" + s)[1..] == s && ("-" + s)[1..] == s;
    if lo == 0 {
      SignIsNoDigit(s);
    }
  }

  lemma {:induction false} SignIsNoDigit(s: string)
    ensures ParseDigits("-" + s) == None
  {
    var t := "-" + s;
    if |s| == 0 {
      assert t[0] == '-';
    } else {
      SignIsNoDigit(s[..|s| - 1]);
      assert t[..|t| - 1] == "-" + s[..|s| - 1];
    }
  }

  lemma {:induction false} DigitsOnly(s: string)
    ensures ParseDigits(s).Some? <==> forall i :: 0 <= i < |s| ==> IsDigit(s[i])
  {
    if |s| > 0 {
      DigitsOnly(s[..|s| - 1]);
    }
  }
}
