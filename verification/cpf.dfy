/**
  `validateCPF` (src/utils/utils.ts): the Brazilian individual taxpayer
  number check. The number is read as its digits only; it must have eleven
  of them, not all equal, and its last two digits must be the two
  mod-11 check digits of the ones before.
 */
module Cpf {
  import opened Text

  /**
    The weighted sum of the first `n` digits of `d`, the digit at index `j`
    weighted by `top - j`: weights 10..2 over nine digits for the first
    check digit, 11..2 over ten digits for the second.
   */
  function WeightedSum(d: string, n: nat, top: int): int
    requires AllDigits(d) && n <= |d|
  {
    if n == 0 then 0 else WeightedSum(d, n - 1, top) + DigitValue(d[n - 1]) * (top - (n - 1))
  }

  /** The check digit of a weighted sum: `(sum * 10) % 11`, with 10 (and 11) read as 0. */
  function CheckDigit(sum: int): (r: int)
    ensures 0 <= r < 10
    ensures (sum * 10) % 11 < 10 ==> r == (sum * 10) % 11
    ensures (sum * 10) % 11 == 10 ==> r == 0
  {
    var rest := (sum * 10) % 11;
    if rest == 10 || rest == 11 then 0 else rest
  }

  /** `/^(\d)\1+$/`: two or more copies of one digit. */
  predicate RepeatedDigit(d: string)
  {
    |d| >= 2 && IsDigit(d[0]) && forall k :: 0 <= k < |d| ==> d[k] == d[0]
  }

  /** The eleven digits carry the right check digits at indices 9 and 10. */
  predicate CheckDigitsMatch(d: string)
    requires AllDigits(d) && |d| == 11
  {
    && CheckDigit(WeightedSum(d, 9, 10)) == DigitValue(d[9])
    && CheckDigit(WeightedSum(d, 10, 11)) == DigitValue(d[10])
  }

  /** The rule on a digit string: eleven digits, not all equal, both check digits right. */
  predicate ValidDigits(d: string)
    requires AllDigits(d)
  {
    |d| == 11 && !RepeatedDigit(d) && CheckDigitsMatch(d)
  }

  /** The definition of a valid CPF, on the digits of the input. */
  predicate CpfValid(s: string)
  {
    ValidDigits(Digits(s))
  }

  /** `cpf.replace(/[^\d]+/g, '')`, char by char. */
  method StripNonDigits(s: string) returns (d: string)
    ensures d == Digits(s)
  {
    d := "";
    var i := 0;
    while i < |s|
      invariant 0 <= i <= |s|
      invariant d == Digits(s[..i])
    {
      assert s[..i + 1] == s[..i] + [s[i]];
      DigitsAppend(s[..i], [s[i]]);
      if IsDigit(s[i]) {
        d := d + [s[i]];
      }
      i := i + 1;
    }
    assert s[..|s|] == s;
  }

  /** The repeated-digit test, comparing every digit with the first. */
  method IsRepeated(d: string) returns (same: bool)
    requires AllDigits(d) && |d| == 11
    ensures same <==> RepeatedDigit(d)
  {
    same := true;
    var j := 1;
    while j < 11
      invariant 1 <= j <= 11
      invariant same <==> forall k :: 0 <= k < j ==> d[k] == d[0]
    {
      if d[j] != d[0] {
        same := false;
      }
      j := j + 1;
    }
  }

  /** The source's `for` loop accumulating `digit * (top - index)` over the first `n` digits. */
  method SumLoop(d: string, n: nat, top: int) returns (sum: int)
    requires AllDigits(d) && n <= |d|
    ensures sum == WeightedSum(d, n, top)
  {
    sum := 0;
    var i := 0;
    while i < n
      invariant 0 <= i <= n
      invariant sum == WeightedSum(d, i, top)
    {
      sum := sum + DigitValue(d[i]) * (top - i);
      i := i + 1;
    }
  }

  /**
    `validateCPF`, as the source computes it: strip the non-digits, check the
    length, reject a repeated digit, then compare each check digit in turn.
   */
  method ValidateCPF(cpf: string) returns (ok: bool)
    ensures ok <==> CpfValid(cpf)
    ensures ok ==> |Digits(cpf)| == 11
  {
    var d := StripNonDigits(cpf);
    if |d| != 11 {
      return false;
    }
    var same := IsRepeated(d);
    if same {
      return false;
    }
    var sum := SumLoop(d, 9, 10);
    var rest := (sum * 10) % 11;
    if rest == 10 || rest == 11 {
      rest := 0;
    }
    if rest != DigitValue(d[9]) {
      return false;
    }
    sum := SumLoop(d, 10, 11);
    rest := (sum * 10) % 11;
    if rest == 10 || rest == 11 {
      rest := 0;
    }
    return rest == DigitValue(d[10]);
  }

  /** Punctuation is ignored: a number is valid exactly when its digit string is. */
  lemma PunctuationIgnored(s: string)
    ensures CpfValid(s) <==> CpfValid(Digits(s))
  {
    DigitsIdempotent(s);
  }

  /** The check digits of a well-known valid number. */
  lemma KnownNumberCheckDigits()
    ensures CheckDigitsMatch("52998224725")
  {
    var d := "52998224725";
    assert WeightedSum(d, 1, 10) == 50;
    assert WeightedSum(d, 2, 10) == 68;
    assert WeightedSum(d, 3, 10) == 140;
    assert WeightedSum(d, 4, 10) == 203;
    assert WeightedSum(d, 5, 10) == 251;
    assert WeightedSum(d, 6, 10) == 261;
    assert WeightedSum(d, 7, 10) == 269;
    assert WeightedSum(d, 8, 10) == 281;
    assert WeightedSum(d, 9, 10) == 295;
    assert WeightedSum(d, 1, 11) == 55;
    assert WeightedSum(d, 2, 11) == 75;
    assert WeightedSum(d, 3, 11) == 156;
    assert WeightedSum(d, 4, 11) == 228;
    assert WeightedSum(d, 5, 11) == 284;
    assert WeightedSum(d, 6, 11) == 296;
    assert WeightedSum(d, 7, 11) == 306;
    assert WeightedSum(d, 8, 11) == 322;
    assert WeightedSum(d, 9, 11) == 343;
    assert WeightedSum(d, 10, 11) == 347;
  }

  /** A well-known valid number passes. */
  lemma KnownNumberAccepted(d: string)
    requires d == "52998224725"
    ensures CpfValid(d)
  {
    DigitStringKept(d);
    KnownNumberCheckDigits();
    NotRepeated(d);
  }

  /** A string of digits is its own digit string. */
  lemma DigitStringKept(d: string)
    requires d == "52998224725" || d == "11111111111"
    ensures AllDigits(d) && Digits(d) == d
  {
    DigitsOfDigitString(d);
  }

  lemma NotRepeated(d: string)
    requires d == "52998224725"
    ensures !RepeatedDigit(d)
  {
    assert d[1] != d[0];
  }

  /** The second check digit of the same number with its last digit changed is wrong. */
  lemma WrongCheckDigitMismatch()
    ensures !CheckDigitsMatch("52998224724")
  {
    var d := "52998224724";
    assert WeightedSum(d, 1, 11) == 55;
    assert WeightedSum(d, 2, 11) == 75;
    assert WeightedSum(d, 3, 11) == 156;
    assert WeightedSum(d, 4, 11) == 228;
    assert WeightedSum(d, 5, 11) == 284;
    assert WeightedSum(d, 6, 11) == 296;
    assert WeightedSum(d, 7, 11) == 306;
    assert WeightedSum(d, 8, 11) == 322;
    assert WeightedSum(d, 9, 11) == 343;
    assert WeightedSum(d, 10, 11) == 347;
  }

  /** Changing the last check digit makes the same number fail. */
  lemma WrongCheckDigitRejected()
    ensures !CpfValid("52998224724")
  {
    DigitsOfDigitString("52998224724");
    WrongCheckDigitMismatch();
  }

  /** Eleven ones satisfy both check digits, yet the repeated-digit rule rejects them. */
  lemma RepeatedOnesRejected(d: string)
    requires d == "11111111111"
    ensures !CpfValid(d)
  {
    DigitStringKept(d);
    assert RepeatedDigit(d);
  }

  /** The check digits alone would accept eleven ones. */
  lemma RepeatedOnesHaveMatchingCheckDigits()
    ensures CheckDigitsMatch("11111111111")
  {
    var d := "11111111111";
    assert WeightedSum(d, 3, 10) == 27;
    assert WeightedSum(d, 6, 10) == 45;
    assert WeightedSum(d, 9, 10) == 54;
    assert WeightedSum(d, 3, 11) == 30;
    assert WeightedSum(d, 6, 11) == 51;
    assert WeightedSum(d, 10, 11) == 65;
  }
}
