/**
  Brazilian phone numbers as the client shows and checks them:
  `formatarTelefone`, `validarTelefone` and `maskPhone` (src/utils/utils.ts),
  the keystroke mask shared by the registration and store forms, and the
  login screen's phone input.
 */
module Phone {
  import opened Lists
  import opened Text

  /**
    `s` fits `tpl` char for char, where '#' in the template stands for any
    digit (`\d`) and every other template char must appear literally.
   */
  predicate FitsTemplate(s: string, tpl: string)
  {
    |s| == |tpl| && forall i :: 0 <= i < |s| ==> if tpl[i] == '#' then IsDigit(s[i]) else s[i] == tpl[i]
  }

  const MobileTemplate: string := "(##) #####-####"
  const LandlineTemplate: string := "(##) ####-####"

  /** `'($1) $2-$3'` for the groups `(\d{2})(\d{5})(\d{4})` taken from the first eleven digits. */
  function Mobile(d: string): (r: string)
    requires |d| >= 11
  {
    "(" + d[..2] + ") " + d[2..7] + "-" + d[7..11]
  }

  /** `'($1) $2-$3'` for the groups `(\d{2})(\d{4})(\d{4})` taken from the first ten digits. */
  function Landline(d: string): (r: string)
    requires |d| >= 10
  {
    "(" + d[..2] + ") " + d[2..6] + "-" + d[6..10]
  }

  /** `validarTelefone`: the whole string is `^\(\d{2}\) \d{5}-\d{4}$`. */
  predicate ValidarTelefone(s: string)
  {
    FitsTemplate(s, MobileTemplate)
  }

  /** The pattern spelled out position by position. */
  lemma ValidarTelefoneLayout(s: string)
    ensures ValidarTelefone(s) <==>
      && |s| == 15 && s[0] == '(' && s[3] == ')' && s[4] == ' ' && s[10] == '-'
      && IsDigit(s[1]) && IsDigit(s[2])
      && (forall i :: 5 <= i < 10 ==> IsDigit(s[i]))
      && (forall i :: 11 <= i < 15 ==> IsDigit(s[i]))
  {
  }

  /** The digits of a punctuated number are its digit groups, in order. */
  lemma DigitsOfGrouped(a: string, b: string, c: string)
    requires AllDigits(a) && AllDigits(b) && AllDigits(c)
    ensures Digits("(" + a + ") " + b + "-" + c) == a + b + c
  {
    var p1 := "(" + a;
    var p2 := p1 + ") ";
    var p3 := p2 + b;
    var p4 := p3 + "-";
    DigitsOfNoDigits("(");
    DigitsOfNoDigits(") ");
    DigitsOfNoDigits("-");
    DigitsOfDigitString(a);
    DigitsOfDigitString(b);
    DigitsOfDigitString(c);
    DigitsAppend("(", a);
    assert Digits(p1) == a;
    DigitsAppend(p1, ") ");
    assert Digits(p2) == a;
    DigitsAppend(p2, b);
    assert Digits(p3) == a + b;
    DigitsAppend(p3, "-");
    assert Digits(p4) == a + b;
    DigitsAppend(p4, c);
  }

  /** Template matching splits over concatenation. */
  lemma FitsAppend(x: string, y: string, tx: string, ty: string)
    requires FitsTemplate(x, tx) && FitsTemplate(y, ty)
    ensures FitsTemplate(x + y, tx + ty)
  {
    assert forall i :: |x| <= i < |x| + |y| ==> (x + y)[i] == y[i - |x|] && (tx + ty)[i] == ty[i - |x|];
  }

  /** A string of digits fits a template made only of '#'. */
  lemma FitsDigitGroup(a: string, t: string)
    requires AllDigits(a) && |a| == |t|
    requires forall i :: 0 <= i < |t| ==> t[i] == '#'
    ensures FitsTemplate(a, t)
  {
  }

  /** Three digit groups punctuated as "(a) b-c" fit the template with '#' for each digit. */
  lemma GroupedFits(a: string, b: string, c: string, ta: string, tb: string, tc: string)
    requires AllDigits(a) && AllDigits(b) && AllDigits(c)
    requires |a| == |ta| && |b| == |tb| && |c| == |tc|
    requires forall i :: 0 <= i < |ta| ==> ta[i] == '#'
    requires forall i :: 0 <= i < |tb| ==> tb[i] == '#'
    requires forall i :: 0 <= i < |tc| ==> tc[i] == '#'
    ensures FitsTemplate("(" + a + ") " + b + "-" + c, "(" + ta + ") " + tb + "-" + tc)
  {
    FitsDigitGroup(a, ta);
    FitsDigitGroup(b, tb);
    FitsDigitGroup(c, tc);
    assert FitsTemplate("(", "(");
    assert FitsTemplate(") ", ") ");
    assert FitsTemplate("-", "-");
    FitsAppend("(", a, "(", ta);
    FitsAppend("(" + a, ") ", "(" + ta, ") ");
    FitsAppend("(" + a + ") ", b, "(" + ta + ") ", tb);
    FitsAppend("(" + a + ") " + b, "-", "(" + ta + ") " + tb, "-");
    FitsAppend("(" + a + ") " + b + "-", c, "(" + ta + ") " + tb + "-", tc);
  }

  /** A mobile rendering keeps exactly the first eleven digits. */
  lemma DigitsOfMobile(d: string)
    requires AllDigits(d) && |d| >= 11
    ensures Digits(Mobile(d)) == d[..11]
  {
    DigitsOfGrouped(d[..2], d[2..7], d[7..11]);
    assert d[..2] + d[2..7] + d[7..11] == d[..11];
  }

  /** A landline rendering keeps exactly the first ten digits. */
  lemma DigitsOfLandline(d: string)
    requires AllDigits(d) && |d| >= 10
    ensures Digits(Landline(d)) == d[..10]
  {
    DigitsOfGrouped(d[..2], d[2..6], d[6..10]);
    assert d[..2] + d[2..6] + d[6..10] == d[..10];
  }

  /** Eleven digits rendered as a mobile number pass `validarTelefone` and strip back to themselves. */
  lemma MobileRoundTrip(d: string)
    requires AllDigits(d) && |d| == 11
    ensures ValidarTelefone(Mobile(d))
    ensures Digits(Mobile(d)) == d
  {
    assert MobileTemplate == "(" + "##" + ") " + "#####" + "-" + "####";
    GroupedFits(d[..2], d[2..7], d[7..11], "##", "#####", "####");
    DigitsOfMobile(d);
    assert d[..11] == d;
  }

  /** Ten digits rendered as a landline number fit its template and strip back to themselves. */
  lemma LandlineRoundTrip(d: string)
    requires AllDigits(d) && |d| == 10
    ensures FitsTemplate(Landline(d), LandlineTemplate)
    ensures Digits(Landline(d)) == d
  {
    assert LandlineTemplate == "(" + "##" + ") " + "####" + "-" + "####";
    GroupedFits(d[..2], d[2..6], d[6..10], "##", "####", "####");
    DigitsOfLandline(d);
    assert d[..10] == d;
  }

  /** Every string `validarTelefone` accepts is the mobile rendering of its own eleven digits. */
  lemma ValidPhoneIsMobile(s: string)
    requires ValidarTelefone(s)
    ensures |Digits(s)| == 11
    ensures Mobile(Digits(s)) == s
  {
    var a, b, c := s[1..3], s[5..10], s[11..15];
    assert AllDigits(a) by { assert forall i :: 0 <= i < |a| ==> a[i] == s[1 + i]; }
    assert AllDigits(b) by { assert forall i :: 0 <= i < |b| ==> b[i] == s[5 + i]; }
    assert AllDigits(c) by { assert forall i :: 0 <= i < |c| ==> c[i] == s[11 + i]; }
    assert s == "(" + a + ") " + b + "-" + c;
    DigitsOfGrouped(a, b, c);
    var d := a + b + c;
    assert d[..2] == a && d[2..7] == b && d[7..11] == c;
  }

  /**
    `formatarTelefone`: eleven digits become a mobile number, ten a landline
    number; any other input is returned exactly as typed.
   */
  function FormatarTelefone(t: string): (r: string)
    ensures |Digits(t)| == 11 ==> ValidarTelefone(r) && Digits(r) == Digits(t)
    ensures |Digits(t)| == 10 ==> FitsTemplate(r, LandlineTemplate) && Digits(r) == Digits(t)
    ensures |Digits(t)| != 10 && |Digits(t)| != 11 ==> r == t
  {
    var d := Digits(t);
    if |d| == 11 then
      MobileRoundTrip(d);
      Mobile(d)
    else if |d| == 10 then
      LandlineRoundTrip(d);
      Landline(d)
    else
      t
  }

  /** Formatting an already formatted number changes nothing. */
  lemma FormatarTelefoneIdempotent(t: string)
    ensures FormatarTelefone(FormatarTelefone(t)) == FormatarTelefone(t)
  {
    var d := Digits(t);
    var r := FormatarTelefone(t);
    if |d| == 11 || |d| == 10 {
      assert Digits(r) == d;
    }
  }

  // ---------------------------------------------------------------------
  // maskPhone (src/utils/utils.ts), step by step
  // ---------------------------------------------------------------------

  /** `n` consecutive digits start at index `i` of `x`. */
  predicate DigitRunAt(x: string, i: int, n: nat)
  {
    0 <= i && i + n <= |x| && forall k :: i <= k < i + n ==> IsDigit(x[k])
  }

  /** The first index at or after `from` where a run of `n` digits starts. */
  function FirstRunFrom(x: string, n: nat, from: nat): (r: Option<nat>)
    requires from <= |x| + 1
    ensures r.Some? ==> from <= r.value && DigitRunAt(x, r.value, n)
    ensures r.Some? ==> forall j :: from <= j < r.value ==> !DigitRunAt(x, j, n)
    ensures r.None? ==> forall j :: from <= j ==> !DigitRunAt(x, j, n)
    decreases |x| + 1 - from
  {
    if from + n > |x| then None
    else if forall k :: from <= k < from + n ==> IsDigit(x[k]) then Some(from)
    else FirstRunFrom(x, n, from + 1)
  }

  /** `.replace(/^(\d{2})(\d)/g, '($1) $2')`: wraps a leading two-digit area code when a third digit follows. */
  function AreaCodeStep(x: string): (r: string)
  {
    if DigitRunAt(x, 0, 3) then "(" + x[..2] + ") " + x[2..] else x
  }

  /** `.replace(/(\d{5})(\d)/, '$1-$2')`: a hyphen after the first five digits of the first run of six. */
  function HyphenStep(x: string): (r: string)
  {
    match FirstRunFrom(x, 6, 0)
    case None => x
    case Some(i) => x[..i + 5] + "-" + x[i + 5..]
  }

  /** The three shapes the chain of replacements produces from a digit string. */
  lemma MaskSteps(d: string)
    requires AllDigits(d)
    ensures |d| <= 2 ==> HyphenStep(AreaCodeStep(d)) == d
    ensures 3 <= |d| <= 7 ==> HyphenStep(AreaCodeStep(d)) == "(" + d[..2] + ") " + d[2..]
    ensures |d| >= 8 ==> HyphenStep(AreaCodeStep(d)) == "(" + d[..2] + ") " + d[2..7] + "-" + d[7..]
  {
    var x := AreaCodeStep(d);
    if |d| >= 3 {
      assert DigitRunAt(d, 0, 3);
      assert x == "(" + d[..2] + ") " + d[2..];
      assert x[4] == ' ';
      assert forall j :: 0 <= j <= 4 ==> !DigitRunAt(x, j, 6);
      if |d| >= 8 {
        assert forall k :: 5 <= k < 11 ==> x[k] == d[k - 3];
        assert DigitRunAt(x, 5, 6);
        assert FirstRunFrom(x, 6, 0) == Some(5);
        assert x[..10] == "(" + d[..2] + ") " + d[2..7];
        assert x[10..] == d[7..];
      } else {
        assert FirstRunFrom(x, 6, 0) == None;
      }
    } else {
      assert FirstRunFrom(x, 6, 0) == None;
    }
  }

  /**
    `maskPhone`: the number typed so far, masked as "(DD) DDDDD-DDDD".
    Whatever is typed, the mask shows at most fifteen chars and keeps
    exactly the first eleven digits; with eleven or more digits it is a
    complete mobile number.
   */
  function MaskPhone(v: string): (r: string)
    ensures |r| <= 15
    ensures Digits(r) == Take(Digits(v), 11)
    ensures |Digits(v)| >= 11 ==> r == Mobile(Digits(v)) && ValidarTelefone(r)
  {
    var d := Digits(v);
    var x := HyphenStep(AreaCodeStep(d));
    MaskSteps(d);
    MaskDigits(d);
    Take(x, 15)
  }

  /** The digit bookkeeping behind `MaskPhone`'s contract. */
  lemma MaskDigits(d: string)
    requires AllDigits(d)
    ensures Digits(Take(HyphenStep(AreaCodeStep(d)), 15)) == Take(d, 11)
    ensures |d| >= 11 ==> Take(HyphenStep(AreaCodeStep(d)), 15) == Mobile(d) && ValidarTelefone(Mobile(d))
  {
    MaskSteps(d);
    var x := HyphenStep(AreaCodeStep(d));
    if |d| <= 2 {
      DigitsOfDigitString(d);
    } else if |d| <= 7 {
      DigitsOfGrouped(d[..2], d[2..], "");
      assert "(" + d[..2] + ") " + d[2..] + "-" + "" == x + "-";
      DigitsAppend(x, "-");
      DigitsOfNoDigits("-");
      assert d[..2] + d[2..] + "" == d;
    } else if |d| <= 10 {
      DigitsOfGrouped(d[..2], d[2..7], d[7..]);
      assert d[..2] + d[2..7] + d[7..] == d;
    } else {
      assert Take(x, 15) == Mobile(d);
      DigitsOfMobile(d[..11]);
      assert d[..11][..2] == d[..2] && d[..11][2..7] == d[2..7] && d[..11][7..11] == d[7..11];
      MobileRoundTrip(d[..11]);
    }
  }

  /** Masking a masked number again changes nothing. */
  lemma MaskPhoneIdempotent(v: string)
    ensures MaskPhone(MaskPhone(v)) == MaskPhone(v)
  {
    var d := Digits(v);
    var r := MaskPhone(v);
    assert Digits(r) == Take(d, 11);
    MaskSteps(d);
    MaskSteps(Take(d, 11));
    if |d| > 11 {
      assert Take(d, 11)[..2] == d[..2] && Take(d, 11)[2..7] == d[2..7] && Take(d, 11)[7..] == d[7..11];
    } else {
      assert Take(d, 11) == d;
    }
  }

  // ---------------------------------------------------------------------
  // The keystroke mask of the registration and store forms
  // ---------------------------------------------------------------------

  /**
    The registration and store forms' phone mask: strip to digits; with more
    than ten digits format the first eleven as a mobile number, with exactly
    ten as a landline number; then cut to fifteen chars.
   */
  function ScreenPhoneMask(v: string): (r: string)
    ensures |r| <= 15
    ensures Digits(r) == Take(Digits(v), 11)
    ensures |Digits(v)| >= 11 ==> r == Mobile(Digits(v)) && ValidarTelefone(r)
    ensures |Digits(v)| == 10 ==> FitsTemplate(r, LandlineTemplate)
    ensures |Digits(v)| < 10 ==> r == Digits(v)
  {
    ScreenMaskFacts(v);
    ScreenMaskSteps(Digits(v))
  }

  /** The mask's steps on the digit string `d`. */
  function ScreenMaskSteps(d: string): string
  {
    var x := if |d| > 10 then Mobile(d) + d[11..] else if |d| == 10 then Landline(d) else d;
    if |x| > 15 then x[..15] else x
  }

  /** Only the first eleven digits reach a mobile rendering. */
  lemma MobilePrefix(d: string)
    requires AllDigits(d) && |d| >= 11
    ensures Mobile(d[..11]) == Mobile(d)
    ensures ValidarTelefone(Mobile(d))
    ensures Digits(Mobile(d)) == d[..11]
  {
    var e := d[..11];
    assert e[..2] == d[..2] && e[2..7] == d[2..7] && e[7..11] == d[7..11];
    MobileRoundTrip(e);
  }

  /** The facts `ScreenPhoneMask` promises, about its steps. */
  lemma ScreenMaskFacts(v: string)
    ensures |ScreenMaskSteps(Digits(v))| <= 15
    ensures Digits(ScreenMaskSteps(Digits(v))) == Take(Digits(v), 11)
    ensures |Digits(v)| >= 11 ==> ScreenMaskSteps(Digits(v)) == Mobile(Digits(v))
    ensures |Digits(v)| >= 11 ==> ValidarTelefone(ScreenMaskSteps(Digits(v)))
    ensures |Digits(v)| == 10 ==> FitsTemplate(ScreenMaskSteps(Digits(v)), LandlineTemplate)
    ensures |Digits(v)| < 10 ==> ScreenMaskSteps(Digits(v)) == Digits(v)
  {
    var d := Digits(v);
    if |d| > 10 {
      ScreenMaskLong(d);
    } else if |d| == 10 {
      ScreenMaskTen(d);
    } else {
      ScreenMaskShort(d);
    }
  }

  lemma ScreenMaskLong(d: string)
    requires AllDigits(d) && |d| > 10
    ensures ScreenMaskSteps(d) == Mobile(d)
    ensures ValidarTelefone(Mobile(d)) && Digits(Mobile(d)) == Take(d, 11)
  {
    var x := Mobile(d) + d[11..];
    assert |x| >= 15;
    assert x[..15] == Mobile(d);
    MobilePrefix(d);
  }

  lemma ScreenMaskTen(d: string)
    requires AllDigits(d) && |d| == 10
    ensures ScreenMaskSteps(d) == Landline(d)
    ensures FitsTemplate(Landline(d), LandlineTemplate) && Digits(Landline(d)) == Take(d, 11)
  {
    LandlineRoundTrip(d);
  }

  lemma ScreenMaskShort(d: string)
    requires AllDigits(d) && |d| < 10
    ensures ScreenMaskSteps(d) == d
    ensures Digits(d) == Take(d, 11)
  {
    DigitsOfDigitString(d);
  }

  /** Re-masking on the next keystroke without new input changes nothing. */
  lemma ScreenPhoneMaskIdempotent(v: string)
    ensures ScreenPhoneMask(ScreenPhoneMask(v)) == ScreenPhoneMask(v)
  {
    var d := Digits(v);
    var r := ScreenPhoneMask(v);
    if |d| >= 11 {
      assert Digits(r) == d[..11];
      assert d[..11][..2] == d[..2] && d[..11][2..7] == d[2..7] && d[..11][7..11] == d[7..11];
    } else {
      assert Digits(r) == d;
    }
  }

  // ---------------------------------------------------------------------
  // The login screen's phone input (src/pages/Login.tsx)
  // ---------------------------------------------------------------------

  /**
    The login phone input: cut to fifteen chars; up to eight chars are kept
    as typed; longer input is stripped to digits and, with eleven or more,
    its first eleven digits are formatted as a mobile number.
   */
  function LoginPhoneInput(value: string): (r: string)
    ensures |value| <= 8 ==> r == value
    ensures |value| > 8 ==> Digits(r) == Digits(Take(value, 15))
    ensures |value| > 8 && |Digits(Take(value, 15))| == 11 ==> ValidarTelefone(r)
    ensures |value| > 8 && |Digits(Take(value, 15))| < 11 ==> r == Digits(Take(value, 15))
    ensures |value| > 8 && |Digits(Take(value, 15))| >= 11 ==>
      var d := Digits(Take(value, 15)); r == Mobile(d) + d[11..]
  {
    var v := Take(value, 15);
    if |v| > 8 then
      var d := Digits(v);
      if |d| >= 11 then
        MobileWithTail(d);
        Mobile(d) + d[11..]
      else
        DigitsIdempotent(v);
        d
    else
      v
  }

  /** A mobile rendering followed by the surplus digits keeps every digit; with no surplus it is valid. */
  lemma MobileWithTail(d: string)
    requires AllDigits(d) && |d| >= 11
    ensures Digits(Mobile(d) + d[11..]) == d
    ensures |d| == 11 ==> ValidarTelefone(Mobile(d) + d[11..])
  {
    DigitsOfMobile(d);
    DigitsAppend(Mobile(d), d[11..]);
    DigitsOfDigitString(d[11..]);
    assert d[..11] + d[11..] == d;
    if |d| == 11 {
      MobileRoundTrip(d);
      assert Mobile(d) + d[11..] == Mobile(d);
    }
  }
}
