/**
  The "YYYY-MM-DD HH:mm" strings the campaign form keeps its start and end
  in (src/pages/Campanha/CreateEdit.tsx), JavaScript's `<` on strings, and
  why comparing two such strings compares the moments they name: every
  field has a fixed width, so the first differing char sits in the most
  significant differing field.
 */
module Stamp {
  import opened Lists
  import opened Text

  /** A local calendar time as the pickers deliver it; `month` counts from 1. */
  datatype Civil = Civil(year: nat, month: nat, day: nat, hour: nat, minute: nat)

  /** Every field fits its width in the string: four digits of year, two of everything else. */
  predicate Fits(c: Civil)
  {
    1000 <= c.year <= 9999 && c.month < 100 && c.day < 100 && c.hour < 100 && c.minute < 100
  }

  /** Chronological order: by year, then month, day, hour and minute. */
  predicate Earlier(a: Civil, b: Civil)
  {
    || a.year < b.year
    || (a.year == b.year && a.month < b.month)
    || (a.year == b.year && a.month == b.month && a.day < b.day)
    || (a.year == b.year && a.month == b.month && a.day == b.day && a.hour < b.hour)
    || (a.year == b.year && a.month == b.month && a.day == b.day && a.hour == b.hour && a.minute < b.minute)
  }

  // ---------------------------------------------------------------------
  // JavaScript string comparison
  // ---------------------------------------------------------------------

  /** `a < b` on strings: the first differing char decides, and a proper prefix comes first. */
  predicate StrLess(a: string, b: string)
    decreases |a|
  {
    |b| > 0 && (|a| == 0 || a[0] < b[0] || (a[0] == b[0] && StrLess(a[1..], b[1..])))
  }

  /** No string is below itself, so `a <= a` always holds. */
  lemma {:induction false} StrLessIrreflexive(a: string)
    ensures !StrLess(a, a)
    decreases |a|
  {
    if |a| > 0 {
      StrLessIrreflexive(a[1..]);
    }
  }

  /** Two joins with equal-length heads are equal exactly when heads and tails are. */
  lemma AppendEq(a1: string, a2: string, b1: string, b2: string)
    requires |a1| == |b1|
    ensures a1 + a2 == b1 + b2 <==> a1 == b1 && a2 == b2
  {
    if a1 + a2 == b1 + b2 {
      assert a1 == (a1 + a2)[..|a1|];
      assert b1 == (b1 + b2)[..|b1|];
      assert a2 == (a1 + a2)[|a1|..];
      assert b2 == (b1 + b2)[|b1|..];
    }
  }

  /** Comparing joins with equal-length heads compares the heads first, then the tails. */
  lemma {:induction false} LessAppend(a1: string, a2: string, b1: string, b2: string)
    requires |a1| == |b1|
    ensures StrLess(a1 + a2, b1 + b2) <==> StrLess(a1, b1) || (a1 == b1 && StrLess(a2, b2))
    decreases |a1|
  {
    if |a1| == 0 {
      assert a1 + a2 == a2 && b1 + b2 == b2;
    } else {
      assert (a1 + a2)[0] == a1[0] && (a1 + a2)[1..] == a1[1..] + a2;
      assert (b1 + b2)[0] == b1[0] && (b1 + b2)[1..] == b1[1..] + b2;
      LessAppend(a1[1..], a2, b1[1..], b2);
      assert a1 == b1 <==> a1[0] == b1[0] && a1[1..] == b1[1..] by {
        if a1[0] == b1[0] && a1[1..] == b1[1..] {
          assert a1 == [a1[0]] + a1[1..] && b1 == [b1[0]] + b1[1..];
        }
      }
    }
  }

  /** Two one-char strings compare as their chars. */
  lemma LessSingle(x: char, y: char)
    ensures StrLess([x], [y]) <==> x < y
  {
    assert [x][1..] == [];
  }

  // ---------------------------------------------------------------------
  // Fixed-width decimal fields
  // ---------------------------------------------------------------------

  function Pow10(w: nat): (r: nat)
    ensures r >= 1
  {
    if w == 0 then 1 else 10 * Pow10(w - 1)
  }

  /** The powers the stamp's field widths need. */
  lemma Pow10Widths()
    ensures Pow10(2) == 100 && Pow10(3) == 1000 && Pow10(4) == 10000
  {
  }

  /** `n` in exactly `w` decimal digits, zero-padded on the left. */
  function Fixed(n: nat, w: nat): (r: string)
    ensures |r| == w && AllDigits(r)
  {
    if w == 0 then "" else Fixed(n / 10, w - 1) + [DigitChar(n % 10)]
  }

  /** Digit chars compare as the digits they stand for. */
  lemma DigitCharOrder(x: nat, y: nat)
    requires x < 10 && y < 10
    ensures DigitChar(x) < DigitChar(y) <==> x < y
    ensures DigitChar(x) == DigitChar(y) <==> x == y
  {
  }

  /** Fixed-width fields compare, as strings, like the numbers they hold. */
  lemma {:induction false} FixedOrder(n: nat, m: nat, w: nat)
    requires n < Pow10(w) && m < Pow10(w)
    ensures StrLess(Fixed(n, w), Fixed(m, w)) <==> n < m
    ensures Fixed(n, w) == Fixed(m, w) <==> n == m
    decreases w
  {
    if w == 0 {
      StrLessIrreflexive("");
    } else {
      assert n / 10 < Pow10(w - 1) && m / 10 < Pow10(w - 1);
      FixedOrder(n / 10, m / 10, w - 1);
      var dn, dm := DigitChar(n % 10), DigitChar(m % 10);
      LessAppend(Fixed(n / 10, w - 1), [dn], Fixed(m / 10, w - 1), [dm]);
      AppendEq(Fixed(n / 10, w - 1), [dn], Fixed(m / 10, w - 1), [dm]);
      LessSingle(dn, dm);
      DigitCharOrder(n % 10, m % 10);
      assert n == 10 * (n / 10) + n % 10 && m == 10 * (m / 10) + m % 10;
    }
  }

  /** A number with exactly `w` digits renders as its fixed-width field. */
  lemma {:induction false} NatToStringFixed(n: nat, w: nat)
    requires w >= 1 && Pow10(w - 1) <= n < Pow10(w)
    ensures NatToString(n) == Fixed(n, w)
    decreases w
  {
    if w > 1 {
      assert Pow10(w - 2) <= n / 10 < Pow10(w - 1);
      NatToStringFixed(n / 10, w - 1);
    }
  }

  /** `padStart(2, '0')` of a number below 100 is its two-digit field. */
  lemma Pad2Fixed(n: nat)
    requires n < 100
    ensures Pad2(n) == Fixed(n, 2)
  {
    assert Fixed(n / 10, 1) == [DigitChar(n / 10)];
  }

  /** A fixed-width field reads back as its number. */
  lemma {:induction false} ParseNatFixed(n: nat, w: nat)
    requires n < Pow10(w)
    ensures ParseNat(Fixed(n, w)) == n
    decreases w
  {
    if w > 0 {
      var s := Fixed(n, w);
      assert s[..|s| - 1] == Fixed(n / 10, w - 1);
      assert n / 10 < Pow10(w - 1);
      ParseNatFixed(n / 10, w - 1);
    }
  }

  /** A digit string is the fixed-width field of its own value. */
  lemma {:induction false} FixedParseNat(d: string)
    requires AllDigits(d)
    ensures ParseNat(d) < Pow10(|d|)
    ensures Fixed(ParseNat(d), |d|) == d
    decreases |d|
  {
    if |d| > 0 {
      var init := d[..|d| - 1];
      var last := d[|d| - 1];
      FixedParseNat(init);
      var p := ParseNat(init);
      var v := ParseNat(d);
      assert v == p * 10 + DigitValue(last);
      AppendDigit(p, DigitValue(last), Pow10(|init|));
      assert DigitChar(v % 10) == last;
      assert Fixed(v, |d|) == Fixed(p, |init|) + [last];
      assert d == init + [last];
    }
  }

  /** Appending a digit: the quotient and remainder by ten give back the parts, and the bound grows tenfold. */
  lemma AppendDigit(p: nat, dv: nat, bound: nat)
    requires dv < 10 && p < bound
    ensures (p * 10 + dv) / 10 == p && (p * 10 + dv) % 10 == dv
    ensures p * 10 + dv < 10 * bound
  {
  }

  /** A digit string not starting with '0' is at least its leading power of ten. */
  lemma {:induction false} ParseNatLeading(d: string)
    requires AllDigits(d) && |d| > 0 && d[0] != '0'
    ensures ParseNat(d) >= Pow10(|d| - 1)
    decreases |d|
  {
    if |d| > 1 {
      var init := d[..|d| - 1];
      assert init[0] == d[0];
      ParseNatLeading(init);
    } else {
      assert ParseNat(d) == ParseNat(d[..0]) * 10 + DigitValue(d[0]);
    }
  }

  // ---------------------------------------------------------------------
  // The stamp format
  // ---------------------------------------------------------------------

  function YearMonth(c: Civil): string { NatToString(c.year) + "-" + Pad2(c.month) }
  function DatePart(c: Civil): string { YearMonth(c) + "-" + Pad2(c.day) }
  function DateHour(c: Civil): string { DatePart(c) + " " + Pad2(c.hour) }

  /**
    The string `handleDateSelection` and `handleTimeSelection` build:
    `${yyyy}-${mm}-${dd} ${hh}:${min}`, the year unpadded and the other
    fields padded to two digits.
   */
  function FormatStamp(c: Civil): string
  {
    DateHour(c) + ":" + Pad2(c.minute)
  }

  /** With every field in its width the stamp is the join of its fixed-width fields. */
  lemma StampFields(c: Civil)
    requires Fits(c)
    ensures FormatStamp(c)
      == Fixed(c.year, 4) + "-" + Fixed(c.month, 2) + "-" + Fixed(c.day, 2) + " " + Fixed(c.hour, 2) + ":" + Fixed(c.minute, 2)
  {
    Pow10Widths();
    NatToStringFixed(c.year, 4);
    Pad2Fixed(c.month);
    Pad2Fixed(c.day);
    Pad2Fixed(c.hour);
    Pad2Fixed(c.minute);
  }

  /** The fixed layout: sixteen chars, digits except at the four separators, not starting with '0'. */
  predicate IsStamp(s: string)
  {
    && |s| == 16
    && AllDigits(s[0..4]) && s[4] == '-' && AllDigits(s[5..7]) && s[7] == '-' && AllDigits(s[8..10])
    && s[10] == ' ' && AllDigits(s[11..13]) && s[13] == ':' && AllDigits(s[14..16])
    && s[0] != '0'
  }

  /** Reads a stamp back into its fields; anything off the layout is `None`. */
  function ParseStamp(s: string): Option<Civil>
  {
    if IsStamp(s) then
      Some(Civil(ParseNat(s[0..4]), ParseNat(s[5..7]), ParseNat(s[8..10]), ParseNat(s[11..13]), ParseNat(s[14..16])))
    else None
  }

  /** Where the fields of a joined stamp sit. */
  lemma JoinedFields(y: string, mo: string, d: string, h: string, mi: string)
    requires |y| == 4 && |mo| == 2 && |d| == 2 && |h| == 2 && |mi| == 2
    ensures var s := y + "-" + mo + "-" + d + " " + h + ":" + mi;
      && |s| == 16 && s[0..4] == y && s[4] == '-' && s[5..7] == mo && s[7] == '-' && s[8..10] == d
      && s[10] == ' ' && s[11..13] == h && s[13] == ':' && s[14..16] == mi
  {
  }

  /** A sixteen-char string is the join of its fields and separators. */
  lemma SplitFields(s: string)
    requires IsStamp(s)
    ensures s == s[0..4] + "-" + s[5..7] + "-" + s[8..10] + " " + s[11..13] + ":" + s[14..16]
  {
  }

  /** Every stamp of a time that fits reads back as that time. */
  lemma FormatThenParse(c: Civil)
    requires Fits(c)
    ensures ParseStamp(FormatStamp(c)) == Some(c)
  {
    StampFields(c);
    JoinedFields(Fixed(c.year, 4), Fixed(c.month, 2), Fixed(c.day, 2), Fixed(c.hour, 2), Fixed(c.minute, 2));
    var s := FormatStamp(c);
    Pow10Widths();
    NatToStringFixed(c.year, 4);
    assert s[0] == NatToString(c.year)[0] by {
      assert s[0..4][0] == s[0];
    }
    ParseNatFixed(c.year, 4);
    ParseNatFixed(c.month, 2);
    ParseNatFixed(c.day, 2);
    ParseNatFixed(c.hour, 2);
    ParseNatFixed(c.minute, 2);
  }

  /** Every string on the layout is the stamp of the time it reads as, and that time fits. */
  lemma ParseThenFormat(s: string)
    requires ParseStamp(s).Some?
    ensures Fits(ParseStamp(s).value)
    ensures FormatStamp(ParseStamp(s).value) == s
  {
    var c := ParseStamp(s).value;
    Pow10Widths();
    FixedParseNat(s[0..4]);
    FixedParseNat(s[5..7]);
    FixedParseNat(s[8..10]);
    FixedParseNat(s[11..13]);
    FixedParseNat(s[14..16]);
    assert s[0..4][0] == s[0];
    ParseNatLeading(s[0..4]);
    StampFields(c);
    SplitFields(s);
  }

  // ---------------------------------------------------------------------
  // String order is time order
  // ---------------------------------------------------------------------

  /** A field followed by a separator compares like the field alone. */
  lemma SeparatorOrder(p: string, q: string, sep: string)
    requires |p| == |q| && |sep| == 1
    ensures StrLess(p + sep, q + sep) <==> StrLess(p, q)
    ensures p + sep == q + sep <==> p == q
  {
    LessAppend(p, sep, q, sep);
    AppendEq(p, sep, q, sep);
    StrLessIrreflexive(sep);
  }

  /** One more field: the joined strings compare field by field. */
  lemma FieldOrder(p: string, q: string, sep: string, x: nat, y: nat)
    requires |p| == |q| && |sep| == 1 && x < 100 && y < 100
    ensures StrLess(p + sep + Pad2(x), q + sep + Pad2(y)) <==> StrLess(p, q) || (p == q && x < y)
    ensures p + sep + Pad2(x) == q + sep + Pad2(y) <==> p == q && x == y
  {
    Pad2Fixed(x);
    Pad2Fixed(y);
    SeparatorOrder(p, q, sep);
    LessAppend(p + sep, Pad2(x), q + sep, Pad2(y));
    AppendEq(p + sep, Pad2(x), q + sep, Pad2(y));
    FixedOrder(x, y, 2);
  }

  lemma YearMonthOrder(a: Civil, b: Civil)
    requires Fits(a) && Fits(b)
    ensures StrLess(YearMonth(a), YearMonth(b)) <==> a.year < b.year || (a.year == b.year && a.month < b.month)
    ensures YearMonth(a) == YearMonth(b) <==> a.year == b.year && a.month == b.month
    ensures |YearMonth(a)| == |YearMonth(b)|
  {
    Pow10Widths();
    NatToStringFixed(a.year, 4);
    NatToStringFixed(b.year, 4);
    FixedOrder(a.year, b.year, 4);
    FieldOrder(NatToString(a.year), NatToString(b.year), "-", a.month, b.month);
    Pad2Fixed(a.month);
  }

  lemma DatePartOrder(a: Civil, b: Civil)
    requires Fits(a) && Fits(b)
    ensures StrLess(DatePart(a), DatePart(b)) <==>
      || StrLess(YearMonth(a), YearMonth(b))
      || (YearMonth(a) == YearMonth(b) && a.day < b.day)
    ensures DatePart(a) == DatePart(b) <==> YearMonth(a) == YearMonth(b) && a.day == b.day
    ensures |DatePart(a)| == |DatePart(b)|
  {
    YearMonthOrder(a, b);
    FieldOrder(YearMonth(a), YearMonth(b), "-", a.day, b.day);
    Pad2Fixed(a.day);
    Pad2Fixed(b.day);
  }

  lemma DateHourOrder(a: Civil, b: Civil)
    requires Fits(a) && Fits(b)
    ensures StrLess(DateHour(a), DateHour(b)) <==>
      || StrLess(DatePart(a), DatePart(b))
      || (DatePart(a) == DatePart(b) && a.hour < b.hour)
    ensures DateHour(a) == DateHour(b) <==> DatePart(a) == DatePart(b) && a.hour == b.hour
    ensures |DateHour(a)| == |DateHour(b)|
  {
    DatePartOrder(a, b);
    FieldOrder(DatePart(a), DatePart(b), " ", a.hour, b.hour);
    Pad2Fixed(a.hour);
    Pad2Fixed(b.hour);
  }

  /**
    For times that fit the layout, the stamps compare as strings exactly
    as the times compare chronologically, and equal stamps name the same
    time.
   */
  lemma StampOrder(a: Civil, b: Civil)
    requires Fits(a) && Fits(b)
    ensures StrLess(FormatStamp(a), FormatStamp(b)) <==> Earlier(a, b)
    ensures FormatStamp(a) == FormatStamp(b) <==> a == b
  {
    YearMonthOrder(a, b);
    DatePartOrder(a, b);
    DateHourOrder(a, b);
    FieldOrder(DateHour(a), DateHour(b), ":", a.minute, b.minute);
  }

  /**
    A start left at its `String(new Date())` default begins with a weekday
    name, which sorts after every digit: no picked end can then be "after"
    the start, and the default does not read as a stamp.
   */
  lemma DefaultStartBlocksEveryEnd(start: string, c: Civil)
    requires |start| > 0 && IsAsciiLetter(start[0])
    requires Fits(c)
    ensures !StrLess(start, FormatStamp(c))
    ensures ParseStamp(start).None?
  {
    StampFields(c);
    JoinedFields(Fixed(c.year, 4), Fixed(c.month, 2), Fixed(c.day, 2), Fixed(c.hour, 2), Fixed(c.minute, 2));
    var s := FormatStamp(c);
    assert s[0] == s[0..4][0];
    assert IsDigit(s[0]);
  }
}
