/**
  The string primitives the client leans on, restated without regular
  expressions: JavaScript's `\d`, `\s` and `trim`, `toLowerCase` on ASCII,
  `includes`, `startsWith`, `replace` with a string pattern, `split(' ')[0]`,
  and decimal rendering of integers (`String(n)`, `padStart(2, '0')`).
 */
module Text {
  import opened Lists

  /** JavaScript `\d`: the ASCII digits only. */
  predicate IsDigit(c: char) { '0' <= c <= '9' }

  /**
    JavaScript `\s`, which is also the set `trim` removes: the ECMAScript
    WhiteSpace and LineTerminator code points.
   */
  predicate IsSpace(c: char)
  {
    var k := c as int;
    (9 <= k <= 13) || k == 32 || k == 0xA0 || k == 0x1680 || (0x2000 <= k <= 0x200A)
    || k == 0x2028 || k == 0x2029 || k == 0x202F || k == 0x205F || k == 0x3000 || k == 0xFEFF
  }

  predicate IsAsciiLower(c: char) { 'a' <= c <= 'z' }
  predicate IsAsciiUpper(c: char) { 'A' <= c <= 'Z' }
  predicate IsAsciiLetter(c: char) { IsAsciiLower(c) || IsAsciiUpper(c) }

  predicate AllDigits(s: string) { forall i :: 0 <= i < |s| ==> IsDigit(s[i]) }

  /** The numeric value of a digit character. */
  function DigitValue(c: char): (v: nat)
    requires IsDigit(c)
    ensures v < 10
  {
    (c as int - '0' as int) as nat
  }

  /** The digit character of a value below ten. */
  function DigitChar(v: nat): (c: char)
    requires v < 10
    ensures IsDigit(c) && DigitValue(c) == v
  {
    (v + '0' as int) as char
  }

  /** `s.replace(/\D/g, '')`: the digits of `s`, in order. */
  function Digits(s: string): (r: string)
    ensures AllDigits(r)
    ensures |r| <= |s|
    ensures SubSeq(r, s)
  {
    Filter(s, IsDigit)
  }

  /** The digit string keeps every copy of every digit and drops every other character. */
  lemma DigitsKeepsEveryDigit(s: string)
    ensures forall c :: multiset(Digits(s))[c] == (if IsDigit(c) then multiset(s)[c] else 0)
  {
    FilterMultiplicity(s, IsDigit);
  }

  /** A string made only of digits is its own digit string. */
  lemma DigitsOfDigitString(s: string)
    requires AllDigits(s)
    ensures Digits(s) == s
  {
    FilterKeepsAll(s, IsDigit);
  }

  /** Stripping non-digits distributes over concatenation. */
  lemma DigitsAppend(a: string, b: string)
    ensures Digits(a + b) == Digits(a) + Digits(b)
  {
    FilterAppend(a, b, IsDigit);
  }

  /** A string without digits strips to nothing. */
  lemma DigitsOfNoDigits(s: string)
    requires forall i :: 0 <= i < |s| ==> !IsDigit(s[i])
    ensures Digits(s) == ""
  {
    FilterKeepsNone(s, IsDigit);
  }

  /** Stripping non-digits twice is stripping once. */
  lemma DigitsIdempotent(s: string)
    ensures Digits(Digits(s)) == Digits(s)
  {
    DigitsOfDigitString(Digits(s));
  }

  /** The first `n` chars of `s`, as `s.slice(0, n)` / `s.substring(0, n)` (clamped). */
  function Take(s: string, n: int): (r: string)
    ensures |r| == if n <= 0 then 0 else if n < |s| then n else |s|
    ensures forall i :: 0 <= i < |r| ==> r[i] == s[i]
  {
    if n <= 0 then "" else if n < |s| then s[..n] else s
  }

  /** Everything from index `n` on, as `s.slice(n)` for `n >= 0` (clamped). */
  function DropFrom(s: string, n: nat): (r: string)
    ensures Take(s, n) + r == s
  {
    if n < |s| then s[n..] else ""
  }

  /** `s.trimStart()` */
  function TrimStart(s: string): (r: string)
    ensures |r| <= |s| && r == s[|s| - |r|..]
    ensures forall i :: 0 <= i < |s| - |r| ==> IsSpace(s[i])
    ensures |r| == 0 || !IsSpace(r[0])
  {
    if |s| > 0 && IsSpace(s[0]) then TrimStart(s[1..]) else s
  }

  /** `s.trimEnd()` */
  function TrimEnd(s: string): (r: string)
    ensures |r| <= |s| && r == s[..|r|]
    ensures forall i :: |r| <= i < |s| ==> IsSpace(s[i])
    ensures |r| == 0 || !IsSpace(r[|r| - 1])
  {
    if |s| > 0 && IsSpace(s[|s| - 1]) then TrimEnd(s[..|s| - 1]) else s
  }

  /** `s.trim()`: a contiguous slice of `s`, without white space at either end. */
  function Trim(s: string): (r: string)
    ensures Contains(s, r)
    ensures |r| == 0 || (!IsSpace(r[0]) && !IsSpace(r[|r| - 1]))
  {
    TrimSlice(s);
    TrimEnd(TrimStart(s))
  }

  /** What both trims leave is the slice of `s` starting where the leading white space ends. */
  lemma TrimSlice(s: string)
    ensures Contains(s, TrimEnd(TrimStart(s)))
  {
    var a := TrimStart(s);
    var b := TrimEnd(a);
    var off := |s| - |a|;
    assert b == s[off..off + |b|] by {
      assert a == s[off..];
      assert b == a[..|b|];
    }
    assert OccursAt(s, b, off);
  }

  /** Trimming leaves nothing exactly when the string is all white space. */
  lemma TrimBlank(s: string)
    ensures |Trim(s)| == 0 <==> forall i :: 0 <= i < |s| ==> IsSpace(s[i])
  {
    var a := TrimStart(s);
    assert |a| > 0 ==> a[0] == s[|s| - |a|];
    assert forall i :: |s| - |a| <= i < |s| ==> s[i] == a[i - (|s| - |a|)];
  }

  /** `!s.trim()` in the client: the string is empty or white space only. */
  predicate IsBlank(s: string) { |Trim(s)| == 0 }

  /** A string that neither starts nor ends with white space is its own trim. */
  lemma TrimNoEdgeSpace(s: string)
    requires |s| == 0 || (!IsSpace(s[0]) && !IsSpace(s[|s| - 1]))
    ensures Trim(s) == s
  {
  }

  /** Trimming twice is trimming once. */
  lemma TrimIdempotent(s: string)
    ensures Trim(Trim(s)) == Trim(s)
  {
    TrimNoEdgeSpace(Trim(s));
  }

  /** ASCII `toLowerCase` of one char; other chars are left as they are. */
  function LowerChar(c: char): (r: char)
    ensures IsAsciiUpper(c) ==> IsAsciiLower(r) && r as int == c as int + 32
    ensures !IsAsciiUpper(c) ==> r == c
  {
    if IsAsciiUpper(c) then (c as int + 32) as char else c
  }

  /** `s.toLowerCase()`, on the ASCII letters. */
  function ToLower(s: string): (r: string)
    ensures |r| == |s|
    ensures forall i :: 0 <= i < |s| ==> r[i] == LowerChar(s[i])
  {
    if |s| == 0 then "" else [LowerChar(s[0])] + ToLower(s[1..])
  }

  /** `s.startsWith(p)` */
  predicate StartsWith(s: string, p: string)
  {
    |p| <= |s| && s[..|p|] == p
  }

  /** `s.endsWith(p)` */
  predicate EndsWith(s: string, p: string)
  {
    |p| <= |s| && s[|s| - |p|..] == p
  }

  /** A concatenation starts with its first part and ends with its second. */
  lemma AppendEdges(a: string, b: string)
    ensures StartsWith(a + b, a) && EndsWith(a + b, b)
  {
    assert (a + b)[..|a|] == a;
    assert (a + b)[|a + b| - |b|..] == b;
  }

  /** `sub` occurs in `s` at index `i`. */
  predicate OccursAt(s: string, sub: string, i: int)
  {
    0 <= i && i + |sub| <= |s| && s[i..i + |sub|] == sub
  }

  /** `s.includes(sub)` */
  predicate Contains(s: string, sub: string)
  {
    exists i :: 0 <= i <= |s| - |sub| && OccursAt(s, sub, i)
  }

  /** The first index at or after `from` where `sub` occurs in `s`. */
  function IndexOfFrom(s: string, sub: string, from: nat): (r: Option<nat>)
    requires from <= |s| + 1
    ensures r.Some? ==> from <= r.value && OccursAt(s, sub, r.value)
    ensures r.Some? ==> forall j :: from <= j < r.value ==> !OccursAt(s, sub, j)
    ensures r.None? ==> forall j :: from <= j ==> !OccursAt(s, sub, j)
    decreases |s| + 1 - from
  {
    if from + |sub| > |s| then None
    else if s[from..from + |sub|] == sub then Some(from)
    else IndexOfFrom(s, sub, from + 1)
  }

  /** `s.indexOf(sub)`, with -1 as `None`. */
  function IndexOf(s: string, sub: string): (r: Option<nat>)
    ensures r.Some? <==> Contains(s, sub)
    ensures r.Some? ==> OccursAt(s, sub, r.value)
    ensures r.Some? ==> forall j :: 0 <= j < r.value ==> !OccursAt(s, sub, j)
  {
    IndexOfFrom(s, sub, 0)
  }

  /** `s.replace(pat, rep)` with a string pattern: only the first occurrence is replaced. */
  function ReplaceFirst(s: string, pat: string, rep: string): (r: string)
    ensures !Contains(s, pat) ==> r == s
    ensures Contains(s, pat) ==>
      (exists i :: 0 <= i <= |s| - |pat| && OccursAt(s, pat, i)
        && (forall j :: 0 <= j < i ==> !OccursAt(s, pat, j))
        && r == s[..i] + rep + s[i + |pat|..])
  {
    match IndexOf(s, pat)
    case None => s
    case Some(i) => s[..i] + rep + s[i + |pat|..]
  }

  /** `s.split(' ')[0]`: everything before the first space, or all of `s`. */
  function FirstWord(s: string): (r: string)
    ensures StartsWith(s, r)
    ensures forall i :: 0 <= i < |r| ==> r[i] != ' '
    ensures |r| == |s| || s[|r|] == ' '
  {
    if |s| == 0 || s[0] == ' ' then "" else [s[0]] + FirstWord(s[1..])
  }

  /** The decimal value of a digit string (the empty string reads as 0). */
  function ParseNat(s: string): nat
    requires AllDigits(s)
  {
    if |s| == 0 then 0 else ParseNat(s[..|s| - 1]) * 10 + DigitValue(s[|s| - 1])
  }

  /** `String(n)` for a natural number: its decimal digits, without leading zeros. */
  function NatToString(n: nat): (r: string)
    ensures AllDigits(r) && |r| >= 1
    ensures r[0] == '0' ==> n == 0
  {
    if n < 10 then [DigitChar(n)] else NatToString(n / 10) + [DigitChar(n % 10)]
  }

  /** Decimal rendering round-trips through parsing. */
  lemma {:induction false} ParseNatToString(n: nat)
    ensures ParseNat(NatToString(n)) == n
  {
    if n >= 10 {
      var s := NatToString(n);
      assert s[..|s| - 1] == NatToString(n / 10);
      ParseNatToString(n / 10);
    }
  }

  /** `String(i)` for any integer. */
  function IntToString(i: int): (r: string)
    ensures i >= 0 ==> r == NatToString(i)
    ensures i < 0 ==> r == "-" + NatToString(-i)
  {
    if i < 0 then "-" + NatToString(-i) else NatToString(i)
  }

  /** `NatToString` of a number below 10 is one char, below 100 at most two. */
  lemma NatToStringSmall(n: nat)
    ensures n < 10 ==> NatToString(n) == [DigitChar(n)]
    ensures 10 <= n < 100 ==> NatToString(n) == [DigitChar(n / 10), DigitChar(n % 10)]
  {
  }

  /** `String(n).padStart(2, '0')` */
  function Pad2(n: nat): (r: string)
    ensures n < 10 ==> r == ['0', DigitChar(n)]
    ensures n < 100 ==> r == [DigitChar(n / 10), DigitChar(n % 10)]
    ensures n >= 100 ==> r == NatToString(n)
  {
    NatToStringSmall(n);
    if n < 10 then "0" + NatToString(n) else NatToString(n)
  }

  /** A padded two-digit field reads back as the number it renders. */
  lemma Pad2RoundTrip(n: nat)
    requires n < 100
    ensures AllDigits(Pad2(n)) && |Pad2(n)| == 2 && ParseNat(Pad2(n)) == n
  {
    var r := Pad2(n);
    assert r[..1] == [DigitChar(n / 10)];
    assert r[..1][..0] == [];
    assert ParseNat(r[..1]) == n / 10;
    assert ParseNat(r) == (n / 10) * 10 + n % 10;
  }

  // ---------------------------------------------------------------------
  // parseInt(s) with no radix
  // ---------------------------------------------------------------------

  /** The longest prefix of `s` made of chars satisfying `ok`. */
  function Run(s: string, ok: char -> bool): (r: string)
    ensures StartsWith(s, r)
    ensures forall i :: 0 <= i < |r| ==> ok(r[i])
    ensures |r| == |s| || !ok(s[|r|])
  {
    if |s| == 0 || !ok(s[0]) then "" else [s[0]] + Run(s[1..], ok)
  }

  predicate IsHexDigit(c: char) { IsDigit(c) || 'a' <= c <= 'f' || 'A' <= c <= 'F' }

  function HexDigitValue(c: char): (v: nat)
    requires IsHexDigit(c)
    ensures v < 16
    ensures IsDigit(c) ==> v == DigitValue(c)
  {
    if IsDigit(c) then DigitValue(c)
    else if 'a' <= c <= 'f' then (c as int - 'a' as int + 10) as nat
    else (c as int - 'A' as int + 10) as nat
  }

  /** The hexadecimal value of a hex-digit string. */
  function ParseHex(s: string): nat
    requires forall i :: 0 <= i < |s| ==> IsHexDigit(s[i])
  {
    if |s| == 0 then 0 else ParseHex(s[..|s| - 1]) * 16 + HexDigitValue(s[|s| - 1])
  }

  /** The magnitude `parseInt` reads after the sign: hex after "0x"/"0X", decimal otherwise; `None` for `NaN`. */
  function ParseMagnitude(s: string): (r: Option<nat>)
    ensures AllDigits(s) && |s| > 0 ==> r == Some(ParseNat(s))
    ensures |s| == 0 || !IsDigit(s[0]) ==> r.None?
  {
    if |s| >= 2 && s[0] == '0' && (s[1] == 'x' || s[1] == 'X') then
      var h := Run(s[2..], IsHexDigit);
      if |h| == 0 then None else Some(ParseHex(h))
    else
      var d := Run(s, IsDigit);
      if |d| == 0 then None
      else
        assert |s| == |d| || !IsDigit(s[|d|]);
        assert AllDigits(s) ==> d == s;
        Some(ParseNat(d))
  }

  /**
    `parseInt(s)`: leading white space skipped, an optional sign, then the
    longest run of digits (hex digits after "0x"); `None` stands for `NaN`,
    which a text with no digit there gives. Precision loss on very long
    digit runs is not modelled.
   */
  function ParseIntJs(s: string): (r: Option<int>)
    ensures AllDigits(s) && |s| > 0 ==> r == Some(ParseNat(s))
    ensures |s| == 0 ==> r.None?
  {
    var t := TrimStart(s);
    assert AllDigits(s) && |s| > 0 ==> t == s;
    if |t| > 0 && t[0] == '-' then
      match ParseMagnitude(t[1..])
      case None => None
      case Some(m) => var v: int := 0 - (m as int); Some(v)
    else if |t| > 0 && t[0] == '+' then ParseMagnitude(t[1..])
    else ParseMagnitude(t)
  }

  /** `parseInt` reads back what `String` renders, for either sign. */
  lemma ParseIntJsIntToString(i: int)
    ensures ParseIntJs(IntToString(i)) == Some(i)
  {
    if i >= 0 {
      ParseNatToString(i);
    } else {
      var digits := NatToString(-i);
      var s := "-" + digits;
      assert s == IntToString(i);
      assert !IsSpace(s[0]);
      assert TrimStart(s) == s;
      assert s[1..] == digits;
      ParseNatToString(-i);
      assert ParseMagnitude(digits) == Some(-i);
    }
  }

  /** A run stops at the first char that fails the test. */
  lemma {:induction false} RunStopsAt(a: string, b: string, ok: char -> bool)
    requires forall i :: 0 <= i < |a| ==> ok(a[i])
    requires |b| > 0 && !ok(b[0])
    ensures Run(a + b, ok) == a
  {
    if |a| > 0 {
      assert (a + b)[1..] == a[1..] + b;
      RunStopsAt(a[1..], b, ok);
    }
  }

  /** The digits of `n` followed by a char that cannot continue them read back as `n`. */
  lemma ParseMagnitudeLeading(n: nat, rest: string)
    requires |rest| > 0 && !IsDigit(rest[0]) && rest[0] != 'x' && rest[0] != 'X'
    ensures ParseMagnitude(NatToString(n) + rest) == Some(n)
  {
    var digits := NatToString(n);
    var m := digits + rest;
    RunStopsAt(digits, rest, IsDigit);
    ParseNatToString(n);
    assert digits[0] == '0' ==> digits == "0";
    assert !(|m| >= 2 && m[0] == '0' && (m[1] == 'x' || m[1] == 'X'));
  }

  /** White space is skipped only when there is some. */
  lemma TrimStartNoSpace(s: string)
    requires |s| > 0 && !IsSpace(s[0])
    ensures TrimStart(s) == s
  {
  }

  /** A text starting with a digit is read without a sign. */
  lemma ParseIntJsUnsigned(s: string, m: nat)
    requires |s| > 0 && IsDigit(s[0]) && ParseMagnitude(s) == Some(m)
    ensures ParseIntJs(s) == Some(m)
  {
    TrimStartNoSpace(s);
  }

  /** A text starting with '-' is read as the negated magnitude after it. */
  lemma ParseIntJsMinus(s: string, m: nat)
    requires |s| > 0 && s[0] == '-' && ParseMagnitude(s[1..]) == Some(m)
    ensures ParseIntJs(s) == Some(0 - m)
  {
    TrimStartNoSpace(s);
  }

  /** A number rendered by `String` and followed by text that cannot continue it reads back as that number. */
  lemma ParseIntJsLeading(i: int, rest: string)
    requires |rest| > 0 && !IsDigit(rest[0]) && rest[0] != 'x' && rest[0] != 'X'
    ensures ParseIntJs(IntToString(i) + rest) == Some(i)
  {
    if i < 0 {
      var n: nat := -i;
      ParseIntJsNegLeading(n, rest);
      assert IntToString(i) + rest == "-" + NatToString(n) + rest;
    } else {
      ParseIntJsNatLeading(i, rest);
    }
  }

  lemma ParseIntJsNegLeading(n: nat, rest: string)
    requires |rest| > 0 && !IsDigit(rest[0]) && rest[0] != 'x' && rest[0] != 'X'
    ensures ParseIntJs("-" + NatToString(n) + rest) == Some(0 - n)
  {
    var m := NatToString(n) + rest;
    ParseMagnitudeLeading(n, rest);
    MinusPrefix(m, n);
    AppendAssoc("-", NatToString(n), rest);
  }

  lemma AppendAssoc(a: string, b: string, c: string)
    ensures a + b + c == a + (b + c)
  {
  }

  /** A '-' in front of a readable magnitude negates it. */
  lemma MinusPrefix(m: string, n: nat)
    requires ParseMagnitude(m) == Some(n)
    ensures ParseIntJs("-" + m) == Some(0 - n)
  {
    var s := "-" + m;
    assert s[1..] == m;
    ParseIntJsMinus(s, n);
  }

  /** `String(n)` followed by text that cannot continue it reads back as `n`. */
  lemma ParseIntJsNatLeading(n: nat, rest: string)
    requires |rest| > 0 && !IsDigit(rest[0]) && rest[0] != 'x' && rest[0] != 'X'
    ensures ParseIntJs(NatToString(n) + rest) == Some(n)
  {
    ParseMagnitudeLeading(n, rest);
    ParseIntJsUnsigned(NatToString(n) + rest, n);
  }

  /** `replace` rewrites the first occurrence, wherever that is shown to be. */
  lemma ReplaceFirstAt(s: string, pat: string, rep: string, i: nat)
    requires OccursAt(s, pat, i)
    requires forall j :: 0 <= j < i ==> !OccursAt(s, pat, j)
    ensures ReplaceFirst(s, pat, rep) == s[..i] + rep + s[i + |pat|..]
  {
    assert Contains(s, pat);
    var k := IndexOf(s, pat).value;
    assert !(k < i) && !(i < k);
  }

  /** The first word of a space-joined pair is the first part when it has no space. */
  lemma {:induction false} FirstWordJoined(a: string, b: string)
    requires forall i :: 0 <= i < |a| ==> a[i] != ' '
    ensures FirstWord(a + " " + b) == a
  {
    if |a| > 0 {
      assert (a + " " + b)[1..] == a[1..] + " " + b;
      FirstWordJoined(a[1..], b);
    }
  }

  /** `x || d` for an optional text: a present, non-empty `x`, otherwise `d`. */
  function OrText(x: Option<string>, d: string): (r: string)
    ensures x.Some? && x.value != "" ==> r == x.value
    ensures x.None? || x.value == "" ==> r == d
  {
    if x.Some? && x.value != "" then x.value else d
  }
}
