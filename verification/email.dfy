/**
  The e-mail shape check `^[^\s@]+@[^\s@]+\.[^\s@]+$` used by `validarEmail`
  (src/utils/utils.ts), the team-invite form and the support form, restated as
  character-class predicates and proved equal to the pattern's decomposition.
 */
module Email {
  import opened Text

  /** `[^\s@]`: any char that is neither white space nor '@'. */
  predicate Plain(c: char) { !IsSpace(c) && c != '@' }

  predicate AllPlain(s: string) { forall i :: 0 <= i < |s| ==> Plain(s[i]) }

  /**
    The pattern's decomposition of `s` as `local@domain.tld`: '@' at `at`,
    the literal '.' at `dot`, and three non-empty runs of plain chars.
   */
  predicate PatternSplit(s: string, at: int, dot: int)
  {
    && 0 < at && at + 1 < dot && dot + 1 < |s|
    && s[at] == '@' && s[dot] == '.'
    && AllPlain(s[..at]) && AllPlain(s[at + 1..dot]) && AllPlain(s[dot + 1..])
  }

  /** `s` matches `^[^\s@]+@[^\s@]+\.[^\s@]+$`. */
  ghost predicate MatchesPattern(s: string)
  {
    exists at, dot :: PatternSplit(s, at, dot)
  }

  /** The index of the first '@' in `s`, or `|s|` when there is none. */
  function FirstAt(s: string): (i: nat)
    ensures i <= |s|
    ensures i < |s| ==> s[i] == '@'
    ensures forall j :: 0 <= j < i ==> s[j] != '@'
  {
    if |s| == 0 || s[0] == '@' then 0 else 1 + FirstAt(s[1..])
  }

  /** Some '.' sits strictly inside `t`, with a char on either side. */
  predicate HasInnerDot(t: string)
  {
    exists k :: 1 <= k < |t| - 1 && t[k] == '.'
  }

  /**
    `validarEmail`: one '@', not first, every other char plain, and a '.'
    inside the part after the '@' with at least one char on each side.
   */
  function ValidarEmail(s: string): (r: bool)
    ensures r <==> MatchesPattern(s)
  {
    PatternAgrees(s);
    CheckedShape(s)
  }

  /** The chars of a slice are plain exactly when the chars in that index range are. */
  lemma SlicePlain(s: string, i: int, j: int)
    requires 0 <= i <= j <= |s|
    ensures AllPlain(s[i..j]) <==> forall k :: i <= k < j ==> Plain(s[k])
  {
    assert forall k :: i <= k < j ==> s[k] == s[i..j][k - i];
  }

  /** The check `ValidarEmail` performs, spelled out. */
  predicate CheckedShape(s: string)
  {
    var at := FirstAt(s);
    0 < at < |s| && AllPlain(s[..at]) && AllPlain(s[at + 1..]) && HasInnerDot(s[at + 1..])
  }

  lemma CheckedShapeMatches(s: string)
    requires CheckedShape(s)
    ensures MatchesPattern(s)
  {
    var at := FirstAt(s);
    var t := s[at + 1..];
    var k :| 1 <= k < |t| - 1 && t[k] == '.';
    var dot := at + 1 + k;
    SlicePlain(s, at + 1, |s|);
    SlicePlain(s, at + 1, dot);
    SlicePlain(s, dot + 1, |s|);
    assert s[at + 1..] == s[at + 1..|s|];
    assert s[dot + 1..] == s[dot + 1..|s|];
    assert PatternSplit(s, at, dot);
  }

  lemma MatchesCheckedShape(s: string)
    requires MatchesPattern(s)
    ensures CheckedShape(s)
  {
    var a, d :| PatternSplit(s, a, d);
    FirstAtIs(s, a);
    DomainPlain(s, a, d);
    var t := s[a + 1..];
    assert t[d - (a + 1)] == '.';
  }

  /** The first '@' of a split address is the split's '@': the local part has none. */
  lemma FirstAtIs(s: string, a: int)
    requires 0 <= a < |s| && s[a] == '@' && AllPlain(s[..a])
    ensures FirstAt(s) == a
  {
    forall j | 0 <= j < a ensures s[j] != '@' {
      assert s[j] == s[..a][j];
    }
  }

  /** The domain of a split address, dot included, has only plain chars. */
  lemma DomainPlain(s: string, a: int, d: int)
    requires PatternSplit(s, a, d)
    ensures AllPlain(s[a + 1..])
  {
    forall k | a + 1 <= k < |s| ensures Plain(s[k]) {
      if k < d {
        assert s[k] == s[a + 1..d][k - (a + 1)];
      } else if d < k {
        assert s[k] == s[d + 1..][k - (d + 1)];
      }
    }
    SlicePlain(s, a + 1, |s|);
    assert s[a + 1..] == s[a + 1..|s|];
  }

  lemma PatternAgrees(s: string)
    ensures CheckedShape(s) <==> MatchesPattern(s)
  {
    if CheckedShape(s) {
      CheckedShapeMatches(s);
    }
    if MatchesPattern(s) {
      MatchesCheckedShape(s);
    }
  }

  /** An address the pattern accepts has no white space at all, so trimming leaves it unchanged. */
  lemma AcceptedHasNoSpace(s: string)
    requires ValidarEmail(s)
    ensures forall i :: 0 <= i < |s| ==> !IsSpace(s[i])
    ensures Trim(s) == s
  {
    var a, d :| PatternSplit(s, a, d);
    forall i | 0 <= i < |s| ensures !IsSpace(s[i]) {
      if i < a {
        assert s[i] == s[..a][i];
      } else if a < i < d {
        assert s[i] == s[a + 1..d][i - (a + 1)];
      } else if d < i {
        assert s[i] == s[d + 1..][i - (d + 1)];
      }
    }
    TrimNoEdgeSpace(s);
  }

  /** A domain without a dot is refused. */
  lemma NoDotRejected()
    ensures !ValidarEmail("ana@mail")
  {
    assert FirstAt("ana@mail") == 3;
    assert "ana@mail"[4..] == "mail";
    assert !HasInnerDot("mail");
  }

  /** A space inside the local part is refused. */
  lemma InnerSpaceRejected()
    ensures !ValidarEmail("a b@c.de")
  {
    var s := "a b@c.de";
    assert FirstAt(s[3..]) == 0;
    assert FirstAt(s[2..]) == 1;
    assert FirstAt(s[1..]) == 2;
    assert FirstAt(s) == 3;
    assert s[..3][1] == ' ';
  }

  /** A plain `local@domain.tld` address is accepted. */
  lemma SimpleAddressAccepted()
    ensures ValidarEmail("ana@mail.com")
  {
    var s := "ana@mail.com";
    assert PatternSplit(s, 3, 8);
  }

  /** The pattern is anchored: an address whose first char is white space never matches. */
  lemma LeadingSpaceRejected(s: string)
    requires |s| > 0 && IsSpace(s[0])
    ensures !MatchesPattern(s)
  {
  }
}
