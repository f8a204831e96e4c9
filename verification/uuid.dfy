/**
 * The identifier-shape check the lookup uses to choose between id lookup and
 * slug/title lookup: the textual layout of a UUID (section 3 of RFC 4122) as the
 * `validate` function of the uuid package accepts it — 8-4-4-4-12 hexadecimal
 * digits, a version digit 1 to 5, a variant digit 8, 9, a or b, or the nil UUID;
 * letters in either case.
 */
module Uuid {
  import opened Text

  predicate IsHexDigit(c: char)
  {
    '0' <= c <= '9' || 'a' <= c <= 'f' || 'A' <= c <= 'F'
  }

  predicate IsDashPosition(i: int)
  {
    i == 8 || i == 13 || i == 18 || i == 23
  }

  /** The nil UUID 00000000-0000-0000-0000-000000000000: hyphens in the layout, zeros elsewhere. */
  predicate IsNilUuid(s: string)
  {
    |s| == 36 &&
    forall i :: 0 <= i < |s| ==> s[i] == if IsDashPosition(i) then '-' else '0'
  }

  /** Hyphens at 8, 13, 18, 23 and hexadecimal digits everywhere else. */
  predicate HasUuidLayout(s: string)
  {
    |s| == 36 &&
    forall i :: 0 <= i < |s| ==> if IsDashPosition(i) then s[i] == '-' else IsHexDigit(s[i])
  }

  /** `validate`: the layout, a version digit 1 to 5 and a variant digit 8, 9, a or b; or the nil UUID. */
  predicate IsUuid(s: string)
    ensures IsUuid(s) ==> HasUuidLayout(s)
    ensures IsNilUuid(s) ==> IsUuid(s)
  {
    HasUuidLayout(s) &&
    (('1' <= s[14] <= '5' && s[19] in "89abAB") || IsNilUuid(s))
  }

  /** Lower-casing maps hyphens to hyphens, hexadecimal digits to hexadecimal digits and nothing else to either. */
  lemma LowerKeepsLayout(s: string)
    ensures HasUuidLayout(Lower(s)) == HasUuidLayout(s)
  {
    var t := Lower(s);
    forall i | 0 <= i < |s|
      ensures (t[i] == '-') == (s[i] == '-')
      ensures IsHexDigit(t[i]) == IsHexDigit(s[i])
    {
      assert t[i] == LowerChar(s[i]);
    }
  }

  /** Only the nil UUID lower-cases to the nil UUID (it has no letters). */
  lemma LowerIsNil(s: string)
    ensures IsNilUuid(Lower(s)) == IsNilUuid(s)
  {
    var t := Lower(s);
    forall i | 0 <= i < |s|
      ensures (t[i] == '-') == (s[i] == '-')
      ensures (t[i] == '0') == (s[i] == '0')
    {
      assert t[i] == LowerChar(s[i]);
    }
  }

  /** The check ignores case, so a term and its lower-cased form take the same lookup path. */
  lemma IsUuidIgnoresCase(s: string)
    ensures IsUuid(Lower(s)) == IsUuid(s)
  {
    LowerKeepsLayout(s);
    LowerIsNil(s);
    if |s| == 36 {
      var t := Lower(s);
      assert t[14] == LowerChar(s[14]) && t[19] == LowerChar(s[19]);
    }
  }
}
