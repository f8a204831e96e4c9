/**
 * Case mapping used by the term lookup: the service lower-cases the term for the
 * slug comparison and upper-cases it (and the stored title) for the title
 * comparison. Only the ASCII letters are mapped.
 */
module Text {

  function UpperChar(c: char): char
  {
    if 'a' <= c <= 'z' then (c as int - 32) as char else c
  }

  function LowerChar(c: char): char
  {
    if 'A' <= c <= 'Z' then (c as int + 32) as char else c
  }

  /** `toUpperCase` / SQL `UPPER`: every character upper-cased, length kept. */
  function Upper(s: string): (r: string)
    ensures |r| == |s|
    ensures forall i :: 0 <= i < |s| ==> r[i] == UpperChar(s[i])
  {
    if s == [] then [] else [UpperChar(s[0])] + Upper(s[1..])
  }

  /** `toLowerCase`: every character lower-cased, length kept. */
  function Lower(s: string): (r: string)
    ensures |r| == |s|
    ensures forall i :: 0 <= i < |s| ==> r[i] == LowerChar(s[i])
  {
    if s == [] then [] else [LowerChar(s[0])] + Lower(s[1..])
  }

  /** Upper-casing forgets any earlier lower-casing: two terms equal up to case have the same upper-cased form. */
  lemma UpperOfLower(s: string)
    ensures Upper(Lower(s)) == Upper(s)
  {
    var a, b := Upper(Lower(s)), Upper(s);
    assert |a| == |b|;
    forall i | 0 <= i < |s| ensures a[i] == b[i] {
      var c := s[i];
      assert Lower(s)[i] == LowerChar(c);
    }
  }

  /** Two strings are equal once upper-cased exactly when they are equal once lower-cased. */
  lemma SameUpperSameLower(a: string, b: string)
    ensures Upper(a) == Upper(b) <==> Lower(a) == Lower(b)
  {
    if |a| == |b| {
      forall i | 0 <= i < |a|
        ensures (UpperChar(a[i]) == UpperChar(b[i])) == (LowerChar(a[i]) == LowerChar(b[i]))
      {
      }
      if Upper(a) == Upper(b) {
        forall i | 0 <= i < |a| ensures Lower(a)[i] == Lower(b)[i] {
          assert Upper(a)[i] == Upper(b)[i];
        }
      }
      if Lower(a) == Lower(b) {
        forall i | 0 <= i < |a| ensures Upper(a)[i] == Upper(b)[i] {
          assert Lower(a)[i] == Lower(b)[i];
        }
      }
    }
  }
}
