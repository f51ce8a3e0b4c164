/**
 * Name normalisation of the user registry: a name is lower-cased as a whole
 * and then its first character is upper-cased. Case mapping is restricted to
 * the ASCII letters; every other character passes through unchanged.
 */
module Names {

  /** ASCII capital letter. */
  predicate IsUpper(c: char) {
    'A' <= c <= 'Z'
  }

  /** ASCII small letter. */
  predicate IsLower(c: char) {
    'a' <= c <= 'z'
  }

  /** Maps an ASCII capital to its small letter; any other character is kept. */
  function LowerChar(c: char): (r: char)
    ensures !IsUpper(r)
    ensures IsLower(r) <==> IsUpper(c) || IsLower(c)
    ensures IsUpper(c) ==> r as int == c as int + 32
    ensures !IsUpper(c) ==> r == c
  {
    if IsUpper(c) then (c as int + 32) as char else c
  }

  /** Maps an ASCII small letter to its capital; any other character is kept. */
  function UpperChar(c: char): (r: char)
    ensures !IsLower(r)
    ensures IsUpper(r) <==> IsUpper(c) || IsLower(c)
    ensures IsLower(c) ==> r as int == c as int - 32
    ensures !IsLower(c) ==> r == c
  {
    if IsLower(c) then (c as int - 32) as char else c
  }

  /** Letters that differ only in case fold to the same small letter. */
  lemma CaseFold(c: char)
    ensures LowerChar(UpperChar(c)) == LowerChar(c)
    ensures UpperChar(LowerChar(c)) == UpperChar(c)
  {
  }

  /** Two characters equal up to ASCII case. */
  predicate SameLetter(a: char, b: char) {
    LowerChar(a) == LowerChar(b)
  }

  /** Capitalising after lower-casing loses exactly the case of the character. */
  lemma UpperLowerInjective(a: char, b: char)
    ensures UpperChar(LowerChar(a)) == UpperChar(LowerChar(b)) <==> SameLetter(a, b)
  {
  }

  /** The whole string lower-cased, character by character. */
  function Lower(s: string): (r: string)
    ensures |r| == |s|
    ensures forall i :: 0 <= i < |s| ==> r[i] == LowerChar(s[i])
  {
    if s == [] then [] else [LowerChar(s[0])] + Lower(s[1..])
  }

  /** The string with only its first character upper-cased. */
  function Capitalize(s: string): (r: string)
    ensures |r| == |s|
    ensures |s| > 0 ==> r[0] == UpperChar(s[0]) && r[1..] == s[1..]
  {
    if s == [] then [] else [UpperChar(s[0])] + s[1..]
  }

  /** The normal form under which names are stored and compared. */
  function Normalize(s: string): (r: string)
    ensures |r| == |s|
    ensures |s| > 0 ==> r[0] == UpperChar(s[0])
    ensures forall i :: 0 < i < |s| ==> r[i] == LowerChar(s[i])
  {
    if s == [] then [] else CaseFold(s[0]); Capitalize(Lower(s))
  }

  /** A name already in normal form: no small letter first, no capital after. */
  predicate IsNormal(s: string) {
    && (|s| > 0 ==> !IsLower(s[0]))
    && forall i :: 0 < i < |s| ==> !IsUpper(s[i])
  }

  /** Strings equal up to ASCII case. */
  predicate EqualIgnoringCase(a: string, b: string) {
    |a| == |b| && forall i :: 0 <= i < |a| ==> SameLetter(a[i], b[i])
  }

  /** Every result of Normalize is in normal form. */
  lemma NormalizeIsNormal(s: string)
    ensures IsNormal(Normalize(s))
  {
  }

  /** The fixed points of Normalize are exactly the strings in normal form. */
  lemma NormalizeFixedPoints(s: string)
    ensures Normalize(s) == s <==> IsNormal(s)
  {
    var r := Normalize(s);
    if IsNormal(s) {
      forall i | 0 <= i < |s|
        ensures r[i] == s[i]
      {
      }
    }
  }

  /** Normalising twice is normalising once. */
  lemma NormalizeIdempotent(s: string)
    ensures Normalize(Normalize(s)) == Normalize(s)
  {
    NormalizeIsNormal(s);
    NormalizeFixedPoints(Normalize(s));
  }

  /** Two names normalise alike exactly when they differ only in letter case. */
  lemma NormalizeCaseInsensitive(a: string, b: string)
    ensures Normalize(a) == Normalize(b) <==> EqualIgnoringCase(a, b)
  {
    var na, nb := Normalize(a), Normalize(b);
    if na == nb {
      assert |a| == |b|;
      forall i | 0 <= i < |a|
        ensures SameLetter(a[i], b[i])
      {
        if i == 0 {
          CaseFold(a[0]);
          CaseFold(b[0]);
          UpperLowerInjective(a[0], b[0]);
        } else {
          assert na[i] == nb[i];
        }
      }
    }
    if EqualIgnoringCase(a, b) {
      forall i | 0 <= i < |a|
        ensures na[i] == nb[i]
      {
        if i == 0 {
          CaseFold(a[0]);
          CaseFold(b[0]);
        }
      }
    }
  }

  /** The empty name stays empty, and case variants of one name coincide. */
  lemma NormalizeExamples()
    ensures Normalize("") == ""
    ensures Normalize("bob") == "Bob"
    ensures Normalize("BOB") == "Bob"
    ensures Normalize("Bob") == "Bob"
    ensures Normalize("alice") == "Alice"
  {
  }
}
