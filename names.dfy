/**
 * Case-insensitive name comparison, as the parameter and encoding-limit lookups
 * use it: two strings match when they have the same length and agree character
 * by character after C-locale lower-casing.
 */
module Names {

  /** The C-locale `tolower`: A .. Z become a .. z, every other character is kept. */
  function Lower(c: char): char {
    if 'A' <= c <= 'Z' then (c as int + 32) as char else c
  }

  /** A string without upper-case letters, as every name the lookups compare against. */
  predicate IsLowerCase(s: string) {
    forall i :: 0 <= i < |s| ==> !('A' <= s[i] <= 'Z')
  }

  /** sirf::iequals. */
  predicate IEquals(a: string, b: string) {
    |a| == |b| && forall i :: 0 <= i < |a| ==> Lower(a[i]) == Lower(b[i])
  }

  /** The lower-cased string. */
  function Lowered(s: string): (r: string)
    ensures |r| == |s| && IsLowerCase(r)
    ensures forall i :: 0 <= i < |s| ==> r[i] == Lower(s[i])
  {
    seq(|s|, i requires 0 <= i < |s| => Lower(s[i]))
  }

  /** Two strings match exactly when their lower-cased forms are equal, so matching is an equivalence. */
  lemma IEqualsIff(a: string, b: string)
    ensures IEquals(a, b) <==> Lowered(a) == Lowered(b)
  {
    if Lowered(a) == Lowered(b) {
      forall i | 0 <= i < |a| ensures Lower(a[i]) == Lower(b[i]) {
        assert Lowered(a)[i] == Lowered(b)[i];
      }
    }
  }

  /** A lower-case name is its own lower-cased form. */
  lemma LoweredOfLowerCase(s: string)
    requires IsLowerCase(s)
    ensures Lowered(s) == s
  {
  }

  /** A string matches at most one lower-case name. */
  lemma MatchesOneName(name: string, a: string, b: string)
    requires IsLowerCase(a) && IsLowerCase(b) && IEquals(name, a) && IEquals(name, b)
    ensures a == b
  {
    IEqualsIff(name, a);
    IEqualsIff(name, b);
    LoweredOfLowerCase(a);
    LoweredOfLowerCase(b);
  }
}
