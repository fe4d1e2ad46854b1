/** String comparison with StringComparison.OrdinalIgnoreCase, restricted to
    ASCII: two strings are equal when they have the same length and agree
    character by character once upper-case ASCII letters are folded. */
module OrdinalIgnoreCase {

  /** Lower-cases 'A'..'Z'; every other character folds to itself. */
  function FoldChar(c: char): (f: char)
    ensures 'A' <= c <= 'Z' ==> 'a' <= f <= 'z' && f as int - c as int == 32
    ensures !('A' <= c <= 'Z') ==> f == c
  {
    if 'A' <= c <= 'Z' then (c as int + 32) as char else c
  }

  /** The string with every character folded. */
  function Fold(s: string): (f: string)
    ensures |f| == |s| && forall i :: 0 <= i < |s| ==> f[i] == FoldChar(s[i])
  {
    seq(|s|, i requires 0 <= i < |s| => FoldChar(s[i]))
  }

  /** Equal ignoring case exactly when both strings fold to the same string;
      in particular every string equals itself. */
  predicate EqualsIgnoreCase(a: string, b: string)
    ensures EqualsIgnoreCase(a, b) <==> Fold(a) == Fold(b)
    ensures a == b ==> EqualsIgnoreCase(a, b)
  {
    |a| == |b| && forall i :: 0 <= i < |a| ==> FoldChar(a[i]) == FoldChar(b[i])
  }

  /** Two arguments that differ only in case are interchangeable on either side
      of the comparison: this is what makes every lookup built on it insensitive
      to the case of its argument. */
  lemma EqualsIgnoreCaseSubstitutes(x: string, a: string, b: string)
    requires EqualsIgnoreCase(a, b)
    ensures EqualsIgnoreCase(x, a) <==> EqualsIgnoreCase(x, b)
  {
  }
}
