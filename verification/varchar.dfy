/** PostgreSQL's `character varying(n)` column, as section 8.3 ("Character Types") of the
    PostgreSQL manual describes it: a value of at most `n` characters is stored as it is; a
    longer one is refused, unless every character past the `n`-th is a space, in which case it is
    cut to `n` characters. */
module Varchar {

  /** Whether a `varchar(width)` column takes `s` without an error. */
  predicate Accepts(s: string, width: nat) {
    |s| <= width || forall i | width <= i < |s| :: s[i] == ' '
  }

  /** What the column keeps of a value it takes. */
  function Clip(s: string, width: nat): (r: string)
    ensures |r| <= width && r <= s
    ensures |r| == if |s| <= width then |s| else width
  {
    if |s| <= width then s else s[..width]
  }

  function Spaces(n: nat): (r: string)
    ensures |r| == n && forall i | 0 <= i < n :: r[i] == ' '
  {
    seq(n, _ => ' ')
  }

  /** The column takes a value exactly when it is what the column keeps followed by nothing but
      spaces: storing loses trailing spaces and nothing else. */
  lemma ClipPads(s: string, width: nat)
    ensures Accepts(s, width) <==> s == Clip(s, width) + Spaces(|s| - |Clip(s, width)|)
  {
    var c := Clip(s, width);
    var pad := Spaces(|s| - |c|);
    if Accepts(s, width) {
      assert forall i | 0 <= i < |s| :: s[i] == (c + pad)[i];
    }
  }
}
