/** Order facts about sequences shared by the list filters. */
module Sequences {

  /** `a` is `b` with some elements dropped, the rest in their order. */
  predicate Sublist<T(==)>(a: seq<T>, b: seq<T>)
    decreases |b|
  {
    if |a| == 0 then true
    else if |b| == 0 then false
    else (a[0] == b[0] && Sublist(a[1..], b[1..])) || Sublist(a, b[1..])
  }

  lemma {:induction false} SublistRefl<T>(a: seq<T>)
    ensures Sublist(a, a)
    decreases |a|
  {
    if |a| > 0 {
      SublistRefl(a[1..]);
    }
  }

  /** Dropping one element leaves a sub-list. */
  lemma {:induction false} SublistRemove<T>(s: seq<T>, i: nat)
    requires i < |s|
    ensures Sublist(s[..i] + s[i + 1..], s)
    decreases i
  {
    var a := s[..i] + s[i + 1..];
    if i == 0 {
      assert a == s[1..];
      SublistRefl(s[1..]);
    } else {
      SublistRemove(s[1..], i - 1);
      assert a[1..] == s[1..][..i - 1] + s[1..][i..];
    }
  }
}
