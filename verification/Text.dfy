/** The few operations of Go's `strings` package that the operator relies on. */
module Text {

  predicate HasSuffix(s: string, t: string) {
    |t| <= |s| && s[|s| - |t|..] == t
  }

  function TrimSuffix(s: string, t: string): (r: string)
    ensures HasSuffix(s, t) ==> r + t == s
    ensures !HasSuffix(s, t) ==> r == s
  {
    if HasSuffix(s, t) then s[..|s| - |t|] else s
  }

  predicate OccursAt(s: string, t: string, i: nat) {
    i + |t| <= |s| && s[i..i + |t|] == t
  }

  /** `strings.Contains`: some window of `s` is `t`. */
  predicate Contains(s: string, t: string) {
    exists i: nat | i <= |s| :: OccursAt(s, t, i)
  }

  lemma SuffixOfConcat(u: string, t: string)
    ensures HasSuffix(u + t, t) && TrimSuffix(u + t, t) == u
  {
    assert (u + t)[|u|..] == t;
  }

  lemma ContainedInConcat(a: string, t: string, b: string)
    ensures Contains(a + t + b, t)
  {
    assert (a + t + b)[|a|..|a| + |t|] == t;
    assert OccursAt(a + t + b, t, |a|);
  }

  /** Two strings with a common suffix agree on everything before it. */
  lemma SuffixCancels(u: string, v: string, t: string)
    requires u + t == v + t
    ensures u == v
  {
    SuffixOfConcat(u, t);
    SuffixOfConcat(v, t);
  }
}
