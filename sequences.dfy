/** Order-preserving selection from a sequence. */
module Sequences {

  /** `sub` can be obtained from `s` by deleting elements. */
  predicate IsSubsequence<T(==)>(sub: seq<T>, s: seq<T>) {
    sub == [] || (s != [] && if sub[0] == s[0] then IsSubsequence(sub[1..], s[1..]) else IsSubsequence(sub, s[1..]))
  }

  /** Every prefix of a subsequence is a subsequence. */
  lemma {:induction false} PrefixOfSubsequence<T>(sub: seq<T>, s: seq<T>, k: nat)
    requires IsSubsequence(sub, s) && k <= |sub|
    ensures IsSubsequence(sub[..k], s)
    decreases |s|
  {
    if k > 0 {
      assert sub[..k][0] == sub[0];
      if sub[0] == s[0] {
        assert sub[..k][1..] == sub[1..][..k - 1];
        PrefixOfSubsequence(sub[1..], s[1..], k - 1);
      } else {
        PrefixOfSubsequence(sub, s[1..], k);
      }
    }
  }

  /** Appending an element to the sequence keeps a subsequence one, whether or
      not the element is appended to the subsequence too. */
  lemma {:induction false} SubsequenceSnoc<T>(sub: seq<T>, s: seq<T>, x: T)
    requires IsSubsequence(sub, s)
    ensures IsSubsequence(sub + [x], s + [x])
    ensures IsSubsequence(sub, s + [x])
    decreases |s|
  {
    if s == [] {
      assert sub == [];
      assert (sub + [x])[1..] == [];
    } else if sub == [] {
      assert (s + [x])[1..] == s[1..] + [x];
      if s[0] != x {
        SubsequenceSnoc(sub, s[1..], x);
        assert sub + [x] == [x];
      } else {
        assert (sub + [x])[1..] == [];
      }
    } else {
      assert (sub + [x])[0] == sub[0] && (s + [x])[0] == s[0];
      assert (sub + [x])[1..] == sub[1..] + [x];
      assert (s + [x])[1..] == s[1..] + [x];
      if sub[0] == s[0] {
        SubsequenceSnoc(sub[1..], s[1..], x);
      } else {
        SubsequenceSnoc(sub, s[1..], x);
      }
    }
  }
}
