/** Generic facts about sequences: subsequences, duplicate-freedom, prefixes. */
module Seqs {

  /** `sub` can be obtained from `s` by deleting elements, order kept. */
  predicate IsSubsequence<T(==)>(sub: seq<T>, s: seq<T>)
    decreases |s|
  {
    sub == [] ||
    (s != [] && ((sub[0] == s[0] && IsSubsequence(sub[1..], s[1..])) || IsSubsequence(sub, s[1..])))
  }

  /** No element occurs twice. */
  predicate NoDuplicates<T(==)>(s: seq<T>)
  {
    forall i, j :: 0 <= i < j < |s| ==> s[i] != s[j]
  }

  /** The first `n` elements, or all of them when there are fewer (JavaScript `slice(0, n)`). */
  function Take<T>(s: seq<T>, n: nat): (r: seq<T>)
    ensures |r| <= n && |r| <= |s|
    ensures |s| <= n ==> r == s
    ensures r == s[..|r|]
  {
    if |s| <= n then s else s[..n]
  }

  /** A concatenation splits back into its two parts. */
  lemma AppendSplit<T>(a: seq<T>, b: seq<T>)
    ensures (a + b)[..|a|] == a && (a + b)[|a|..] == b
  {
  }

  /** A prefix of the first part is a prefix of the concatenation. */
  lemma PrefixOfAppend<T>(a: seq<T>, b: seq<T>, n: nat)
    requires n <= |a|
    ensures (a + b)[..n] == a[..n]
  {
  }

  /** Every element of a subsequence is an element of the sequence. */
  lemma {:induction false} SubsequenceMembers<T>(sub: seq<T>, s: seq<T>)
    requires IsSubsequence(sub, s)
    ensures forall x :: x in sub ==> x in s
    decreases |s|
  {
    if sub != [] && s != [] {
      if sub[0] == s[0] && IsSubsequence(sub[1..], s[1..]) {
        SubsequenceMembers(sub[1..], s[1..]);
        forall x | x in sub ensures x in s {
          if x != sub[0] {
            assert x in sub[1..];
          }
        }
      } else {
        SubsequenceMembers(sub, s[1..]);
      }
    }
  }

  /** A prefix of a subsequence is a subsequence too. */
  lemma {:induction false} PrefixOfSubsequence<T>(sub: seq<T>, s: seq<T>, n: nat)
    requires IsSubsequence(sub, s) && n <= |sub|
    ensures IsSubsequence(sub[..n], s)
    decreases |s|
  {
    if n > 0 && s != [] {
      if sub[0] == s[0] && IsSubsequence(sub[1..], s[1..]) {
        PrefixOfSubsequence(sub[1..], s[1..], n - 1);
        assert sub[..n][1..] == sub[1..][..n - 1];
      } else {
        PrefixOfSubsequence(sub, s[1..], n);
      }
    }
  }

  /** A subsequence of a duplicate-free sequence is duplicate-free. */
  lemma {:induction false} SubsequenceNoDuplicates<T>(sub: seq<T>, s: seq<T>)
    requires IsSubsequence(sub, s) && NoDuplicates(s)
    ensures NoDuplicates(sub)
    decreases |s|
  {
    if sub != [] && s != [] {
      assert NoDuplicates(s[1..]);
      if sub[0] == s[0] && IsSubsequence(sub[1..], s[1..]) {
        SubsequenceNoDuplicates(sub[1..], s[1..]);
        SubsequenceMembers(sub[1..], s[1..]);
        assert s[0] !in s[1..];
        forall i, j | 0 <= i < j < |sub| ensures sub[i] != sub[j] {
          if i == 0 {
            assert sub[j] == sub[1..][j - 1];
          } else {
            assert sub[i] == sub[1..][i - 1] && sub[j] == sub[1..][j - 1];
          }
        }
      } else {
        SubsequenceNoDuplicates(sub, s[1..]);
      }
    }
  }
}
