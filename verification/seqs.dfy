/** Counting, distinctness and duplicate detection over sequences, the table
    operations the validators are built from (`filter(...).height` and
    `group_by(...).agg(count).filter(count > 1).height`). */
module Seqs {

  /** Number of elements of `s` satisfying `p`: the height of `s` filtered by `p`. */
  function Count<T>(s: seq<T>, p: T -> bool): (n: nat)
    ensures n <= |s|
  {
    if |s| == 0 then 0 else (if p(s[0]) then 1 else 0) + Count(s[1..], p)
  }

  /** A filter keeps no row exactly when no row satisfies its predicate. */
  lemma {:induction false} CountZeroIff<T>(s: seq<T>, p: T -> bool)
    ensures Count(s, p) == 0 <==> forall i :: 0 <= i < |s| ==> !p(s[i])
  {
    if |s| > 0 {
      CountZeroIff(s[1..], p);
      if Count(s, p) == 0 {
        forall i | 0 <= i < |s| ensures !p(s[i]) {
          if i > 0 { assert s[i] == s[1..][i - 1]; }
        }
      } else if !p(s[0]) {
        var i :| 0 <= i < |s[1..]| && p(s[1..][i]);
        assert p(s[i + 1]);
      }
    }
  }

  /** No two positions of `s` hold the same element. */
  predicate Distinct<K(==)>(s: seq<K>) {
    forall i, j :: 0 <= i < j < |s| ==> s[i] != s[j]
  }

  /** The keys occurring more than once in `s`: the groups of a group-by whose
      count exceeds one. */
  function Duplicated<K(==)>(s: seq<K>): set<K> {
    set k | k in multiset(s) && multiset(s)[k] > 1
  }

  /** A sequence without repeated elements holds each element at most once. */
  lemma {:induction false} DistinctOccursOnce<K>(s: seq<K>, k: K)
    requires Distinct(s)
    ensures multiset(s)[k] <= 1
  {
    if |s| > 0 {
      assert s == [s[0]] + s[1..];
      assert Distinct(s[1..]) by {
        forall i, j | 0 <= i < j < |s[1..]| ensures s[1..][i] != s[1..][j] {
          assert s[1..][i] == s[i + 1] && s[1..][j] == s[j + 1];
        }
      }
      DistinctOccursOnce(s[1..], k);
      if k == s[0] {
        assert s[0] !in s[1..] by {
          forall i | 0 <= i < |s[1..]| ensures s[1..][i] != s[0] {
            assert s[1..][i] == s[i + 1];
          }
        }
        assert multiset(s[1..])[k] == 0;
      }
      assert multiset(s) == multiset{s[0]} + multiset(s[1..]);
    }
  }

  /** A repeated element occurs at least twice. */
  lemma RepeatOccursTwice<K>(s: seq<K>, i: int, j: int)
    requires 0 <= i < j < |s| && s[i] == s[j]
    ensures multiset(s)[s[i]] >= 2
  {
    assert s == s[..j] + s[j..];
    assert s[i] == s[..j][i];
    assert s[j] == s[j..][0];
    assert multiset(s) == multiset(s[..j]) + multiset(s[j..]);
  }

  /** The duplicate count is zero exactly when the sequence is free of repeats. */
  lemma DuplicatedEmptyIff<K>(s: seq<K>)
    ensures |Duplicated(s)| == 0 <==> Distinct(s)
  {
    if Distinct(s) {
      forall k | k in Duplicated(s) ensures false {
        DistinctOccursOnce(s, k);
      }
      assert Duplicated(s) == {};
    } else {
      var i, j :| 0 <= i < j < |s| && s[i] == s[j];
      RepeatOccursTwice(s, i, j);
      assert s[i] in Duplicated(s);
    }
  }
}
