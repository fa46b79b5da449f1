/** Facts about sequences that the other modules share. */
module Sequences {

  ghost predicate NoDuplicates<T>(s: seq<T>) {
    forall i, j :: 0 <= i < j < |s| ==> s[i] != s[j]
  }

  lemma NoDuplicatesConcat<T>(s: seq<T>, t: seq<T>)
    ensures NoDuplicates(s + t) <==>
            NoDuplicates(s) && NoDuplicates(t) && forall x :: x in s ==> x !in t
  {
    if NoDuplicates(s) && NoDuplicates(t) && forall x :: x in s ==> x !in t {
      forall i, j | 0 <= i < j < |s + t| ensures (s + t)[i] != (s + t)[j] {
        if i < |s| <= j { assert s[i] in s; }
      }
    }
    if NoDuplicates(s + t) {
      forall i, j | 0 <= i < j < |t| ensures t[i] != t[j] {
        assert (s + t)[|s| + i] != (s + t)[|s| + j];
      }
      forall i, j | 0 <= i < j < |s| ensures s[i] != s[j] {
        assert (s + t)[i] != (s + t)[j];
      }
      forall i, j | 0 <= i < |s| && 0 <= j < |t| ensures s[i] != t[j] {
        assert (s + t)[i] != (s + t)[|s| + j];
      }
    }
  }

  lemma NoDuplicatesOnce<T>(s: seq<T>, k: nat)
    requires NoDuplicates(s) && k < |s|
    ensures multiset(s)[s[k]] == 1
  {
    assert s == s[..k] + [s[k]] + s[k + 1..];
    assert s[k] !in s[..k] && s[k] !in s[k + 1..];
  }

  lemma NoDuplicatesPermutation<T>(s: seq<T>, t: seq<T>)
    requires NoDuplicates(s) && multiset(s) == multiset(t)
    ensures NoDuplicates(t)
    ensures forall x :: x in t <==> x in s
  {
    assert forall x :: x in t <==> x in multiset(t);
    assert forall x :: x in s <==> x in multiset(s);
    forall i, j | 0 <= i < j < |t| ensures t[i] != t[j] {
      if t[i] == t[j] {
        assert t == t[..i] + [t[i]] + t[i + 1..j] + [t[j]] + t[j + 1..];
        assert multiset(t)[t[i]] >= 2;
        var k :| 0 <= k < |s| && s[k] == t[i];
        NoDuplicatesOnce(s, k);
      }
    }
  }

  lemma InsertMultiset<T>(s: seq<T>, x: T, k: nat)
    requires k <= |s|
    ensures multiset(s[..k] + [x] + s[k..]) == multiset(s + [x])
  {
    assert s == s[..k] + s[k..];
  }

  lemma PrefixStep<T>(s: seq<T>, n: nat)
    requires n < |s|
    ensures s[..n + 1] == s[..n] + [s[n]]
  {
  }

  function Flatten<T>(batches: seq<seq<T>>): seq<T> {
    if batches == [] then [] else Flatten(batches[..|batches| - 1]) + batches[|batches| - 1]
  }

  lemma FlattenAppend<T>(batches: seq<seq<T>>, b: seq<T>)
    ensures Flatten(batches + [b]) == Flatten(batches) + b
  {
    assert (batches + [b])[..|batches|] == batches;
  }

  function Sum(xs: seq<nat>): nat {
    if xs == [] then 0 else Sum(xs[..|xs| - 1]) + xs[|xs| - 1]
  }

  lemma {:induction false} SumZeroIff(xs: seq<nat>)
    ensures Sum(xs) == 0 <==> forall i :: 0 <= i < |xs| ==> xs[i] == 0
  {
    if xs == [] {
    } else {
      SumZeroIff(xs[..|xs| - 1]);
      assert forall i :: 0 <= i < |xs| - 1 ==> xs[i] == xs[..|xs| - 1][i];
    }
  }

  lemma SplitLast<T>(s: seq<T>)
    requires s != []
    ensures s == s[..|s| - 1] + [s[|s| - 1]]
  {
  }

  lemma SwapForward<T>(s: seq<T>, x: T, i: nat)
    requires 0 < i <= |s|
    ensures var t := s[..i] + [x] + s[i..];
            t[i - 1] == s[i - 1] && t[i] == x
            && t[i - 1 := x][i := s[i - 1]] == s[..i - 1] + [x] + s[i - 1..]
  {
  }

  lemma RemoveMultiset<T>(s: seq<T>, i: nat)
    requires i < |s|
    ensures multiset(s) == multiset(s[..i] + s[i + 1..]) + multiset{s[i]}
  {
    assert s == s[..i] + [s[i]] + s[i + 1..];
  }

  lemma CancelOne<T>(a: multiset<T>, b: multiset<T>, x: T)
    requires a + multiset{x} == b + multiset{x}
    ensures a == b
  {
    assert a == a + multiset{x} - multiset{x};
    assert b == b + multiset{x} - multiset{x};
  }

  /** Where a rearrangement keeps the first element, and what remains on both sides. */
  lemma PermutationIndex<T>(s: seq<T>, t: seq<T>) returns (i: nat)
    requires s != [] && multiset(s) == multiset(t)
    ensures i < |t| && t[i] == s[0]
    ensures multiset(s[1..]) == multiset(t[..i] + t[i + 1..])
  {
    PermutationMembers(s, t, s[0]);
    i :| 0 <= i < |t| && t[i] == s[0];
    RemoveMultiset(t, i);
    assert s == [s[0]] + s[1..];
    CancelOne(multiset(s[1..]), multiset(t[..i] + t[i + 1..]), s[0]);
  }

  lemma SubsetSize<T>(a: set<T>, b: set<T>)
    requires a <= b
    ensures |a| <= |b|
  {
    assert b == a + (b - a);
  }

  lemma PermutationMembers<T>(s: seq<T>, t: seq<T>, x: T)
    requires multiset(s) == multiset(t)
    ensures x in s <==> x in t
  {
    assert x in s <==> x in multiset(s);
    assert x in t <==> x in multiset(t);
  }
}
