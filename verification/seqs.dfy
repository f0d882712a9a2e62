/** Generic sequence operations the reminder pipeline is assembled from:
    order-preserving filtering, first-occurrence de-duplication, and the
    sub-sequence relation used to say that a stage keeps the relative order
    of whatever it lets through. */
module Seqs {

  /** `idx` picks out, in strictly increasing positions of `b`, the elements
      of `a` one by one. */
  ghost predicate Embeds<T>(idx: seq<int>, a: seq<T>, b: seq<T>) {
    && |idx| == |a|
    && (forall k :: 0 <= k < |idx| ==> 0 <= idx[k] < |b| && a[k] == b[idx[k]])
    && (forall k, l :: 0 <= k < l < |idx| ==> idx[k] < idx[l])
  }

  /** `a` is obtained from `b` by deleting zero or more elements, the rest
      keeping their relative order. */
  ghost predicate IsSubsequence<T>(a: seq<T>, b: seq<T>) {
    exists idx :: Embeds(idx, a, b)
  }

  /** No element occurs twice. */
  predicate Distinct<T(==)>(s: seq<T>) {
    forall i, j :: 0 <= i < j < |s| ==> s[i] != s[j]
  }

  /** Every element of a sub-sequence comes from the sequence it was cut from. */
  lemma SubsequenceMembers<T>(a: seq<T>, b: seq<T>)
    requires IsSubsequence(a, b)
    ensures forall x :: x in a ==> x in b
  {
    var idx :| Embeds(idx, a, b);
    forall x | x in a ensures x in b {
      var k :| 0 <= k < |a| && a[k] == x;
      assert b[idx[k]] == x;
    }
  }

  /** Positions of a sub-sequence in its sequence keep their order. */
  lemma SubsequencePositions<T>(a: seq<T>, b: seq<T>) returns (idx: seq<int>)
    requires IsSubsequence(a, b)
    ensures Embeds(idx, a, b)
  {
    idx :| Embeds(idx, a, b);
  }

  /** Putting the same element in front of both keeps the relation. */
  lemma SubsequenceCons<T>(x: T, a: seq<T>, b: seq<T>)
    requires IsSubsequence(a, b)
    ensures IsSubsequence([x] + a, [x] + b)
  {
    var idx :| Embeds(idx, a, b);
    var idx' := [0] + seq(|idx|, k requires 0 <= k < |idx| => idx[k] + 1);
    assert Embeds(idx', [x] + a, [x] + b);
  }

  /** Putting an element in front of the longer sequence only keeps the relation. */
  lemma SubsequenceSkip<T>(x: T, a: seq<T>, b: seq<T>)
    requires IsSubsequence(a, b)
    ensures IsSubsequence(a, [x] + b)
  {
    var idx :| Embeds(idx, a, b);
    var idx' := seq(|idx|, k requires 0 <= k < |idx| => idx[k] + 1);
    assert Embeds(idx', a, [x] + b);
  }

  /** The empty sequence is a sub-sequence of anything. */
  lemma SubsequenceEmpty<T>(b: seq<T>)
    ensures IsSubsequence([], b)
  {
    assert Embeds([], [], b);
  }

  /** Keeps exactly the elements satisfying `p`; see FilterMultiplicity and
      FilterKeepsOrder for how many copies and in what order. */
  function Filter<T(!new)>(s: seq<T>, p: T -> bool): (r: seq<T>)
    ensures forall x :: x in r <==> x in s && p(x)
    ensures |r| <= |s|
  {
    if s == [] then []
    else
      assert s == [s[0]] + s[1..];
      var rest := Filter(s[1..], p);
      if p(s[0]) then [s[0]] + rest else rest
  }

  /** Filter keeps every copy of what it keeps. */
  lemma {:induction false} FilterMultiplicity<T(!new)>(s: seq<T>, p: T -> bool)
    ensures forall x :: multiset(Filter(s, p))[x] == if p(x) then multiset(s)[x] else 0
  {
    if s != [] {
      assert s == [s[0]] + s[1..];
      FilterMultiplicity(s[1..], p);
    }
  }

  /** Filtering a list none of whose elements qualifies leaves nothing. */
  lemma {:induction false} FilterNone<T(!new)>(s: seq<T>, p: T -> bool)
    requires forall x :: x in s ==> !p(x)
    ensures Filter(s, p) == []
  {
    if s != [] {
      assert s == [s[0]] + s[1..];
      FilterNone(s[1..], p);
    }
  }

  /** What Filter keeps stays in its original relative order. */
  lemma {:induction false} FilterKeepsOrder<T(!new)>(s: seq<T>, p: T -> bool)
    ensures IsSubsequence(Filter(s, p), s)
  {
    if s == [] {
      SubsequenceEmpty(s);
    } else {
      assert s == [s[0]] + s[1..];
      FilterKeepsOrder(s[1..], p);
      if p(s[0]) {
        SubsequenceCons(s[0], Filter(s[1..], p), s[1..]);
      } else {
        SubsequenceSkip(s[0], Filter(s[1..], p), s[1..]);
      }
    }
  }

  /** Position of the first occurrence of `x` in `s`. */
  function FirstIndex<T(==)>(s: seq<T>, x: T): (k: nat)
    requires x in s
    ensures k < |s| && s[k] == x
    ensures x !in s[..k]
  {
    if s[0] == x then 0
    else
      assert s == [s[0]] + s[1..];
      var k := 1 + FirstIndex(s[1..], x);
      assert s[..k] == [s[0]] + s[1..][..k - 1];
      k
  }

  /** The elements of `s` not in `seen`, each once, in the order of their
      first occurrence in `s`. */
  function DedupFrom<T(==,!new)>(s: seq<T>, seen: set<T>): (r: seq<T>)
    ensures Distinct(r)
    ensures forall x :: x in r <==> x in s && x !in seen
    ensures forall i, j :: 0 <= i < j < |r| ==> FirstIndex(s, r[i]) < FirstIndex(s, r[j])
  {
    if s == [] then []
    else
      assert s == [s[0]] + s[1..];
      if s[0] in seen then
        var r := DedupFrom(s[1..], seen);
        FirstIndexShift(s, r);
        r
      else
        var rest := DedupFrom(s[1..], seen + {s[0]});
        FirstIndexShift(s, rest);
        [s[0]] + rest
  }

  /** Elements other than the head are first found one position later in `s`
      than in its tail. */
  lemma FirstIndexShift<T>(s: seq<T>, r: seq<T>)
    requires s != []
    requires forall x :: x in r ==> x in s[1..] && x != s[0]
    ensures forall i :: 0 <= i < |r| ==> r[i] in s && FirstIndex(s, r[i]) == 1 + FirstIndex(s[1..], r[i])
  {
    assert s == [s[0]] + s[1..];
    forall i | 0 <= i < |r|
      ensures r[i] in s && FirstIndex(s, r[i]) == 1 + FirstIndex(s[1..], r[i])
    {
      assert r[i] in r;
      assert r[i] in s[1..];
    }
  }

  /** The distinct elements of `s` in first-occurrence order. */
  function Dedup<T(==,!new)>(s: seq<T>): (r: seq<T>)
    ensures Distinct(r)
    ensures forall x :: x in r <==> x in s
    ensures forall i, j :: 0 <= i < j < |r| ==> FirstIndex(s, r[i]) < FirstIndex(s, r[j])
  {
    DedupFrom(s, {})
  }

  /** De-duplicating a list without repeats, none of whose elements was seen
      before, changes nothing. */
  lemma {:induction false} DedupFromDistinct<T(!new)>(s: seq<T>, seen: set<T>)
    requires Distinct(s)
    requires forall x :: x in s ==> x !in seen
    ensures DedupFrom(s, seen) == s
  {
    if s != [] {
      assert s == [s[0]] + s[1..];
      assert Distinct(s[1..]) by {
        forall i, j | 0 <= i < j < |s[1..]| ensures s[1..][i] != s[1..][j] {
          assert s[1..][i] == s[i + 1] && s[1..][j] == s[j + 1];
        }
      }
      assert s[0] !in s[1..] by {
        forall k | 0 <= k < |s[1..]| ensures s[1..][k] != s[0] {
          assert s[1..][k] == s[k + 1];
        }
      }
      DedupFromDistinct(s[1..], seen + {s[0]});
    }
  }

  /** A list has no repeats exactly when no element occurs more than once in
      its multiset. */
  lemma {:induction false} DistinctMultiplicity<T>(s: seq<T>)
    ensures Distinct(s) <==> forall x :: multiset(s)[x] <= 1
  {
    if Distinct(s) {
      forall x ensures multiset(s)[x] <= 1 {
        DistinctAtMostOnce(s, x);
      }
    }
    if forall x :: multiset(s)[x] <= 1 {
      forall i, j | 0 <= i < j < |s| ensures s[i] != s[j] {
        assert s == s[..j] + s[j..];
        assert multiset(s) == multiset(s[..j]) + multiset(s[j..]);
        assert s[i] in multiset(s[..j]);
        assert s[j] in multiset(s[j..]);
        assert multiset(s)[s[j]] <= 1;
        assert multiset(s)[s[j]] == multiset(s[..j])[s[j]] + multiset(s[j..])[s[j]];
      }
    }
  }

  lemma {:induction false} DistinctAtMostOnce<T>(s: seq<T>, x: T)
    requires Distinct(s)
    ensures multiset(s)[x] <= 1
  {
    if s != [] {
      assert s == [s[0]] + s[1..];
      assert Distinct(s[1..]) by {
        forall i, j | 0 <= i < j < |s[1..]| ensures s[1..][i] != s[1..][j] {
          assert s[1..][i] == s[i + 1] && s[1..][j] == s[j + 1];
        }
      }
      DistinctAtMostOnce(s[1..], x);
      if x == s[0] {
        assert x !in s[1..] by {
          forall k | 0 <= k < |s[1..]| ensures s[1..][k] != x {
            assert s[1..][k] == s[k + 1];
          }
        }
      }
    }
  }

  /** A list whose every element occurs at most as often as in a list
      without repeats has no repeats either. */
  lemma FewerCopiesDistinct<T>(a: seq<T>, b: seq<T>)
    requires Distinct(b)
    requires forall x :: multiset(a)[x] <= multiset(b)[x]
    ensures Distinct(a)
  {
    DistinctMultiplicity(b);
    DistinctMultiplicity(a);
  }
}
