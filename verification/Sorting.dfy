// Insertion sort by a total order, standing for Python's sorted().
module Sorting {
  ghost predicate TotalOrder<T(!new)>(leq: (T, T) -> bool) {
    && (forall a, b :: leq(a, b) || leq(b, a))
    && (forall a, b :: leq(a, b) && leq(b, a) ==> a == b)
    && (forall a, b, c :: leq(a, b) && leq(b, c) ==> leq(a, c))
  }

  ghost predicate SortedBy<T>(s: seq<T>, leq: (T, T) -> bool) {
    forall i, j :: 0 <= i < j < |s| ==> leq(s[i], s[j])
  }

  function Insert<T>(s: seq<T>, x: T, leq: (T, T) -> bool): seq<T> {
    if s == [] || leq(x, s[0]) then [x] + s else [s[0]] + Insert(s[1..], x, leq)
  }

  function Sort<T>(s: seq<T>, leq: (T, T) -> bool): seq<T> {
    if s == [] then [] else Insert(Sort(s[1..], leq), s[0], leq)
  }

  lemma {:induction false} InsertAdds<T(!new)>(s: seq<T>, x: T, leq: (T, T) -> bool)
    ensures multiset(Insert(s, x, leq)) == multiset(s) + multiset{x}
  {
    if s != [] && !leq(x, s[0]) {
      InsertAdds(s[1..], x, leq);
      assert s == [s[0]] + s[1..];
    }
  }

  // Putting a lower bound of a sorted sequence before it keeps it sorted.
  lemma PrependKeepsOrder<T>(x: T, s: seq<T>, leq: (T, T) -> bool)
    requires SortedBy(s, leq) && forall y :: y in s ==> leq(x, y)
    ensures SortedBy([x] + s, leq)
  {
    var r := [x] + s;
    forall i, j | 0 <= i < j < |r| ensures leq(r[i], r[j]) {
      assert r[j] == s[j - 1] && (i > 0 ==> r[i] == s[i - 1]);
    }
  }

  lemma {:induction false} InsertKeepsOrder<T(!new)>(s: seq<T>, x: T, leq: (T, T) -> bool)
    requires TotalOrder(leq) && SortedBy(s, leq)
    ensures SortedBy(Insert(s, x, leq), leq)
  {
    if s == [] || leq(x, s[0]) {
      forall y | y in s ensures leq(x, y) {
        var k :| 0 <= k < |s| && s[k] == y;
        assert k > 0 ==> leq(s[0], s[k]);
      }
      PrependKeepsOrder(x, s, leq);
    } else {
      var tail := s[1..];
      InsertKeepsOrder(tail, x, leq);
      InsertAdds(tail, x, leq);
      forall y | y in Insert(tail, x, leq) ensures leq(s[0], y) {
        assert y in multiset(Insert(tail, x, leq));
        if y != x {
          var k :| 0 <= k < |tail| && tail[k] == y;
          assert leq(s[0], s[k + 1]);
        }
      }
      PrependKeepsOrder(s[0], Insert(tail, x, leq), leq);
    }
  }

  /** Sorting rearranges and orders. */
  lemma {:induction false} SortKeeps<T(!new)>(s: seq<T>, leq: (T, T) -> bool)
    ensures multiset(Sort(s, leq)) == multiset(s) && |Sort(s, leq)| == |s|
    ensures TotalOrder(leq) ==> SortedBy(Sort(s, leq), leq)
  {
    hide Insert, SortedBy, TotalOrder;
    if s == [] {
      NothingIsSorted(leq);
    } else {
      SortKeeps(s[1..], leq);
      InsertAdds(Sort(s[1..], leq), s[0], leq);
      if TotalOrder(leq) {
        InsertKeepsOrder(Sort(s[1..], leq), s[0], leq);
      }
      assert s == [s[0]] + s[1..];
    }
    assert |multiset(Sort(s, leq))| == |multiset(s)|;
  }

  lemma NothingIsSorted<T>(leq: (T, T) -> bool)
    ensures SortedBy([], leq)
  {
  }

  // The head of a permutation occurs in the other sequence, and taking both out leaves a permutation.
  lemma PermutationHead<T>(a: seq<T>, b: seq<T>) returns (j: nat)
    requires multiset(a) == multiset(b) && a != []
    ensures j < |b| && b[j] == a[0]
    ensures b == b[..j] + [b[j]] + b[j + 1..]
    ensures multiset(a[1..]) == multiset(b[..j] + b[j + 1..])
  {
    assert a[0] in multiset(b);
    j :| 0 <= j < |b| && b[j] == a[0];
    assert b == b[..j] + [b[j]] + b[j + 1..];
    assert a == [a[0]] + a[1..];
    calc {
      multiset(b);
      multiset(b[..j] + [b[j]] + b[j + 1..]);
      multiset(b[..j]) + multiset{a[0]} + multiset(b[j + 1..]);
      multiset(b[..j] + b[j + 1..]) + multiset{a[0]};
    }
    assert multiset(b[..j] + b[j + 1..]) == multiset(b) - multiset{a[0]};
    assert multiset(a[1..]) == multiset(a) - multiset{a[0]};
  }
}
