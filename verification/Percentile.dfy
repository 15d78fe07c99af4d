// The windowed 95th percentile of a canary arm, and the nearest-rank
// percentile of the offline evaluation. Models _Arm.observation in
// src/llm_router/canary.py and percentile in src/llm_router/evaluation.py.
module Percentile {
  import Sorting

  predicate Leq(a: real, b: real) {
    a <= b
  }

  function Ordered(window: seq<real>): seq<real> {
    Sorting.Sort(window, Leq)
  }

  // The index the arm reads, from an integer ceiling written with floor division.
  function P95Index(n: int): int {
    var index := -((-n * 95) / 100) - 1;
    if index > 0 then index else 0
  }

  lemma P95IndexInRange(n: int)
    requires n > 0
    ensures 0 <= P95Index(n) < n
    ensures (P95Index(n) + 1) * 100 >= 95 * n
    ensures P95Index(n) * 100 < 95 * n
  {
  }

  function P95(window: seq<real>): real
    requires window != []
  {
    Sorting.SortKeeps(window, Leq);
    P95IndexInRange(|window|);
    Ordered(window)[P95Index(|window|)]
  }

  function AtMost(s: seq<real>, bound: real): nat {
    if s == [] then 0 else (if s[0] <= bound then 1 else 0) + AtMost(s[1..], bound)
  }

  function Below(s: seq<real>, bound: real): nat {
    if s == [] then 0 else (if s[0] < bound then 1 else 0) + Below(s[1..], bound)
  }

  lemma {:induction false} InsertCounts(s: seq<real>, x: real, bound: real)
    ensures AtMost(Sorting.Insert(s, x, Leq), bound) == AtMost(s, bound) + (if x <= bound then 1 else 0)
    ensures Below(Sorting.Insert(s, x, Leq), bound) == Below(s, bound) + (if x < bound then 1 else 0)
  {
    if s != [] && !Leq(x, s[0]) {
      InsertCounts(s[1..], x, bound);
      var r := Sorting.Insert(s, x, Leq);
      assert r[1..] == Sorting.Insert(s[1..], x, Leq);
    } else {
      assert ([x] + s)[1..] == s;
    }
  }

  lemma {:induction false} SortCounts(s: seq<real>, bound: real)
    ensures AtMost(Ordered(s), bound) == AtMost(s, bound)
    ensures Below(Ordered(s), bound) == Below(s, bound)
  {
    if s != [] {
      SortCounts(s[1..], bound);
      InsertCounts(Ordered(s[1..]), s[0], bound);
    }
  }

  lemma {:induction false} CountsOfOrdered(s: seq<real>, at: nat, bound: real)
    requires at < |s| && Sorting.SortedBy(s, Leq) && s[at] == bound
    ensures AtMost(s, bound) >= at + 1
    ensures Below(s, bound) <= at
  {
    var rest := s[1..];
    forall i, j | 0 <= i < j < |rest| ensures Leq(rest[i], rest[j]) {
      assert Leq(s[i + 1], s[j + 1]);
    }
    if at == 0 {
      forall i | 0 <= i < |s| ensures s[i] >= bound {
        if i > 0 { assert Leq(s[0], s[i]); }
      }
      NoneBelow(s, bound);
    } else {
      assert Leq(s[0], s[at]);
      CountsOfOrdered(rest, at - 1, bound);
    }
  }

  lemma {:induction false} NoneBelow(s: seq<real>, bound: real)
    requires forall i :: 0 <= i < |s| ==> s[i] >= bound
    ensures Below(s, bound) == 0
  {
    if s != [] {
      NoneBelow(s[1..], bound);
    }
  }

  lemma LeqIsTotal()
    ensures Sorting.TotalOrder(Leq)
  {
  }

  /** The reported value is one of the window's: at least 95% of the window is at or
      below it, and fewer than 95% lie strictly below. */
  lemma P95Splits(window: seq<real>)
    requires window != []
    ensures P95(window) in window
    ensures AtMost(window, P95(window)) * 100 >= 95 * |window|
    ensures Below(window, P95(window)) * 100 < 95 * |window|
  {
    var ordered, at := Ordered(window), P95Index(|window|);
    LeqIsTotal();
    Sorting.SortKeeps(window, Leq);
    P95IndexInRange(|window|);
    CountsOfOrdered(ordered, at, ordered[at]);
    SortCounts(window, ordered[at]);
    assert ordered[at] in multiset(ordered);
  }

  // math.ceil.
  function Ceiling(x: real): int {
    -((-x).Floor)
  }

  function Rank(fraction: real, n: nat): (r: nat)
    requires n > 0 && 0.0 <= fraction <= 1.0
    ensures 1 <= r <= n
  {
    var rank := Ceiling(fraction * n as real);
    assert fraction * n as real <= n as real by { ScaledDown(fraction, n as real); }
    if rank > 1 then rank else 1
  }

  lemma ScaledDown(fraction: real, x: real)
    requires 0.0 <= fraction <= 1.0 && x >= 0.0
    ensures fraction * x <= x
  {
  }

  function NearestRank(values: seq<real>, fraction: real): real
    requires values != [] && 0.0 <= fraction <= 1.0
  {
    Sorting.SortKeeps(values, Leq);
    Ordered(values)[Rank(fraction, |values|) - 1]
  }

  lemma RankOfP95(n: nat)
    requires n > 0
    ensures Rank(0.95, n) == P95Index(n) + 1
  {
    P95IndexInRange(n);
    var q := P95Index(n) + 1;
    var x := 0.95 * n as real;
    assert 100.0 * x == (95 * n) as real;
    assert (q * 100) as real >= (95 * n) as real > ((q - 1) * 100) as real;
    assert (q - 1) as real < x <= q as real;
    assert Ceiling(x) == q;
  }

  /** Over the reals the arm's integer index is the nearest rank for 95%. */
  lemma P95IsNearestRank(window: seq<real>)
    requires window != []
    ensures P95(window) == NearestRank(window, 0.95)
  {
    RankOfP95(|window|);
  }
}
