/**
 Circular search over a sequence of marks: the scan of find_tp_trans (app/node.c) and the scan
 of generate_init_friends (app/main.c).  Positions are also counted "unrolled", without the
 reduction modulo the length, so that one lap around the sequence is an interval.
 */
module Cyclic {
  import opened Sums

  function Bit(b: bool): int {
    if b then 1 else 0
  }

  function Marked(marks: seq<bool>): nat {
    SumAtLeast(marks, Bit);
    SumOf(marks, Bit)
  }

  predicate SomeMark(marks: seq<bool>) {
    exists i :: 0 <= i < |marks| && marks[i]
  }

  /** x % n by repeated subtraction, which keeps the proofs linear. */
  function Wrap(x: nat, n: nat): (r: nat)
    requires n > 0
    ensures r < n
  {
    if x < n then x else Wrap(x - n, n)
  }

  lemma {:induction false} WrapIsMod(x: nat, n: nat)
    requires n > 0
    ensures Wrap(x, n) == x % n
    decreases x
  {
    if x >= n {
      WrapIsMod(x - n, n);
      ModStep(x - n, n);
    }
  }

  lemma ModStep(x: nat, n: nat)
    requires n > 0
    ensures (x + n) % n == x % n
  {
    var k, r := (x + n) / n - x / n - 1, x % n - (x + n) % n;
    assert n * k == r by {
      assert x == n * (x / n) + x % n;
      assert x + n == n * ((x + n) / n) + (x + n) % n;
      assert n * k == n * ((x + n) / n) - n * (x / n) - n;
    }
    if k > 0 { MulAtLeast(n, k); }
  }

  lemma MulAtLeast(n: nat, k: nat)
    requires k >= 1
    ensures n * k >= n
  {
    assert n * k == n * (k - 1) + n;
  }

  lemma {:induction false} WrapPlus(x: nat, d: nat, n: nat)
    requires n > 0
    ensures Wrap(Wrap(x, n) + d, n) == Wrap(x + d, n)
    decreases x
  {
    if x >= n {
      WrapPlus(x - n, d, n);
    }
  }

  /** The mark at an unrolled position. */
  predicate At(marks: seq<bool>, x: nat)
    requires |marks| > 0
  {
    marks[Wrap(x, |marks|)]
  }

  /** Number of unmarked places from off on, stopping at the first mark or after left places. */
  function Gap(marks: seq<bool>, off: nat, left: nat): (d: nat)
    requires |marks| > 0
    ensures d <= left
    ensures forall x :: off <= x < off + d ==> !At(marks, x)
    ensures d < left ==> At(marks, off + d)
    decreases left
  {
    if left == 0 || At(marks, off) then 0 else Gap(marks, off + 1, left - 1) + 1
  }

  /** The first marked position at or after off in cyclic order, or -1 when nothing is marked. */
  function Find(marks: seq<bool>, off: nat): (p: int)
    ensures -1 <= p < |marks|
  {
    if |marks| == 0 then -1
    else
      var d := Gap(marks, off, |marks|);
      if d == |marks| then -1 else Wrap(off + d, |marks|)
  }

  /** Distance from off (at most n) forward to position p, within one lap. */
  function Dist(n: nat, off: nat, p: nat): nat
    requires off <= n && p < n
  {
    if p >= off then p - off else p + n - off
  }

  lemma DistBack(n: nat, off: nat, p: nat)
    requires off <= n && p < n
    ensures Dist(n, off, p) < n && Wrap(off + Dist(n, off, p), n) == p
  {
  }

  lemma DistForward(n: nat, off: nat, d: nat)
    requires off <= n && d < n
    ensures Dist(n, off, Wrap(off + d, n)) == d
  {
  }

  /** Find yields a marked position and passes over none; it misses only when nothing is marked. */
  lemma FindFirst(marks: seq<bool>, off: nat)
    requires off <= |marks|
    ensures Find(marks, off) == -1 <==> !SomeMark(marks)
    ensures Find(marks, off) != -1 ==>
              var p := Find(marks, off);
              && marks[p]
              && forall j :: 0 <= j < |marks| && marks[j] ==> Dist(|marks|, off, p) <= Dist(|marks|, off, j)
  {
    var n := |marks|;
    if n > 0 {
      var d := Gap(marks, off, n);
      forall j | 0 <= j < n && marks[j]
        ensures d <= Dist(n, off, j) < n
      {
        DistBack(n, off, j);
        assert At(marks, off + Dist(n, off, j));
      }
      if d < n {
        DistForward(n, off, d);
      }
    }
  }

  /** A scan that has met no mark from off on, and stands at one or has gone all the way round. */
  lemma FindByScan(marks: seq<bool>, off: nat, d: nat)
    requires |marks| > 0 && d <= |marks|
    requires forall x :: off <= x < off + d ==> !At(marks, x)
    requires d < |marks| ==> At(marks, off + d)
    ensures Find(marks, off) == if d == |marks| then -1 else Wrap(off + d, |marks|)
  {
    hide Wrap;
    assert Gap(marks, off, |marks|) == d;
  }

  // ---- no starvation ----

  /** One search from behind cursor either takes j or comes strictly closer to it. */
  lemma FindCloser(marks: seq<bool>, cursor: int, j: nat)
    requires j < |marks| && marks[j] && -1 <= cursor < |marks|
    ensures 0 <= Find(marks, cursor + 1) < |marks|
    ensures Find(marks, cursor + 1) == j
            || Dist(|marks|, Find(marks, cursor + 1) + 1, j) < Dist(|marks|, cursor + 1, j)
  {
    FindFirst(marks, cursor + 1);
  }

  /** Successive searches over a pool that may change in between: cursors[k + 1] is the k-th result. */
  predicate SearchRun(pools: seq<seq<bool>>, cursors: seq<int>, n: nat) {
    && |cursors| == |pools| + 1
    && (forall k :: 0 <= k < |pools| ==> |pools[k]| == n)
    && -1 <= cursors[0] < n
    && forall k :: 0 <= k < |pools| ==>
                     -1 <= cursors[k] && cursors[k + 1] == Find(pools[k], cursors[k] + 1)
  }

  /** A place that stays marked through n searches is found by one of them. */
  lemma NoStarvation(pools: seq<seq<bool>>, cursors: seq<int>, n: nat, j: nat) returns (k: nat)
    requires j < n && SearchRun(pools, cursors, n) && |pools| >= n
    requires forall i :: 0 <= i < n ==> pools[i][j]
    ensures k < n && cursors[k + 1] == j
  {
    k := StarvationStep(pools, cursors, n, j, 0);
  }

  lemma {:induction false} StarvationStep(pools: seq<seq<bool>>, cursors: seq<int>, n: nat, j: nat, i: nat)
      returns (k: nat)
    requires j < n && SearchRun(pools, cursors, n) && |pools| >= n
    requires forall i :: 0 <= i < n ==> pools[i][j]
    requires i < n && -1 <= cursors[i] < n && Dist(n, cursors[i] + 1, j) < n - i
    ensures k < n && cursors[k + 1] == j
    decreases n - i
  {
    FindCloser(pools[i], cursors[i], j);
    if cursors[i + 1] == j {
      k := i;
    } else {
      k := StarvationStep(pools, cursors, n, j, i + 1);
    }
  }

  // ---- counting marks along a lap ----

  /** Marks at unrolled positions a to b - 1. */
  function CountIn(marks: seq<bool>, a: nat, b: nat): nat
    requires |marks| > 0 && a <= b
    decreases b - a
  {
    if a == b then 0 else CountIn(marks, a, b - 1) + Bit(At(marks, b - 1))
  }

  lemma {:induction false} CountSplit(marks: seq<bool>, a: nat, b: nat, c: nat)
    requires |marks| > 0 && a <= b <= c
    ensures CountIn(marks, a, c) == CountIn(marks, a, b) + CountIn(marks, b, c)
    decreases c - b
  {
    if b < c {
      CountSplit(marks, a, b, c - 1);
    }
  }

  lemma {:induction false} CountLap(marks: seq<bool>, a: nat)
    requires |marks| > 0
    ensures CountIn(marks, a, a + |marks|) == Marked(marks)
    decreases a
  {
    var n := |marks|;
    if a == 0 {
      CountPrefix(marks, n);
      assert marks[..n] == marks;
    } else {
      CountLap(marks, a - 1);
      CountSplit(marks, a - 1, a, a - 1 + n);
      assert CountIn(marks, a - 1, a) == CountIn(marks, a - 1, a - 1) + Bit(At(marks, a - 1));
      assert CountIn(marks, a, a + n) == CountIn(marks, a, a + n - 1) + Bit(At(marks, a + n - 1));
    }
  }

  lemma {:induction false} CountPrefix(marks: seq<bool>, k: nat)
    requires k <= |marks| && |marks| > 0
    ensures CountIn(marks, 0, k) == SumOf(marks[..k], Bit)
  {
    if k > 0 {
      CountPrefix(marks, k - 1);
      assert marks[..k][..k - 1] == marks[..k - 1];
    }
  }

  lemma {:induction false} CountNone(marks: seq<bool>, a: nat, d: nat)
    requires |marks| > 0
    requires forall x :: a <= x < a + d ==> !At(marks, x)
    ensures CountIn(marks, a, a + d) == 0
    decreases d
  {
    if d > 0 {
      CountNone(marks, a, d - 1);
    }
  }

  lemma SomeCount(marks: seq<bool>)
    ensures Marked(marks) >= 0
    ensures SomeMark(marks) <==> Marked(marks) > 0
    ensures Marked(marks) <= |marks|
    ensures (forall i :: 0 <= i < |marks| ==> marks[i]) <==> Marked(marks) == |marks|
  {
    if marks != [] {
      SomeCount(marks[..|marks| - 1]);
    }
  }

  // ---- successive picks over unchanging marks ----

  function LastOf(cursor: int, ps: seq<int>): int {
    if ps == [] then cursor else ps[|ps| - 1]
  }

  /** k searches, each starting one place behind the result of the previous one. */
  function Picks(marks: seq<bool>, cursor: int, k: nat): (ps: seq<int>)
    requires cursor >= -1
    ensures |ps| == k && LastOf(cursor, ps) >= -1
  {
    if k == 0 then []
    else
      var prev := Picks(marks, cursor, k - 1);
      prev + [Find(marks, LastOf(cursor, prev) + 1)]
  }

  /** Unrolled position of the k-th mark at or after off. */
  function Spot(marks: seq<bool>, off: nat, k: nat): nat
    requires |marks| > 0
    decreases k
  {
    var from := if k == 0 then off else Spot(marks, off, k - 1) + 1;
    from + Gap(marks, from, |marks|)
  }

  lemma GapReduce(marks: seq<bool>, x: nat, left: nat)
    requires |marks| > 0
    ensures Gap(marks, Wrap(x, |marks|) + 1, left) == Gap(marks, x + 1, left)
  {
    WrapPlus(x, 1, |marks|);
    GapAlike(marks, Wrap(x, |marks|) + 1, x + 1, left);
  }

  lemma {:induction false} GapAlike(marks: seq<bool>, x: nat, y: nat, left: nat)
    requires |marks| > 0 && Wrap(x, |marks|) == Wrap(y, |marks|)
    ensures Gap(marks, x, left) == Gap(marks, y, left)
    decreases left
  {
    if left > 0 {
      WrapPlus(x, 1, |marks|);
      WrapPlus(y, 1, |marks|);
      GapAlike(marks, x + 1, y + 1, left - 1);
    }
  }

  lemma GapInLap(marks: seq<bool>, off: nat)
    requires SomeMark(marks)
    ensures Gap(marks, off, |marks|) < |marks|
  {
    CountLap(marks, off);
    SomeCount(marks);
    if Gap(marks, off, |marks|) == |marks| {
      CountNone(marks, off, |marks|);
    }
  }

  lemma {:induction false} PickPrefix(marks: seq<bool>, cursor: int, k: nat, j: nat)
    requires cursor >= -1 && j < k
    ensures Picks(marks, cursor, k)[j] == Find(marks, LastOf(cursor, Picks(marks, cursor, j)) + 1)
  {
    hide Find;
    if j < k - 1 {
      PickPrefix(marks, cursor, k - 1, j);
    }
  }

  lemma FindUnrolled(marks: seq<bool>, x: nat)
    requires SomeMark(marks)
    ensures Find(marks, x) == Wrap(x + Gap(marks, x, |marks|), |marks|)
  {
    GapInLap(marks, x);
  }

  lemma FindFromReduced(marks: seq<bool>, x: nat)
    requires SomeMark(marks)
    ensures Find(marks, Wrap(x, |marks|) + 1) == Wrap(x + 1 + Gap(marks, x + 1, |marks|), |marks|)
  {
    GapReduce(marks, x, |marks|);
    GapInLap(marks, x + 1);
    WrapPlus(x, 1 + Gap(marks, x + 1, |marks|), |marks|);
  }

  /** The picks are the spots, reduced. */
  lemma {:induction false} PickIsSpot(marks: seq<bool>, cursor: int, k: nat, j: nat)
    requires cursor >= -1 && SomeMark(marks) && j < k
    ensures Picks(marks, cursor, k)[j] == Wrap(Spot(marks, cursor + 1, j), |marks|)
    decreases j
  {
    hide Find, Gap, Wrap;
    PickPrefix(marks, cursor, k, j);
    if j == 0 {
      FindUnrolled(marks, cursor + 1);
    } else {
      PickIsSpot(marks, cursor, j, j - 1);
      FindFromReduced(marks, Spot(marks, cursor + 1, j - 1));
    }
  }

  /** There are exactly k + 1 marks up to the k-th spot, which is itself marked. */
  lemma {:induction false} SpotCount(marks: seq<bool>, off: nat, k: nat)
    requires SomeMark(marks)
    ensures off <= Spot(marks, off, k)
    ensures At(marks, Spot(marks, off, k))
    ensures CountIn(marks, off, Spot(marks, off, k) + 1) == k + 1
    decreases k
  {
    hide Wrap;
    var from := if k == 0 then off else Spot(marks, off, k - 1) + 1;
    var d := Gap(marks, from, |marks|);
    if k > 0 { SpotCount(marks, off, k - 1); }
    GapInLap(marks, from);
    CountNone(marks, from, d);
    CountSplit(marks, off, from, from + d);
  }

  lemma {:induction false} SpotsAscend(marks: seq<bool>, off: nat, i: nat, k: nat)
    requires |marks| > 0 && i < k
    ensures Spot(marks, off, i) < Spot(marks, off, k)
    decreases k
  {
    hide Gap, Wrap;
    if i < k - 1 { SpotsAscend(marks, off, i, k - 1); }
  }

  /** The k-th spot is within one lap exactly when more than k places are marked. */
  lemma SpotInLap(marks: seq<bool>, off: nat, k: nat)
    requires SomeMark(marks)
    ensures Spot(marks, off, k) < off + |marks| <==> k < Marked(marks)
  {
    hide Spot, Wrap, Marked;
    var x := Spot(marks, off, k);
    SpotCount(marks, off, k);
    CountLap(marks, off);
    if x < off + |marks| {
      CountSplit(marks, off, x + 1, off + |marks|);
    } else {
      CountSplit(marks, off, off + |marks|, x);
    }
  }

  predicate Distinct(ps: seq<int>) {
    forall i, j :: 0 <= i < j < |ps| ==> ps[i] != ps[j]
  }

  /** In cyclic order from off, with no marked place left out before the last one. */
  ghost predicate InCyclicOrder(marks: seq<bool>, off: nat, ps: seq<int>)
    requires off <= |marks|
  {
    && (forall i :: 0 <= i < |ps| ==> 0 <= ps[i] < |marks|)
    && (forall i, j :: 0 <= i < j < |ps| ==> Dist(|marks|, off, ps[i]) < Dist(|marks|, off, ps[j]))
    && forall q, i ::
         0 <= q < |marks| && marks[q] && 0 <= i < |ps| && Dist(|marks|, off, q) <= Dist(|marks|, off, ps[i])
         ==> q in ps
  }

  lemma PickDist(marks: seq<bool>, cursor: int, k: nat, i: nat)
    requires -1 <= cursor < |marks| && SomeMark(marks)
    requires i < k <= Marked(marks)
    ensures 0 <= Picks(marks, cursor, k)[i] == Wrap(Spot(marks, cursor + 1, i), |marks|)
    ensures marks[Picks(marks, cursor, k)[i]]
    ensures Dist(|marks|, cursor + 1, Picks(marks, cursor, k)[i]) == Spot(marks, cursor + 1, i) - (cursor + 1)
  {
    hide Picks, Spot, Gap;
    var off := cursor + 1;
    PickIsSpot(marks, cursor, k, i);
    SpotCount(marks, off, i);
    SpotInLap(marks, off, i);
    DistForward(|marks|, off, Spot(marks, off, i) - off);
  }

  /** Any k picks out of at least k marked places are marked, distinct and in cyclic order. */
  lemma PicksGood(marks: seq<bool>, cursor: int, k: nat)
    requires -1 <= cursor < |marks| && k <= Marked(marks) && |marks| > 0
    ensures var ps := Picks(marks, cursor, k);
            && (forall i :: 0 <= i < k ==> 0 <= ps[i] < |marks| && marks[ps[i]])
            && Distinct(ps)
            && InCyclicOrder(marks, cursor + 1, ps)
  {
    var ps := Picks(marks, cursor, k);
    var off, n := cursor + 1, |marks|;
    SomeCount(marks);
    if k > 0 {
      forall i | 0 <= i < k ensures 0 <= ps[i] < n && marks[ps[i]] { PickDist(marks, cursor, k, i); }
      forall i, j | 0 <= i < j < k ensures Dist(n, off, ps[i]) < Dist(n, off, ps[j]) {
        PickDist(marks, cursor, k, i);
        PickDist(marks, cursor, k, j);
        SpotsAscend(marks, off, i, j);
      }
      forall q, i | 0 <= q < n && marks[q] && 0 <= i < k && Dist(n, off, q) <= Dist(n, off, ps[i])
        ensures q in ps
      {
        PickDist(marks, cursor, k, i);
        DistBack(n, off, q);
        NothingBetween(marks, cursor, k, q, i);
      }
    }
  }

  /** A marked place no farther than the i-th pick is one of the first i + 1 picks. */
  lemma {:induction false} NothingBetween(marks: seq<bool>, cursor: int, k: nat, q: nat, i: nat)
    requires -1 <= cursor < |marks| && SomeMark(marks) && i < k <= Marked(marks)
    requires q < |marks| && marks[q]
    requires Dist(|marks|, cursor + 1, q) <= Spot(marks, cursor + 1, i) - (cursor + 1)
    ensures q in Picks(marks, cursor, k)
    decreases i
  {
    hide Picks, Gap, Wrap;
    var off := cursor + 1;
    var from := if i == 0 then off else Spot(marks, off, i - 1) + 1;
    PickDist(marks, cursor, k, i);
    if Dist(|marks|, off, q) < from - off {
      NothingBetween(marks, cursor, k, q, i - 1);
    } else {
      FromSpot(marks, off, q, from, i);
    }
  }

  lemma FromSpot(marks: seq<bool>, off: nat, q: nat, from: nat, i: nat)
    requires off <= |marks| && q < |marks| && marks[q]
    requires from == if i == 0 then off else Spot(marks, off, i - 1) + 1
    requires from - off <= Dist(|marks|, off, q) <= Spot(marks, off, i) - off
    ensures q == Wrap(Spot(marks, off, i), |marks|)
  {
    DistBack(|marks|, off, q);
    assert At(marks, off + Dist(|marks|, off, q));
  }

  /** With fewer marked places than picks, the search comes round to its first pick again. */
  lemma PicksRepeat(marks: seq<bool>, cursor: int, k: nat)
    requires -1 <= cursor < |marks| && 0 < Marked(marks) < k
    ensures Picks(marks, cursor, k)[Marked(marks)] == Picks(marks, cursor, k)[0]
  {
    hide Spot, Gap, Picks;
    var off, u := cursor + 1, Marked(marks);
    SomeCount(marks);
    PickIsSpot(marks, cursor, k, u);
    PickIsSpot(marks, cursor, k, 0);
    SpotAgain(marks, off);
  }

  lemma SpotAgain(marks: seq<bool>, off: nat)
    requires SomeMark(marks)
    ensures Spot(marks, off, Marked(marks)) == Spot(marks, off, 0) + |marks|
  {
    hide Spot, Gap, Marked;
    var n, u := |marks|, Marked(marks);
    SomeCount(marks);
    var x, y := Spot(marks, off, u), Spot(marks, off, 0) + n;
    SpotCount(marks, off, 0);
    SpotCount(marks, off, u);
    CountLap(marks, off);
    CountShift(marks, off, y - n + 1);
    CountSplit(marks, off, off + n, y + 1);
    assert Wrap(y, n) == Wrap(y - n, n);
    SameCount(marks, off, x, y);
  }

  /** Two marked positions with as many marks up to each are one position. */
  lemma SameCount(marks: seq<bool>, off: nat, x: nat, y: nat)
    requires |marks| > 0 && off <= x && off <= y && At(marks, x) && At(marks, y)
    requires CountIn(marks, off, x + 1) == CountIn(marks, off, y + 1)
    ensures x == y
  {
    if x < y {
      CountSplit(marks, off, x + 1, y);
    } else if y < x {
      CountSplit(marks, off, y + 1, x);
    }
  }

  lemma {:induction false} CountShift(marks: seq<bool>, a: nat, b: nat)
    requires |marks| > 0 && a <= b
    ensures CountIn(marks, a + |marks|, b + |marks|) == CountIn(marks, a, b)
    decreases b - a
  {
    if a < b {
      CountShift(marks, a, b - 1);
    }
  }

  /** Exactly when k places are marked do k picks not repeat (some place being marked). */
  lemma PicksDistinctIff(marks: seq<bool>, cursor: int, k: nat)
    requires -1 <= cursor < |marks| && SomeMark(marks)
    ensures Distinct(Picks(marks, cursor, k)) <==> k <= Marked(marks)
  {
    SomeCount(marks);
    if k <= Marked(marks) {
      PicksGood(marks, cursor, k);
    } else {
      PicksRepeat(marks, cursor, k);
    }
  }

  /** k picks that do not take the marked place j bring the cursor at least k closer to it. */
  lemma {:induction false} PicksCloser(marks: seq<bool>, cursor: int, k: nat, j: nat)
    requires j < |marks| && marks[j] && -1 <= cursor < |marks|
    requires j !in Picks(marks, cursor, k)
    ensures -1 <= LastOf(cursor, Picks(marks, cursor, k)) < |marks|
    ensures Dist(|marks|, LastOf(cursor, Picks(marks, cursor, k)) + 1, j) + k <= Dist(|marks|, cursor + 1, j)
  {
    hide Find;
    if k > 0 {
      var prev := Picks(marks, cursor, k - 1);
      PicksCloser(marks, cursor, k - 1, j);
      FindCloser(marks, LastOf(cursor, prev), j);
    }
  }
}
