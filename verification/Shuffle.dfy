/** The partial shuffle get_random_int (app/main.c). */
module Shuffle {

  /** Position pos is swapped to the end, which is then cut off. */
  function Drop<T>(source: seq<T>, pos: nat): (rest: seq<T>)
    requires pos < |source|
    ensures |rest| == |source| - 1
  {
    source[pos := source[|source| - 1]][..|source| - 1]
  }

  lemma DropIs<T>(source: seq<T>, pos: nat)
    requires pos < |source|
    ensures Drop(source, pos) == source[pos := source[|source| - 1]][..|source| - 1]
  {
  }

  /** The values drawn by a stream of random numbers. */
  function Drawn<T>(source: seq<T>, rnd: seq<nat>): (result: seq<T>)
    requires |rnd| <= |source|
    ensures |result| == |rnd|
    decreases |rnd|
  {
    if rnd == [] then []
    else
      var pos := rnd[0] % |source|;
      [source[pos]] + Drawn(Drop(source, pos), rnd[1..])
  }

  /** The prefix of source not drawn. */
  function Rest<T>(source: seq<T>, rnd: seq<nat>): seq<T>
    requires |rnd| <= |source|
    decreases |rnd|
  {
    if rnd == [] then source else Rest(Drop(source, rnd[0] % |source|), rnd[1..])
  }

  method GetRandomInt(from: array<int>, fromLength: nat, result: array<int>, resultLength: nat, rnd: seq<nat>)
    requires resultLength <= fromLength <= from.Length && resultLength <= result.Length
    requires from != result && |rnd| == resultLength
    modifies result
    ensures result[..resultLength] == Drawn(from[..fromLength], rnd)
    ensures result[resultLength..] == old(result[resultLength..])
  {
    hide Drawn, Drop;
    var source := new int[fromLength](i requires 0 <= i < fromLength reads from => from[i]);
    ghost var all := Drawn(from[..fromLength], rnd);
    assert source[..fromLength] == from[..fromLength];
    var left := fromLength;
    var i := 0;
    while i < resultLength
      invariant 0 <= i <= resultLength && left == fromLength - i
      invariant result[..i] + Drawn(source[..left], rnd[i..]) == all
      invariant result[resultLength..] == old(result[resultLength..])
    {
      ghost var before, done := source[..left], result[..i];
      var pos := rnd[i] % left;
      var tmp := source[pos];
      source[pos] := source[left - 1];
      source[left - 1] := tmp;
      left := left - 1;
      result[i] := tmp;
      assert source[..left] == before[pos := before[left]][..left];
      assert rnd[i..][1..] == rnd[i + 1..];
      DrawnHead(before, rnd[i..]);
      DropIs(before, pos);
      assert result[..i + 1] == done + [tmp];
      i := i + 1;
    }
  }

  lemma DropMultiset<T>(source: seq<T>, pos: nat)
    requires pos < |source|
    ensures multiset(Drop(source, pos)) + multiset{source[pos]} == multiset(source)
  {
    var n := |source| - 1;
    var swapped := source[pos := source[n]];
    if pos < n {
      assert swapped == Drop(source, pos) + [source[n]];
      assert source == source[..n] + [source[n]];
      assert Drop(source, pos) == source[..n][pos := source[n]];
    } else {
      assert source == Drop(source, pos) + [source[pos]];
    }
  }

  /** The result and the remaining prefix together are a permutation of the untouched input. */
  lemma {:induction false} DrawnPermutes<T>(source: seq<T>, rnd: seq<nat>)
    requires |rnd| <= |source|
    ensures multiset(Drawn(source, rnd)) + multiset(Rest(source, rnd)) == multiset(source)
    decreases |rnd|
  {
    if rnd != [] {
      var pos := rnd[0] % |source|;
      DrawnPermutes(Drop(source, pos), rnd[1..]);
      DropMultiset(source, pos);
    }
  }

  lemma DrawnHead<T>(source: seq<T>, rnd: seq<nat>)
    requires 0 < |rnd| <= |source|
    ensures var pos := rnd[0] % |source|;
            Drawn(source, rnd) == [source[pos]] + Drawn(Drop(source, pos), rnd[1..])
  {
  }

  // ---- the swaps, on the whole array ----

  function Swap<T>(s: seq<T>, i: nat, j: nat): (r: seq<T>)
    requires i < |s| && j < |s|
    ensures |r| == |s| && r[i] == s[j] && r[j] == s[i]
    ensures forall k :: 0 <= k < |s| && k != i && k != j ==> r[k] == s[k]
  {
    s[i := s[j]][j := s[i]]
  }

  /** The array after swapping a place of the first left entries with the last of them, left going down by one. */
  function Swapped<T>(a: seq<T>, left: nat, rnd: seq<nat>): (r: seq<T>)
    requires |rnd| <= left <= |a|
    ensures |r| == |a|
    decreases |rnd|
  {
    if rnd == [] then a else Swapped(Swap(a, rnd[0] % left, left - 1), left - 1, rnd[1..])
  }

  lemma {:induction false} SwappedBeyond<T>(a: seq<T>, left: nat, rnd: seq<nat>)
    requires |rnd| <= left <= |a|
    ensures Swapped(a, left, rnd)[left..] == a[left..]
    decreases |rnd|
  {
    if rnd != [] {
      var b := Swap(a, rnd[0] % left, left - 1);
      SwappedBeyond(b, left - 1, rnd[1..]);
      assert b[left..] == a[left..];
      assert Swapped(a, left, rnd)[left..] == Swapped(b, left - 1, rnd[1..])[left - 1..][1..];
    }
  }

  /** What is drawn lies behind what is left, in reverse, after these swaps. */
  lemma {:induction false} DrawnBySwaps<T>(a: seq<T>, left: nat, rnd: seq<nat>)
    requires |rnd| <= left <= |a|
    ensures Rest(a[..left], rnd) == Swapped(a, left, rnd)[..left - |rnd|]
    ensures forall i :: 0 <= i < |rnd| ==> Drawn(a[..left], rnd)[i] == Swapped(a, left, rnd)[left - 1 - i]
    decreases |rnd|
  {
    if rnd != [] {
      var pos := rnd[0] % left;
      var b := Swap(a, pos, left - 1);
      DrawnBySwaps(b, left - 1, rnd[1..]);
      SwappedBeyond(b, left - 1, rnd[1..]);
      assert Drop(a[..left], pos) == b[..left - 1];
      assert b[left - 1..][0] == a[pos];
    }
  }

  lemma SmallMod(x: nat, n: nat)
    requires x < n
    ensures x % n == x
  {
  }

  function Positions(n: nat): (ps: seq<nat>)
    ensures |ps| == n && forall i :: 0 <= i < n ==> ps[i] == i
  {
    seq(n, i => i)
  }

  predicate Distinct<T(==)>(s: seq<T>) {
    forall i, j :: 0 <= i < j < |s| ==> s[i] != s[j]
  }

  function Pick<T>(source: seq<T>, at: seq<nat>): (r: seq<T>)
    requires forall i :: 0 <= i < |at| ==> at[i] < |source|
    ensures |r| == |at|
  {
    seq(|at|, i requires 0 <= i < |at| => source[at[i]])
  }

  predicate Below(at: seq<nat>, n: nat) {
    forall i :: 0 <= i < |at| ==> at[i] < n
  }

  lemma DropBelow(at: seq<nat>, n: nat, pos: nat)
    requires pos < |at| && Below(at, n)
    ensures Below(Drop(at, pos), n)
  {
  }

  lemma DropDistinct<T>(source: seq<T>, pos: nat)
    requires pos < |source| && Distinct(source)
    ensures Distinct(Drop(source, pos)) && source[pos] !in Drop(source, pos)
    ensures forall x :: x in Drop(source, pos) ==> x in source
    ensures forall x :: x in source && x != source[pos] ==> x in Drop(source, pos)
  {
    var d, n := Drop(source, pos), |source| - 1;
    forall x | x in source && x != source[pos] ensures x in d {
      var i :| 0 <= i < |source| && source[i] == x;
      assert d[if i == n then pos else i] == x;
    }
  }

  lemma {:induction false} DrawnDistinct<T>(source: seq<T>, rnd: seq<nat>)
    requires |rnd| <= |source| && Distinct(source)
    ensures Distinct(Drawn(source, rnd))
    ensures forall x :: x in Drawn(source, rnd) ==> x in source
    decreases |rnd|
  {
    if rnd != [] {
      var pos := rnd[0] % |source|;
      DropDistinct(source, pos);
      DrawnDistinct(Drop(source, pos), rnd[1..]);
    }
  }

  lemma DropPick<T>(source: seq<T>, at: seq<nat>, pos: nat)
    requires pos < |at| && Below(at, |source|)
    ensures Below(Drop(at, pos), |source|)
    ensures Drop(Pick(source, at), pos) == Pick(source, Drop(at, pos)) && Pick(source, at)[pos] == source[at[pos]]
  {
    DropBelow(at, |source|, pos);
  }

  lemma PickCons<T>(source: seq<T>, x: nat, at: seq<nat>)
    requires x < |source| && Below(at, |source|)
    ensures Below([x] + at, |source|) && Pick(source, [x] + at) == [source[x]] + Pick(source, at)
  {
  }

  /** Drawing from a selection of places is selecting by drawn places. */
  lemma {:induction false} DrawnByPlace<T>(source: seq<T>, at: seq<nat>, rnd: seq<nat>)
    requires |rnd| <= |at| && Below(at, |source|)
    ensures Below(Drawn(at, rnd), |source|)
    ensures Drawn(Pick(source, at), rnd) == Pick(source, Drawn(at, rnd))
    decreases |rnd|
  {
    hide Drop, Drawn, Pick;
    if rnd == [] {
      DrawnNone(at);
      DrawnNone(Pick(source, at));
      PickNone(source);
    } else {
      var pos := rnd[0] % |at|;
      DropPick(source, at, pos);
      DrawnByPlace(source, Drop(at, pos), rnd[1..]);
      DrawnHead(at, rnd);
      DrawnHead(Pick(source, at), rnd);
      PickCons(source, at[pos], Drawn(Drop(at, pos), rnd[1..]));
    }
  }

  lemma PickNone<T>(source: seq<T>)
    ensures Pick(source, []) == []
  {
  }

  /** The entries drawn come from pairwise distinct places of the input, whatever the stream and the values. */
  lemma DistinctPlaces<T>(source: seq<T>, rnd: seq<nat>)
    requires |rnd| <= |source|
    ensures var at := Drawn(Positions(|source|), rnd);
            && Distinct(at) && Below(at, |source|)
            && Drawn(source, rnd) == Pick(source, at)
  {
    hide Drawn;
    DrawnDistinct(Positions(|source|), rnd);
    DrawnByPlace(source, Positions(|source|), rnd);
    assert Pick(source, Positions(|source|)) == source;
  }

  // ---- choices and ordered selections correspond one to one ----

  /** A vector of reduced choices: the i-th is one of the n - i places left. */
  predicate Choices(rnd: seq<nat>, n: nat) {
    |rnd| <= n && forall i :: 0 <= i < |rnd| ==> rnd[i] < n - i
  }

  function IndexOf<T(==)>(source: seq<T>, x: T): (i: nat)
    requires x in source
    ensures i < |source| && source[i] == x
  {
    if source[0] == x then 0 else IndexOf(source[1..], x) + 1
  }

  predicate Selection<T(==)>(source: seq<T>, target: seq<T>) {
    Distinct(target) && forall x :: x in target ==> x in source
  }

  lemma SelectionTail<T>(source: seq<T>, target: seq<T>)
    requires Distinct(source) && Selection(source, target) && target != []
    ensures Selection(Drop(source, IndexOf(source, target[0])), target[1..])
  {
    DropDistinct(source, IndexOf(source, target[0]));
    forall x | x in target[1..] ensures x in source && x != target[0] {
      assert x in target;
    }
  }

  /** The choices that draw target. */
  function ChoicesFor<T(==)>(source: seq<T>, target: seq<T>): (rnd: seq<nat>)
    requires Distinct(source) && Selection(source, target)
    ensures Choices(rnd, |source|) && |rnd| == |target|
    decreases |target|
  {
    if target == [] then []
    else
      var pos := IndexOf(source, target[0]);
      DropDistinct(source, pos);
      SelectionTail(source, target);
      [pos] + ChoicesFor(Drop(source, pos), target[1..])
  }

  lemma {:induction false} DrawnChoicesFor<T>(source: seq<T>, target: seq<T>)
    requires Distinct(source) && Selection(source, target)
    ensures Choices(ChoicesFor(source, target), |source|)
    ensures Drawn(source, ChoicesFor(source, target)) == target
    decreases |target|
  {
    hide Drop;
    if target != [] {
      var pos := IndexOf(source, target[0]);
      DropDistinct(source, pos);
      SelectionTail(source, target);
      SmallMod(pos, |source|);
      DrawnChoicesFor(Drop(source, pos), target[1..]);
    }
  }

  lemma {:induction false} ChoicesForDrawn<T>(source: seq<T>, rnd: seq<nat>)
    requires Distinct(source) && Choices(rnd, |source|)
    ensures Selection(source, Drawn(source, rnd))
    ensures ChoicesFor(source, Drawn(source, rnd)) == rnd
    decreases |rnd|
  {
    hide Drop, Drawn;
    DrawnDistinct(source, rnd);
    if rnd == [] {
      DrawnNone(source);
    } else {
      var pos, d := rnd[0], Drawn(source, rnd);
      SmallMod(pos, |source|);
      DrawnHead(source, rnd);
      DropDistinct(source, pos);
      assert d[1..] == Drawn(Drop(source, pos), rnd[1..]);
      forall i | 0 <= i < |rnd[1..]| ensures rnd[1..][i] < |source| - 1 - i { assert rnd[1..][i] == rnd[i + 1]; }
      ChoicesForDrawn(Drop(source, pos), rnd[1..]);
      OnlyPlace(source, IndexOf(source, d[0]), pos);
    }
  }

  lemma DrawnNone<T>(source: seq<T>)
    ensures Drawn(source, []) == []
  {
  }

  lemma OnlyPlace<T>(source: seq<T>, i: nat, j: nat)
    requires Distinct(source) && i < |source| && j < |source| && source[i] == source[j]
    ensures i == j
  {
  }
}
