/** Round-robin assignment of the initial friends (app/main.c). */
module Friends {
  import opened Sums
  import opened Cyclic

  /** The nodes that may be friends of the node avoid. */
  function Others(pids: seq<int>, avoid: int): (m: seq<bool>)
    ensures |m| == |pids| && forall i :: 0 <= i < |m| ==> m[i] == (pids[i] != avoid)
  {
    seq(|pids|, i requires 0 <= i < |pids| => pids[i] != avoid)
  }

  /** The friends for avoid, taken in turn from place ret on, and the next place. */
  function FriendsOf(pids: seq<int>, friendsNum: nat, avoid: int, ret: nat): (fs: seq<int>)
    requires SomeMark(Others(pids, avoid))
    ensures |fs| == friendsNum
  {
    var ps := Picks(Others(pids, avoid), ret - 1, friendsNum);
    seq(friendsNum, i requires 0 <= i < friendsNum => if 0 <= ps[i] < |pids| then pids[ps[i]] else -1)
  }

  function NextRet(pids: seq<int>, friendsNum: nat, avoid: int, ret: nat): nat
  {
    LastOf(ret - 1, Picks(Others(pids, avoid), ret - 1, friendsNum)) + 1
  }

  lemma GapSkip(marks: seq<bool>, off: nat)
    requires SomeMark(marks) && !At(marks, off)
    ensures Gap(marks, off, |marks|) == Gap(marks, off + 1, |marks|) + 1
    ensures Find(marks, off) == Find(marks, off + 1)
  {
    hide Wrap;
    GapInLap(marks, off);
    GapInLap(marks, off + 1);
    var d, e := Gap(marks, off, |marks|), Gap(marks, off + 1, |marks|);
  }

  lemma FindHere(marks: seq<bool>, off: nat)
    requires |marks| > 0 && At(marks, off)
    ensures Find(marks, off) == Wrap(off, |marks|)
  {
    hide Wrap;
    assert Gap(marks, off, |marks|) == 0;
  }

  lemma GapWrapped(marks: seq<bool>, off: nat)
    requires |marks| > 0
    ensures Gap(marks, Wrap(off, |marks|), |marks|) == Gap(marks, off, |marks|)
  {
    hide Gap;
    assert Wrap(Wrap(off, |marks|), |marks|) == Wrap(off, |marks|);
    GapAlike(marks, Wrap(off, |marks|), off, |marks|);
  }

  lemma FindWrapped(marks: seq<bool>, off: nat)
    requires |marks| > 0
    ensures Find(marks, Wrap(off, |marks|)) == Find(marks, off)
  {
    hide Gap, Wrap, At;
    GapWrapped(marks, off);
    var w, d := Wrap(off, |marks|), Gap(marks, off, |marks|);
    WrapPlus(off, d, |marks|);
    assert Find(marks, w) == if d == |marks| then -1 else Wrap(w + d, |marks|);
  }

  lemma AtSmall(marks: seq<bool>, i: nat)
    requires i < |marks|
    ensures At(marks, i) == marks[i] && Wrap(i, |marks|) == i
  {
  }

  /** The scan stands at ret, nothing being marked since the last pick. */
  ghost predicate Scanning(m: seq<bool>, ps: seq<int>, cursor: int, ret: nat)
    requires LastOf(cursor, ps) >= -1
  {
    Find(m, ret) == Find(m, LastOf(cursor, ps) + 1)
  }

  lemma Take(m: seq<bool>, cursor: int, k: nat, ret: nat)
    requires cursor >= -1 && ret < |m| && m[ret]
    requires Scanning(m, Picks(m, cursor, k), cursor, ret)
    ensures Picks(m, cursor, k + 1) == Picks(m, cursor, k) + [ret]
    ensures Scanning(m, Picks(m, cursor, k + 1), cursor, ret + 1)
  {
    hide Find, Gap, Wrap;
    AtSmall(m, ret);
    FindHere(m, ret);
  }

  lemma Skip(m: seq<bool>, ps: seq<int>, cursor: int, ret: nat)
    requires LastOf(cursor, ps) >= -1 && ret < |m| && !m[ret] && SomeMark(m)
    requires Scanning(m, ps, cursor, ret)
    ensures Scanning(m, ps, cursor, ret + 1)
    ensures Gap(m, ret + 1, |m|) < Gap(m, ret, |m|)
  {
    hide Find, Gap, Wrap;
    AtSmall(m, ret);
    GapSkip(m, ret);
  }

  lemma Reduce(m: seq<bool>, ps: seq<int>, cursor: int, ret: nat)
    requires LastOf(cursor, ps) >= -1 && |m| > 0
    requires Scanning(m, ps, cursor, ret)
    ensures Scanning(m, ps, cursor, ret % |m|)
    ensures Gap(m, ret % |m|, |m|) == Gap(m, ret, |m|)
  {
    hide Find, Gap, Wrap;
    WrapIsMod(ret, |m|);
    FindWrapped(m, ret);
    GapWrapped(m, ret);
  }

  /** With a single node the program returns no value; undefined is what its caller then finds. */
  method GenerateInitFriends(pids: array<int>, friendsNum: nat, pnt: array<int>, avoid: int, start: int, undefined: int)
    returns (ret: int)
    requires pids.Length > 1 ==> start >= 0 && SomeMark(Others(pids[..], avoid))
    requires friendsNum <= pnt.Length && pids != pnt
    modifies pnt
    ensures pids.Length > 1 ==> pnt[..friendsNum] == FriendsOf(pids[..], friendsNum, avoid, start)
    ensures pids.Length > 1 ==> ret == NextRet(pids[..], friendsNum, avoid, start)
    ensures pids.Length <= 1 ==> forall k :: 0 <= k < friendsNum ==> pnt[k] == avoid
  {
    if pids.Length > 1 {
      ret := TakeTurns(pids, friendsNum, pnt, avoid, start);
    } else {
      for c := 0 to friendsNum
        invariant forall k :: 0 <= k < c ==> pnt[k] == avoid
      {
        pnt[c] := avoid;
      }
      ret := undefined;
    }
  }

  /** The loop of generate_init_friends for two nodes or more. */
  method TakeTurns(pids: array<int>, friendsNum: nat, pnt: array<int>, avoid: int, start: nat) returns (ret: nat)
    requires SomeMark(Others(pids[..], avoid)) && friendsNum <= pnt.Length && pids != pnt
    modifies pnt
    ensures pnt[..friendsNum] == FriendsOf(pids[..], friendsNum, avoid, start)
    ensures ret == NextRet(pids[..], friendsNum, avoid, start)
  {
    hide Gap, Picks, Scanning, SomeMark;
    ghost var m, n := Others(pids[..], avoid), pids.Length;
    ghost var ps: seq<int> := Picks(m, start - 1, 0);
    SomePlace(m, start - 1);
    ret := start;
    var c := 0;
    while c < friendsNum
      invariant 0 <= c <= friendsNum && ps == Picks(m, start - 1, c)
      invariant forall i :: 0 <= i < c ==> 0 <= ps[i] < n && pnt[i] == pids[ps[i]]
      invariant Scanning(m, ps, start - 1, ret)
      invariant c == friendsNum ==> ret == LastOf(start - 1, ps) + 1
      decreases friendsNum - c, Gap(m, ret, n)
    {
      Reduce(m, ps, start - 1, ret);
      ret := ret % pids.Length;
      if pids[ret] != avoid {
        Take(m, start - 1, c, ret);
        ps := ps + [ret];
        pnt[c] := pids[ret];
        c := c + 1;
      } else {
        Skip(m, ps, start - 1, ret);
      }
      ret := ret + 1;
    }
  }

  lemma SomePlace(m: seq<bool>, cursor: int)
    requires SomeMark(m) && cursor >= -1
    ensures |m| > 0
    ensures Picks(m, cursor, 0) == [] && Scanning(m, [], cursor, cursor + 1)
  {
    hide Find;
  }

  lemma OthersCount(pids: seq<int>, a: nat)
    requires a < |pids| && Distinct(pids)
    ensures Marked(Others(pids, pids[a])) == |pids| - 1
  {
    var m := Others(pids, pids[a]);
    forall i | 0 <= i < |m| && i != a ensures m[i] {
      assert pids[i] != pids[a];
    }
    SumUpdate(m, a, true, Bit);
    SomeCount(m[a := true]);
  }

  /** Even when the search comes round again, every pick is a marked place. */
  lemma PickMarked(m: seq<bool>, cursor: int, k: nat, i: nat)
    requires cursor >= -1 && SomeMark(m) && i < k
    ensures 0 <= Picks(m, cursor, k)[i] < |m| && m[Picks(m, cursor, k)[i]]
  {
    hide Picks, Spot, Wrap;
    PickIsSpot(m, cursor, k, i);
    SpotCount(m, cursor + 1, i);
  }

  /**
   With at least two nodes, a node's friends are other nodes, and they are pairwise distinct
   exactly when it does not ask for more friends than there are other nodes.
   */
  lemma FriendsGood(pids: seq<int>, friendsNum: nat, a: nat, ret: nat)
    requires Distinct(pids) && |pids| >= 2 && a < |pids| && ret <= |pids|
    ensures SomeMark(Others(pids, pids[a]))
    ensures var fs := FriendsOf(pids, friendsNum, pids[a], ret);
            && (forall k :: 0 <= k < friendsNum ==> fs[k] in pids && fs[k] != pids[a])
            && (Distinct(fs) <==> friendsNum <= |pids| - 1)
    ensures NextRet(pids, friendsNum, pids[a], ret) <= |pids|
  {
    hide Picks, Find;
    var m := Others(pids, pids[a]);
    OthersCount(pids, a);
    SomeCount(m);
    var ps, fs := Picks(m, ret - 1, friendsNum), FriendsOf(pids, friendsNum, pids[a], ret);
    forall k | 0 <= k < friendsNum ensures 0 <= ps[k] < |m| && m[ps[k]] && fs[k] == pids[ps[k]] {
      PickMarked(m, ret - 1, friendsNum, k);
    }
    PicksDistinctIff(m, ret - 1, friendsNum);
    if !Distinct(ps) {
      var i, j :| 0 <= i < j < |ps| && ps[i] == ps[j];
      assert fs[i] == fs[j];
    }
  }

  /** The list sent to node i: other nodes, each once if there are enough; or the node itself if it is alone. */
  predicate ListOk(pids: seq<int>, friendsNum: nat, i: nat, list: seq<int>)
    requires i < |pids|
  {
    && |list| == friendsNum
    && (|pids| == 1 ==> forall k :: 0 <= k < friendsNum ==> list[k] == pids[i])
    && (|pids| > 1 ==>
          && (forall k :: 0 <= k < friendsNum ==> list[k] in pids && list[k] != pids[i])
          && (Distinct(list) <==> friendsNum <= |pids| - 1))
  }

  // ---- the assignment goes round ----

  /** place is the first one strictly behind prev, in cyclic order, of a node other than avoid; -1 is before place 0. */
  ghost predicate FirstBehind(pids: seq<int>, avoid: int, prev: int, place: int) {
    && -1 <= prev < |pids| && 0 <= place < |pids| && pids[place] != avoid
    && forall j :: 0 <= j < |pids| && pids[j] != avoid
                   ==> Dist(|pids|, prev + 1, place) <= Dist(|pids|, prev + 1, j)
  }

  ghost predicate EntryOk(pids: seq<int>, avoid: int, prev: int, place: int, entry: int) {
    FirstBehind(pids, avoid, prev, place) && entry == pids[place]
  }

  /** The place of the last entry written, or -1. */
  function LastPlace(places: seq<seq<int>>): int {
    if places == [] || places[|places| - 1] == [] then -1 else LastOf(-1, places[|places| - 1])
  }

  /** The place before entry k of list i, when all lists are written one after another. */
  function Before(places: seq<seq<int>>, i: nat, k: nat): int
    requires i < |places| && k <= |places[i]|
  {
    if k > 0 then places[i][k - 1] else LastPlace(places[..i])
  }

  ghost predicate RoundOfOne(pids: seq<int>, friendsNum: nat, lists: seq<seq<int>>, places: seq<seq<int>>, i: nat)
    requires i < |lists| == |places| && i < |pids|
  {
    && |lists[i]| == |places[i]| == friendsNum
    && forall k :: 0 <= k < friendsNum ==> EntryOk(pids, pids[i], Before(places, i, k), places[i][k], lists[i][k])
  }

  /** places are the places of the nodes in lists. */
  ghost predicate GoesRound(pids: seq<int>, friendsNum: nat, lists: seq<seq<int>>, places: seq<seq<int>>) {
    && |places| == |lists| <= |pids|
    && forall i :: 0 <= i < |lists| ==> RoundOfOne(pids, friendsNum, lists, places, i)
  }

  lemma {:induction false} PicksBehind(m: seq<bool>, cursor: int, k: nat, j: nat)
    requires -1 <= cursor < |m| && SomeMark(m) && j < k
    ensures var ps, prev := Picks(m, cursor, k), if j == 0 then cursor else Picks(m, cursor, k)[j - 1];
            && -1 <= prev < |m| && 0 <= ps[j] < |m| && m[ps[j]]
            && forall q :: 0 <= q < |m| && m[q] ==> Dist(|m|, prev + 1, ps[j]) <= Dist(|m|, prev + 1, q)
  {
    hide Find, Dist;
    PickPrefix(m, cursor, k, j);
    if j > 0 {
      PickPrefix(m, cursor, k, j - 1);
      PicksBehind(m, cursor, k, j - 1);
      LastPick(m, cursor, j);
      PickPrefix(m, cursor, j, j - 1);
    } else {
      LastPick(m, cursor, 0);
    }
    FindFirst(m, LastOf(cursor, Picks(m, cursor, j)) + 1);
  }

  lemma LastPick(m: seq<bool>, cursor: int, j: nat)
    requires cursor >= -1
    ensures LastOf(cursor, Picks(m, cursor, j)) == if j == 0 then cursor else Picks(m, cursor, j)[j - 1]
  {
    hide Find;
  }

  /** The entries written from ret on for a node that is not alone. */
  lemma NewEntries(pids: seq<int>, friendsNum: nat, avoid: int, ret: nat, k: nat)
    requires ret <= |pids| && SomeMark(Others(pids, avoid)) && k < friendsNum
    ensures var ps := Picks(Others(pids, avoid), ret - 1, friendsNum);
            EntryOk(pids, avoid, if k == 0 then ret - 1 else ps[k - 1], ps[k],
                    FriendsOf(pids, friendsNum, avoid, ret)[k])
  {
    hide Picks, Dist, SomeMark;
    PicksBehind(Others(pids, avoid), ret - 1, friendsNum, k);
  }

  lemma SameRound(pids: seq<int>, friendsNum: nat, lists: seq<seq<int>>, places: seq<seq<int>>,
                  list: seq<int>, ps: seq<int>, i: nat)
    requires i < |lists| == |places| && i < |pids| && RoundOfOne(pids, friendsNum, lists, places, i)
    ensures RoundOfOne(pids, friendsNum, lists + [list], places + [ps], i)
  {
    hide EntryOk;
    assert (places + [ps])[..i] == places[..i];
  }

  lemma NewRound(pids: seq<int>, friendsNum: nat, lists: seq<seq<int>>, places: seq<seq<int>>, ret: nat)
    requires |lists| == |places| < |pids| && ret <= |pids| && ret - 1 == LastPlace(places)
    requires SomeMark(Others(pids, pids[|lists|]))
    ensures var avoid := pids[|lists|];
            RoundOfOne(pids, friendsNum, lists + [FriendsOf(pids, friendsNum, avoid, ret)],
                       places + [Picks(Others(pids, avoid), ret - 1, friendsNum)], |lists|)
  {
    hide Picks, EntryOk, SomeMark, FriendsOf, LastPlace;
    var i := |lists|;
    var ps := Picks(Others(pids, pids[i]), ret - 1, friendsNum);
    var places' := places + [ps];
    assert places'[..i] == places;
    forall k | 0 <= k < friendsNum
      ensures EntryOk(pids, pids[i], Before(places', i, k), ps[k], FriendsOf(pids, friendsNum, pids[i], ret)[k])
    {
      NewEntries(pids, friendsNum, pids[i], ret, k);
    }
  }

  /** One more list, written from where the last one ended. */
  lemma NextList(pids: seq<int>, friendsNum: nat, lists: seq<seq<int>>, places: seq<seq<int>>, ret: nat)
      returns (places': seq<seq<int>>)
    requires |lists| < |pids| && ret <= |pids|
    requires GoesRound(pids, friendsNum, lists, places) && (friendsNum > 0 || ret == 0) && ret - 1 == LastPlace(places)
    requires SomeMark(Others(pids, pids[|lists|]))
    ensures GoesRound(pids, friendsNum, lists + [FriendsOf(pids, friendsNum, pids[|lists|], ret)], places')
    ensures NextRet(pids, friendsNum, pids[|lists|], ret) - 1 == LastPlace(places')
    ensures friendsNum == 0 ==> NextRet(pids, friendsNum, pids[|lists|], ret) == 0
  {
    hide Picks, RoundOfOne, SomeMark, Others;
    var i := |lists|;
    var ps, list := Picks(Others(pids, pids[i]), ret - 1, friendsNum), FriendsOf(pids, friendsNum, pids[i], ret);
    places' := places + [ps];
    NewRound(pids, friendsNum, lists, places, ret);
    forall j | 0 <= j < i ensures RoundOfOne(pids, friendsNum, lists + [list], places', j) {
      SameRound(pids, friendsNum, lists, places, list, ps, j);
    }
  }

  /**
   Every node's list.  With two nodes or more the lists, written one after another, go round the nodes,
   leaving out the node each list is for; the single node of a simulation with one node is its own friend.
   */
  method SendFriends(pids: array<int>, friendsNum: nat, undefined: int) returns (lists: seq<seq<int>>)
    requires Distinct(pids[..])
    ensures |lists| == pids.Length
    ensures forall i :: 0 <= i < |lists| ==> ListOk(pids[..], friendsNum, i, lists[i])
    ensures pids.Length > 1 ==> exists places :: GoesRound(pids[..], friendsNum, lists, places)
  {
    hide FriendsOf, NextRet, Others, SomeMark, GoesRound, LastPlace;
    var list := new int[friendsNum];
    lists := [];
    ghost var places: seq<seq<int>> := [];
    NoListYet(pids[..], friendsNum);
    var i, last := 0, 0;
    while i < pids.Length
      invariant 0 <= i <= pids.Length && |lists| == i
      invariant pids.Length > 1 ==> 0 <= last <= pids.Length && (friendsNum > 0 || last == 0)
      invariant pids.Length > 1 ==> GoesRound(pids[..], friendsNum, lists, places) && last - 1 == LastPlace(places)
      invariant forall j :: 0 <= j < i ==> ListOk(pids[..], friendsNum, j, lists[j])
    {
      if pids.Length > 1 {
        FriendsGood(pids[..], friendsNum, i, last);
        places := NextList(pids[..], friendsNum, lists, places, last);
      }
      last := GenerateInitFriends(pids, friendsNum, list, pids[i], last, undefined);
      lists := lists + [list[..friendsNum]];
      i := i + 1;
    }
  }

  lemma NoListYet(pids: seq<int>, friendsNum: nat)
    ensures GoesRound(pids, friendsNum, [], []) && LastPlace([]) == -1
  {
  }
}
