/**
 How the unprotected increment of block_count (app/ledger.c) can lower the count, exactly when it
 does, and what that does to a user's revenue.
 */
module LedgerCount {
  import opened Common
  import opened LedgerRace

  // ---- when the count falls ----

  /** Node i is about to store a value that it computed from a count others have meanwhile passed. */
  predicate Stale(s: Race, i: nat) {
    i < |s.procs| && s.procs[i].CountLoaded? && s.procs[i].c + 1 < s.count
  }

  ghost predicate StaleStore(s: Race, s': Race) {
    exists i: nat :: CanStep(s, i) && s' == Step(s, i) && Stale(s, i)
  }

  /** A step lowers the count if and only if it is a stale store. */
  lemma NextCount(s: Race, s': Race)
    requires Next(s, s')
    ensures s'.count < s.count <==> StaleStore(s, s')
    ensures s'.count < s.count ==> s'.writes == s.writes
  {
    if s'.count < s.count {
      var i: nat :| CanStep(s, i) && s' == Step(s, i);
      assert Stale(s, i);
    }
  }

  lemma {:induction false} NoFallBetween(t: seq<Race>, j: nat, k: nat)
    requires forall m :: 0 < m < |t| ==> t[m - 1].count <= t[m].count
    requires j <= k < |t|
    ensures t[j].count <= t[k].count
    decreases k
  {
    if j < k { NoFallBetween(t, j, k - 1); }
  }

  /** In any run the count never falls if and only if no step is a stale store. */
  lemma CountNeverFallsIff(t: seq<Race>, maxSize: nat, nodes: nat)
    requires Run(t, maxSize, nodes)
    ensures (forall j, k :: 0 <= j <= k < |t| ==> t[j].count <= t[k].count)
            <==> forall k :: 0 < k < |t| ==> !StaleStore(t[k - 1], t[k])
  {
    hide Next, StaleStore;
    forall k | 0 < k < |t| ensures t[k].count < t[k - 1].count <==> StaleStore(t[k - 1], t[k]) {
      NextCount(t[k - 1], t[k]);
    }
    if forall k :: 0 < k < |t| ==> !StaleStore(t[k - 1], t[k]) {
      forall j, k | 0 <= j <= k < |t| ensures t[j].count <= t[k].count { NoFallBetween(t, j, k); }
    }
  }

  // ---- when a user's revenue falls ----

  /** What each block, by its id, pays a user. */
  type Payments = int -> int

  ghost predicate NoNegative(pays: Payments) {
    forall id :: pays(id) >= 0
  }

  function PaidUpTo(writes: seq<int>, pays: Payments, n: nat): int {
    if n == 0 then 0 else PaidUpTo(writes, pays, n - 1) + (if n - 1 in writes then pays(n - 1) else 0)
  }

  /** get_process_revenue: what the first block_count slots pay; a slot not yet written pays nothing. */
  function Revenue(s: Race, pays: Payments): int
    requires s.count >= 0
  {
    PaidUpTo(s.writes, pays, s.count)
  }

  lemma {:induction false} PaidGrows(writes: seq<int>, more: seq<int>, pays: Payments, n: nat)
    requires NoNegative(pays) && writes <= more
    ensures PaidUpTo(writes, pays, n) <= PaidUpTo(more, pays, n)
  {
    if n > 0 {
      PaidGrows(writes, more, pays, n - 1);
      assert n - 1 in writes ==> n - 1 in more;
    }
  }

  lemma {:induction false} PaidRest(writes: seq<int>, pays: Payments, n: nat, m: nat)
    requires NoNegative(pays) && n <= m
    ensures PaidUpTo(writes, pays, n) <= PaidUpTo(writes, pays, m)
    ensures PaidUpTo(writes, pays, n) < PaidUpTo(writes, pays, m)
            <==> exists id :: n <= id < m && id in writes && pays(id) > 0
    decreases m
  {
    if n < m { PaidRest(writes, pays, n, m - 1); }
  }

  /** A stale store takes a slot that pays the user out of the count. */
  predicate Uncovers(s: Race, s': Race, pays: Payments) {
    s'.count < s.count && exists id :: s'.count <= id < s.count && id in s.writes && pays(id) > 0
  }

  /** A step lowers a user's revenue if and only if it uncovers a slot that pays the user. */
  lemma NextRevenue(s: Race, s': Race, pays: Payments)
    requires Inv(s) && Next(s, s') && NoNegative(pays)
    ensures s.count >= 0 && s'.count >= 0
    ensures Revenue(s', pays) < Revenue(s, pays) <==> Uncovers(s, s', pays)
  {
    hide Next, Mutex, Ids, Slots;
    NextInv(s, s');
    NextCount(s, s');
    NextWrites(s, s');
    if s'.count < s.count {
      PaidRest(s.writes, pays, s'.count, s.count);
    } else {
      PaidGrows(s.writes, s'.writes, pays, s.count);
      PaidRest(s'.writes, pays, s.count, s'.count);
    }
  }

  ghost predicate NoNegativeCount(t: seq<Race>) {
    forall k :: 0 <= k < |t| ==> t[k].count >= 0
  }

  lemma RunCounts(t: seq<Race>, maxSize: nat, nodes: nat)
    requires Run(t, maxSize, nodes)
    ensures NoNegativeCount(t)
  {
    hide Next, Mutex, Ids, Slots;
    forall k | 0 <= k < |t| ensures t[k].count >= 0 { RunInv(t, maxSize, nodes, k); }
  }

  lemma {:induction false} NoLossBetween(t: seq<Race>, pays: Payments, j: nat, k: nat)
    requires NoNegativeCount(t) && forall m :: 0 < m < |t| ==> Revenue(t[m - 1], pays) <= Revenue(t[m], pays)
    requires j <= k < |t|
    ensures Revenue(t[j], pays) <= Revenue(t[k], pays)
    decreases k
  {
    hide Revenue;
    if j < k { NoLossBetween(t, pays, j, k - 1); }
  }

  /**
   In any run a user's revenue never falls if and only if no step uncovers a slot that pays the user.
   A user that has drawn all it had in state j is not overdrawn in state k just when its revenue has
   not fallen in between.
   */
  lemma RevenueNeverFallsIff(t: seq<Race>, maxSize: nat, nodes: nat, pays: Payments)
    requires Run(t, maxSize, nodes) && NoNegative(pays)
    ensures NoNegativeCount(t)
    ensures (forall j, k :: 0 <= j <= k < |t| ==> Revenue(t[j], pays) <= Revenue(t[k], pays))
            <==> forall k :: 0 < k < |t| ==> !Uncovers(t[k - 1], t[k], pays)
  {
    hide Next, Inv, Uncovers, Revenue, NoNegative;
    RunCounts(t, maxSize, nodes);
    forall k | 0 < k < |t| ensures Revenue(t[k], pays) < Revenue(t[k - 1], pays) <==> Uncovers(t[k - 1], t[k], pays) {
      RunInv(t, maxSize, nodes, k - 1);
      NextRevenue(t[k - 1], t[k], pays);
    }
    if forall k :: 0 < k < |t| ==> !Uncovers(t[k - 1], t[k], pays) {
      forall j, k | 0 <= j <= k < |t| ensures Revenue(t[j], pays) <= Revenue(t[k], pays) {
        NoLossBetween(t, pays, j, k);
      }
    }
  }

  // ---- and that it does ----

  /** Node 0 has loaded the count 0; node 1 has then recorded r blocks. */
  function Behind(maxSize: nat, nodes: nat, r: nat): Race
    requires nodes >= 2
  {
    Duo(maxSize, nodes, r + 1, r, CountLoaded(0, 0), Idle, r + 1, 0)
  }

  lemma FallsBehind(maxSize: nat, nodes: nat)
    requires nodes >= 2 && 2 < maxSize <= REGISTRY_SIZE
    ensures Reachable(Behind(maxSize, nodes, 0), maxSize, nodes)
  {
    hide Reachable;
    Recorded(maxSize, nodes, 0);
    ReserveZero(maxSize, nodes, 0, Idle);
    var a := Duo(maxSize, nodes, 1, 0, Reserved(0), Idle, 0, 0);
    var b := Duo(maxSize, nodes, 1, 0, Wrote(0), Idle, 1, 0);
    Move(a, 0, b, maxSize, nodes);
    Move(b, 0, Behind(maxSize, nodes, 0), maxSize, nodes);
  }

  lemma OneMore(maxSize: nat, nodes: nat, r: nat)
    requires nodes >= 2 && r + 1 < maxSize <= REGISTRY_SIZE
    requires Reachable(Behind(maxSize, nodes, r), maxSize, nodes)
    ensures Reachable(Behind(maxSize, nodes, r + 1), maxSize, nodes)
  {
    hide Reachable;
    var p := CountLoaded(0, 0);
    ReserveSecond(maxSize, nodes, r + 1, r, p, r + 1, 0);
    var a := Duo(maxSize, nodes, r + 2, r, p, Reserved(r + 1), r + 1, 0);
    var b := Duo(maxSize, nodes, r + 2, r, p, Wrote(r + 1), r + 2, 0);
    var c := Duo(maxSize, nodes, r + 2, r, p, CountLoaded(r + 1, r), r + 2, 0);
    var d := Duo(maxSize, nodes, r + 2, r + 1, p, Counted(r + 1), r + 2, 0);
    Move(a, 1, b, maxSize, nodes);
    Move(b, 1, c, maxSize, nodes);
    Move(c, 1, d, maxSize, nodes);
    Move(d, 1, Behind(maxSize, nodes, r + 1), maxSize, nodes);
  }

  lemma {:induction false} StaysBehind(maxSize: nat, nodes: nat, r: nat)
    requires nodes >= 2 && 2 < maxSize <= REGISTRY_SIZE && r < maxSize
    ensures Reachable(Behind(maxSize, nodes, r), maxSize, nodes)
  {
    hide Reachable;
    if r == 0 {
      FallsBehind(maxSize, nodes);
    } else {
      StaysBehind(maxSize, nodes, r - 1);
      OneMore(maxSize, nodes, r - 1);
    }
  }

  /**
   For every size from 3 on and two nodes or more the count can fall from any r < size back to 1, with
   all r + 1 blocks written; a user's revenue then falls to what block 0 pays, and it does fall if any
   of the others pays the user.
   */
  lemma CountFalls(maxSize: nat, nodes: nat, r: nat, pays: Payments) returns (s: Race, s': Race)
    requires nodes >= 2 && 2 < maxSize <= REGISTRY_SIZE && 2 <= r < maxSize && NoNegative(pays)
    ensures Reachable(s, maxSize, nodes) && Reachable(s', maxSize, nodes) && Next(s, s')
    ensures s.count == r && s'.count == 1 && s'.writes == s.writes == Upto(r + 1)
    ensures Revenue(s', pays) == pays(0)
    ensures Revenue(s', pays) < Revenue(s, pays) <==> exists id :: 1 <= id < r && pays(id) > 0
  {
    hide Reachable;
    s := Behind(maxSize, nodes, r);
    s' := Step(s, 0);
    StaysBehind(maxSize, nodes, r);
    ReachStep(s, 0, maxSize, nodes);
    assert CanStep(s, 0) && Next(s, s');
    assert s.writes[0] == 0;
    if id :| 1 <= id < r && pays(id) > 0 { assert s.writes[id] == id; }
    PaidRest(s.writes, pays, 1, r);
  }
}
