/** The cache of live recipients (app/user.c): when its cardinality test can be trusted. */
module Recipients {
  import opened Common

  /**
   live: users whose status is 1; counted: users still counted by the semaphore of live users;
   cached: the recipients user me has cached; scan: when me has found the count different and reads
   the table, the users that were live at that test.  A death drops the status first and the
   semaphore, at process exit, later; Gap is the set of users in between.
   */
  datatype World = World(live: set<int>, counted: set<int>, cached: set<int>, scan: Option<set<int>>, me: int)

  datatype Act = DropStatus(u: int) | Exit(u: int) | FindStale | Resync(seen: set<int>)

  /** get_user_rec_pid keeps its cache when the semaphore is the cached count plus one. */
  predicate CacheTrusted(w: World) {
    |w.counted| == |w.cached| + 1
  }

  /**
   A synchronisation follows a failed test only.  It reads one status after the other while users die:
   seen has everyone who is still live, and nobody who was not live at the test.
   */
  predicate Can(w: World, a: Act) {
    match a
    case DropStatus(u) => u in w.live && u != w.me
    case Exit(u) => u in w.counted && u !in w.live
    case FindStale => w.scan.None? && !CacheTrusted(w)
    case Resync(seen) => w.scan.Some? && w.live - {w.me} <= seen <= w.scan.value - {w.me}
  }

  function Step(w: World, a: Act): World
    requires Can(w, a)
  {
    match a
    case DropStatus(u) => w.(live := w.live - {u})
    case Exit(u) => w.(counted := w.counted - {u})
    case FindStale => w.(scan := Some(w.live))
    case Resync(seen) => w.(cached := seen, scan := None)
  }

  /**
   The first synchronisation of me is done.  Others may have died before it, or while it read the
   table, and may or may not have exited.
   */
  predicate Initial(w: World) {
    w.me in w.live && w.live <= w.counted && w.live - {w.me} <= w.cached && w.me !in w.cached && w.scan.None?
  }

  predicate Run(ws: seq<World>, acts: seq<Act>) {
    && |ws| == |acts| + 1 && Initial(ws[0])
    && forall k :: 0 <= k < |acts| ==> Can(ws[k], acts[k]) && ws[k + 1] == Step(ws[k], acts[k])
  }

  function Gap(w: World): set<int> {
    w.counted - w.live
  }

  /** In every run a synchronisation is preceded by a test that failed, with no other synchronisation in between. */
  lemma {:induction false} OnlyAfterFailedTest(ws: seq<World>, acts: seq<Act>, k: nat) returns (j: nat)
    requires Run(ws, acts) && k <= |acts| && ws[k].scan.Some?
    ensures j < k && acts[j] == FindStale && !CacheTrusted(ws[j]) && ws[k].scan.value == ws[j].live
    ensures forall i :: j < i < k ==> !acts[i].Resync?
  {
    assert Can(ws[k - 1], acts[k - 1]) && ws[k - 1 + 1] == Step(ws[k - 1], acts[k - 1]);
    if acts[k - 1] == FindStale {
      j := k - 1;
    } else {
      j := OnlyAfterFailedTest(ws, acts, k - 1);
    }
  }

  predicate Inv(w: World) {
    w.me in w.live && w.live <= w.counted && w.live - {w.me} <= w.cached && w.me !in w.cached
  }

  lemma {:induction false} RunInv(ws: seq<World>, acts: seq<Act>, k: nat)
    requires Run(ws, acts) && k <= |acts|
    ensures Inv(ws[k])
  {
    if k > 0 {
      RunInv(ws, acts, k - 1);
      assert Can(ws[k - 1], acts[k - 1]) && ws[k - 1 + 1] == Step(ws[k - 1], acts[k - 1]);
    }
  }

  lemma {:induction false} SubsetCard<T>(a: set<T>, b: set<T>)
    requires a <= b
    ensures |a| <= |b|
    ensures |a| == |b| ==> a == b
    decreases a
  {
    if |a| == 0 {
      assert a == {};
    } else {
      var x :| x in a;
      SubsetCard(a - {x}, b - {x});
      assert a == (a - {x}) + {x} && b == (b - {x}) + {x};
    }
  }

  /**
   When the cardinality test keeps the cache, the cached recipients are the current live others
   exactly if no user is between its status drop and its exit.
   */
  lemma CacheExact(ws: seq<World>, acts: seq<Act>, k: nat)
    requires Run(ws, acts) && k <= |acts| && CacheTrusted(ws[k])
    ensures ws[k].cached == ws[k].live - {ws[k].me} <==> Gap(ws[k]) == {}
  {
    RunInv(ws, acts, k);
    var w := ws[k];
    var others := w.live - {w.me};
    assert w.live == others + {w.me};
    SubsetCard(others, w.cached);
    SubsetCard(w.live, w.counted);
    if Gap(w) == {} { assert w.counted == w.live; }
  }

  /** In step k - 1 me has synchronised, and nobody's status has dropped since its test. */
  predicate JustSynchronised(ws: seq<World>, acts: seq<Act>, k: nat)
    requires Run(ws, acts) && k <= |acts|
  {
    k > 0 && acts[k - 1].Resync? && ws[k - 1].scan == Some(ws[k - 1].live)
  }

  /**
   If every death is one step, status and semaphore together, so that Gap is empty, then a recipient
   drawn from a trusted cache, or right after a synchronisation, is alive and not the sender.
   */
  lemma OneStepDeathsAreSafe(ws: seq<World>, acts: seq<Act>, k: nat, chosen: int)
    requires Run(ws, acts) && k <= |acts| && Gap(ws[k]) == {} && chosen in ws[k].cached
    requires CacheTrusted(ws[k]) || JustSynchronised(ws, acts, k)
    ensures chosen in ws[k].live && chosen != ws[k].me
  {
    RunInv(ws, acts, k);
    if CacheTrusted(ws[k]) {
      CacheExact(ws, acts, k);
    } else {
      assert Can(ws[k - 1], acts[k - 1]) && ws[k - 1 + 1] == Step(ws[k - 1], acts[k - 1]);
    }
  }

  /**
   With split deaths the test can accept a cache that holds a dead user, even one that has fully
   exited.  All five users are up at first.  When user 1 synchronises, user 2 has dropped its status
   and is still counted; when user 4 dies later, user 2 makes up for it in the count.
   */
  lemma DeadRecipient() returns (ws: seq<World>, acts: seq<Act>)
    ensures Run(ws, acts) && ws[0].counted == ws[0].live && ws[0].cached == ws[0].live - {ws[0].me}
    ensures var w := ws[|acts|];
            w.scan.None? && CacheTrusted(w) && exists u :: u in w.cached && u !in w.live && u !in w.counted
  {
    var all := {1, 2, 3, 4, 5};
    var w0 := World(all, all, {2, 3, 4, 5}, None, 1);
    var w2 := Step(Step(w0, DropStatus(2)), DropStatus(3));
    var w3 := Step(w2, Exit(3));
    assert w3.counted == {1, 2, 4, 5};
    var w4 := Step(w3, FindStale);
    var w5 := Step(w4, Resync({4, 5}));
    var w6 := Step(w5, DropStatus(4));
    var w7 := Step(w6, Exit(4));
    assert w7.counted == {1, 2, 5} && 4 in w7.cached;
    acts := [DropStatus(2), DropStatus(3), Exit(3), FindStale, Resync({4, 5}), DropStatus(4), Exit(4)];
    ws := [w0, Step(w0, DropStatus(2)), w2, w3, w4, w5, w6, w7];
  }
}
