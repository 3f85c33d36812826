/**
 The ledger under concurrency (app/ledger.c): any number of nodes, each statement on shared data
 a separate step, the increment of block_count split into a load and a store.
 */
module LedgerRace {
  import opened Common
  import opened Sums
  import L = Ledger

  /** Where a node is inside get_new_block_id and add_block. */
  datatype PC =
    | Idle
    | Locked                          // past the P of the ledger semaphore
    | Loaded(id: int)                 // has read last_block_id
    | Stored(id: int)                 // has written last_block_id back
    | Reserved(id: int)               // past the V, holds a reserved id
    | Wrote(id: int)                  // has written its slot
    | CountLoaded(id: int, c: int)    // has read block_count
    | Counted(id: int)                // has written block_count back
    | Stopped                         // in pause()

  /**
   issued and writes are histories: the ids stored as reserved, and the slots in the order they
   were written.  raised counts the calls that set reached_max_size.
   */
  datatype Race = Race(maxSize: int, sem: int, lastId: int, count: int, procs: seq<PC>,
                       issued: seq<int>, writes: seq<int>, raised: nat)

  function Start(maxSize: nat, nodes: nat): Race {
    Race(maxSize, 1, 0, 0, seq(nodes, _ => Idle), [], [], 0)
  }

  predicate CanStep(s: Race, i: nat) {
    && i < |s.procs|
    && !s.procs[i].Stopped?
    && (s.procs[i].Idle? ==> s.sem > 0)
  }

  function At(s: Race, i: nat, pc: PC): Race
    requires i < |s.procs|
  {
    s.(procs := s.procs[i := pc])
  }

  function Step(s: Race, i: nat): Race
    requires CanStep(s, i)
  {
    match s.procs[i]
    case Idle => At(s, i, Locked).(sem := s.sem - 1)
    case Locked => At(s, i, Loaded(s.lastId))
    case Loaded(id) => At(s, i, Stored(id)).(lastId := id + 1, issued := s.issued + [id])
    case Stored(id) => At(s, i, Reserved(id)).(sem := s.sem + 1)
    case Reserved(id) =>
      if id > REGISTRY_SIZE then At(s, i, Stopped)
      else if id > s.maxSize - 1 then At(s, i, Idle)
      else At(s, i, Wrote(id)).(writes := s.writes + [id])
    case Wrote(id) => At(s, i, CountLoaded(id, s.count))
    case CountLoaded(id, c) => At(s, i, Counted(id)).(count := c + 1)
    case Counted(id) =>
      if s.count == s.maxSize then At(s, i, Stopped).(raised := s.raised + 1) else At(s, i, Idle)
  }

  /** The master may start another node at any time. */
  function Spawn(s: Race): Race {
    s.(procs := s.procs + [Idle])
  }

  ghost predicate Next(s: Race, s': Race) {
    || s' == Spawn(s)
    || exists i: nat :: CanStep(s, i) && s' == Step(s, i)
  }

  ghost predicate Run(t: seq<Race>, maxSize: nat, nodes: nat) {
    && |t| > 0
    && t[0] == Start(maxSize, nodes)
    && forall k :: 0 < k < |t| ==> Next(t[k - 1], t[k])
  }

  // ---- the invariant ----

  predicate Critical(pc: PC) {
    pc.Locked? || pc.Loaded? || pc.Stored?
  }

  predicate Holds(pc: PC) {
    pc.Stored? || pc.Reserved?
  }

  /** 1 for a node that has written its slot and not yet stored the count. */
  function PendingBit(pc: PC): int {
    if pc.Wrote? || pc.CountLoaded? then 1 else 0
  }

  function Finished(s: Race): int {
    |s.writes| - SumOf(s.procs, PendingBit)
  }

  predicate Mutex(s: Race) {
    && 0 <= s.sem <= 1
    && (s.sem == 1 ==> forall i :: 0 <= i < |s.procs| ==> !Critical(s.procs[i]))
    && (forall i, j :: 0 <= i < j < |s.procs| ==> !(Critical(s.procs[i]) && Critical(s.procs[j])))
  }

  predicate Ids(s: Race) {
    && |s.issued| == s.lastId
    && (forall k :: 0 <= k < |s.issued| ==> s.issued[k] == k)
    && (forall i :: 0 <= i < |s.procs| && s.procs[i].Loaded? ==> s.procs[i].id == s.lastId)
  }

  predicate Written(s: Race) {
    && (forall k :: 0 <= k < |s.writes| ==> 0 <= s.writes[k] < s.lastId && s.writes[k] < s.maxSize)
    && (forall j, k :: 0 <= j < k < |s.writes| ==> s.writes[j] != s.writes[k])
  }

  predicate Held(s: Race) {
    && (forall i :: 0 <= i < |s.procs| && Holds(s.procs[i]) ==>
                      0 <= s.procs[i].id < s.lastId && s.procs[i].id !in s.writes)
    && (forall i, j :: 0 <= i < j < |s.procs| && Holds(s.procs[i]) && Holds(s.procs[j])
           ==> s.procs[i].id != s.procs[j].id)
  }

  predicate Slots(s: Race) {
    Written(s) && Held(s)
  }

  predicate Counts(s: Race) {
    && 0 <= s.count <= Finished(s)
    && forall i :: 0 <= i < |s.procs| && s.procs[i].CountLoaded? ==> 0 <= s.procs[i].c <= Finished(s)
  }

  predicate Inv(s: Race) {
    Mutex(s) && Ids(s) && Slots(s) && Counts(s)
  }

  lemma StartInv(maxSize: nat, nodes: nat)
    ensures Inv(Start(maxSize, nodes))
  {
    ZeroSum(Start(maxSize, nodes).procs, PendingBit);
  }

  lemma SpawnMutexIds(s: Race)
    requires Inv(s)
    ensures Mutex(Spawn(s)) && Ids(Spawn(s))
  {
  }

  lemma SpawnSlots(s: Race)
    requires Inv(s)
    ensures Slots(Spawn(s))
  {
  }

  lemma SpawnCounts(s: Race)
    requires Inv(s)
    ensures Counts(Spawn(s)) && Finished(Spawn(s)) == Finished(s)
  {
    SumPush(s.procs, Idle, PendingBit);
  }

  lemma StepMutexIds(s: Race, i: nat)
    requires Inv(s) && CanStep(s, i)
    ensures Mutex(Step(s, i)) && Ids(Step(s, i))
  {
  }

  lemma StepSlots(s: Race, i: nat)
    requires Inv(s) && CanStep(s, i)
    ensures Slots(Step(s, i))
  {
    hide Mutex, Counts;
    StepWrites(s, i);
    StepHeld(s, i);
  }

  /** The writes stay distinct reserved ids. */
  lemma StepWrites(s: Race, i: nat)
    requires Ids(s) && Slots(s) && CanStep(s, i)
    ensures Written(Step(s, i))
  {
  }

  /** The ids held stay distinct, reserved and unwritten. */
  lemma StepHeld(s: Race, i: nat)
    requires Ids(s) && Slots(s) && CanStep(s, i)
    ensures Held(Step(s, i))
  {
  }

  lemma StepCounts(s: Race, i: nat)
    requires Inv(s) && CanStep(s, i)
    ensures Counts(Step(s, i))
  {
    var s' := Step(s, i);
    SumUpdate(s.procs, i, s'.procs[i], PendingBit);
    if s.procs[i].CountLoaded? {
      assert s.procs[i].c + 1 <= Finished(s) + 1 == Finished(s');
    }
  }

  lemma {:induction false} DistinctBound(ps: seq<int>, n: int)
    requires n >= 0
    requires forall k :: 0 <= k < |ps| ==> 0 <= ps[k] < n
    requires forall j, k :: 0 <= j < k < |ps| ==> ps[j] != ps[k]
    ensures |ps| <= n
  {
    var s := set k | 0 <= k < |ps| :: ps[k];
    DistinctCard(ps);
    L.RangeCard(n, s);
  }

  lemma {:induction false} DistinctCard(ps: seq<int>)
    requires forall j, k :: 0 <= j < k < |ps| ==> ps[j] != ps[k]
    ensures |set k | 0 <= k < |ps| :: ps[k]| == |ps|
  {
    if ps != [] {
      var init := ps[..|ps| - 1];
      DistinctCard(init);
      assert (set k | 0 <= k < |ps| :: ps[k]) == (set k | 0 <= k < |init| :: init[k]) + {ps[|ps| - 1]};
    }
  }

  /** The master can add a node at any time, and it then takes part as soon as the semaphore is free. */
  lemma SpawnJoins(s: Race)
    ensures Next(s, Spawn(s)) && Spawn(s).procs[..|s.procs|] == s.procs && |Spawn(s).procs| == |s.procs| + 1
    ensures s.sem > 0 ==> CanStep(Spawn(s), |s.procs|) && Step(Spawn(s), |s.procs|).procs[|s.procs|] == Locked
  {
  }

  lemma NextStopped(s: Race, s': Race, i: nat)
    requires Next(s, s') && i < |s.procs| && s.procs[i] == Stopped
    ensures i < |s'.procs| && s'.procs[i] == Stopped
  {
  }

  /** A node that has reserved an id beyond the one create_block still accepts stops for good, and writes nothing. */
  lemma {:induction false} LateStops(t: seq<Race>, maxSize: nat, nodes: nat, k: nat, i: nat, m: nat)
    requires Run(t, maxSize, nodes) && k + 1 <= m < |t| && CanStep(t[k], i) && t[k + 1] == Step(t[k], i)
    requires t[k].procs[i].Reserved? && t[k].procs[i].id > REGISTRY_SIZE
    ensures t[k + 1].writes == t[k].writes
    ensures i < |t[m].procs| && t[m].procs[i] == Stopped && !CanStep(t[m], i)
    decreases m
  {
    hide Next;
    if m > k + 1 {
      LateStops(t, maxSize, nodes, k, i, m - 1);
      NextStopped(t[m - 1], t[m], i);
    }
  }

  predicate Safe(s: Race) {
    && |s.issued| == s.lastId && (forall k :: 0 <= k < |s.issued| ==> s.issued[k] == k)
    && (forall j, k :: 0 <= j < k < |s.writes| ==> s.writes[j] != s.writes[k])
    && (forall k :: 0 <= k < |s.writes| ==> s.writes[k] in s.issued)
    && s.count <= |s.writes| <= s.lastId && |s.writes| <= s.maxSize
  }

  lemma InvSafe(s: Race)
    requires Inv(s) && s.maxSize >= 0
    ensures Safe(s)
  {
    DistinctBound(s.writes, s.lastId);
    DistinctBound(s.writes, s.maxSize);
    SumAtLeast(s.procs, PendingBit);
    forall k | 0 <= k < |s.writes| ensures s.writes[k] in s.issued { assert s.issued[s.writes[k]] == s.writes[k]; }
  }

  /** Everything a step of the run keeps. */
  lemma NextInv(s: Race, s': Race)
    requires Inv(s) && Next(s, s')
    ensures Inv(s') && s'.maxSize == s.maxSize
  {
    hide Mutex, Ids, Slots, Counts;
    if s' == Spawn(s) {
      SpawnMutexIds(s);
      SpawnSlots(s);
      SpawnCounts(s);
    } else {
      var i: nat :| CanStep(s, i) && s' == Step(s, i);
      StepMutexIds(s, i);
      StepSlots(s, i);
      StepCounts(s, i);
    }
  }

  lemma {:induction false} RunInv(t: seq<Race>, maxSize: nat, nodes: nat, k: nat)
    requires Run(t, maxSize, nodes) && k < |t|
    ensures Inv(t[k]) && t[k].maxSize == maxSize
  {
    hide Inv, Next;
    if k == 0 {
      StartInv(maxSize, nodes);
    } else {
      RunInv(t, maxSize, nodes, k - 1);
      NextInv(t[k - 1], t[k]);
    }
  }

  /** Ledger safety in every state of every run, with any number of nodes and any interleaving. */
  lemma RaceSafe(t: seq<Race>, maxSize: nat, nodes: nat, k: nat)
    requires Run(t, maxSize, nodes) && k < |t|
    ensures Safe(t[k])
  {
    RunInv(t, maxSize, nodes, k);
    InvSafe(t[k]);
  }

  // ---- every slot is written once ----

  lemma NextWrites(s: Race, s': Race)
    requires Next(s, s')
    ensures s.writes <= s'.writes
  {
  }

  lemma {:induction false} WritesGrow(t: seq<Race>, maxSize: nat, nodes: nat, a: nat, b: nat)
    requires Run(t, maxSize, nodes) && a <= b < |t|
    ensures t[a].writes <= t[b].writes
    decreases b
  {
    hide Next;
    if a < b {
      WritesGrow(t, maxSize, nodes, a, b - 1);
      NextWrites(t[b - 1], t[b]);
    }
  }

  lemma {:induction false} CountsOnce(ps: seq<int>, x: int)
    requires forall j, k :: 0 <= j < k < |ps| ==> ps[j] != ps[k]
    ensures multiset(ps)[x] == if x in ps then 1 else 0
  {
    if ps != [] {
      var init, last := ps[..|ps| - 1], ps[|ps| - 1];
      CountsOnce(init, x);
      assert ps == init + [last];
    }
  }

  /**
   The slot a node writes in step k, with no semaphore held, has not been written before, and no
   later step of any node writes it again.
   */
  lemma WriteIsFirst(t: seq<Race>, maxSize: nat, nodes: nat, k: nat, i: nat, m: nat)
    requires Run(t, maxSize, nodes) && k + 1 <= m < |t|
    requires CanStep(t[k], i) && t[k].procs[i].Reserved? && t[k + 1] == Step(t[k], i)
    requires t[k].procs[i].id <= REGISTRY_SIZE && t[k].procs[i].id < maxSize
    ensures t[k].procs[i].id !in t[k].writes
    ensures t[k + 1].writes == t[k].writes + [t[k].procs[i].id]
    ensures multiset(t[m].writes)[t[k].procs[i].id] == 1
  {
    hide Next, Mutex, Ids, Counts;
    RunInv(t, maxSize, nodes, k);
    RunInv(t, maxSize, nodes, m);
    WritesGrow(t, maxSize, nodes, k + 1, m);
    var id := t[k].procs[i].id;
    assert t[k + 1].writes[|t[k].writes|] == id;
    CountsOnce(t[m].writes, id);
  }

  // ---- how often reached_max_size is set ----

  /** 1 for a node between its store of block_count and its test. */
  function CountedBit(pc: PC): int {
    if pc.Counted? then 1 else 0
  }

  function Testing(s: Race): int {
    SumOf(s.procs, CountedBit)
  }

  /** Calls that have set the flag, and those still bound to set it. */
  function Signals(s: Race): int {
    s.raised + (if s.count == s.maxSize then Testing(s) else 0)
  }

  /** Every slot has been written and every increment stored. */
  predicate AllStored(s: Race) {
    Finished(s) == s.maxSize
  }

  lemma AllStoredMeans(s: Race)
    requires Inv(s) && s.maxSize >= 0
    ensures Finished(s) <= s.maxSize
    ensures AllStored(s) ==> forall i :: 0 <= i < |s.procs| ==> !s.procs[i].Wrote? && !s.procs[i].CountLoaded?
  {
    hide Mutex, Ids, Counts;
    DistinctBound(s.writes, s.maxSize);
    SumAtLeast(s.procs, PendingBit);
  }

  lemma StepQuiet(s: Race, i: nat)
    requires Inv(s) && CanStep(s, i) && s.maxSize >= 0
    requires !AllStored(s) ==> s.raised == 0
    ensures !AllStored(Step(s, i)) ==> Step(s, i).raised == 0
    ensures AllStored(s) ==> AllStored(Step(s, i)) && Signals(Step(s, i)) == Signals(s)
  {
    hide Mutex, Ids, Slots;
    AllStoredMeans(s);
    var s' := Step(s, i);
    SumUpdate(s.procs, i, s'.procs[i], PendingBit);
    SumUpdate(s.procs, i, s'.procs[i], CountedBit);
  }

  /** No call sets the flag before the last increment is stored. */
  lemma NextQuiet(s: Race, s': Race)
    requires Inv(s) && Next(s, s') && s.maxSize >= 0
    requires !AllStored(s) ==> s.raised == 0
    ensures !AllStored(s') ==> s'.raised == 0
    ensures AllStored(s) ==> AllStored(s') && Signals(s') == Signals(s)
  {
    hide Inv, Step, CanStep;
    if s' == Spawn(s) {
      SumPush(s.procs, Idle, PendingBit);
      SumPush(s.procs, Idle, CountedBit);
    } else {
      var i: nat :| CanStep(s, i) && s' == Step(s, i);
      StepQuiet(s, i);
    }
  }

  lemma {:induction false} RunQuiet(t: seq<Race>, maxSize: nat, nodes: nat, k: nat, m: nat)
    requires Run(t, maxSize, nodes) && k <= m < |t|
    ensures !AllStored(t[m]) ==> t[m].raised == 0
    ensures AllStored(t[k]) ==> AllStored(t[m]) && Signals(t[m]) == Signals(t[k])
    decreases m
  {
    hide Inv, Next, AllStored, Signals;
    if m == 0 {
    } else if k < m {
      RunQuiet(t, maxSize, nodes, k, m - 1);
      RunInv(t, maxSize, nodes, m - 1);
      NextQuiet(t[m - 1], t[m]);
    } else {
      RunQuiet(t, maxSize, nodes, m - 1, m - 1);
      RunInv(t, maxSize, nodes, m - 1);
      NextQuiet(t[m - 1], t[m]);
    }
  }

  /**
   Exactly how many calls set reached_max_size.  Let step k of a run, by node i, store the last
   increment.  Once every node has made its test, the flag has been set by this call and by every
   node that stood between its own store and its test at that moment, if the value node i had
   loaded was current; and by nobody, if it was stale.
   */
  lemma SignalsExact(t: seq<Race>, maxSize: nat, nodes: nat, k: nat, i: nat, m: nat)
    requires Run(t, maxSize, nodes) && k + 1 <= m < |t|
    requires CanStep(t[k], i) && t[k].procs[i].CountLoaded? && t[k + 1] == Step(t[k], i)
    requires Finished(t[k]) == maxSize - 1
    requires forall j :: 0 <= j < |t[m].procs| ==> !t[m].procs[j].Counted?
    ensures t[m].raised == if t[k].procs[i].c == maxSize - 1 then 1 + Testing(t[k]) else 0
    ensures t[m].raised == 1 <==> t[k].procs[i].c == maxSize - 1 && Testing(t[k]) == 0
  {
    hide Inv;
    RunInv(t, maxSize, nodes, k);
    RunQuiet(t, maxSize, nodes, k, k);
    RunQuiet(t, maxSize, nodes, k + 1, m);
    RunInv(t, maxSize, nodes, m);
    SumUpdate(t[k].procs, i, t[k + 1].procs[i], PendingBit);
    SumUpdate(t[k].procs, i, t[k + 1].procs[i], CountedBit);
    SumAtLeast(t[k].procs, CountedBit);
    ZeroSum(t[m].procs, CountedBit);
  }

  // ---- the two ways it goes wrong ----

  ghost predicate Reachable(s: Race, maxSize: nat, nodes: nat) {
    exists t :: Run(t, maxSize, nodes) && t[|t| - 1] == s
  }

  lemma ReachStart(maxSize: nat, nodes: nat)
    ensures Reachable(Start(maxSize, nodes), maxSize, nodes)
  {
    assert Run([Start(maxSize, nodes)], maxSize, nodes);
  }

  lemma ReachStep(s: Race, i: nat, maxSize: nat, nodes: nat)
    requires Reachable(s, maxSize, nodes) && CanStep(s, i)
    ensures Reachable(Step(s, i), maxSize, nodes)
  {
    hide Step, CanStep, Start;
    var t :| Run(t, maxSize, nodes) && t[|t| - 1] == s;
    var u := t + [Step(s, i)];
    assert Next(s, Step(s, i));
    assert Run(u, maxSize, nodes);
  }

  function Upto(n: nat): seq<int> {
    seq(n, i => i)
  }

  /** Nodes 0 and 1 at p and q, all other nodes idle; the first writes ids recorded, in order. */
  function Duo(maxSize: nat, nodes: nat, lastId: nat, count: int, p: PC, q: PC, writes: nat, raised: nat): Race
    requires nodes >= 2
  {
    Race(maxSize, 1, lastId, count, seq(nodes, _ => Idle)[0 := p][1 := q], Upto(lastId), Upto(writes), raised)
  }

  lemma Move(s: Race, i: nat, s': Race, maxSize: nat, nodes: nat)
    requires Reachable(s, maxSize, nodes) && CanStep(s, i) && s' == Step(s, i)
    ensures Reachable(s', maxSize, nodes)
  {
    hide Reachable, Step;
    ReachStep(s, i, maxSize, nodes);
  }

  /** get_new_block_id by one node, undisturbed. */
  lemma ReserveOne(s: Race, i: nat, maxSize: nat, nodes: nat)
    requires Reachable(s, maxSize, nodes) && i < |s.procs| && s.procs[i].Idle? && s.sem == 1
    ensures Reachable(s.(lastId := s.lastId + 1, procs := s.procs[i := Reserved(s.lastId)],
                         issued := s.issued + [s.lastId]), maxSize, nodes)
  {
    hide Reachable;
    ReachStep(s, i, maxSize, nodes);
    var a := Step(s, i);
    ReachStep(a, i, maxSize, nodes);
    var b := Step(a, i);
    ReachStep(b, i, maxSize, nodes);
    var c := Step(b, i);
    ReachStep(c, i, maxSize, nodes);
    assert Step(c, i) == s.(lastId := s.lastId + 1, procs := s.procs[i := Reserved(s.lastId)],
                            issued := s.issued + [s.lastId]);
  }

  lemma ReserveZero(maxSize: nat, nodes: nat, m: nat, q: PC)
    requires nodes >= 2 && Reachable(Duo(maxSize, nodes, m, m, Idle, q, m, 0), maxSize, nodes)
    ensures Reachable(Duo(maxSize, nodes, m + 1, m, Reserved(m), q, m, 0), maxSize, nodes)
  {
    hide Reachable;
    var s := Duo(maxSize, nodes, m, m, Idle, q, m, 0);
    ReserveOne(s, 0, maxSize, nodes);
    assert Duo(maxSize, nodes, m + 1, m, Reserved(m), q, m, 0)
        == s.(lastId := m + 1, procs := s.procs[0 := Reserved(m)], issued := s.issued + [m]);
  }

  lemma ReserveSecond(maxSize: nat, nodes: nat, last: nat, count: int, p: PC, writes: nat, raised: nat)
    requires nodes >= 2 && Reachable(Duo(maxSize, nodes, last, count, p, Idle, writes, raised), maxSize, nodes)
    ensures Reachable(Duo(maxSize, nodes, last + 1, count, p, Reserved(last), writes, raised), maxSize, nodes)
  {
    hide Reachable;
    var s := Duo(maxSize, nodes, last, count, p, Idle, writes, raised);
    ReserveOne(s, 1, maxSize, nodes);
    assert Duo(maxSize, nodes, last + 1, count, p, Reserved(last), writes, raised)
        == s.(lastId := last + 1, procs := s.procs[1 := Reserved(last)], issued := s.issued + [last]);
  }

  /** Node 0 writes its slot and counts it, undisturbed. */
  lemma CountZero(maxSize: nat, nodes: nat, m: nat)
    requires nodes >= 2 && m < maxSize <= REGISTRY_SIZE
    requires Reachable(Duo(maxSize, nodes, m + 1, m, Reserved(m), Idle, m, 0), maxSize, nodes)
    ensures Reachable(Duo(maxSize, nodes, m + 1, m + 1, Counted(m), Idle, m + 1, 0), maxSize, nodes)
  {
    hide Reachable;
    var a := Duo(maxSize, nodes, m + 1, m, Reserved(m), Idle, m, 0);
    var b := Duo(maxSize, nodes, m + 1, m, Wrote(m), Idle, m + 1, 0);
    var c := Duo(maxSize, nodes, m + 1, m, CountLoaded(m, m), Idle, m + 1, 0);
    Move(a, 0, b, maxSize, nodes);
    Move(b, 0, c, maxSize, nodes);
    Move(c, 0, Duo(maxSize, nodes, m + 1, m + 1, Counted(m), Idle, m + 1, 0), maxSize, nodes);
  }

  /** Node 0 can record any number of blocks short of the size alone. */
  lemma {:induction false} Recorded(maxSize: nat, nodes: nat, m: nat)
    requires nodes >= 2 && m < maxSize <= REGISTRY_SIZE
    ensures Reachable(Duo(maxSize, nodes, m, m, Idle, Idle, m, 0), maxSize, nodes)
  {
    hide Reachable;
    if m == 0 {
      ReachStart(maxSize, nodes);
      assert Duo(maxSize, nodes, 0, 0, Idle, Idle, 0, 0) == Start(maxSize, nodes);
    } else {
      Recorded(maxSize, nodes, m - 1);
      ReserveZero(maxSize, nodes, m - 1, Idle);
      CountZero(maxSize, nodes, m - 1);
      Move(Duo(maxSize, nodes, m, m, Counted(m - 1), Idle, m, 0), 0, Duo(maxSize, nodes, m, m, Idle, Idle, m, 0),
          maxSize, nodes);
    }
  }

  /** With two slots left, nodes 0 and 1 reserve one each and write them both. */
  lemma LastTwoWritten(maxSize: nat, nodes: nat)
    requires nodes >= 2 && 2 <= maxSize <= REGISTRY_SIZE
    ensures Reachable(Duo(maxSize, nodes, maxSize, maxSize - 2, Wrote(maxSize - 2), Wrote(maxSize - 1), maxSize, 0),
            maxSize, nodes)
  {
    hide Reachable;
    var m := maxSize - 2;
    Recorded(maxSize, nodes, m);
    ReserveZero(maxSize, nodes, m, Idle);
    ReserveSecond(maxSize, nodes, m + 1, m, Reserved(m), m, 0);
    var a := Duo(maxSize, nodes, maxSize, m, Reserved(m), Reserved(m + 1), m, 0);
    var b := Duo(maxSize, nodes, maxSize, m, Wrote(m), Reserved(m + 1), m + 1, 0);
    Move(a, 0, b, maxSize, nodes);
    Move(b, 1, Duo(maxSize, nodes, maxSize, m, Wrote(m), Wrote(m + 1), maxSize, 0), maxSize, nodes);
  }

  /** A step of node 0 or 1 that touches the count and the flag only. */
  lemma MoveDuo(maxSize: nat, nodes: nat, i: nat, c: int, p: PC, q: PC, r: nat, c': int, p': PC, q': PC, r': nat)
    requires nodes >= 2 && i < 2 && Reachable(Duo(maxSize, nodes, maxSize, c, p, q, maxSize, r), maxSize, nodes)
    requires var pc := if i == 0 then p else q; pc.Wrote? || pc.CountLoaded? || pc.Counted?
    requires Step(Duo(maxSize, nodes, maxSize, c, p, q, maxSize, r), i)
            == Duo(maxSize, nodes, maxSize, c', p', q', maxSize, r')
    ensures Reachable(Duo(maxSize, nodes, maxSize, c', p', q', maxSize, r'), maxSize, nodes)
  {
    hide Reachable, Step;
    Move(Duo(maxSize, nodes, maxSize, c, p, q, maxSize, r), i, Duo(maxSize, nodes, maxSize, c', p', q', maxSize, r'),
        maxSize, nodes);
  }

  /**
   A lost update, for a ledger of any size and any number of nodes from two on: the ledger is full,
   everyone has made its test, and no call has set the flag.
   */
  lemma NoSignal(maxSize: nat, nodes: nat)
    requires nodes >= 2 && 2 <= maxSize <= REGISTRY_SIZE
    ensures Reachable(Duo(maxSize, nodes, maxSize, maxSize - 1, Idle, Idle, maxSize, 0), maxSize, nodes)
  {
    hide Reachable;
    var c, u, v := maxSize - 2, maxSize - 2, maxSize - 1;
    LastTwoWritten(maxSize, nodes);
    MoveDuo(maxSize, nodes, 0, c, Wrote(u), Wrote(v), 0, c, CountLoaded(u, c), Wrote(v), 0);
    MoveDuo(maxSize, nodes, 1, c, CountLoaded(u, c), Wrote(v), 0, c, CountLoaded(u, c), CountLoaded(v, c), 0);
    MoveDuo(maxSize, nodes, 0, c, CountLoaded(u, c), CountLoaded(v, c), 0, c + 1, Counted(u), CountLoaded(v, c), 0);
    MoveDuo(maxSize, nodes, 1, c + 1, Counted(u), CountLoaded(v, c), 0, c + 1, Counted(u), Counted(v), 0);
    MoveDuo(maxSize, nodes, 0, c + 1, Counted(u), Counted(v), 0, c + 1, Idle, Counted(v), 0);
    MoveDuo(maxSize, nodes, 1, c + 1, Idle, Counted(v), 0, c + 1, Idle, Idle, 0);
  }

  /** Two calls set the flag. */
  lemma TwoSignals(maxSize: nat, nodes: nat)
    requires nodes >= 2 && 2 <= maxSize <= REGISTRY_SIZE
    ensures Reachable(Duo(maxSize, nodes, maxSize, maxSize, Stopped, Stopped, maxSize, 2), maxSize, nodes)
  {
    hide Reachable;
    var c, u, v := maxSize - 2, maxSize - 2, maxSize - 1;
    LastTwoWritten(maxSize, nodes);
    MoveDuo(maxSize, nodes, 0, c, Wrote(u), Wrote(v), 0, c, CountLoaded(u, c), Wrote(v), 0);
    MoveDuo(maxSize, nodes, 0, c, CountLoaded(u, c), Wrote(v), 0, c + 1, Counted(u), Wrote(v), 0);
    MoveDuo(maxSize, nodes, 1, c + 1, Counted(u), Wrote(v), 0, c + 1, Counted(u), CountLoaded(v, c + 1), 0);
    MoveDuo(maxSize, nodes, 1, c + 1, Counted(u), CountLoaded(v, c + 1), 0, c + 2, Counted(u), Counted(v), 0);
    MoveDuo(maxSize, nodes, 0, c + 2, Counted(u), Counted(v), 0, c + 2, Stopped, Counted(v), 1);
    MoveDuo(maxSize, nodes, 1, c + 2, Stopped, Counted(v), 1, c + 2, Stopped, Stopped, 2);
  }

  /**
   With the program's own size a node can hold the one id that create_block accepts and add_block
   refuses: the ledger is full, and the node's next step drops the block without a write.
   */
  lemma RefusedIdReached(nodes: nat) returns (s: Race)
    requires nodes >= 2
    ensures Reachable(s, REGISTRY_SIZE, nodes) && |s.writes| == s.count == REGISTRY_SIZE
    ensures CanStep(s, 1) && s.procs[1] == Reserved(REGISTRY_SIZE)
    ensures Step(s, 1).procs[1] == Idle && Step(s, 1).writes == s.writes
  {
    hide Reachable;
    var n := REGISTRY_SIZE;
    Recorded(n, nodes, n - 1);
    ReserveZero(n, nodes, n - 1, Idle);
    CountZero(n, nodes, n - 1);
    MoveDuo(n, nodes, 0, n, Counted(n - 1), Idle, 0, n, Stopped, Idle, 1);
    ReserveSecond(n, nodes, n, n, Stopped, n, 1);
    s := Duo(n, nodes, n + 1, n, Stopped, Reserved(n), n, 1);
  }
}
