/**
 The two synchronisation semaphores (app/main.c, app/node.c, app/user.c): first start-up
 barriers, then a gate between the master that reads the shared tables and the processes that
 write them.  Every semop call is one step.
 */
module Sync {
  import opened Sums

  datatype PC =
    | NodeInit     // initial node, before its P on semaphore 0
    | NodeWait     // waits for semaphore 0 to be zero
    | NodeFriends  // receives its friends, then P on semaphore 1
    | NodeBarrier  // waits for semaphore 1 to be zero
    | UserInit     // user, before its P on semaphore 0
    | UserWait     // waits for semaphore 0 to be zero, ...
    | UserWait2    // ... and once more
    | Out          // outside any write section
    | Want         // at the gate: waits for semaphore 0 to be zero
    | Passed       // through the gate, before its V on semaphore 1
    | In           // in its write section, before its P on semaphore 1
    | Gone

  datatype MasterPC =
    | MWait                      // waits for semaphore 0 to be zero
    | MSend(node: nat, k: nat)   // sends friend k to a node
    | MBarrier                   // waits for semaphore 1 to be zero
    | MOut                       // main loop, flag down
    | MRaised                    // flag up (V on semaphore 0), waits for semaphore 1 to be zero
    | MReading                   // reads the tables

  datatype Proc = Proc(pc: PC, initialNode: bool, friends: nat, inbox: nat)

  /** merged is false for the program; true for a gate whose wait and V are one semop call. */
  datatype State = State(merged: bool, nodes: nat, users: nat, friendsNum: nat, sem0: int, sem1: int,
                         procs: seq<Proc>, master: MasterPC)

  /** With no more users than this a summary prints them all, and the flag stays down. */
  const PRINT_PROCESS_LIMIT: nat := 10

  function Start(merged: bool, nodes: nat, users: nat, friendsNum: nat): State {
    State(merged, nodes, users, friendsNum, nodes + users, nodes,
          seq(nodes, _ => Proc(NodeInit, true, 0, 0)) + seq(users, _ => Proc(UserInit, false, 0, 0)), MWait)
  }

  predicate CanStep(s: State, i: nat) {
    && i < |s.procs|
    && var p := s.procs[i];
       match p.pc
       case NodeInit => s.sem0 > 0
       case NodeWait => s.sem0 == 0
       case NodeFriends => if p.friends < s.friendsNum then p.inbox > 0 else s.sem1 > 0
       case NodeBarrier => s.sem1 == 0
       case UserInit => s.sem0 > 0
       case UserWait => s.sem0 == 0
       case UserWait2 => s.sem0 == 0
       case Out => true
       case Want => s.sem0 == 0
       case Passed => true
       case In => s.sem1 > 0
       case Gone => false
  }

  /** last tells whether the process terminates after this write section. */
  function Moved(s: State, i: nat, last: bool): Proc
    requires CanStep(s, i)
  {
    var p := s.procs[i];
    match p.pc
    case NodeInit => p.(pc := NodeWait)
    case NodeWait => p.(pc := NodeFriends)
    case NodeFriends =>
      if p.friends < s.friendsNum then p.(friends := p.friends + 1, inbox := p.inbox - 1) else p.(pc := NodeBarrier)
    case NodeBarrier => p.(pc := Out)
    case UserInit => p.(pc := UserWait)
    case UserWait => p.(pc := UserWait2)
    case UserWait2 => p.(pc := Out)
    case Out => p.(pc := Want)
    case Want => p.(pc := if s.merged then In else Passed)
    case Passed => p.(pc := In)
    case In => p.(pc := if last then Gone else Out)
  }

  function Step(s: State, i: nat, last: bool): State
    requires CanStep(s, i)
  {
    var p := s.procs[i];
    s.(procs := s.procs[i := Moved(s, i, last)],
       sem0 := if p.pc.NodeInit? || p.pc.UserInit? then s.sem0 - 1 else s.sem0,
       sem1 := if p.pc.Passed? || (p.pc.Want? && s.merged) then s.sem1 + 1
               else if p.pc.In? || (p.pc.NodeFriends? && p.friends >= s.friendsNum) then s.sem1 - 1
               else s.sem1)
  }

  predicate MasterCan(s: State) {
    match s.master
    case MWait => s.sem0 == 0
    case MSend(_, _) => true
    case MBarrier => s.sem1 == 0
    case MOut => s.users > PRINT_PROCESS_LIMIT
    case MRaised => s.sem1 == 0
    case MReading => s.sem0 > 0
  }

  function MasterStep(s: State): State
    requires MasterCan(s)
  {
    match s.master
    case MWait => s.(master := MSend(0, 0))
    case MSend(n, k) =>
      if n >= s.nodes || n >= |s.procs| then s.(master := MBarrier)
      else if k >= s.friendsNum then s.(master := MSend(n + 1, 0))
      else s.(master := MSend(n, k + 1), procs := s.procs[n := s.procs[n].(inbox := s.procs[n].inbox + 1)])
    case MBarrier => s.(master := MOut)
    case MOut => s.(master := MRaised, sem0 := s.sem0 + 1)
    case MRaised => s.(master := MReading)
    case MReading => s.(master := MOut, sem0 := s.sem0 - 1)
  }

  /** The master creates another node, which uses the gate only. */
  function Spawn(s: State): State {
    s.(procs := s.procs + [Proc(Out, false, 0, 0)])
  }

  ghost predicate Next(s: State, s': State) {
    || (exists i: nat, last: bool :: CanStep(s, i) && s' == Step(s, i, last))
    || (MasterCan(s) && s' == MasterStep(s))
    || (s.master.MOut? && s' == Spawn(s))
  }

  /** Consecutive states of one execution, from anywhere. */
  ghost predicate Segment(t: seq<State>) {
    |t| > 0 && forall k :: 0 < k < |t| ==> Next(t[k - 1], t[k])
  }

  ghost predicate Run(t: seq<State>, merged: bool, nodes: nat, users: nat, friendsNum: nat) {
    Segment(t) && t[0] == Start(merged, nodes, users, friendsNum)
  }

  // ---- the invariant ----

  function InitBit(p: Proc): int {
    if p.pc.NodeInit? || p.pc.UserInit? then 1 else 0
  }

  /** Initial nodes still to decrement semaphore 1, and active writers. */
  function Sem1Bit(p: Proc): int {
    if p.pc.NodeInit? || p.pc.NodeWait? || p.pc.NodeFriends? || p.pc.In? then 1 else 0
  }

  function Flag(s: State): int {
    if s.master.MRaised? || s.master.MReading? then 1 else 0
  }

  predicate Semaphores(s: State) {
    && s.sem0 == SumOf(s.procs, InitBit) + Flag(s)
    && s.sem1 == SumOf(s.procs, Sem1Bit)
  }

  predicate Undecremented(p: Proc) {
    p.pc.NodeInit? || p.pc.NodeWait? || p.pc.NodeFriends?
  }

  /** Past the barrier on semaphore 0. */
  predicate Begun(p: Proc) {
    !p.pc.NodeInit? && !p.pc.NodeWait? && !p.pc.UserInit? && !p.pc.UserWait?
  }

  predicate Afterwards(m: MasterPC) {
    m.MOut? || m.MRaised? || m.MReading?
  }

  /** Friends the master has sent to node i so far. */
  function Sent(s: State, i: nat): nat {
    match s.master
    case MWait => 0
    case MSend(n, k) => if i < n then s.friendsNum else if i == n then k else 0
    case _ => s.friendsNum
  }

  predicate Kinds(s: State) {
    && s.nodes <= |s.procs|
    && (forall i :: 0 <= i < |s.procs| ==> (s.procs[i].initialNode <==> i < s.nodes))
    && (forall i :: 0 <= i < |s.procs| && (Undecremented(s.procs[i]) || s.procs[i].pc.NodeBarrier?)
           ==> s.procs[i].initialNode)
    && (s.master.MSend? ==> s.master.node <= s.nodes && s.master.k <= s.friendsNum)
    && (s.master.MSend? && s.master.node == s.nodes ==> s.master.k == 0)
  }

  predicate Friends(s: State) {
    forall i :: 0 <= i < |s.procs| && s.procs[i].initialNode ==>
                  && s.procs[i].friends + s.procs[i].inbox == Sent(s, i)
                  && s.procs[i].friends <= s.friendsNum
                  && (!Undecremented(s.procs[i]) ==> s.procs[i].friends == s.friendsNum)
  }

  predicate Order(s: State) {
    && ((exists i :: 0 <= i < |s.procs| && Begun(s.procs[i])) || !s.master.MWait? ==> SumOf(s.procs, InitBit) == 0)
    && (Afterwards(s.master) || (exists i :: 0 <= i < |s.procs| && s.procs[i].initialNode
                                    && !Undecremented(s.procs[i]) && !s.procs[i].pc.NodeBarrier?)
        ==> forall i :: 0 <= i < |s.procs| ==> !Undecremented(s.procs[i]))
  }

  predicate MergedGate(s: State) {
    s.merged ==>
      && (forall i :: 0 <= i < |s.procs| ==> !s.procs[i].pc.Passed?)
      && (s.master.MReading? ==> forall i :: 0 <= i < |s.procs| ==> !s.procs[i].pc.In?)
  }

  predicate Inv(s: State) {
    Semaphores(s) && Kinds(s) && Friends(s) && Order(s) && MergedGate(s)
  }

  lemma BitsMean(s: State)
    ensures SumOf(s.procs, InitBit) >= 0 && SumOf(s.procs, Sem1Bit) >= 0
    ensures forall i :: 0 <= i < |s.procs| ==> InitBit(s.procs[i]) <= SumOf(s.procs, InitBit)
    ensures forall i :: 0 <= i < |s.procs| ==> Sem1Bit(s.procs[i]) <= SumOf(s.procs, Sem1Bit)
  {
    SumAtLeast(s.procs, InitBit);
    SumAtLeast(s.procs, Sem1Bit);
  }

  lemma {:induction false} AllOnes(n: nat, x: Proc, f: Proc -> int)
    ensures SumOf(seq(n, _ => x), f) == n * f(x)
  {
    if n > 0 {
      var s := seq(n, _ => x);
      AllOnes(n - 1, x, f);
      assert s[..n - 1] == seq(n - 1, _ => x);
      assert n * f(x) == (n - 1) * f(x) + f(x);
    }
  }

  lemma StartSemaphores(merged: bool, nodes: nat, users: nat, friendsNum: nat)
    ensures Semaphores(Start(merged, nodes, users, friendsNum))
    ensures SumOf(Start(merged, nodes, users, friendsNum).procs, InitBit) == nodes + users
  {
    var n, u := Proc(NodeInit, true, 0, 0), Proc(UserInit, false, 0, 0);
    var a, b := seq(nodes, _ => n), seq(users, _ => u);
    SumAppend(a, b, InitBit);
    SumAppend(a, b, Sem1Bit);
    AllOnes(nodes, n, InitBit);
    AllOnes(users, u, InitBit);
    AllOnes(nodes, n, Sem1Bit);
    AllOnes(users, u, Sem1Bit);
  }

  lemma StartInv(merged: bool, nodes: nat, users: nat, friendsNum: nat)
    ensures Inv(Start(merged, nodes, users, friendsNum))
  {
    hide SumOf;
    StartSemaphores(merged, nodes, users, friendsNum);
    var s := Start(merged, nodes, users, friendsNum);
    assert forall i :: 0 <= i < |s.procs| ==> s.procs[i].pc == (if i < nodes then NodeInit else UserInit)
                                              && s.procs[i].friends == s.procs[i].inbox == 0;
  }

  lemma StepSemaphores(s: State, i: nat, last: bool)
    requires Inv(s) && CanStep(s, i)
    ensures Semaphores(Step(s, i, last))
  {
    hide Kinds, Friends, Order, MergedGate;
    SumUpdate(s.procs, i, Moved(s, i, last), InitBit);
    SumUpdate(s.procs, i, Moved(s, i, last), Sem1Bit);
  }

  lemma StepKinds(s: State, i: nat, last: bool)
    requires Inv(s) && CanStep(s, i)
    ensures Kinds(Step(s, i, last)) && Friends(Step(s, i, last))
  {
    hide Semaphores, Order, MergedGate;
  }

  lemma StepOrder(s: State, i: nat, last: bool)
    requires Inv(s) && CanStep(s, i)
    ensures Order(Step(s, i, last))
  {
    hide Kinds, Friends, MergedGate;
    BitsMean(s);
    var s' := Step(s, i, last);
    SumUpdate(s.procs, i, Moved(s, i, last), InitBit);
    BitsMean(s');
  }

  lemma StepMerged(s: State, i: nat, last: bool)
    requires Inv(s) && CanStep(s, i)
    ensures MergedGate(Step(s, i, last))
  {
    hide Kinds, Friends, Order;
    BitsMean(s);
  }

  lemma SendInv(s: State)
    requires Inv(s) && s.master.MSend?
    ensures Inv(MasterStep(s))
  {
    hide MergedGate, SumOf;
    var n := s.master.node;
    if n < s.nodes && s.master.k < s.friendsNum {
      var p := s.procs[n].(inbox := s.procs[n].inbox + 1);
      SumUpdate(s.procs, n, p, InitBit);
      SumUpdate(s.procs, n, p, Sem1Bit);
    }
    assert MergedGate(MasterStep(s)) by { SendMerged(s); }
  }

  lemma SendMerged(s: State)
    requires MergedGate(s) && s.master.MSend?
    ensures MergedGate(MasterStep(s))
  {
  }

  lemma MasterInv(s: State)
    requires Inv(s) && MasterCan(s)
    ensures Inv(MasterStep(s))
  {
    hide SumOf;
    if s.master.MSend? {
      SendInv(s);
    } else {
      BitsMean(s);
    }
  }

  lemma SpawnInv(s: State)
    requires Inv(s) && s.master.MOut?
    ensures Inv(Spawn(s))
  {
    SumPush(s.procs, Proc(Out, false, 0, 0), InitBit);
    SumPush(s.procs, Proc(Out, false, 0, 0), Sem1Bit);
  }

  lemma NextInv(s: State, s': State)
    requires Inv(s) && Next(s, s')
    ensures Inv(s') && s'.merged == s.merged
  {
    hide Semaphores, Kinds, Friends, Order, MergedGate, CanStep, Moved;
    if i: nat, last: bool :| CanStep(s, i) && s' == Step(s, i, last) {
      StepSemaphores(s, i, last);
      StepKinds(s, i, last);
      StepOrder(s, i, last);
      StepMerged(s, i, last);
    } else if MasterCan(s) && s' == MasterStep(s) {
      MasterInv(s);
    } else {
      SpawnInv(s);
    }
  }

  lemma {:induction false} SegmentInv(t: seq<State>, k: nat)
    requires Segment(t) && Inv(t[0]) && k < |t|
    ensures Inv(t[k]) && t[k].merged == t[0].merged
  {
    hide Inv, Next;
    if k > 0 {
      SegmentInv(t, k - 1);
      NextInv(t[k - 1], t[k]);
    }
  }

  lemma RunInv(t: seq<State>, merged: bool, nodes: nat, users: nat, friendsNum: nat, k: nat)
    requires Run(t, merged, nodes, users, friendsNum) && k < |t|
    ensures Inv(t[k]) && t[k].merged == merged
  {
    hide Inv;
    StartInv(merged, nodes, users, friendsNum);
    SegmentInv(t, k);
  }

  // ---- start-up barriers ----

  /**
   The second semaphore is the number of initial nodes still to decrement it plus the active
   writers; so when it is zero, as an initial node and the master demand at their barrier, every
   initial node has its whole friend list; and nobody is past that barrier before.
   */
  lemma StartUpBarrier(t: seq<State>, nodes: nat, users: nat, friendsNum: nat, k: nat)
    requires Run(t, false, nodes, users, friendsNum) && k < |t|
    ensures t[k].sem1 == SumOf(t[k].procs, Sem1Bit)
    ensures t[k].sem1 == 0 || Afterwards(t[k].master)
            || (exists i :: 0 <= i < |t[k].procs| && t[k].procs[i].initialNode && !Undecremented(t[k].procs[i])
                   && !t[k].procs[i].pc.NodeBarrier?)
            ==> forall i :: 0 <= i < |t[k].procs| && t[k].procs[i].initialNode
                   ==> t[k].procs[i].friends == t[k].friendsNum
  {
    hide CanStep, Moved, Next, SumOf;
    RunInv(t, false, nodes, users, friendsNum, k);
    BitsMean(t[k]);
    var s := t[k];
    if s.sem1 == 0 {
      forall i | 0 <= i < |s.procs| && s.procs[i].initialNode ensures s.procs[i].friends == s.friendsNum {
        assert Sem1Bit(s.procs[i]) <= 0;
      }
    }
  }

  // ---- the gate ----

  predicate SomeIn(s: State) {
    exists i :: 0 <= i < |s.procs| && s.procs[i].pc.In?
  }

  predicate SomePassed(s: State) {
    exists i :: 0 <= i < |s.procs| && s.procs[i].pc.Passed?
  }

  /** When the master passes its wait, no process is inside a write section. */
  lemma NoWriterWhenMasterPasses(s: State)
    requires Inv(s) && s.master.MRaised? && MasterCan(s)
    ensures !SomeIn(MasterStep(s))
  {
    hide SumOf;
    BitsMean(s);
  }

  predicate FlagUp(t: seq<State>) {
    forall k :: 0 <= k < |t| ==> t[k].master.MRaised? || t[k].master.MReading?
  }

  predicate Is(s: State, i: nat, pc: PC) {
    i < |s.procs| && s.procs[i].pc == pc
  }

  /** Write sections process i begins in the segment. */
  function Entries(t: seq<State>, i: nat): nat {
    if |t| < 2 then 0
    else Entries(t[..|t| - 1], i) + (if !Is(t[|t| - 2], i, In) && Is(t[|t| - 1], i, In) then 1 else 0)
  }

  /** With the flag up, entering takes Passed away and nothing gives it back. */
  lemma NextEntry(s: State, s': State, i: nat)
    requires Inv(s) && !s.merged && Next(s, s') && Flag(s) == 1 && Flag(s') == 1
    ensures (if !Is(s, i, In) && Is(s', i, In) then 1 else 0) + (if Is(s', i, Passed) then 1 else 0)
            <= (if Is(s, i, Passed) then 1 else 0)
  {
    hide SumOf, Kinds, Friends, Order;
    BitsMean(s);
  }

  /**
   While the flag is up each process performs at most one write section, and only the one whose
   gate it had already passed when the flag was found up.
   */
  lemma {:induction false} OneEntryAtMost(t: seq<State>, i: nat)
    requires Segment(t) && Inv(t[0]) && !t[0].merged && FlagUp(t)
    ensures Entries(t, i) + (if Is(t[|t| - 1], i, Passed) then 1 else 0) <= (if Is(t[0], i, Passed) then 1 else 0)
  {
    hide Inv, Next;
    if |t| >= 2 {
      var u := t[..|t| - 1];
      OneEntryAtMost(u, i);
      SegmentInv(t, |t| - 2);
      assert Next(t[|t| - 1 - 1], t[|t| - 1]);
      NextEntry(t[|t| - 2], t[|t| - 1], i);
    }
  }

  /** The gate over whole runs: from any point of a run, and for any stretch with the flag up. */
  lemma GateOverRuns(t: seq<State>, nodes: nat, users: nat, friendsNum: nat, a: nat, b: nat, i: nat)
    requires Run(t, false, nodes, users, friendsNum) && a < b <= |t|
    ensures FlagUp(t[a..b]) ==> Entries(t[a..b], i) <= (if Is(t[a], i, Passed) then 1 else 0)
    ensures t[a].master.MRaised? && b < |t| && t[a + 1].master.MReading? ==> !SomeIn(t[a + 1])
  {
    hide Inv, FlagUp, Entries, SomeIn;
    RunInv(t, false, nodes, users, friendsNum, a);
    var u := t[a..b];
    assert Segment(u) by {
      forall k | 0 < k < |u| ensures Next(u[k - 1], u[k]) { assert Next(t[a + k - 1], t[a + k]); }
    }
    if FlagUp(u) { OneEntryAtMost(u, i); }
    if t[a].master.MRaised? && b < |t| && t[a + 1].master.MReading? {
      assert Next(t[a + 1 - 1], t[a + 1]);
      if MasterCan(t[a]) && t[a + 1] == MasterStep(t[a]) { NoWriterWhenMasterPasses(t[a]); }
    }
  }

  /** With wait and V merged into one semop call, reading excludes writing in every state of every run. */
  lemma MergedExcludes(t: seq<State>, nodes: nat, users: nat, friendsNum: nat, k: nat)
    requires Run(t, true, nodes, users, friendsNum) && k < |t|
    ensures !(t[k].master.MReading? && SomeIn(t[k]))
  {
    hide Semaphores, Kinds, Friends, Order, Next, Start;
    RunInv(t, true, nodes, users, friendsNum, k);
  }

  predicate Reading(t: seq<State>) {
    forall k :: 0 <= k < |t| ==> t[k].master.MReading?
  }

  lemma NextStaysOut(s: State, s': State)
    requires Inv(s) && Next(s, s') && s.master.MReading? && s'.master.MReading?
    requires !SomeIn(s) && !SomePassed(s)
    ensures !SomeIn(s') && !SomePassed(s')
  {
    hide SumOf, Kinds, Friends, Order, MergedGate;
    BitsMean(s);
  }

  lemma {:induction false} SegmentStaysOut(t: seq<State>)
    requires Segment(t) && Inv(t[0]) && Reading(t) && !SomeIn(t[0]) && !SomePassed(t[0])
    ensures !SomeIn(t[|t| - 1])
    ensures !SomePassed(t[|t| - 1])
  {
    hide Inv, Next, SomeIn, SomePassed;
    if |t| >= 2 {
      SegmentStaysOut(t[..|t| - 1]);
      SegmentInv(t, |t| - 2);
      assert Next(t[|t| - 1 - 1], t[|t| - 1]);
      NextStaysOut(t[|t| - 2], t[|t| - 1]);
    }
  }

  ghost predicate WriterCanEnter(s: State) {
    exists t :: Segment(t) && t[0] == s && Reading(t) && SomeIn(t[|t| - 1])
  }

  /**
   The program's gate alone does not exclude: once the master reads, a writer can still enter
   during this reading exactly when some process had passed the gate and not yet announced itself.
   */
  lemma ExclusionExact(s: State)
    requires Inv(s) && s.master.MReading? && !SomeIn(s)
    ensures WriterCanEnter(s) <==> SomePassed(s)
  {
    hide Semaphores, Kinds, Friends, Order, MergedGate;
    if i :| 0 <= i < |s.procs| && s.procs[i].pc.Passed? {
      var s' := Step(s, i, false);
      assert s'.procs[i].pc.In?;
      assert CanStep(s, i) && Next(s, s');
      var t := [s, s'];
      assert Segment(t) && Reading(t) && SomeIn(t[|t| - 1]);
    }
    if WriterCanEnter(s) && !SomePassed(s) {
      var t :| Segment(t) && t[0] == s && Reading(t) && SomeIn(t[|t| - 1]);
      SegmentStaysOut(t);
    }
  }

  // ---- who takes part ----

  lemma NextGone(s: State, s': State, i: nat)
    requires Next(s, s') && Is(s, i, Gone)
    ensures Is(s', i, Gone)
  {
  }

  /** A process that terminates after a write section has left the section, and takes no part any more. */
  lemma {:induction false} LeavesForGood(t: seq<State>, i: nat, k: nat)
    requires Segment(t) && 1 <= k < |t|
    requires CanStep(t[0], i) && Is(t[0], i, In) && t[1] == Step(t[0], i, true)
    ensures Is(t[k], i, Gone) && !CanStep(t[k], i) && t[1].sem1 == t[0].sem1 - 1
  {
    hide Next;
    if k > 1 {
      LeavesForGood(t, i, k - 1);
      NextGone(t[k - 1], t[k], i);
    }
  }

  /** A node created later changes no semaphore, has no barrier to pass, and comes to the gate at its first write. */
  lemma SpawnJoins(s: State)
    ensures var s', i := Spawn(s), |s.procs|;
            && s'.sem0 == s.sem0 && s'.sem1 == s.sem1 && s'.procs[..i] == s.procs
            && CanStep(s', i) && Is(Step(s', i, false), i, Want)
    ensures s.master.MOut? ==> Next(s, Spawn(s))
  {
  }

  lemma NextFlag(s: State, s': State)
    requires Next(s, s') && s.users <= PRINT_PROCESS_LIMIT && Flag(s) == 0
    ensures Flag(s') == 0 && s'.users == s.users
  {
  }

  /** With no more users than are printed anyway, the master never raises its flag. */
  lemma {:induction false} FewUsersNoFlag(t: seq<State>, merged: bool, nodes: nat, users: nat, friendsNum: nat, k: nat)
    requires Run(t, merged, nodes, users, friendsNum) && users <= PRINT_PROCESS_LIMIT && k < |t|
    ensures Flag(t[k]) == 0 && t[k].users == users
  {
    hide Next;
    if k > 0 {
      FewUsersNoFlag(t, merged, nodes, users, friendsNum, k - 1);
      NextFlag(t[k - 1], t[k]);
    }
  }

  // ---- progress ----

  /** Somebody is in the middle of a protocol. */
  predicate Busy(s: State) {
    !s.master.MOut? || exists i :: 0 <= i < |s.procs| && !s.procs[i].pc.Out? && !s.procs[i].pc.Gone?
  }

  /** A step that is neither a new arrival at the gate nor the master raising its flag. */
  ghost predicate CanProgress(s: State) {
    (MasterCan(s) && !s.master.MOut?) || exists i: nat :: CanStep(s, i) && !s.procs[i].pc.Out?
  }

  lemma PositiveSum(ps: seq<Proc>, f: Proc -> int) returns (i: nat)
    requires SumOf(ps, f) > 0
    ensures i < |ps| && f(ps[i]) > 0
  {
    if f(ps[|ps| - 1]) > 0 {
      i := |ps| - 1;
    } else {
      i := PositiveSum(ps[..|ps| - 1], f);
    }
  }

  lemma InitProgress(s: State)
    requires Inv(s) && SumOf(s.procs, InitBit) > 0
    ensures CanProgress(s)
  {
    hide Kinds, Friends, Order, MergedGate;
    var i := PositiveSum(s.procs, InitBit);
    assert CanStep(s, i);
  }

  /** With the flag down and everyone initialised, a node that has not decremented, or the master, can move. */
  lemma NodeProgress(s: State, i: nat)
    requires Inv(s) && s.sem0 == 0 && i < |s.procs| && Undecremented(s.procs[i])
    ensures CanProgress(s)
  {
    hide MergedGate, Order, SumOf;
    BitsMean(s);
    assert Sem1Bit(s.procs[i]) == 1;
    if !CanStep(s, i) {
      assert s.procs[i].friends < s.friendsNum && s.procs[i].inbox == 0;
    }
  }

  /** A positive second semaphore means that somebody bound to lower it can move. */
  lemma Sem1Progress(s: State)
    requires Inv(s) && s.sem1 > 0 && (s.sem0 == 0 || Afterwards(s.master))
    ensures CanProgress(s)
  {
    hide Kinds, Friends, MergedGate;
    var i := PositiveSum(s.procs, Sem1Bit);
    if s.procs[i].pc.In? {
      assert CanStep(s, i);
    } else if Afterwards(s.master) {
      assert false;
    } else {
      NodeProgress(s, i);
    }
  }

  lemma WaiterProgress(s: State, i: nat)
    requires Inv(s) && s.sem0 == 0 && i < |s.procs| && !s.procs[i].pc.Out? && !s.procs[i].pc.Gone?
    ensures CanProgress(s)
  {
    hide Kinds, Friends, MergedGate, Order, SumOf;
    BitsMean(s);
    if Undecremented(s.procs[i]) {
      NodeProgress(s, i);
    } else if !CanStep(s, i) {
      assert s.sem1 > 0;
      Sem1Progress(s);
    }
  }

  /** No deadlock: in every reachable state in which anyone is inside a protocol, a protocol step is possible. */
  lemma NoDeadlock(s: State)
    requires Inv(s) && Busy(s)
    ensures CanProgress(s)
  {
    hide Kinds, Friends, MergedGate, Order, SumOf;
    BitsMean(s);
    if SumOf(s.procs, InitBit) > 0 {
      InitProgress(s);
    } else if MasterCan(s) && !s.master.MOut? {
    } else if s.master.MRaised? || s.master.MBarrier? {
      Sem1Progress(s);
    } else {
      var i :| 0 <= i < |s.procs| && !s.procs[i].pc.Out? && !s.procs[i].pc.Gone?;
      WaiterProgress(s, i);
    }
  }

  lemma RunNoDeadlock(t: seq<State>, merged: bool, nodes: nat, users: nat, friendsNum: nat, k: nat)
    requires Run(t, merged, nodes, users, friendsNum) && k < |t| && Busy(t[k])
    ensures CanProgress(t[k])
  {
    hide Inv, CanProgress, Busy;
    RunInv(t, merged, nodes, users, friendsNum, k);
    NoDeadlock(t[k]);
  }

  /** How many steps a process can still take while the flag stays up. */
  function Rank(p: Proc): int {
    match p.pc
    case Passed => 3
    case In => 2
    case NodeBarrier => 2
    case Out => 1
    case _ => 0
  }

  function Measure(s: State): int {
    SumOf(s.procs, Rank)
  }

  lemma RaisedStepDown(s: State, s': State)
    requires Inv(s) && Next(s, s') && s.master.MRaised? && s'.master.MRaised?
    ensures 0 <= Measure(s') < Measure(s)
  {
    hide Kinds, Friends, MergedGate;
    BitsMean(s);
    SumAtLeast(s'.procs, Rank);
    var i: nat, last: bool :| CanStep(s, i) && s' == Step(s, i, last);
    SumUpdate(s.procs, i, Moved(s, i, last), Rank);
    assert InitBit(s.procs[i]) == 0;
  }

  /** Once the flag is up, the others take at most Measure steps before the master reads. */
  lemma {:induction false} RaisedBound(t: seq<State>)
    requires Segment(t) && Inv(t[0])
    requires forall k :: 0 <= k < |t| ==> t[k].master.MRaised?
    ensures |t| - 1 + Measure(t[|t| - 1]) <= Measure(t[0])
    ensures Measure(t[|t| - 1]) >= 0
  {
    hide Inv, Next;
    if |t| >= 2 {
      RaisedBound(t[..|t| - 1]);
      SegmentInv(t, |t| - 2);
      assert Next(t[|t| - 1 - 1], t[|t| - 1]);
      RaisedStepDown(t[|t| - 2], t[|t| - 1]);
    } else {
      SumAtLeast(t[0].procs, Rank);
    }
  }

  /** And in each of these states the master itself, or one of them, can step. */
  lemma RaisedSomeoneSteps(s: State)
    requires Inv(s) && s.master.MRaised?
    ensures MasterCan(s) || exists i: nat :: CanStep(s, i)
  {
    hide Kinds, Friends, MergedGate;
    BitsMean(s);
    if s.sem1 > 0 {
      var i := PositiveSum(s.procs, Sem1Bit);
      assert CanStep(s, i);
    }
  }

  // ---- what the gate does not prevent ----

  ghost predicate Reachable(s: State) {
    exists t :: Run(t, false, s.nodes, s.users, s.friendsNum) && t[|t| - 1] == s
  }

  lemma StartReachable(nodes: nat, users: nat, friendsNum: nat)
    ensures Reachable(Start(false, nodes, users, friendsNum))
  {
    var s := Start(false, nodes, users, friendsNum);
    assert Run([s], false, s.nodes, s.users, s.friendsNum);
  }

  lemma Extend(s: State, s': State)
    requires Reachable(s) && Next(s, s') && s'.nodes == s.nodes && s'.users == s.users && s'.friendsNum == s.friendsNum
    ensures Reachable(s')
  {
    hide Next, Start;
    var t :| Run(t, false, s.nodes, s.users, s.friendsNum) && t[|t| - 1] == s;
    assert Run(t + [s'], false, s'.nodes, s'.users, s'.friendsNum);
  }

  lemma By(s: State, i: nat) returns (s': State)
    requires Reachable(s) && CanStep(s, i)
    ensures s' == Step(s, i, false) && Reachable(s')
  {
    hide Reachable;
    s' := Step(s, i, false);
    Extend(s, s');
  }

  lemma ByMaster(s: State) returns (s': State)
    requires Reachable(s) && MasterCan(s)
    ensures s' == MasterStep(s) && Reachable(s')
  {
    hide Reachable;
    s' := MasterStep(s);
    Extend(s, s');
  }

  /**
   Semaphore 0 is down; of the nodes the first n are done, the next is at now, the rest at todo; the
   first user is at user.
   */
  predicate Stage(s: State, nodes: nat, users: nat, friendsNum: nat, sem1: int, m: MasterPC,
                  n: nat, done: Proc, now: Proc, todo: Proc, user: PC) {
    && !s.merged && s.nodes == nodes && s.users == users > 0 && s.friendsNum == friendsNum
    && s.sem0 == 0 && s.sem1 == sem1 && s.master == m && |s.procs| == nodes + users
    && (forall i :: 0 <= i < nodes ==> s.procs[i] == if i < n then done else if i == n then now else todo)
    && s.procs[nodes] == Proc(user, false, 0, 0)
  }

  function Node(pc: PC, friends: nat, inbox: nat): Proc {
    Proc(pc, true, friends, inbox)
  }

  /** Every process has initialised its row and decremented semaphore 0. */
  lemma AllInitialise(nodes: nat, users: nat, friendsNum: nat) returns (s: State)
    requires users > 0
    ensures Reachable(s)
    ensures var w := Node(NodeWait, 0, 0); Stage(s, nodes, users, friendsNum, nodes, MWait, 0, w, w, w, UserWait)
  {
    hide Reachable;
    StartReachable(nodes, users, friendsNum);
    s := Start(false, nodes, users, friendsNum);
    for j := 0 to nodes + users
      invariant Reachable(s)
      invariant s == s.(merged := false, nodes := nodes, users := users, friendsNum := friendsNum,
                        sem0 := nodes + users - j, sem1 := nodes, master := MWait)
      invariant |s.procs| == nodes + users
      invariant forall i :: 0 <= i < nodes ==> s.procs[i] == Node(if i < j then NodeWait else NodeInit, 0, 0)
      invariant forall i :: nodes <= i < nodes + users
                   ==> s.procs[i] == Proc(if i < j then UserWait else UserInit, false, 0, 0)
    {
      s := By(s, j);
    }
  }

  /** The first user passes both waits, which are on the same semaphore, and reaches its main loop. */
  lemma UserStarts(nodes: nat, users: nat, friendsNum: nat) returns (s: State)
    requires users > 0
    ensures Reachable(s)
    ensures var w := Node(NodeWait, 0, 0); Stage(s, nodes, users, friendsNum, nodes, MWait, 0, w, w, w, Out)
  {
    hide Reachable;
    s := AllInitialise(nodes, users, friendsNum);
    s := By(s, nodes);
    s := By(s, nodes);
  }

  /**
   For any numbers of nodes, users and friends: a user can be inside a write section while the
   master has sent no friend yet, so that no node has its list.
   */
  lemma UserWritesEarly(nodes: nat, users: nat, friendsNum: nat) returns (s: State)
    requires users > 0
    ensures Reachable(s) && s.nodes == nodes && s.users == users && s.friendsNum == friendsNum
    ensures s.master == MWait && Is(s, nodes, In)
    ensures forall i :: 0 <= i < nodes ==> s.procs[i] == Node(NodeWait, 0, 0)
    ensures friendsNum > 0
            ==> forall i :: 0 <= i < nodes ==> s.procs[i].initialNode && s.procs[i].friends < s.friendsNum
  {
    hide Reachable;
    s := UserStarts(nodes, users, friendsNum);
    s := By(s, nodes);
    s := By(s, nodes);
    s := By(s, nodes);
  }

  lemma NodesAwaitFriends(nodes: nat, users: nat, friendsNum: nat) returns (s: State)
    requires users > 0
    ensures Reachable(s)
    ensures var w := Node(NodeFriends, 0, 0); Stage(s, nodes, users, friendsNum, nodes, MWait, nodes, w, w, w, Out)
  {
    hide Reachable;
    var w, v := Node(NodeFriends, 0, 0), Node(NodeWait, 0, 0);
    s := UserStarts(nodes, users, friendsNum);
    for n := 0 to nodes
      invariant Reachable(s) && Stage(s, nodes, users, friendsNum, nodes, MWait, n, w, v, v, Out)
    {
      s := By(s, n);
    }
  }

  /** The master sends every node its list. */
  lemma MasterSends(nodes: nat, users: nat, friendsNum: nat) returns (s: State)
    requires users > 0
    ensures Reachable(s)
    ensures var w := Node(NodeFriends, 0, friendsNum);
            Stage(s, nodes, users, friendsNum, nodes, MBarrier, nodes, w, w, w, Out)
  {
    hide Reachable;
    var w, v := Node(NodeFriends, 0, friendsNum), Node(NodeFriends, 0, 0);
    s := NodesAwaitFriends(nodes, users, friendsNum);
    s := ByMaster(s);
    for n := 0 to nodes
      invariant Reachable(s) && Stage(s, nodes, users, friendsNum, nodes, MSend(n, 0), n, w, v, v, Out)
    {
      for k := 0 to friendsNum
        invariant Reachable(s)
        invariant Stage(s, nodes, users, friendsNum, nodes, MSend(n, k), n, w, Node(NodeFriends, 0, k), v, Out)
      {
        s := ByMaster(s);
      }
      s := ByMaster(s);
    }
    s := ByMaster(s);
  }

  /** Every node receives its list and decrements semaphore 1. */
  lemma NodesReceive(nodes: nat, users: nat, friendsNum: nat) returns (s: State)
    requires users > 0
    ensures Reachable(s)
    ensures var w := Node(NodeBarrier, friendsNum, 0);
            Stage(s, nodes, users, friendsNum, 0, MBarrier, nodes, w, w, w, Out)
  {
    hide Reachable;
    var w, v := Node(NodeBarrier, friendsNum, 0), Node(NodeFriends, 0, friendsNum);
    s := MasterSends(nodes, users, friendsNum);
    for n := 0 to nodes
      invariant Reachable(s) && Stage(s, nodes, users, friendsNum, nodes - n, MBarrier, n, w, v, v, Out)
    {
      for k := 0 to friendsNum
        invariant Reachable(s)
        invariant Stage(s, nodes, users, friendsNum, nodes - n, MBarrier, n, w,
                        Node(NodeFriends, k, friendsNum - k), v, Out)
      {
        s := By(s, n);
      }
      s := By(s, n);
    }
  }

  /**
   For any numbers for which the master raises its flag at all: a user inside a write section while
   the master reads.
   */
  lemma ReadsWhileWriting(nodes: nat, users: nat, friendsNum: nat) returns (s: State)
    requires users > PRINT_PROCESS_LIMIT
    ensures Reachable(s) && s.nodes == nodes && s.users == users && s.friendsNum == friendsNum
    ensures s.master.MReading? && SomeIn(s)
  {
    hide Reachable;
    s := NodesReceive(nodes, users, friendsNum);
    s := ByMaster(s);
    s := By(s, nodes);
    s := By(s, nodes);
    s := ByMaster(s);
    s := ByMaster(s);
    s := By(s, nodes);
    assert s.procs[nodes].pc.In?;
  }
}
