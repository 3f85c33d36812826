/**
 Two runs of a simulation with two users and two nodes: one in which a failed extraction creates
 money, and one in which a block is refused and cleared all the same.
 */
module SystemWitness {
  import opened Common
  import opened System
  import opened SystemMoney
  import B = SystemBooks
  import C = Cyclic
  import P = Pool
  import L = Ledger
  import S = SystemSafety
  import T = SystemTrans

  const BUDGET: int := 1000000

  function Cfg(): Config {
    Config(BUDGET, 1, 1100, 5, 8)
  }

  /** Every transaction of these runs. */
  predicate Unit(t: Transaction) {
    t.quantity == 1 && t.reward == 1
  }

  ghost predicate Reachable(s: State) {
    exists states, acts :: Run(Cfg(), states, acts) && states[|acts|] == s
  }

  ghost predicate Reached(s: State) {
    Reachable(s) && Inv(Cfg(), s) && T.Everywhere(s, Unit) && L.NoNegatives(s.ledger.blocks)
  }

  function First(): State {
    State([User(1, 0, BUDGET, UIdle), User(2, 0, BUDGET, UIdle)],
          [FreshNode(Cfg(), 3, [4], NPoll), FreshNode(Cfg(), 4, [3], NPoll)],
          L.Empty(REGISTRY_SIZE), [], [], [], MIdle, 9)
  }

  lemma FirstReached()
    ensures Reached(First()) && Total(Cfg(), First()) == 2 * BUDGET
  {
    hide Inv, T.Everywhere, L.Empty, P.EmptySlots, Total, L.NoNegatives;
    var s := First();
    assert Initial(Cfg(), s);
    InitialInv(Cfg(), s);
    T.NoneYet(Cfg(), s, Unit);
    S.InitialSafe(Cfg(), s);
    var none: seq<Act> := [];
    assert Run(Cfg(), [s], none) && [s][|none|] == s;
  }

  /** One more step. */
  lemma Do(s: State, a: Act) returns (s': State)
    requires Reached(s) && Can(Cfg(), s, a)
    requires T.IsDraw(s, a) ==> Unit(DrawnTrans(Cfg(), s.users[a.u], a.a))
    ensures EffectCan(s, EffectOf(Cfg(), s, a)) && s' == Apply(Cfg(), s, a) && Reached(s')
    ensures Total(Cfg(), s') == Total(Cfg(), s) + Drift(Cfg(), s, a)
  {
    hide Inv, T.Everywhere, T.IsDraw, Initial, Can, Apply, EffectOf, EffectCan, Total, Drift, DrawnTrans,
         L.NoNegatives, Unit;
    StepInv(Cfg(), s, a);
    StepMoney(Cfg(), s, a);
    s' := Apply(Cfg(), s, a);
    assert Next(Cfg(), s, a, s');
    T.StepEverywhere(Cfg(), s, a, s', Unit);
    var states, acts :| Run(Cfg(), states, acts) && states[|acts|] == s;
    var states', acts' := states + [s'], acts + [a];
    forall k | 0 <= k < |acts'| ensures Next(Cfg(), states'[k], acts'[k], states'[k + 1]) {
      if k < |acts| { assert Next(Cfg(), states[k], acts[k], states[k + 1]); }
    }
    assert Run(Cfg(), states', acts') && states'[|acts'|] == s';
    S.RunSafe(Cfg(), states', acts', |acts'|);
  }

  // ---- the first user draws ----

  /** User 0 is at the top of its loop and has sent two units drawn times. */
  predicate Drawer(s: State, drawn: nat) {
    && |s.users| == 2 && s.users[0].pid == 1
    && s.users[0].phase == UIdle && s.users[0].local == 2 * drawn && s.users[0].recorded >= BUDGET - 2 * drawn
  }

  lemma DrawnUnit(u: User, a: UserAct)
    requires a.Draw? && a.rand == 0 && u.recorded >= 2
    ensures Unit(DrawnTrans(Cfg(), u, a)) && DrawnTotal(u, 0) == 2
  {
  }

  /** It sums its revenue, which is not negative. */
  lemma Refreshes(s: State) returns (s': State)
    requires Reached(s) && |s.users| == 2 && s.users[0].phase == UReading(0, 0)
    ensures Reached(s') && Total(Cfg(), s') == Total(Cfg(), s)
    ensures exists r :: r >= BUDGET - s.users[0].local
               && s' == s.(users := s.users[0 := s.users[0].(phase := UIdle, recorded := r)])
  {
    hide Reached, Total, L.Paid;
    s' := s;
    while s'.users[0].phase.i < s.ledger.count && s'.users[0].phase.i < |s.ledger.blocks|
      invariant Reached(s') && Total(Cfg(), s') == Total(Cfg(), s)
      invariant |s'.users| == 2 && s'.users[0].phase.UReading? && s'.users[0].phase.sum >= 0
      invariant s' == s.(users := s.users[0 := s.users[0].(phase := s'.users[0].phase)])
      decreases |s.ledger.blocks| - s'.users[0].phase.i
    {
      PaidNonNegative(s', s'.users[0].phase.i, s'.users[0].pid);
      s' := UserGoes(s');
    }
    s' := UserGoes(s');
    assert s' == s.(users := s.users[0 := s.users[0].(phase := UIdle, recorded := s'.users[0].recorded)]);
  }

  lemma PaidNonNegative(s: State, i: nat, pid: int)
    requires Reached(s) && i < |s.ledger.blocks|
    ensures L.Paid(s.ledger.blocks[i], pid) >= 0
  {
    hide Reachable, Inv, T.Everywhere;
    assert L.NoNegative(s.ledger.blocks[i]);
    L.PaidInNonNegative(s.ledger.blocks[i].trans, pid);
  }

  lemma UserGoes(s: State) returns (s': State)
    requires Reached(s) && |s.users| == 2 && UserCan(s, s.users[0], Go)
    ensures Reached(s') && Total(Cfg(), s') == Total(Cfg(), s)
    ensures s' == s.(users := s.users[0 := UserNext(Cfg(), s, s.users[0], Go)])
  {
    hide Reached, Total;
    s' := Do(s, ByUser(0, Go));
  }

  lemma Draws(s: State, drawn: nat, to: int) returns (s': State, m: Message)
    requires Reached(s) && Drawer(s, drawn) && 2 * drawn + 2 <= BUDGET
    ensures Reached(s') && Drawer(s', drawn + 1) && Total(Cfg(), s') == Total(Cfg(), s)
    ensures m.to == to && s' == s.(users := s'.users, queue := s.queue + [m])
  {
    hide Reached, Total, DrawnTrans;
    var a := Draw(0, to, 2, 0, 0);
    DrawnUnit(s.users[0], a);
    m := Message(to, 0, DrawnTrans(Cfg(), s.users[0], a));
    var s1 := Do(s, ByUser(0, a));
    var s2 := UserGoes(s1);
    s' := Refreshes(s2);
  }

  // ---- a node moves ----

  function By(i: nat, ok: bool, k: nat): Act {
    ByNode(i, Choice(ok, k, 0, 0, [], 0, 0))
  }

  /** The two nodes, each other's friends; node i holds size transactions. */
  predicate Stands(s: State, i: nat, size: int) {
    && |s.nodes| == 2 && i < 2 && s.nodes[i].pool.size == size
    && s.nodes[0].pid == 3 && s.nodes[1].pid == 4 && s.nodes[0].friends == [4] && s.nodes[1].friends == [3]
  }

  predicate Polls(s: State, i: nat, size: int) {
    Stands(s, i, size) && s.nodes[i].phase == NPoll
  }

  lemma PoolIsOk(s: State, i: nat)
    requires Reached(s) && i < |s.nodes|
    ensures NodeOk(Cfg(), s.nodes[i]) && L.LedgerOk(s.ledger)
  {
    hide Reachable, T.Everywhere, NodeOk, L.LedgerOk;
  }

  /** A node takes the last message of the queue and stores it. */
  lemma Receives(s: State, i: nat, size: int) returns (s': State)
    requires Reached(s) && Polls(s, i, size) && size < Cfg().tpSize
    requires |s.queue| > 0 && s.queue[|s.queue| - 1].to == s.nodes[i].pid
    ensures Reached(s') && Polls(s', i, size + 1) && Total(Cfg(), s') == Total(Cfg(), s)
    ensures s' == s.(nodes := s.nodes[i := s'.nodes[i]], queue := s.queue[..|s.queue| - 1])
  {
    hide Reached, Total, P.Deposit, P.UsedCount;
    PoolIsOk(s, i);
    var k := |s.queue| - 1;
    var s1 := Do(s, By(i, true, k));
    PoolIsOk(s1, i);
    P.DepositSpec(s1.nodes[i].pool, Cfg().tpSize, s.queue[k].trans);
    P.SizeMeans(s1.nodes[i].pool, Cfg().tpSize);
    DepositSize(s1.nodes[i].pool, s.queue[k].trans);
    s' := Do(s1, By(i, true, 0));
  }

  lemma DepositSize(p: P.Pool, t: Transaction)
    requires P.Deposit(p, t).Some?
    ensures P.Deposit(p, t).value.size == p.size + 1
  {
  }

  /** It finds no message, and its search finds a transaction to send on. */
  lemma Extracts(s: State, i: nat, size: int) returns (s': State)
    requires Reached(s) && Polls(s, i, size) && size > 0
    ensures Reached(s') && Stands(s', i, size) && s'.nodes[i].phase.NExtract? && Total(Cfg(), s') == Total(Cfg(), s)
    ensures s' == s.(nodes := s.nodes[i := s'.nodes[i]])
  {
    hide Reached, Total, P.UsedCount, P.Next;
    PoolIsOk(s, i);
    var s1 := Do(s, By(i, false, 0));
    PoolIsOk(s1, i);
    s' := Do(s1, By(i, false, 0));
  }

  /** It sends one of its transactions to the other node. */
  lemma SendsOn(s: State, i: nat, size: int) returns (s': State, m: Message)
    requires Reached(s) && Polls(s, i, size) && size > 0
    ensures Reached(s') && Stands(s', i, size - 1) && s'.nodes[i].phase == NBlock && Total(Cfg(), s') == Total(Cfg(), s)
    ensures m.to == (if i == 0 then 4 else 3) && s' == s.(nodes := s.nodes[i := s'.nodes[i]], queue := s.queue + [m])
  {
    hide Reached, Total, P.UsedCount, P.Next;
    var s1 := Extracts(s, i, size);
    PoolIsOk(s1, i);
    var n := s1.nodes[i];
    m := Message(n.friends[0], 1, n.pool.slots[n.phase.at].trans);
    assert Forwarded(Cfg(), n, Message(0, 0, n.pool.slots[n.phase.at].trans), 0) == Some(m);
    var s2 := Do(s1, By(i, true, 0));
    PoolIsOk(s2, i);
    s' := Do(s2, By(i, true, 0));
  }

  /** It reserves an id and builds a block. */
  lemma Builds(s: State, i: nat, size: int) returns (s': State)
    requires Reached(s) && Stands(s, i, size) && s.nodes[i].phase == NBlock && size >= BLOCK_TRANS
            && s.ledger.lastId <= REGISTRY_SIZE
    ensures Reached(s') && Stands(s', i, size) && Total(Cfg(), s') == Total(Cfg(), s)
    ensures s'.nodes[i].phase.NBuilt? && s'.nodes[i].phase.id == s.ledger.lastId
    ensures s' == s.(nodes := s.nodes[i := s'.nodes[i]], ledger := L.Reserve(s.ledger))
  {
    hide Reached, Total, P.UsedCount, P.BlockPicks, C.Distinct, P.RewardSum;
    PoolIsOk(s, i);
    var s1 := Do(s, By(i, true, 0));
    PoolIsOk(s1, i);
    P.BlockPicksSpec(s1.nodes[i].pool, Cfg().tpSize);
    s' := Do(s1, By(i, true, 0));
  }

  /** The ledger takes the block, and the node clears it. */
  lemma Records(s: State, i: nat, size: int) returns (s': State)
    requires Reached(s) && Stands(s, i, size) && s.nodes[i].phase.NBuilt? && !L.Refuses(s.ledger, s.nodes[i].phase.id)
    ensures Reached(s') && Stands(s', i, size - BLOCK_TRANS) && Total(Cfg(), s') == Total(Cfg(), s)
    ensures s'.nodes[i].phase == if s.ledger.count + 1 == |s.ledger.blocks| then NStopped else NPoll
    ensures s' == s.(nodes := s.nodes[i := s'.nodes[i]], ledger := s'.ledger)
    ensures s'.ledger.lastId == s.ledger.lastId && s'.ledger.count == s.ledger.count + 1
            && |s'.ledger.blocks| == |s.ledger.blocks|
  {
    hide Reached, Total, P.UsedCount, C.Distinct, P.RewardSum, P.Clear, L.BlockOf;
    PoolIsOk(s, i);
    var s1 := Do(s, By(i, true, 0));
    PoolIsOk(s1, i);
    s' := Do(s1, By(i, true, 0));
  }

  // ---- money created ----

  /**
   Money is not constant: in this run, whatever number of messages wait for the friend, a node fails
   to send it one more, refunds the transaction and keeps it in its pool.
   */
  lemma MoneyCreated(waiting: nat) returns (s: State, s': State)
    requires 2 * waiting + 4 <= BUDGET
    ensures Reachable(s) && |s.nodes| == 2 && s.nodes[0].phase.NExtract? && s.nodes[0].friends == [4]
    ensures |s.queue| == waiting && forall k :: 0 <= k < waiting ==> s.queue[k].to == 4
    ensures Total(Cfg(), s) == 2 * BUDGET
    ensures Reachable(s') && |s'.nodes| == 2 && s'.nodes[0].phase == NBlock && s'.nodes[0].pool == s.nodes[0].pool
            && s'.queue == s.queue
    ensures Total(Cfg(), s') == 2 * BUDGET + 2
  {
    hide Inv, T.Everywhere, Reachable, Total, P.UsedCount, L.NoNegatives;
    s := NodeAtExtraction(waiting);
    PoolIsOk(s, 0);
    SlotUnit(s, 0, s.nodes[0].phase.at);
    var s1 := Do(s, By(0, false, 0));
    PoolIsOk(s1, 0);
    s' := Do(s1, By(0, true, 0));
  }

  lemma SlotUnit(s: State, i: nat, at: nat)
    requires Reached(s) && i < |s.nodes| && at < |s.nodes[i].pool.slots| && s.nodes[i].pool.slots[at].used
    ensures Unit(s.nodes[i].pool.slots[at].trans)
  {
    hide Inv, Reachable, Unit, T.Queues, T.InLedger, T.AtMaster, L.NoNegatives;
    assert T.AtNode(s.nodes[i], Unit);
  }

  lemma NodeAtExtraction(waiting: nat) returns (s: State)
    requires 2 * waiting + 4 <= BUDGET
    ensures Reached(s) && Stands(s, 0, 1) && s.nodes[0].phase.NExtract? && Total(Cfg(), s) == 2 * BUDGET
    ensures |s.queue| == waiting && forall k :: 0 <= k < waiting ==> s.queue[k].to == 4
  {
    hide Reached, Total, P.UsedCount;
    s := First();
    FirstReached();
    var m: Message;
    s, m := Draws(s, 0, 3);
    s := Receives(s, 0, 0);
    for k := 0 to waiting
      invariant Reached(s) && Drawer(s, k + 1) && Polls(s, 0, 1) && Total(Cfg(), s) == 2 * BUDGET
      invariant |s.queue| == k && forall j :: 0 <= j < k ==> s.queue[j].to == 4
    {
      s, m := Draws(s, k + 1, 4);
    }
    s := Extracts(s, 0, 1);
  }

  // ---- a refused block ----

  /** Node 0 stores n transactions the user sends it. */
  lemma Fills(s: State, n: nat, drawn: nat) returns (s': State)
    requires Reached(s) && Polls(s, 0, 0) && s.queue == [] && Drawer(s, drawn) && n <= 100 && 2 * (drawn + n) <= BUDGET
    ensures Reached(s') && Polls(s', 0, n) && s'.queue == [] && Drawer(s', drawn + n)
            && Total(Cfg(), s') == Total(Cfg(), s)
    ensures s' == s.(nodes := s.nodes[0 := s'.nodes[0]], users := s'.users)
  {
    hide Reached, Total;
    s' := s;
    for k := 0 to n
      invariant Reached(s') && Polls(s', 0, k) && s'.queue == [] && Drawer(s', drawn + k)
              && Total(Cfg(), s') == Total(Cfg(), s)
      invariant s' == s.(nodes := s.nodes[0 := s'.nodes[0]], users := s'.users)
    {
      var t, m := Draws(s', drawn + k, 3);
      s' := Receives(t, 0, k);
    }
  }

  /** m blocks recorded by node 0, and as many of its transactions sent on to node 1. */
  ghost predicate RecordedBy(s: State, m: nat) {
    && Reached(s) && Total(Cfg(), s) == 2 * BUDGET && Drawer(s, 100 * m) && s.queue == []
    && Stands(s, 0, 0) && s.nodes[0].phase == (if m == REGISTRY_SIZE then NStopped else NPoll) && Polls(s, 1, m)
    && |s.ledger.blocks| == REGISTRY_SIZE && s.ledger.lastId == s.ledger.count == m
  }

  lemma Round(s: State, m: nat) returns (s': State)
    requires RecordedBy(s, m) && m < REGISTRY_SIZE
    ensures RecordedBy(s', m + 1)
  {
    hide Reached, Total, L.AddBlock;
    s' := Fills(s, 100, 100 * m);
    var x: Message;
    s', x := SendsOn(s', 0, 100);
    s' := Receives(s', 1, m);
    s' := Builds(s', 0, 99);
    s' := Records(s', 0, 99);
  }

  lemma Rounds() returns (s: State)
    ensures RecordedBy(s, REGISTRY_SIZE)
  {
    hide Reached, Total;
    s := First();
    FirstReached();
    for m := 0 to REGISTRY_SIZE
      invariant RecordedBy(s, m)
    {
      s := Round(s, m);
    }
  }

  lemma {:induction false} UnitSums(slots: seq<P.Slot>, picks: seq<int>)
    requires P.InPool(slots, picks) && forall i :: 0 <= i < |picks| ==> Unit(slots[picks[i]].trans)
    ensures P.QuantitySum(slots, picks) == P.RewardSum(slots, picks) == |picks|
  {
    if picks != [] { UnitSums(slots, picks[..|picks| - 1]); }
  }

  /**
   A block is refused and cleared all the same, all the money being there until then: the 99 quantities
   are lost, and the node's budget gains 99 rewards that the ledger does not hold.
   */
  lemma RefusedBlockReached() returns (s: State, s': State)
    ensures Reachable(s) && |s.nodes| == 2 && s.nodes[1].phase.NRefused?
            && s.ledger.count == |s.ledger.blocks| == REGISTRY_SIZE
    ensures Total(Cfg(), s) == 2 * BUDGET
    ensures Reachable(s') && |s'.nodes| == 2 && s'.nodes[1].phase == NPoll
            && s'.nodes[1].pool.size == s.nodes[1].pool.size - BLOCK_TRANS
    ensures s'.ledger == s.ledger
    ensures Total(Cfg(), s') == 2 * BUDGET - 99
    ensures B.Excess(s', s'.nodes[1]) == B.Excess(s, s.nodes[1]) + 99
  {
    hide Inv, T.Everywhere, Reachable, Total, P.UsedCount, C.Distinct, P.RewardSum, P.QuantitySum, P.Clear,
         L.LedgerRewards, L.NoNegatives, L.LedgerOk;
    s := BlockRefused();
    PoolIsOk(s, 1);
    var n := s.nodes[1];
    forall k | 0 <= k < |n.phase.picks| ensures Unit(n.pool.slots[n.phase.picks[k]].trans) {
      SlotUnit(s, 1, n.phase.picks[k]);
    }
    UnitSums(n.pool.slots, n.phase.picks);
    s' := Do(s, By(1, true, 0));
  }

  lemma BlockRefused() returns (s: State)
    ensures Reached(s) && Stands(s, 1, 999) && s.nodes[1].phase.NRefused? && Total(Cfg(), s) == 2 * BUDGET
    ensures s.ledger.count == |s.ledger.blocks| == REGISTRY_SIZE
  {
    hide Reached, Total, P.UsedCount, C.Distinct, P.RewardSum;
    s := Rounds();
    var m: Message;
    s, m := SendsOn(s, 1, 1000);
    s := Builds(s, 1, 999);
    PoolIsOk(s, 1);
    s := Do(s, By(1, true, 0));
  }
}
