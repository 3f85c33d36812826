/** What becomes of messages, in every run. */
module SystemRouting {
  import opened Common
  import opened System
  import opened SystemMoney
  import opened SystemRuns
  import C = Cyclic
  import P = Pool
  import L = Ledger

  // ---- hops ----

  function MaxHops(cfg: Config): int {
    if cfg.hops > 0 then cfg.hops else 0
  }

  predicate HopsIn(cfg: Config, m: Message) {
    0 <= m.hops <= MaxHops(cfg)
  }

  /** Of the messages in the node queues and those a node has received. */
  predicate HopsOk(cfg: Config, s: State) {
    && (forall i :: 0 <= i < |s.queue| ==> HopsIn(cfg, s.queue[i]))
    && forall i :: 0 <= i < |s.nodes| && s.nodes[i].phase.NRoute? ==> HopsIn(cfg, s.nodes[i].phase.msg)
  }

  lemma StepHops(cfg: Config, s: State, a: Act, s': State)
    requires Inv(cfg, s) && Next(cfg, s, a, s') && HopsOk(cfg, s)
    ensures HopsOk(cfg, s')
  {
    hide NodeOk, NodeCan, NodeNext, UserNext, L.LedgerOk, IdsOk, FreshPid, P.Deposit, DrawnTrans, L.BlockOf,
         L.AddBlock, L.Refuses, HopsIn, P.EmptySlots;
    match a
    case ByNode(i, c) =>
      assert NodeOk(cfg, s.nodes[i]);
      NodeHops(cfg, s, s.nodes[i], c);
    case ByUser(u, ua) => UserHops(cfg, s, s.users[u], ua);
    case ByMaster(c) =>
  }

  lemma UserHops(cfg: Config, s: State, u: User, a: UserAct)
    requires UserCan(s, u, a)
    ensures UserEffect(cfg, s, u, a).PutQueue? ==> HopsIn(cfg, UserEffect(cfg, s, u, a).m)
  {
    hide DrawnTrans;
  }

  lemma NodeHops(cfg: Config, s: State, n: Node, c: Choice)
    requires NodeCan(s, n, c) && NodeOk(cfg, n) && (n.phase.NRoute? ==> HopsIn(cfg, n.phase.msg))
    requires n.phase.NPoll? && c.ok ==> HopsIn(cfg, s.queue[c.k])
    ensures NodeEffect(cfg, s, n, c).PutQueue? ==> HopsIn(cfg, NodeEffect(cfg, s, n, c).m)
    ensures NodeNext(cfg, s, n, c).phase.NRoute? ==> HopsIn(cfg, NodeNext(cfg, s, n, c).phase.msg)
  {
    hide P.Deposit, P.UsedCount, P.RewardSum, C.Distinct, L.BlockOf, P.BlockPicks, P.Clear;
  }

  /** Every message in the node queues has at most SO_HOPS hops, in every run. */
  lemma {:induction false} HopBound(cfg: Config, states: seq<State>, acts: seq<Act>, k: nat)
    requires Run(cfg, states, acts) && k <= |acts|
    ensures HopsOk(cfg, states[k])
  {
    hide Inv, Next, HopsOk;
    if k == 0 {
      NoMessages(cfg, states[0]);
    } else {
      HopBound(cfg, states, acts, k - 1);
      RunInv(cfg, states, acts, k - 1);
      assert Next(cfg, states[k - 1], acts[k - 1], states[k - 1 + 1]);
      StepHops(cfg, states[k - 1], acts[k - 1], states[k]);
    }
  }

  lemma NoMessages(cfg: Config, s: State)
    requires Initial(cfg, s)
    ensures HopsOk(cfg, s)
  {
  }

  // ---- forwarding chains ----

  /** In this step a node sends the message m it has received on to a friend, as m'. */
  ghost predicate Forwards(cfg: Config, s: State, a: Act, m: Message, m': Message) {
    && a.ByNode? && Can(cfg, s, a)
    && s.nodes[a.n].phase == NRoute(m) && EffectOf(cfg, s, a) == PutQueue(m')
  }

  /** Steps ks of the run, in this order, forward ms[0] as ms[1], ms[1] as ms[2], and so on. */
  ghost predicate Chain(cfg: Config, states: seq<State>, acts: seq<Act>, ks: seq<nat>, ms: seq<Message>)
    requires |states| == |acts| + 1
  {
    && |ms| == |ks| + 1
    && (forall j :: 0 <= j < |ks| ==> ks[j] < |acts| && Forwards(cfg, states[ks[j]], acts[ks[j]], ms[j], ms[j + 1]))
    && forall i, j :: 0 <= i < j < |ks| ==> ks[i] < ks[j]
  }

  lemma {:induction false} ChainAdds(cfg: Config, states: seq<State>, acts: seq<Act>, ks: seq<nat>, ms: seq<Message>)
    requires |states| == |acts| + 1 && Chain(cfg, states, acts, ks, ms)
    ensures ms[|ks|].hops == ms[0].hops + |ks| && ms[|ks|].trans == ms[0].trans
    ensures |ks| > 0 ==> ms[|ks|].hops <= cfg.hops
  {
    hide PhaseOk, UserCan, UserEffect, MasterCan, MasterEffect, P.Deposit, P.UsedCount, L.BlockOf, L.Refuses;
    if |ks| > 0 {
      var j := |ks| - 1;
      ChainAdds(cfg, states, acts, ks[..j], ms[..j + 1]);
      var s, a := states[ks[j]], acts[ks[j]];
      assert Forwards(cfg, s, a, ms[j], ms[j + 1]);
      assert Forwarded(cfg, s.nodes[a.n], ms[j], a.c.rand) == Some(ms[j + 1]);
    }
  }

  /**
   A chain of forwards in a run, however the other steps lie between, carries one transaction, adds a
   hop each time, and is never longer than SO_HOPS less the hops it starts with.
   */
  lemma ChainBound(cfg: Config, states: seq<State>, acts: seq<Act>, ks: seq<nat>, ms: seq<Message>)
    requires Run(cfg, states, acts) && Chain(cfg, states, acts, ks, ms)
    ensures ms[|ks|].hops == ms[0].hops + |ks| && ms[|ks|].trans == ms[0].trans
    ensures |ks| > 0 ==> 0 <= ms[0].hops && |ks| <= cfg.hops - ms[0].hops
  {
    hide Next, Initial, Inv;
    ChainAdds(cfg, states, acts, ks, ms);
    if |ks| > 0 {
      assert Forwards(cfg, states[ks[0]], acts[ks[0]], ms[0], ms[1]);
      HopBound(cfg, states, acts, ks[0]);
    }
  }

  // ---- what a node does with a message it has received ----

  predicate SameQueues(s: State, s': State) {
    s'.queue == s.queue && s'.priority == s.priority && s'.refunds == s.refunds
  }

  /** t is put into one slot that was free, and nothing else changes in the pool. */
  predicate Deposits(n: Node, n': Node, t: Transaction) {
    exists j :: 0 <= j < |n.pool.slots| && !n.pool.slots[j].used && n'.pool.slots == n.pool.slots[j := P.Slot(true, t)]
  }

  /** The friend is drawn by rand. */
  predicate SendsTo(friends: seq<int>, rand: nat, s: State, s': State, hops: int, t: Transaction) {
    && |friends| > 0 && s'.priority == s.priority && s'.refunds == s.refunds
    && s'.queue == s.queue + [Message(friends[RandIntRange(rand, 0, |friends| - 1)], hops, t)]
  }

  predicate HandsOver(s: State, s': State, hops: int, t: Transaction) {
    s'.queue == s.queue && s'.refunds == s.refunds && s'.priority == s.priority + [Message(s.masterPid, hops, t)]
  }

  predicate PaysBack(s: State, s': State, t: Transaction) {
    && s'.queue == s.queue && s'.priority == s.priority
    && s'.refunds == s.refunds + [Refund(t.sender, t.quantity + t.reward)]
  }

  /** Nothing but the queues and the acting node changes. */
  predicate OnlyNode(s: State, s': State, i: nat) {
    && |s'.nodes| == |s.nodes| && i < |s.nodes| && s'.nodes[i].friends == s.nodes[i].friends
    && s'.users == s.users && s'.master == s.master && s'.masterPid == s.masterPid
  }

  /**
   The step of a node that holds a received message: it is deposited exactly when a slot is free;
   otherwise sent to a friend with one more hop, or bound for a refund if that fails, exactly while it
   has hops left; and otherwise bound for the master.  A hand-over and a refund that fail leave nothing.
   */
  lemma RoutingComplete(cfg: Config, s: State, i: nat, c: Choice, s': State)
    requires Inv(cfg, s) && Next(cfg, s, ByNode(i, c), s')
    ensures OnlyNode(s, s', i)
    ensures s.nodes[i].phase.NRoute? ==>
              var m, n, n' := s.nodes[i].phase.msg, s.nodes[i], s'.nodes[i];
              if exists j :: 0 <= j < cfg.tpSize && !n.pool.slots[j].used
              then n'.phase == NPoll && Deposits(n, n', m.trans) && SameQueues(s, s')
              else
                && n'.pool == n.pool
                && if m.hops >= cfg.hops then n'.phase == NToMaster(m) && SameQueues(s, s')
                   else if c.ok then n'.phase == NPoll && SendsTo(n.friends, c.rand, s, s', m.hops + 1, m.trans)
                   else n'.phase == NReject(m) && SameQueues(s, s')
    ensures s.nodes[i].phase.NToMaster? ==>
              var m := s.nodes[i].phase.msg;
              && s'.nodes[i].phase == NPoll && s'.nodes[i].pool == s.nodes[i].pool
              && if c.ok then HandsOver(s, s', m.hops, m.trans) else SameQueues(s, s')
    ensures s.nodes[i].phase.NReject? ==>
              && s'.nodes[i].phase == NPoll && s'.nodes[i].pool == s.nodes[i].pool
              && if c.ok then PaysBack(s, s', s.nodes[i].phase.msg.trans) else SameQueues(s, s')
  {
    hide L.LedgerOk, IdsOk, P.PoolOk, P.PicksOk, P.FirstFree, P.Deposit, P.UsedCount, P.RewardSum, P.BlockPicks,
         P.Clear, P.Next, L.BlockOf, L.AddBlock, L.Refuses, C.Distinct;
    NodeStepLedger(cfg, s, i, c);
    StepSameNode(cfg, s, ByNode(i, c), s', i);
    assert NodeOk(cfg, s.nodes[i]);
    KeepsFriends(cfg, s, s.nodes[i], c);
    if s.nodes[i].phase.NRoute? {
      P.DepositSpec(s.nodes[i].pool, cfg.tpSize, s.nodes[i].phase.msg.trans);
      Routes(cfg, s, i, c, s');
    }
  }

  lemma KeepsFriends(cfg: Config, s: State, n: Node, c: Choice)
    requires NodeCan(s, n, c) && NodeOk(cfg, n)
    ensures NodeNext(cfg, s, n, c).friends == n.friends
  {
    hide P.Deposit, P.UsedCount, P.BlockPicks, P.RewardSum, P.Clear, P.Next, C.Distinct, Forwarded;
  }

  lemma Routes(cfg: Config, s: State, i: nat, c: Choice, s': State)
    requires Inv(cfg, s) && Next(cfg, s, ByNode(i, c), s') && s.nodes[i].phase.NRoute? && i < |s'.nodes|
    requires s'.nodes[i] == NodeNext(cfg, s, s.nodes[i], c)
    ensures var m, n, n' := s.nodes[i].phase.msg, s.nodes[i], s'.nodes[i];
            if exists j :: 0 <= j < cfg.tpSize && !n.pool.slots[j].used
            then n'.phase == NPoll && Deposits(n, n', m.trans) && SameQueues(s, s')
            else
              && n'.pool == n.pool
              && if m.hops >= cfg.hops then n'.phase == NToMaster(m) && SameQueues(s, s')
                 else if c.ok then n'.phase == NPoll && SendsTo(n.friends, c.rand, s, s', m.hops + 1, m.trans)
                 else n'.phase == NReject(m) && SameQueues(s, s')
  {
    hide L.LedgerOk, IdsOk, P.FirstFree, P.Deposit, P.UsedCount, P.PoolMoney;
    assert NodeOk(cfg, s.nodes[i]);
    P.DepositSpec(s.nodes[i].pool, cfg.tpSize, s.nodes[i].phase.msg.trans);
  }

  /** Node i holds the received message m, and has not yet done with it. */
  predicate Holding(n: Node, m: Message) {
    n.phase == NRoute(m) || n.phase == NToMaster(m) || n.phase == NReject(m)
  }

  /** How often this step of node i deposits m, sends it on, hands it to the master, refunds it, or loses it. */
  ghost function Settled(s: State, a: Act, s': State, i: nat, m: Message): nat {
    if !(a.ByNode? && a.n == i && i < |s.nodes| && i < |s'.nodes|) then 0
    else
      (if Deposits(s.nodes[i], s'.nodes[i], m.trans) then 1 else 0)
      + (if SendsTo(s.nodes[i].friends, a.c.rand, s, s', m.hops + 1, m.trans) then 1 else 0)
      + (if HandsOver(s, s', m.hops, m.trans) then 1 else 0)
      + (if PaysBack(s, s', m.trans) then 1 else 0)
      + (if (s.nodes[i].phase.NToMaster? || s.nodes[i].phase.NReject?) && !a.c.ok then 1 else 0)
  }

  ghost function SettledBetween(states: seq<State>, acts: seq<Act>, a: nat, b: nat, i: nat, m: Message): nat
    requires |states| == |acts| + 1 && a <= b <= |acts|
    decreases b
  {
    if a == b then 0
    else SettledBetween(states, acts, a, b - 1, i, m) + Settled(states[b - 1], acts[b - 1], states[b], i, m)
  }

  /** A node done with a message is back at its queues, and has settled it in that very step. */
  lemma NodeSettles(cfg: Config, s: State, i: nat, c: Choice, s': State, m: Message)
    requires Inv(cfg, s) && Next(cfg, s, ByNode(i, c), s') && Holding(s.nodes[i], m)
    ensures i < |s'.nodes| && (Holding(s'.nodes[i], m) || s'.nodes[i].phase == NPoll)
    ensures Settled(s, ByNode(i, c), s', i, m) == if Holding(s'.nodes[i], m) then 0 else 1
  {
    hide Inv, Next;
    RoutingComplete(cfg, s, i, c, s');
    PoolLength(cfg, s, i);
  }

  lemma PoolLength(cfg: Config, s: State, i: nat)
    requires Inv(cfg, s) && i < |s.nodes|
    ensures |s.nodes[i].pool.slots| == cfg.tpSize
  {
    hide L.LedgerOk, IdsOk, P.UsedCount, PhaseOk;
    assert NodeOk(cfg, s.nodes[i]);
  }

  lemma StepSettles(cfg: Config, s: State, a: Act, s': State, i: nat, m: Message)
    requires Inv(cfg, s) && Next(cfg, s, a, s') && i < |s.nodes| && Holding(s.nodes[i], m)
    ensures i < |s'.nodes| && (Holding(s'.nodes[i], m) || s'.nodes[i].phase == NPoll)
    ensures Settled(s, a, s', i, m) == if Holding(s'.nodes[i], m) then 0 else 1
  {
    hide Inv, Next, Holding;
    if a.ByNode? && a.n == i {
      NodeSettles(cfg, s, i, a.c, s', m);
    } else {
      StepSameNode(cfg, s, a, s', i);
    }
  }

  /** Node i holds m in state a and up to state b it has not returned to its queues before b. */
  ghost predicate Busy(states: seq<State>, a: nat, b: nat, i: nat, m: Message) {
    && a <= b < |states| && i < |states[a].nodes| && Holding(states[a].nodes[i], m)
    && forall k :: a <= k < b ==> i < |states[k].nodes| && states[k].nodes[i].phase != NPoll
  }

  lemma {:induction false} HeldOrSettled(cfg: Config, states: seq<State>, acts: seq<Act>,
                                         a: nat, b: nat, i: nat, m: Message)
    requires Run(cfg, states, acts) && Busy(states, a, b, i, m)
    ensures i < |states[b].nodes| && (Holding(states[b].nodes[i], m) || (b > a && states[b].nodes[i].phase == NPoll))
    ensures SettledBetween(states, acts, a, b, i, m) == if Holding(states[b].nodes[i], m) then 0 else 1
    decreases b
  {
    hide Inv, Next, Initial, Holding, Settled;
    if a < b {
      HeldOrSettled(cfg, states, acts, a, b - 1, i, m);
      RunInv(cfg, states, acts, b - 1);
      assert Next(cfg, states[b - 1], acts[b - 1], states[b - 1 + 1]);
      StepSettles(cfg, states[b - 1], acts[b - 1], states[b], i, m);
    }
  }

  /** A node that finds a message takes one of those addressed to it, as it is. */
  lemma TakesMessage(cfg: Config, s: State, i: nat, c: Choice, s': State)
    requires Inv(cfg, s) && Next(cfg, s, ByNode(i, c), s') && s.nodes[i].phase.NPoll? && c.ok
    ensures c.k < |s.queue| && s.queue[c.k].to == s.nodes[i].pid && i < |s'.nodes|
    ensures s'.nodes[i] == s.nodes[i].(phase := NRoute(s.queue[c.k])) && s'.queue == s.queue[..c.k] + s.queue[c.k + 1..]
  {
    hide L.LedgerOk, IdsOk, P.PoolOk;
    assert NodeOk(cfg, s.nodes[i]);
  }

  lemma StartsBusy(states: seq<State>, a: nat, b: nat, i: nat, m: Message)
    requires a <= b < |states| && i < |states[a].nodes| && states[a].nodes[i].phase == NRoute(m)
    requires forall k :: a <= k < b ==> i < |states[k].nodes| && states[k].nodes[i].phase != NPoll
    ensures Busy(states, a, b, i, m)
  {
  }

  lemma NotHeld(n: Node, m: Message)
    requires n.phase == NPoll
    ensures !Holding(n, m)
  {
  }

  /**
   In every run, between the step in which a node takes a message from the queues and its return to
   them, whatever the others do, the message is settled exactly once: deposited, sent to a friend with
   one more hop, handed to the master, refunded to its sender, or lost.
   */
  lemma SettledOnce(cfg: Config, states: seq<State>, acts: seq<Act>, a: nat, b: nat, i: nat, c: Choice)
    requires Run(cfg, states, acts) && a + 1 < b < |states|
    requires acts[a] == ByNode(i, c) && c.ok && i < |states[a].nodes| && states[a].nodes[i].phase == NPoll
    requires forall k :: a < k < b ==> i < |states[k].nodes| && states[k].nodes[i].phase != NPoll
    requires i < |states[b].nodes| && states[b].nodes[i].phase == NPoll
    ensures c.k < |states[a].queue| && states[a].queue[c.k].to == states[a].nodes[i].pid
    ensures SettledBetween(states, acts, a + 1, b, i, states[a].queue[c.k]) == 1
  {
    hide Inv, Next, Initial, SettledBetween, Holding, Busy;
    RunInv(cfg, states, acts, a);
    assert Next(cfg, states[a], acts[a], states[a + 1]);
    TakesMessage(cfg, states[a], i, c, states[a + 1]);
    var m := states[a].queue[c.k];
    StartsBusy(states, a + 1, b, i, m);
    HeldOrSettled(cfg, states, acts, a + 1, b, i, m);
    NotHeld(states[b].nodes[i], m);
  }

  /** A node created by the master starts with a message addressed to it, and stores it if it has any slot at all. */
  lemma FirstTransaction(cfg: Config, s: State, i: nat, c: Choice, s': State)
    requires Inv(cfg, s) && Next(cfg, s, ByNode(i, c), s') && s.nodes[i].phase.NFresh?
    ensures OnlyNode(s, s', i) && s'.queue == s.queue && s'.refunds == s.refunds && s'.nodes[i].phase == NPoll
    ensures c.k < |s.priority| && s.priority[c.k].to == s.nodes[i].pid
    ensures s'.priority == s.priority[..c.k] + s.priority[c.k + 1..]
    ensures cfg.tpSize > 0 ==> Deposits(s.nodes[i], s'.nodes[i], s.priority[c.k].trans)
    ensures cfg.tpSize == 0 ==> s'.nodes[i].pool == s.nodes[i].pool
  {
    hide L.LedgerOk, IdsOk, P.FirstFree, P.Deposit, P.UsedCount;
    assert NodeOk(cfg, s.nodes[i]);
    P.SizeMeans(s.nodes[i].pool, cfg.tpSize);
    P.DepositSpec(s.nodes[i].pool, cfg.tpSize, s.priority[c.k].trans);
  }

  // ---- what a node does with a transaction it extracts ----

  /** Whatever it extracts, the node next looks whether it can build a block; only a sent one leaves its pool. */
  predicate Keeps(n: Node, n': Node) {
    n'.phase == NBlock && n'.pool == n.pool
  }

  /**
   The steps of an extraction: from a non-empty pool the search takes the first used slot behind the
   cursor; its transaction starts with no hops and is sent to a friend with one, unless no hop is
   allowed at all; only if that send succeeds is the slot freed, and otherwise the transaction is refunded
   or handed to the master, and kept.
   */
  lemma ExtractionComplete(cfg: Config, s: State, i: nat, c: Choice, s': State)
    requires Inv(cfg, s) && Next(cfg, s, ByNode(i, c), s')
    ensures OnlyNode(s, s', i)
    ensures s.nodes[i].phase.NCron? ==>
              var n, n' := s.nodes[i], s'.nodes[i];
              && SameQueues(s, s')
              && if forall j :: 0 <= j < cfg.tpSize ==> !n.pool.slots[j].used then Keeps(n, n')
                 else
                   && n'.phase.NExtract? && n'.pool == n.pool.(cursor := n'.phase.at)
                   && FirstUsed(cfg, n.pool, n'.phase.at)
    ensures s.nodes[i].phase.NExtract? ==>
              var n, n' := s.nodes[i], s'.nodes[i];
              && n'.pool == n.pool
              && if cfg.hops <= 0 then n'.phase == NCronMaster(n.phase.at) && SameQueues(s, s')
                 else if c.ok then
                   && n'.phase == NSent(n.phase.at)
                   && SendsTo(n.friends, c.rand, s, s', 1, n.pool.slots[n.phase.at].trans)
                 else n'.phase == NCronReject(n.phase.at) && SameQueues(s, s')
    ensures s.nodes[i].phase.NSent? ==>
              var n, n' := s.nodes[i], s'.nodes[i];
              && n'.phase == NBlock && SameQueues(s, s')
              && n'.pool.slots == n.pool.slots[n.phase.at := P.Slot(false, n.pool.slots[n.phase.at].trans)]
    ensures s.nodes[i].phase.NCronMaster? ==>
              && Keeps(s.nodes[i], s'.nodes[i])
              && if c.ok then HandsOver(s, s', 0, s.nodes[i].pool.slots[s.nodes[i].phase.at].trans)
                 else SameQueues(s, s')
    ensures s.nodes[i].phase.NCronReject? ==>
              && Keeps(s.nodes[i], s'.nodes[i])
              && if c.ok then PaysBack(s, s', s.nodes[i].pool.slots[s.nodes[i].phase.at].trans) else SameQueues(s, s')
  {
    hide L.LedgerOk, IdsOk, P.FirstFree, P.Deposit, P.UsedCount, P.RewardSum, P.BlockPicks, P.Clear, P.Next,
         L.BlockOf, L.AddBlock, L.Refuses, C.Distinct, C.Dist, FirstUsed;
    NodeStepLedger(cfg, s, i, c);
    StepSameNode(cfg, s, ByNode(i, c), s', i);
    assert NodeOk(cfg, s.nodes[i]);
    KeepsFriends(cfg, s, s.nodes[i], c);
    if s.nodes[i].phase.NCron? { Searches(cfg, s.nodes[i].pool); }
  }

  predicate FirstUsed(cfg: Config, p: P.Pool, at: nat) {
    && -1 <= p.cursor < cfg.tpSize && |p.slots| == cfg.tpSize && at < cfg.tpSize && p.slots[at].used
    && forall j :: 0 <= j < cfg.tpSize && p.slots[j].used
                   ==> C.Dist(cfg.tpSize, p.cursor + 1, at) <= C.Dist(cfg.tpSize, p.cursor + 1, j)
  }

  lemma Searches(cfg: Config, p: P.Pool)
    requires P.PoolOk(p, cfg.tpSize)
    ensures p.size > 0 <==> exists j :: 0 <= j < cfg.tpSize && p.slots[j].used
    ensures p.size > 0 ==> 0 <= P.Next(p) && FirstUsed(cfg, p, P.Next(p))
  {
    hide P.UsedCount, C.Find;
    P.SizeMeans(p, cfg.tpSize);
    P.NextSpec(p, cfg.tpSize);
    C.FindFirst(P.Marks(p.slots), p.cursor + 1);
    if j :| 0 <= j < cfg.tpSize && p.slots[j].used { assert P.Marks(p.slots)[j]; }
  }
}
