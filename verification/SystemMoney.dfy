/** Where the money is, and what every step of the simulation does to it. */
module SystemMoney {
  import opened Common
  import opened Sums
  import opened System
  import C = Cyclic
  import P = Pool
  import L = Ledger

  // ---- the structural invariant ----

  predicate HoldsId(n: Node) {
    n.phase.NId? || n.phase.NBuilt?
  }

  /** Block ids in use are reserved, unwritten, and each in one hand. */
  predicate IdsOk(nodes: seq<Node>, l: L.Ledger) {
    && (forall i :: 0 <= i < |nodes| && HoldsId(nodes[i]) ==>
                      0 <= nodes[i].phase.id < l.lastId && nodes[i].phase.id !in l.written)
    && forall i, j :: 0 <= i < j < |nodes| && HoldsId(nodes[i]) && HoldsId(nodes[j]) ==>
                        nodes[i].phase.id != nodes[j].phase.id
  }

  predicate Inv(cfg: Config, s: State) {
    && L.LedgerOk(s.ledger)
    && (forall i :: 0 <= i < |s.nodes| ==> NodeOk(cfg, s.nodes[i]))
    && IdsOk(s.nodes, s.ledger)
  }

  lemma NodeNextOk(cfg: Config, s: State, n: Node, c: Choice)
    requires NodeCan(s, n, c) && NodeOk(cfg, n)
    ensures NodeOk(cfg, NodeNext(cfg, s, n, c))
  {
    hide C.Distinct, P.RewardSum, P.FirstFree, P.UsedCount, P.BlockPicks, P.Next, P.Clear, P.Deposit;
    match n.phase
    case NFresh => P.DepositSpec(n.pool, cfg.tpSize, s.priority[c.k].trans);
    case NRoute(msg) => P.DepositSpec(n.pool, cfg.tpSize, msg.trans);
    case NCron => P.NextSpec(n.pool, cfg.tpSize);
    case NSent(at) => P.ReleaseSpec(n.pool, cfg.tpSize, at);
    case NId(id) => BuildOk(cfg, s, n, c);
    case NRecorded(picks, _) => P.ClearedOk(n.pool, cfg.tpSize, picks);
    case NRefused(picks) => P.ClearedOk(n.pool, cfg.tpSize, picks);
    case _ =>
  }

  /** create_block is only reached under its guard, so it succeeds for every id it accepts. */
  lemma BuildOk(cfg: Config, s: State, n: Node, c: Choice)
    requires NodeCan(s, n, c) && NodeOk(cfg, n) && n.phase.NId?
    ensures NodeOk(cfg, NodeNext(cfg, s, n, c))
    ensures n.phase.id <= REGISTRY_SIZE ==> NodeNext(cfg, s, n, c).phase.NBuilt?
  {
    hide C.Distinct, P.RewardSum, P.UsedCount, P.BlockPicks;
    P.BlockPicksSpec(n.pool, cfg.tpSize);
  }

  // ---- where the money is ----

  function MessageMoney(m: Message): int {
    Amount(m.trans)
  }

  function RefundMoney(r: Refund): int {
    r.amount
  }

  /** A user's budget_init - local_budget, less budget_init, counting what it is about to book. */
  function UserShare(u: User): int {
    match u.phase
    case UDebit(total) => -u.local - total
    case UCredit(amount) => -u.local + amount
    case _ => -u.local
  }

  /** Budget, pool and a message in hand; slots sent or recorded but not yet freed count once. */
  function NodeShare(n: Node): int {
    n.budget + P.PoolMoney(n.pool.slots) + PhaseMoney(n)
  }

  function PhaseMoney(n: Node): int {
    match n.phase
    case NRoute(msg) => MessageMoney(msg)
    case NToMaster(msg) => MessageMoney(msg)
    case NReject(msg) => MessageMoney(msg)
    case NSent(at) => if at < |n.pool.slots| then -Amount(n.pool.slots[at].trans) else 0
    case NRecorded(picks, _) => if P.InPool(n.pool.slots, picks) then -P.QuantitySum(n.pool.slots, picks) else 0
    case _ => 0
  }

  function MasterShare(m: MasterPhase): int {
    match m
    case MIdle => 0
    case MHold(msg) => MessageMoney(msg)
    case MForward(msg, _) => MessageMoney(msg)
    case MReject(msg) => MessageMoney(msg)
  }

  /** Money in the ledger and in the three kinds of queues. */
  function SharedMoney(s: State): int {
    L.LedgerMoney(s.ledger) + SumOf(s.queue, MessageMoney) + SumOf(s.priority, MessageMoney)
    + SumOf(s.refunds, RefundMoney)
  }

  /** All the money of the simulation. */
  function Total(cfg: Config, s: State): int {
    |s.users| * cfg.budgetInit + SumOf(s.users, UserShare) + SumOf(s.nodes, NodeShare)
    + MasterShare(s.master) + SharedMoney(s)
  }

  // ---- the only steps that change it ----

  function NodeDrift(cfg: Config, s: State, n: Node, c: Choice): int
    requires NodeCan(s, n, c) && NodeOk(cfg, n)
  {
    match n.phase
    case NFresh => if cfg.tpSize == 0 then -MessageMoney(s.priority[c.k]) else 0   // no slot for its first transaction
    case NToMaster(msg) => if c.ok then 0 else -MessageMoney(msg)                  // failed send to the master
    case NReject(msg) => if c.ok then 0 else -MessageMoney(msg)                    // failed refund
    case NCronMaster(at) => if c.ok then Amount(n.pool.slots[at].trans) else 0     // handed on, and kept in the pool
    case NCronReject(at) => if c.ok then Amount(n.pool.slots[at].trans) else 0     // refunded, and kept in the pool
    case NRefused(picks) => -P.QuantitySum(n.pool.slots, picks)                    // cleared without being recorded
    case _ => 0
  }

  ghost function Drift(cfg: Config, s: State, a: Act): int
    requires Can(cfg, s, a)
  {
    match a
    case ByNode(n, c) => NodeDrift(cfg, s, s.nodes[n], c)
    case ByMaster(c) => if s.master.MReject? && !c.ok then -MessageMoney(s.master.msg) else 0  // failed refund
    case ByUser(_, _) => 0
  }

  function EffectMoney(s: State, e: Effect): int
    requires EffectCan(s, e)
  {
    match e
    case TakeQueue(k) => -MessageMoney(s.queue[k])
    case TakePriority(k) => -MessageMoney(s.priority[k])
    case TakeRefund(k) => -RefundMoney(s.refunds[k])
    case PutQueue(m) => MessageMoney(m)
    case PutPriority(m) => MessageMoney(m)
    case PutRefund(r) => RefundMoney(r)
    case Write(b) => L.UserQuantities(b)
    case NewNode(n) => NodeShare(n)
    case _ => 0
  }

  /** A block is written only where nothing has been written, within the ledger. */
  predicate WriteOk(s: State, e: Effect) {
    e.Write? ==> L.WellFormed(e.b) && 0 <= e.b.id < s.ledger.lastId && e.b.id !in s.ledger.written
                 && !L.Refuses(s.ledger, e.b.id)
  }

  lemma EffectTotal(cfg: Config, s: State, e: Effect)
    requires L.LedgerOk(s.ledger) && EffectCan(s, e) && WriteOk(s, e)
    ensures Total(cfg, ApplyEffect(s, e)) == Total(cfg, s) + EffectMoney(s, e)
  {
    hide SumOf, NodeShare, UserShare, L.LedgerOk, L.UserQuantities;
    match e
    case TakeQueue(k) => SumRemove(s.queue, k, MessageMoney);
    case TakePriority(k) => SumRemove(s.priority, k, MessageMoney);
    case TakeRefund(k) => SumRemove(s.refunds, k, RefundMoney);
    case PutQueue(m) => SumPush(s.queue, m, MessageMoney);
    case PutPriority(m) => SumPush(s.priority, m, MessageMoney);
    case PutRefund(r) => SumPush(s.refunds, r, RefundMoney);
    case Write(b) => L.AddBlockMoney(s.ledger, b, 0);
    case NewNode(n) => SumPush(s.nodes, n, NodeShare);
    case _ =>
  }

  lemma {:induction false} BlockQuantities(slots: seq<P.Slot>, picks: seq<int>, ts: seq<Transaction>)
    requires P.InPool(slots, picks) && |ts| == |picks|
    requires forall i :: 0 <= i < |ts| ==> ts[i] == slots[picks[i]].trans
    ensures SumOf(ts, L.QuantityOf) == P.QuantitySum(slots, picks)
  {
    if ts != [] {
      BlockQuantities(slots, picks[..|picks| - 1], ts[..|ts| - 1]);
    }
  }

  lemma BlockMoney(slots: seq<P.Slot>, id: int, picks: seq<int>, reward: Transaction)
    requires |picks| == BLOCK_TRANS && P.InPool(slots, picks)
    ensures L.UserQuantities(L.BlockOf(slots, id, picks, reward)) == P.QuantitySum(slots, picks)
  {
    BlockQuantities(slots, picks, L.BlockOf(slots, id, picks, reward).trans[..BLOCK_TRANS]);
  }

  lemma UserMoney(cfg: Config, s: State, u: User, a: UserAct)
    requires UserCan(s, u, a) && EffectCan(s, UserEffect(cfg, s, u, a))
    ensures UserShare(UserNext(cfg, s, u, a)) + EffectMoney(s, UserEffect(cfg, s, u, a)) == UserShare(u)
  {
    hide L.Paid;
  }

  lemma DepositMoney(cfg: Config, n: Node, t: Transaction)
    requires NodeOk(cfg, n)
    ensures P.Deposit(n.pool, t).Some? ==> P.PoolMoney(P.Deposit(n.pool, t).value.slots)
                                           == P.PoolMoney(n.pool.slots) + Amount(t)
  {
    hide P.FirstFree, P.Deposit, PhaseOk;
    P.DepositSpec(n.pool, cfg.tpSize, t);
  }

  lemma NodeMoney(cfg: Config, s: State, n: Node, c: Choice)
    requires NodeCan(s, n, c) && NodeOk(cfg, n) && EffectCan(s, NodeEffect(cfg, s, n, c))
    ensures NodeShare(NodeNext(cfg, s, n, c)) + EffectMoney(s, NodeEffect(cfg, s, n, c))
            == NodeShare(n) + NodeDrift(cfg, s, n, c)
  {
    hide C.Distinct, P.Deposit, P.UsedCount, P.PoolMoney, P.BlockPicks, P.Next, P.Clear, P.RewardSum, P.QuantitySum,
         L.UserQuantities, L.BlockOf;
    match n.phase
    case NFresh =>
      DepositMoney(cfg, n, s.priority[c.k].trans);
      P.DepositSpec(n.pool, cfg.tpSize, s.priority[c.k].trans);
      P.SizeMeans(n.pool, cfg.tpSize);
    case NRoute(msg) => DepositMoney(cfg, n, msg.trans);
    case NSent(at) => P.ReleaseSpec(n.pool, cfg.tpSize, at);
    case NBuilt(id, picks, rewards) => BlockMoney(n.pool.slots, id, picks, RewardTrans(n, rewards, c));
    case NRecorded(picks, _) => P.ClearedOk(n.pool, cfg.tpSize, picks);
    case NRefused(picks) => P.ClearedOk(n.pool, cfg.tpSize, picks);
    case _ =>
  }

  lemma FreshNodeOk(cfg: Config, pid: int, friends: seq<int>, phase: NodePhase)
    requires phase.NFresh? || phase.NPoll?
    ensures NodeOk(cfg, FreshNode(cfg, pid, friends, phase))
    ensures NodeShare(FreshNode(cfg, pid, friends, phase)) == 0
  {
    ZeroSum(P.EmptySlots(cfg.tpSize), P.UsedBit);
    ZeroSum(P.EmptySlots(cfg.tpSize), P.SlotMoney);
  }

  lemma MasterMoney(cfg: Config, s: State, c: Choice)
    requires MasterCan(cfg, s, c) && EffectCan(s, MasterEffect(cfg, s, c))
    ensures MasterShare(MasterNext(cfg, s, c)) + EffectMoney(s, MasterEffect(cfg, s, c))
            == MasterShare(s.master) + Drift(cfg, s, ByMaster(c))
  {
    hide NodeShare, FreshNode, FreshPid, NodeOk;
    if Creates(cfg, s, c) {
      FreshNodeOk(cfg, c.pid, c.friends, NFresh);
    }
  }

  // ---- the invariant over steps ----

  /** Whatever a node step does to the ledger keeps the ledger and the ids in order. */
  lemma NodeStepLedger(cfg: Config, s: State, i: nat, c: Choice)
    requires Inv(cfg, s) && Can(cfg, s, ByNode(i, c))
    ensures EffectCan(s, NodeEffect(cfg, s, s.nodes[i], c))
    ensures WriteOk(s, NodeEffect(cfg, s, s.nodes[i], c))
    ensures !NodeEffect(cfg, s, s.nodes[i], c).NewNode?
  {
    hide P.Deposit, P.PoolOk, P.PicksOk, P.RewardSum, P.BlockPicks, L.LedgerOk, Forwarded, C.Distinct;
    assert NodeOk(cfg, s.nodes[i]);
  }

  /** What a node step does to the ids: it keeps, takes over the reserved, or gives up the written one. */
  lemma NodeStepId(cfg: Config, s: State, i: nat, c: Choice)
    requires Inv(cfg, s) && Can(cfg, s, ByNode(i, c))
    ensures var n, n', e := s.nodes[i], NodeNext(cfg, s, s.nodes[i], c), NodeEffect(cfg, s, s.nodes[i], c);
            && (HoldsId(n') ==> if e.ReserveId? then n'.phase.id == s.ledger.lastId
                                else !e.Write? && HoldsId(n) && n'.phase.id == n.phase.id)
            && (e.Write? ==> HoldsId(n) && e.b.id == n.phase.id)
  {
    hide P.Deposit, P.PoolOk, P.PicksOk, P.RewardSum, P.BlockPicks, P.Clear, P.Next, Forwarded, C.Distinct,
         L.LedgerOk, IdsOk;
    assert NodeOk(cfg, s.nodes[i]);
  }

  lemma IdsAfter(nodes: seq<Node>, l: L.Ledger, i: nat, n': Node, l': L.Ledger)
    requires IdsOk(nodes, l) && i < |nodes|
    requires l'.lastId >= l.lastId >= 0 && forall id :: id in l.written ==> id < l.lastId
    requires || l'.written == l.written
             || (HoldsId(nodes[i]) && !HoldsId(n') && l'.written == l.written + {nodes[i].phase.id})
    requires HoldsId(n') ==> (HoldsId(nodes[i]) && n'.phase.id == nodes[i].phase.id)
                             || (l.lastId == n'.phase.id < l'.lastId)
    ensures IdsOk(nodes[i := n'], l')
  {
  }

  lemma NodeStepIds(cfg: Config, s: State, i: nat, c: Choice)
    requires Inv(cfg, s) && Can(cfg, s, ByNode(i, c))
    requires EffectCan(s, NodeEffect(cfg, s, s.nodes[i], c))
    ensures var s' := Apply(cfg, s, ByNode(i, c)); L.LedgerOk(s'.ledger) && IdsOk(s'.nodes, s'.ledger)
  {
    hide NodeOk, NodeCan, NodeNext, NodeEffect, L.LedgerOk, IdsOk, HoldsId;
    var e, n' := NodeEffect(cfg, s, s.nodes[i], c), NodeNext(cfg, s, s.nodes[i], c);
    NodeStepLedger(cfg, s, i, c);
    NodeStepId(cfg, s, i, c);
    ReserveOk(s.ledger);
    if e.Write? {
      L.AddBlockOk(s.ledger, e.b);
    }
    IdsAfter(s.nodes, s.ledger, i, n', Apply(cfg, s, ByNode(i, c)).ledger);
  }

  lemma NodeStepInv(cfg: Config, s: State, i: nat, c: Choice)
    requires Inv(cfg, s) && Can(cfg, s, ByNode(i, c))
    ensures EffectCan(s, NodeEffect(cfg, s, s.nodes[i], c)) && WriteOk(s, NodeEffect(cfg, s, s.nodes[i], c))
    ensures Inv(cfg, Apply(cfg, s, ByNode(i, c)))
  {
    hide NodeOk, NodeNext, NodeEffect, NodeCan, L.LedgerOk, WriteOk, IdsOk;
    NodeStepLedger(cfg, s, i, c);
    NodeStepIds(cfg, s, i, c);
    NodeNextOk(cfg, s, s.nodes[i], c);
    assert Apply(cfg, s, ByNode(i, c)).nodes == s.nodes[i := NodeNext(cfg, s, s.nodes[i], c)];
  }

  lemma ReserveOk(l: L.Ledger)
    requires L.LedgerOk(l)
    ensures L.LedgerOk(L.Reserve(l))
    ensures forall id :: id in l.written ==> id < l.lastId
    ensures l.lastId >= 0
  {
  }

  lemma StepInv(cfg: Config, s: State, a: Act)
    requires Inv(cfg, s) && Can(cfg, s, a)
    ensures EffectCan(s, EffectOf(cfg, s, a)) && WriteOk(s, EffectOf(cfg, s, a))
    ensures Inv(cfg, Apply(cfg, s, a))
  {
    hide Inv, WriteOk, Apply;
    match a
    case ByUser(u, ua) => UserStepInv(cfg, s, u, ua);
    case ByNode(n, c) => NodeStepInv(cfg, s, n, c);
    case ByMaster(c) => MasterStepInv(cfg, s, c);
  }

  lemma UserEffectKinds(cfg: Config, s: State, u: User, a: UserAct)
    requires UserCan(s, u, a)
    ensures var e := UserEffect(cfg, s, u, a); !e.Write? && !e.NewNode? && !e.ReserveId?
  {
  }

  lemma UserStepInv(cfg: Config, s: State, u: nat, a: UserAct)
    requires Inv(cfg, s) && Can(cfg, s, ByUser(u, a))
    ensures EffectCan(s, UserEffect(cfg, s, s.users[u], a)) && WriteOk(s, UserEffect(cfg, s, s.users[u], a))
    ensures Inv(cfg, Apply(cfg, s, ByUser(u, a)))
  {
    hide NodeOk, L.LedgerOk, IdsOk, DrawnTrans;
  }

  lemma MasterStepInv(cfg: Config, s: State, c: Choice)
    requires Inv(cfg, s) && MasterCan(cfg, s, c)
    ensures EffectCan(s, MasterEffect(cfg, s, c)) && WriteOk(s, MasterEffect(cfg, s, c))
    ensures Inv(cfg, Apply(cfg, s, ByMaster(c)))
  {
    hide NodeOk, L.LedgerOk, FreshPid;
    if Creates(cfg, s, c) {
      FreshNodeOk(cfg, c.pid, c.friends, NFresh);
    }
  }

  // ---- conservation ----

  lemma UserStepMoney(cfg: Config, s: State, u: nat, a: UserAct)
    requires Inv(cfg, s) && Can(cfg, s, ByUser(u, a)) && EffectCan(s, UserEffect(cfg, s, s.users[u], a))
    ensures Total(cfg, Apply(cfg, s, ByUser(u, a))) == Total(cfg, s)
  {
    hide SumOf, NodeShare, UserShare, NodeOk, L.LedgerOk, IdsOk, UserNext, L.LedgerMoney;
    var u' := UserNext(cfg, s, s.users[u], a);
    var m := s.(users := s.users[u := u']);
    UserMoney(cfg, s, s.users[u], a);
    SumUpdate(s.users, u, u', UserShare);
    EffectTotal(cfg, m, UserEffect(cfg, s, s.users[u], a));
  }

  lemma NodeStepMoney(cfg: Config, s: State, i: nat, c: Choice)
    requires Inv(cfg, s) && Can(cfg, s, ByNode(i, c)) && EffectCan(s, NodeEffect(cfg, s, s.nodes[i], c))
    ensures Total(cfg, Apply(cfg, s, ByNode(i, c))) == Total(cfg, s) + Drift(cfg, s, ByNode(i, c))
  {
    hide SumOf, NodeShare, NodeOk, L.LedgerOk, IdsOk, NodeNext, NodeEffect, NodeCan, NodeDrift, L.LedgerMoney;
    var n := s.nodes[i];
    var n' := NodeNext(cfg, s, n, c);
    var m := s.(nodes := s.nodes[i := n']);
    NodeMoney(cfg, s, n, c);
    NodeStepLedger(cfg, s, i, c);
    SumUpdate(s.nodes, i, n', NodeShare);
    EffectTotal(cfg, m, NodeEffect(cfg, s, n, c));
  }

  lemma MasterStepMoney(cfg: Config, s: State, c: Choice)
    requires Inv(cfg, s) && MasterCan(cfg, s, c) && EffectCan(s, MasterEffect(cfg, s, c))
    ensures Total(cfg, Apply(cfg, s, ByMaster(c))) == Total(cfg, s) + Drift(cfg, s, ByMaster(c))
  {
    hide SumOf, NodeShare, NodeOk, L.LedgerOk, IdsOk, FreshPid, FreshNode, L.LedgerMoney;
    MasterMoney(cfg, s, c);
    EffectTotal(cfg, s.(master := MasterNext(cfg, s, c)), MasterEffect(cfg, s, c));
  }

  /** Every step changes the total by exactly its drift. */
  lemma StepMoney(cfg: Config, s: State, a: Act)
    requires Inv(cfg, s) && Can(cfg, s, a) && EffectCan(s, EffectOf(cfg, s, a))
    ensures Total(cfg, Apply(cfg, s, a)) == Total(cfg, s) + Drift(cfg, s, a)
  {
    hide Total, Inv, Apply;
    match a
    case ByUser(u, ua) => UserStepMoney(cfg, s, u, ua);
    case ByNode(n, c) => NodeStepMoney(cfg, s, n, c);
    case ByMaster(c) => MasterStepMoney(cfg, s, c);
  }

  // ---- runs ----

  lemma {:induction false} SharesZero(cfg: Config, s: State)
    requires Initial(cfg, s)
    ensures SumOf(s.users, UserShare) == 0 && SumOf(s.nodes, NodeShare) == 0
  {
    hide L.Empty, FreshNode, NodeShare;
    forall i | 0 <= i < |s.nodes| ensures NodeShare(s.nodes[i]) == 0 {
      FreshNodeOk(cfg, s.nodes[i].pid, s.nodes[i].friends, NPoll);
    }
    ZeroSum(s.users, UserShare);
    ZeroSum(s.nodes, NodeShare);
  }

  lemma InitialInv(cfg: Config, s: State)
    requires Initial(cfg, s)
    ensures Inv(cfg, s)
    ensures Total(cfg, s) == |s.users| * cfg.budgetInit
  {
    hide NodeOk, NodeShare, UserShare, L.LedgerOk, L.LedgerMoney, L.Empty;
    L.EmptyOk(REGISTRY_SIZE);
    L.EmptyMoney(REGISTRY_SIZE, 0);
    SharesZero(cfg, s);
    forall i | 0 <= i < |s.nodes| ensures NodeOk(cfg, s.nodes[i]) && !HoldsId(s.nodes[i]) {
      FreshNodeOk(cfg, s.nodes[i].pid, s.nodes[i].friends, NPoll);
    }
  }

  /** What the failing steps among the first k of a run have added or taken away. */
  ghost function DriftUpTo(cfg: Config, states: seq<State>, acts: seq<Act>, k: nat): int
    requires Run(cfg, states, acts) && k <= |acts|
  {
    if k == 0 then 0
    else
      assert Next(cfg, states[k - 1], acts[k - 1], states[k - 1 + 1]);
      DriftUpTo(cfg, states, acts, k - 1) + Drift(cfg, states[k - 1], acts[k - 1])
  }

  lemma {:induction false} RunInv(cfg: Config, states: seq<State>, acts: seq<Act>, k: nat)
    requires Run(cfg, states, acts) && k <= |acts|
    ensures Inv(cfg, states[k]) && |states[k].users| == |states[0].users|
  {
    hide Inv, Initial, Can, Apply, EffectCan;
    if k == 0 {
      InitialInv(cfg, states[0]);
    } else {
      RunInv(cfg, states, acts, k - 1);
      assert Next(cfg, states[k - 1], acts[k - 1], states[k - 1 + 1]);
      StepInv(cfg, states[k - 1], acts[k - 1]);
      SameUsers(cfg, states[k - 1], acts[k - 1]);
    }
  }

  lemma SameUsers(cfg: Config, s: State, a: Act)
    requires Can(cfg, s, a) && EffectCan(s, EffectOf(cfg, s, a))
    ensures |Apply(cfg, s, a).users| == |s.users|
  {
    hide NodeOk, NodeNext, NodeEffect, NodeCan, UserNext, UserEffect, MasterEffect, MasterNext, FreshPid;
  }

  /**
   Conservation over every run: in every state the money of the simulation is what the users
   started with, plus exactly what the failing steps so far have created or destroyed.
   */
  lemma {:induction false} Conservation(cfg: Config, states: seq<State>, acts: seq<Act>, k: nat)
    requires Run(cfg, states, acts) && k <= |acts|
    ensures Total(cfg, states[k]) == |states[0].users| * cfg.budgetInit + DriftUpTo(cfg, states, acts, k)
  {
    hide Inv, Initial, Can, Apply, EffectCan, Total, Drift;
    if k == 0 {
      InitialInv(cfg, states[0]);
    } else {
      Conservation(cfg, states, acts, k - 1);
      RunInv(cfg, states, acts, k - 1);
      assert Next(cfg, states[k - 1], acts[k - 1], states[k - 1 + 1]);
      StepMoney(cfg, states[k - 1], acts[k - 1]);
    }
  }
}
