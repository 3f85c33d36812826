/** Transactions come from users only: what holds of each as it is drawn holds of each wherever it goes. */
module SystemTrans {
  import opened Common
  import opened System
  import opened SystemMoney
  import C = Cyclic
  import P = Pool
  import L = Ledger

  type Property = Transaction -> bool

  // ---- every place a transaction can be ----

  predicate Messages(ms: seq<Message>, p: Property) {
    forall i :: 0 <= i < |ms| ==> p(ms[i].trans)
  }

  ghost predicate RefundFrom(r: Refund, p: Property) {
    exists t :: p(t) && r == RefundOf(t)
  }

  ghost predicate Queues(s: State, p: Property) {
    && Messages(s.queue, p) && Messages(s.priority, p)
    && forall i :: 0 <= i < |s.refunds| ==> RefundFrom(s.refunds[i], p)
  }

  predicate Slots(slots: seq<P.Slot>, p: Property) {
    forall i :: 0 <= i < |slots| && slots[i].used ==> p(slots[i].trans)
  }

  predicate InHand(phase: NodePhase, p: Property) {
    match phase
    case NRoute(msg) => p(msg.trans)
    case NToMaster(msg) => p(msg.trans)
    case NReject(msg) => p(msg.trans)
    case _ => true
  }

  predicate AtNode(n: Node, p: Property) {
    Slots(n.pool.slots, p) && InHand(n.phase, p)
  }

  predicate AtMaster(m: MasterPhase, p: Property) {
    m.MIdle? || p(m.msg.trans)
  }

  /** The user entries of a block; the last entry is the node's own. */
  predicate InBlock(b: L.Block, p: Property) {
    |b.trans| == BLOCK_SIZE && forall i :: 0 <= i < BLOCK_TRANS ==> p(b.trans[i])
  }

  predicate InLedger(l: L.Ledger, p: Property) {
    forall i :: i in l.written && 0 <= i < |l.blocks| ==> InBlock(l.blocks[i], p)
  }

  ghost predicate Everywhere(s: State, p: Property) {
    && Queues(s, p) && AtMaster(s.master, p) && InLedger(s.ledger, p)
    && forall i :: 0 <= i < |s.nodes| ==> AtNode(s.nodes[i], p)
  }

  ghost predicate Carries(e: Effect, p: Property) {
    match e
    case PutQueue(m) => p(m.trans)
    case PutPriority(m) => p(m.trans)
    case PutRefund(r) => RefundFrom(r, p)
    case Write(b) => InBlock(b, p)
    case NewNode(n) => AtNode(n, p)
    case _ => true
  }

  // ---- steps ----

  lemma EffectEverywhere(s: State, e: Effect, p: Property)
    requires EffectCan(s, e) && WriteOk(s, e) && Everywhere(s, p) && Carries(e, p)
    ensures Everywhere(ApplyEffect(s, e), p)
  {
    hide AtNode, InBlock, RefundFrom, AtMaster;
  }

  lemma DepositKeeps(pool: P.Pool, tpSize: nat, t: Transaction, p: Property)
    requires P.PoolOk(pool, tpSize) && Slots(pool.slots, p) && p(t)
    ensures P.Deposit(pool, t).Some? ==> Slots(P.Deposit(pool, t).value.slots, p)
  {
    hide P.FirstFree, P.Deposit, P.UsedCount;
    P.DepositSpec(pool, tpSize, t);
  }

  lemma ClearKeeps(slots: seq<P.Slot>, picks: seq<int>, p: Property)
    requires P.InPool(slots, picks) && Slots(slots, p)
    ensures Slots(P.Clear(slots, picks), p)
  {
    hide P.Clear;
    P.ClearSpec(slots, picks);
  }

  lemma NodeKeeps(cfg: Config, s: State, n: Node, c: Choice, p: Property)
    requires NodeCan(s, n, c) && NodeOk(cfg, n) && AtNode(n, p) && Queues(s, p)
    requires EffectCan(s, NodeEffect(cfg, s, n, c))
    ensures AtNode(NodeNext(cfg, s, n, c), p)
  {
    hide P.Deposit, P.UsedCount, P.Clear, P.BlockPicks, P.Next, P.RewardSum, C.Distinct, RefundFrom;
    match n.phase
    case NFresh => DepositKeeps(n.pool, cfg.tpSize, s.priority[c.k].trans, p);
    case NRoute(msg) => DepositKeeps(n.pool, cfg.tpSize, msg.trans, p);
    case NRecorded(picks, _) => ClearKeeps(n.pool.slots, picks, p);
    case NRefused(picks) => ClearKeeps(n.pool.slots, picks, p);
    case _ =>
  }

  lemma NodeCarries(cfg: Config, s: State, n: Node, c: Choice, p: Property)
    requires NodeCan(s, n, c) && NodeOk(cfg, n) && AtNode(n, p)
    ensures Carries(NodeEffect(cfg, s, n, c), p)
  {
    hide P.Deposit, P.UsedCount, P.RewardSum, C.Distinct, L.BlockOf, P.PoolOk;
  }

  ghost predicate IsDraw(s: State, a: Act) {
    a.ByUser? && a.u < |s.users| && a.a.Draw? && s.users[a.u].recorded >= 2
  }

  lemma UserCarries(cfg: Config, s: State, u: nat, a: UserAct, p: Property)
    requires u < |s.users| && UserCan(s, s.users[u], a)
    requires IsDraw(s, ByUser(u, a)) ==> p(DrawnTrans(cfg, s.users[u], a))
    ensures Carries(UserEffect(cfg, s, s.users[u], a), p)
  {
    hide DrawnTrans;
  }

  lemma MasterKeeps(cfg: Config, s: State, c: Choice, p: Property)
    requires MasterCan(cfg, s, c) && AtMaster(s.master, p) && Queues(s, p)
    ensures AtMaster(MasterNext(cfg, s, c), p) && Carries(MasterEffect(cfg, s, c), p)
  {
    hide FreshPid;
  }

  lemma StepEverywhere(cfg: Config, s: State, a: Act, s': State, p: Property)
    requires Inv(cfg, s) && Next(cfg, s, a, s') && Everywhere(s, p)
    requires IsDraw(s, a) ==> p(DrawnTrans(cfg, s.users[a.u], a.a))
    ensures Everywhere(s', p)
  {
    hide Inv, EffectCan, WriteOk, Carries, ApplyEffect, AtNode, AtMaster, InLedger, Queues, NodeCan, NodeOk,
         NodeNext, NodeEffect, UserCan, UserNext, UserEffect, MasterCan, MasterNext, MasterEffect, DrawnTrans;
    StepInv(cfg, s, a);
    var m := Moved(cfg, s, a);
    match a {
      case ByUser(u, ua) => UserCarries(cfg, s, u, ua, p);
      case ByNode(n, c) => NodeKeeps(cfg, s, s.nodes[n], c, p); NodeCarries(cfg, s, s.nodes[n], c, p);
      case ByMaster(c) => MasterKeeps(cfg, s, c, p);
    }
    SameShared(s, m, EffectOf(cfg, s, a), p);
    EffectEverywhere(m, EffectOf(cfg, s, a), p);
  }

  lemma SameShared(s: State, m: State, e: Effect, p: Property)
    requires m.queue == s.queue && m.priority == s.priority && m.refunds == s.refunds && m.ledger == s.ledger
    requires EffectCan(s, e) && WriteOk(s, e)
    ensures EffectCan(m, e) && WriteOk(m, e)
    ensures Queues(s, p) ==> Queues(m, p)
  {
    hide RefundFrom;
  }

  // ---- runs ----

  /** Every draw among the first k steps has the property. */
  ghost predicate Draws(cfg: Config, states: seq<State>, acts: seq<Act>, k: nat, p: Property)
    requires |states| == |acts| + 1 && k <= |acts|
  {
    forall j :: 0 <= j < k && IsDraw(states[j], acts[j]) ==> p(DrawnTrans(cfg, states[j].users[acts[j].u], acts[j].a))
  }

  lemma NoneYet(cfg: Config, s: State, p: Property)
    requires Initial(cfg, s)
    ensures Everywhere(s, p)
  {
  }

  /** What holds of every transaction as it is drawn holds of every transaction in queues, hands, pools and blocks. */
  lemma {:induction false} RunEverywhere(cfg: Config, states: seq<State>, acts: seq<Act>, k: nat, p: Property)
    requires Run(cfg, states, acts) && k <= |acts| && Draws(cfg, states, acts, k, p)
    ensures Everywhere(states[k], p)
  {
    hide Inv, Initial, Next, Everywhere, DrawnTrans;
    if k == 0 {
      NoneYet(cfg, states[0], p);
    } else {
      RunEverywhere(cfg, states, acts, k - 1, p);
      RunInv(cfg, states, acts, k - 1);
      assert Next(cfg, states[k - 1], acts[k - 1], states[k - 1 + 1]);
      StepEverywhere(cfg, states[k - 1], acts[k - 1], states[k], p);
    }
  }

  /** Step j is a draw by a user, and t is what it draws: field by field, from its act and its budget. */
  ghost predicate DrawnAt(cfg: Config, s: State, a: Act, t: Transaction) {
    && IsDraw(s, a)
    && var u, total := s.users[a.u], RandIntRange(a.a.rand, 2, s.users[a.u].recorded);
       && t.sender == u.pid && t.receiver == a.a.receiver && t.receiver != t.sender
       && t.reward == GetReward(total, cfg.rewardPercent) && t.quantity + t.reward == total
       && t.sec == a.a.sec && t.nsec == a.a.nsec
  }

  /** Some user has drawn t before state k. */
  ghost predicate Drawn(cfg: Config, states: seq<State>, acts: seq<Act>, k: nat, t: Transaction) {
    exists j :: 0 <= j < k && j < |acts| && j < |states| && DrawnAt(cfg, states[j], acts[j], t)
  }

  /** A draw puts one message with exactly the drawn transaction on the queue, for the chosen node, and no more. */
  lemma DrawMade(cfg: Config, s: State, u: nat, a: UserAct)
    requires u < |s.users| && a.Draw? && UserCan(s, s.users[u], a)
    ensures Can(cfg, s, ByUser(u, a)) && EffectCan(s, EffectOf(cfg, s, ByUser(u, a)))
    ensures var t := DrawnTrans(cfg, s.users[u], a);
            && DrawnAt(cfg, s, ByUser(u, a), t)
            && Apply(cfg, s, ByUser(u, a))
               == s.(users := s.users[u := s.users[u].(phase := UDebit(t.quantity + t.reward))],
                     queue := s.queue + [Message(a.node, 0, t)])
  {
    hide GetReward, RandIntRange;
  }

  /** A user at the top of its loop can draw any total from 2 to its recorded budget, for any other receiver. */
  lemma DrawsAny(cfg: Config, s: State, u: nat, total: int, node: int, receiver: int)
    requires u < |s.users| && s.users[u].phase == UIdle && 2 <= total <= s.users[u].recorded
    requires receiver != s.users[u].pid
    ensures var a := ByUser(u, Draw(total - 2, node, receiver, 0, 0));
            && Can(cfg, s, a) && EffectCan(s, EffectOf(cfg, s, a))
            && Amount(DrawnTrans(cfg, s.users[u], a.a)) == total
            && Apply(cfg, s, a).users[u].phase == UDebit(total)
  {
    hide GetReward;
    RandReaches(2, s.users[u].recorded, total);
  }

  /**
   No transaction is forged or altered: whatever lies in a queue, a pool, a process's hands or a user
   entry of the ledger is a transaction some user has drawn before, field by field.
   */
  lemma Provenance(cfg: Config, states: seq<State>, acts: seq<Act>, k: nat)
    requires Run(cfg, states, acts) && k <= |acts|
    ensures Everywhere(states[k], (t: Transaction) => Drawn(cfg, states, acts, k, t))
  {
    hide Initial, Everywhere, DrawnTrans, DrawnAt, Apply, EffectCan, NodeOk, NodeCan, MasterCan;
    forall j | 0 <= j < k && IsDraw(states[j], acts[j])
      ensures Drawn(cfg, states, acts, k, DrawnTrans(cfg, states[j].users[acts[j].u], acts[j].a))
    {
      assert Next(cfg, states[j], acts[j], states[j + 1]);
      DrawMade(cfg, states[j], acts[j].u, acts[j].a);
    }
    RunEverywhere(cfg, states, acts, k, (t: Transaction) => Drawn(cfg, states, acts, k, t));
  }

  lemma {:induction false} PidsStay(cfg: Config, states: seq<State>, acts: seq<Act>, j: nat, k: nat)
    requires Run(cfg, states, acts) && j <= k <= |acts|
    ensures |states[j].users| == |states[k].users|
    ensures forall u :: 0 <= u < |states[j].users| ==> states[k].users[u].pid == states[j].users[u].pid
    decreases k
  {
    hide Initial, Next;
    if j < k {
      PidsStay(cfg, states, acts, j, k - 1);
      assert Next(cfg, states[k - 1], acts[k - 1], states[k - 1 + 1]);
      StepPidsStay(cfg, states[k - 1], acts[k - 1], states[k]);
    }
  }

  lemma StepPidsStay(cfg: Config, s: State, a: Act, s': State)
    requires Next(cfg, s, a, s')
    ensures |s'.users| == |s.users| && forall u :: 0 <= u < |s.users| ==> s'.users[u].pid == s.users[u].pid
  {
    hide NodeOk, NodeNext, NodeEffect, NodeCan, MasterEffect, MasterNext, FreshPid, DrawnTrans, L.Paid;
  }

  /** In this step a user draws the total amount, and its pid is pid. */
  predicate DrawsTotal(s: State, a: Act, pid: int, amount: int) {
    && a.ByUser? && a.u < |s.users| && a.a.Draw? && s.users[a.u].recorded >= 2
    && pid == s.users[a.u].pid && amount == RandIntRange(a.a.rand, 2, s.users[a.u].recorded)
  }

  /**
   In every run each entry of the refund queue is addressed to a user that has drawn before, and its
   amount is exactly what was drawn then.
   */
  lemma RefundsAreDraws(cfg: Config, states: seq<State>, acts: seq<Act>, k: nat, i: nat)
    requires Run(cfg, states, acts) && k <= |acts| && i < |states[k].refunds|
    ensures var r := states[k].refunds[i]; exists j :: 0 <= j < k && DrawsTotal(states[j], acts[j], r.to, r.amount)
    ensures exists u :: 0 <= u < |states[k].users| && states[k].users[u].pid == states[k].refunds[i].to
  {
    hide Initial, Next, GetReward, RandIntRange, AtNode, AtMaster, InLedger, Messages;
    Provenance(cfg, states, acts, k);
    var r := states[k].refunds[i];
    assert RefundFrom(r, (t: Transaction) => Drawn(cfg, states, acts, k, t));
    var t :| Drawn(cfg, states, acts, k, t) && r == RefundOf(t);
    var j :| 0 <= j < k && j < |acts| && j < |states| && DrawnAt(cfg, states[j], acts[j], t);
    assert DrawsTotal(states[j], acts[j], r.to, r.amount);
    PidsStay(cfg, states, acts, j, k);
    assert states[k].users[acts[j].u].pid == r.to;
  }

  /** Every transaction anywhere carries a reward of at least 1, at any rate. */
  lemma Rewarded(cfg: Config, states: seq<State>, acts: seq<Act>, k: nat)
    requires Run(cfg, states, acts) && k <= |acts|
    ensures Everywhere(states[k], (t: Transaction) => t.reward >= 1)
  {
    hide Initial, Next, Everywhere;
    RunEverywhere(cfg, states, acts, k, (t: Transaction) => t.reward >= 1);
  }
}
