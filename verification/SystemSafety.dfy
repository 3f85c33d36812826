/** No user overdraws, in any run with a reward rate of at most 100 percent. */
module SystemSafety {
  import opened Common
  import opened System
  import opened SystemMoney
  import C = Cyclic
  import P = Pool
  import L = Ledger
  import T = SystemTrans

  predicate Sound(cfg: Config) {
    cfg.rewardPercent <= 100 && cfg.budgetInit >= 0
  }

  // ---- no negative amount anywhere ----

  predicate GoodTrans(t: Transaction) {
    t.quantity >= 0 && t.reward >= 0
  }

  lemma {:induction false} RewardSumGood(slots: seq<P.Slot>, picks: seq<int>)
    requires P.InPool(slots, picks) && forall i :: 0 <= i < |picks| ==> GoodTrans(slots[picks[i]].trans)
    ensures P.RewardSum(slots, picks) >= 0
  {
    if picks != [] { RewardSumGood(slots, picks[..|picks| - 1]); }
  }

  /** A node writes no negative quantity. */
  lemma WriteGood(cfg: Config, s: State, n: Node, c: Choice)
    requires NodeCan(s, n, c) && NodeOk(cfg, n) && T.AtNode(n, GoodTrans)
    ensures NodeEffect(cfg, s, n, c).Write? ==> L.NoNegative(NodeEffect(cfg, s, n, c).b)
  {
    hide P.Deposit, P.UsedCount, P.RewardSum, C.Distinct, L.BlockOf, P.PoolOk;
    if n.phase.NBuilt? {
      RewardSumGood(n.pool.slots, n.phase.picks);
    }
  }

  // ---- users ----

  /** initial budget + revenue - local_budget, after the debit that is under way. */
  function TrueBudget(cfg: Config, l: L.Ledger, u: User): int
    requires 0 <= l.count <= |l.blocks|
  {
    cfg.budgetInit + L.Revenue(l, u.pid) - u.local - (if u.phase.UDebit? then u.phase.total else 0)
  }

  /** The recorded budget is at most the true one whenever the user may draw from it. */
  predicate UserSafe(cfg: Config, l: L.Ledger, u: User)
    requires 0 <= l.count <= |l.blocks|
  {
    && TrueBudget(cfg, l, u) >= 0
    && match u.phase
       case UIdle => u.recorded <= TrueBudget(cfg, l, u)
       case UCredit(amount) => amount >= 0
       case UReading(i, sum) => i <= l.count && sum <= L.RevenueUpTo(l.blocks, i, u.pid)
       case _ => true
  }

  lemma DrawGood(cfg: Config, u: User, a: UserAct)
    requires Sound(cfg) && a.Draw? && u.recorded >= 2
    ensures GoodTrans(DrawnTrans(cfg, u, a)) && DrawnTrans(cfg, u, a).reward >= 1
    ensures Amount(DrawnTrans(cfg, u, a)) == DrawnTotal(u, a.rand) <= u.recorded
  {
    SplitInRange(DrawnTotal(u, a.rand), cfg.rewardPercent);
  }

  lemma UserStaysSafe(cfg: Config, s: State, u: User, a: UserAct)
    requires Sound(cfg) && UserCan(s, u, a) && T.Queues(s, GoodTrans)
    requires 0 <= s.ledger.count <= |s.ledger.blocks| && UserSafe(cfg, s.ledger, u)
    ensures UserSafe(cfg, s.ledger, UserNext(cfg, s, u, a)) && UserNext(cfg, s, u, a).pid == u.pid
  {
    hide L.Paid, GetReward, DrawnTrans, T.Messages;
    if a.Collect? { assert T.RefundFrom(s.refunds[a.k], GoodTrans); }
  }

  /** A block in any free slot leaves every user safe. */
  lemma BlockKeepsSafe(cfg: Config, l: L.Ledger, b: L.Block, u: User)
    requires L.LedgerOk(l) && L.WellFormed(b) && 0 <= b.id < l.lastId && b.id !in l.written
    requires L.NoNegatives(l.blocks) && L.NoNegative(b)
    requires 0 <= l.count <= |l.blocks| && UserSafe(cfg, l, u)
    ensures L.LedgerOk(L.AddBlock(l, b)) && L.NoNegatives(L.AddBlock(l, b).blocks)
    ensures 0 <= L.AddBlock(l, b).count <= |l.blocks| && UserSafe(cfg, L.AddBlock(l, b), u)
  {
    hide L.LedgerOk, L.NoNegatives, L.NoNegative, L.WellFormed, L.RevenueUpTo;
    L.RevenueNeverDecreases(l, b, u.pid);
    L.AddBlockPaysMore(l, b, u.pid, l.count);
    L.AddBlockOk(l, b);
    if u.phase.UReading? { L.AddBlockPaysMore(l, b, u.pid, u.phase.i); }
  }

  // ---- the invariant ----

  predicate UsersSafe(cfg: Config, l: L.Ledger, users: seq<User>) {
    && 0 <= l.count <= |l.blocks| && L.NoNegatives(l.blocks)
    && forall i :: 0 <= i < |users| ==> UserSafe(cfg, l, users[i])
  }

  ghost predicate Safe(cfg: Config, s: State) {
    UsersSafe(cfg, s.ledger, s.users) && T.Everywhere(s, GoodTrans)
  }

  lemma SameRevenue(cfg: Config, l: L.Ledger, l': L.Ledger, users: seq<User>)
    requires l'.blocks == l.blocks && l'.count == l.count && UsersSafe(cfg, l, users)
    ensures UsersSafe(cfg, l', users)
  {
    hide L.NoNegatives;
  }

  lemma WriteSafe(cfg: Config, l: L.Ledger, b: L.Block, users: seq<User>)
    requires L.LedgerOk(l) && L.WellFormed(b) && 0 <= b.id < l.lastId && b.id !in l.written && L.NoNegative(b)
    requires UsersSafe(cfg, l, users)
    ensures UsersSafe(cfg, L.AddBlock(l, b), users)
  {
    hide L.NoNegatives, L.LedgerOk, UserSafe, L.WellFormed, L.NoNegative, L.AddBlock;
    L.AddBlockOk(l, b);
    L.AddBlockPaysMore(l, b, 0, 0);
    L.LedgerBounds(L.AddBlock(l, b));
    forall i | 0 <= i < |users| ensures UserSafe(cfg, L.AddBlock(l, b), users[i]) {
      BlockKeepsSafe(cfg, l, b, users[i]);
    }
  }

  lemma UserStepSafe(cfg: Config, s: State, u: nat, a: UserAct, s': State)
    requires Sound(cfg) && Safe(cfg, s) && Next(cfg, s, ByUser(u, a), s')
    ensures UsersSafe(cfg, s'.ledger, s'.users)
  {
    hide L.NoNegatives, T.AtNode, T.AtMaster, T.InLedger, T.Queues, UserSafe, UserNext, UserCan, L.Revenue;
    UserStaysSafe(cfg, s, s.users[u], a);
    UserEffectKinds(cfg, s, s.users[u], a);
  }

  lemma NodeStepSafe(cfg: Config, s: State, i: nat, c: Choice, s': State)
    requires Sound(cfg) && Safe(cfg, s) && Inv(cfg, s) && Next(cfg, s, ByNode(i, c), s')
    ensures UsersSafe(cfg, s'.ledger, s'.users)
  {
    hide UsersSafe, L.LedgerOk, NodeNext, NodeEffect, NodeCan, NodeOk, IdsOk, T.AtNode, T.AtMaster, T.InLedger,
         T.Queues, L.WellFormed, L.NoNegative, L.AddBlock;
    var e := NodeEffect(cfg, s, s.nodes[i], c);
    WriteGood(cfg, s, s.nodes[i], c);
    NodeStepLedger(cfg, s, i, c);
    if e.Write? {
      WriteSafe(cfg, s.ledger, e.b, s.users);
    } else {
      SameRevenue(cfg, s.ledger, s'.ledger, s.users);
    }
  }

  lemma MasterStepSafe(cfg: Config, s: State, c: Choice, s': State)
    requires Sound(cfg) && Safe(cfg, s) && Next(cfg, s, ByMaster(c), s')
    ensures UsersSafe(cfg, s'.ledger, s'.users)
  {
    hide UsersSafe, T.Everywhere, FreshPid, NodeOk;
  }

  lemma StepSafe(cfg: Config, s: State, a: Act, s': State)
    requires Sound(cfg) && Safe(cfg, s) && Inv(cfg, s) && Next(cfg, s, a, s')
    ensures Safe(cfg, s')
  {
    hide UsersSafe, T.Everywhere, Inv, Apply, EffectOf, Sound, DrawnTrans;
    if T.IsDraw(s, a) { DrawGood(cfg, s.users[a.u], a.a); }
    T.StepEverywhere(cfg, s, a, s', GoodTrans);
    match a
    case ByUser(u, ua) => UserStepSafe(cfg, s, u, ua, s');
    case ByNode(n, c) => NodeStepSafe(cfg, s, n, c, s');
    case ByMaster(c) => MasterStepSafe(cfg, s, c, s');
  }

  lemma InitialSafe(cfg: Config, s: State)
    requires Sound(cfg) && Initial(cfg, s)
    ensures Safe(cfg, s)
  {
    hide T.Everywhere;
    T.NoneYet(cfg, s, GoodTrans);
  }

  lemma {:induction false} RunSafe(cfg: Config, states: seq<State>, acts: seq<Act>, k: nat)
    requires Sound(cfg) && Run(cfg, states, acts) && k <= |acts|
    ensures Safe(cfg, states[k])
  {
    hide Safe, Inv, Initial, Next, Sound;
    if k == 0 {
      InitialSafe(cfg, states[0]);
    } else {
      RunSafe(cfg, states, acts, k - 1);
      RunInv(cfg, states, acts, k - 1);
      assert Next(cfg, states[k - 1], acts[k - 1], states[k - 1 + 1]);
      StepSafe(cfg, states[k - 1], acts[k - 1], states[k]);
    }
  }

  /**
   No user overdraws: in every state of every run initial budget + revenue - local_budget is not
   negative, also between a send and its debit; and at a draw the total drawn is at most that.
   */
  lemma NoOverdraft(cfg: Config, states: seq<State>, acts: seq<Act>, k: nat, u: nat)
    requires Sound(cfg) && Run(cfg, states, acts) && k <= |acts| && u < |states[k].users|
    ensures 0 <= states[k].ledger.count <= |states[k].ledger.blocks|
    ensures TrueBudget(cfg, states[k].ledger, states[k].users[u]) >= 0
    ensures k < |acts| && acts[k].ByUser? && acts[k].u == u && acts[k].a.Draw? ==>
              && states[k].users[u].recorded >= 2
              && DrawnTotal(states[k].users[u], acts[k].a.rand) <= TrueBudget(cfg, states[k].ledger, states[k].users[u])
              && DrawnTrans(cfg, states[k].users[u], acts[k].a).reward >= 1
              && DrawnTrans(cfg, states[k].users[u], acts[k].a).quantity >= 0
  {
    hide Initial, Apply, T.Everywhere, L.NoNegatives, L.Revenue, NodeCan, NodeOk, MasterCan, DrawnTrans;
    RunSafe(cfg, states, acts, k);
    if k < |acts| && acts[k].ByUser? && acts[k].u == u && acts[k].a.Draw? {
      assert Next(cfg, states[k], acts[k], states[k + 1]);
      DrawGood(cfg, states[k].users[u], acts[k].a);
    }
  }
}
