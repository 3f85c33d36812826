/** Exactly when the money of the simulation changes. */
module SystemLeaks {
  import opened Common
  import opened System
  import opened SystemMoney
  import C = Cyclic
  import P = Pool
  import L = Ledger
  import T = SystemTrans

  /** The branches of a node in which a transaction is lost, or paid back and kept. */
  predicate NodeLeaks(cfg: Config, n: Node, c: Choice) {
    match n.phase
    case NFresh => cfg.tpSize == 0      // its pool has no slot
    case NToMaster(_) => !c.ok          // the hand-over of a received transaction fails
    case NReject(_) => !c.ok            // the refund of a received transaction fails
    case NCronMaster(_) => c.ok         // the hand-over of an extracted transaction succeeds
    case NCronReject(_) => c.ok         // the refund of an extracted transaction succeeds
    case NRefused(picks) => P.InPool(n.pool.slots, picks) && P.QuantitySum(n.pool.slots, picks) != 0
    case _ => false
  }

  predicate Leaks(cfg: Config, s: State, a: Act) {
    match a
    case ByUser(_, _) => false
    case ByNode(n, c) => n < |s.nodes| && NodeLeaks(cfg, s.nodes[n], c)
    case ByMaster(c) => s.master.MReject? && !c.ok  // a refund fails
  }

  /** A draw takes at least 2, so every transaction is worth at least that much. */
  predicate Priced(t: Transaction) {
    Amount(t) >= 2
  }

  lemma DrawPriced(cfg: Config, u: User, a: UserAct)
    requires a.Draw? && u.recorded >= 2
    ensures Priced(DrawnTrans(cfg, u, a))
  {
  }

  lemma AllPriced(cfg: Config, states: seq<State>, acts: seq<Act>, k: nat)
    requires Run(cfg, states, acts) && k <= |acts|
    ensures T.Everywhere(states[k], Priced)
  {
    hide Initial, Next, T.Everywhere, DrawnTrans, Priced;
    forall j | 0 <= j < k && T.IsDraw(states[j], acts[j])
      ensures Priced(DrawnTrans(cfg, states[j].users[acts[j].u], acts[j].a))
    {
      DrawPriced(cfg, states[j].users[acts[j].u], acts[j].a);
    }
    T.RunEverywhere(cfg, states, acts, k, Priced);
  }

  lemma NodeDriftExact(cfg: Config, s: State, n: Node, c: Choice)
    requires NodeCan(s, n, c) && NodeOk(cfg, n) && T.AtNode(n, Priced) && T.Queues(s, Priced)
    ensures NodeDrift(cfg, s, n, c) != 0 <==> NodeLeaks(cfg, n, c)
  {
    hide P.UsedCount, P.QuantitySum, P.RewardSum, C.Distinct;
  }

  /** A step changes the money if and only if it is in one of these branches. */
  lemma DriftExact(cfg: Config, s: State, a: Act)
    requires Inv(cfg, s) && Can(cfg, s, a) && T.Everywhere(s, Priced)
    ensures Drift(cfg, s, a) != 0 <==> Leaks(cfg, s, a)
  {
    hide NodeOk, NodeCan, NodeLeaks, NodeDrift, L.LedgerOk, IdsOk, T.AtNode, T.Queues, T.InLedger, FreshPid;
    if a.ByNode? { NodeDriftExact(cfg, s, s.nodes[a.n], a.c); }
  }

  /** In every run, step j changes the total if and only if it leaks. */
  lemma StepLeaks(cfg: Config, states: seq<State>, acts: seq<Act>, j: nat)
    requires Run(cfg, states, acts) && j < |acts|
    ensures Total(cfg, states[j + 1]) != Total(cfg, states[j]) <==> Leaks(cfg, states[j], acts[j])
  {
    hide Inv, Initial, Can, Apply, EffectCan, Total, Drift, Leaks, T.Everywhere;
    RunInv(cfg, states, acts, j);
    AllPriced(cfg, states, acts, j);
    assert Next(cfg, states[j], acts[j], states[j + 1]);
    DriftExact(cfg, states[j], acts[j]);
    StepMoney(cfg, states[j], acts[j]);
  }

  /**
   The money is the same in all states up to k of a run, intermediate states included, if and only if
   no step before k takes one of these branches.
   */
  lemma {:induction false} ConservedExactly(cfg: Config, states: seq<State>, acts: seq<Act>, k: nat)
    requires Run(cfg, states, acts) && k <= |acts|
    ensures (forall m :: 0 <= m <= k ==> Total(cfg, states[m]) == |states[0].users| * cfg.budgetInit)
            <==> forall j :: 0 <= j < k ==> !Leaks(cfg, states[j], acts[j])
  {
    hide Inv, Initial, Next, Total, Leaks;
    if k == 0 {
      InitialInv(cfg, states[0]);
    } else {
      ConservedExactly(cfg, states, acts, k - 1);
      StepLeaks(cfg, states, acts, k - 1);
    }
  }
}
