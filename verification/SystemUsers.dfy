/** What a user's local_budget holds, and that the dead do nothing, in every run. */
module SystemUsers {
  import opened Common
  import opened System
  import opened SystemMoney
  import P = Pool
  import L = Ledger

  /** What user u draws in this step. */
  function DrawnNow(s: State, a: Act, u: nat): int {
    if a.ByUser? && a.u == u < |s.users| && a.a.Draw? && s.users[u].recorded >= 2
    then RandIntRange(a.a.rand, 2, s.users[u].recorded) else 0
  }

  /** What user u collects in this step out of a refund addressed to it. */
  function CollectedNow(s: State, a: Act, u: nat): int {
    if a.ByUser? && a.u == u < |s.users| && a.a.Collect? && a.a.k < |s.refunds| && s.refunds[a.a.k].to == s.users[u].pid
    then s.refunds[a.a.k].amount else 0
  }

  function Spent(states: seq<State>, acts: seq<Act>, k: nat, u: nat): int
    requires |states| == |acts| + 1 && k <= |acts|
  {
    if k == 0 then 0
    else
      var s, a := states[k - 1], acts[k - 1];
      Spent(states, acts, k - 1, u) + DrawnNow(s, a, u) - CollectedNow(s, a, u)
  }

  /** Sent or received and not yet booked. */
  function Unbooked(u: User): int {
    match u.phase
    case UDebit(total) => total
    case UCredit(amount) => -amount
    case _ => 0
  }

  lemma StepSpends(cfg: Config, s: State, a: Act, s': State, u: nat)
    requires Next(cfg, s, a, s') && u < |s.users|
    ensures |s'.users| == |s.users|
    ensures s'.users[u].local + Unbooked(s'.users[u])
            == s.users[u].local + Unbooked(s.users[u]) + DrawnNow(s, a, u) - CollectedNow(s, a, u)
  {
    hide NodeOk, NodeCan, NodeNext, NodeEffect, MasterNext, MasterEffect, FreshPid, DrawnTrans, RandIntRange, L.Paid;
  }

  /**
   In every run a user's local_budget, with what it has not yet booked, is the sum of all it has drawn
   less all the refunds addressed to it that it has collected.
   */
  lemma {:induction false} LocalBudget(cfg: Config, states: seq<State>, acts: seq<Act>, k: nat, u: nat)
    requires Run(cfg, states, acts) && k <= |acts| && u < |states[0].users|
    ensures |states[k].users| == |states[0].users|
    ensures states[k].users[u].local + Unbooked(states[k].users[u]) == Spent(states, acts, k, u)
  {
    hide Next, DrawnNow, CollectedNow;
    if k > 0 {
      LocalBudget(cfg, states, acts, k - 1, u);
      assert Next(cfg, states[k - 1], acts[k - 1], states[k - 1 + 1]);
      StepSpends(cfg, states[k - 1], acts[k - 1], states[k], u);
    }
  }

  /** At the top of its loop, and after every debit and refund, a user reads its revenue anew from the first slot. */
  lemma ReadsAnew(cfg: Config, s: State, u: nat, a: UserAct, s': State)
    requires Next(cfg, s, ByUser(u, a), s')
    requires a == Refresh || s.users[u].phase.UDebit? || s.users[u].phase.UCredit?
    ensures u < |s'.users| && s'.users[u].phase == UReading(0, 0) && s'.ledger == s.ledger
    ensures s'.users[u].local == s.users[u].local + Unbooked(s.users[u])
  {
    hide DrawnTrans, L.Paid;
  }

  lemma StepDead(cfg: Config, s: State, a: Act, s': State, u: nat)
    requires Next(cfg, s, a, s') && u < |s.users|
    ensures |s'.users| == |s.users|
    ensures a == ByUser(u, Die) ==> s'.users[u].phase == UDead
    ensures s.users[u].phase == UDead ==> s'.users[u] == s.users[u] && !(a.ByUser? && a.u == u)
  {
    hide NodeOk, NodeCan, NodeNext, NodeEffect, MasterNext, MasterEffect, FreshPid, DrawnTrans, L.Paid;
  }

  /** In every run a user that has died takes no further step. */
  lemma {:induction false} DeadStays(cfg: Config, states: seq<State>, acts: seq<Act>, j: nat, k: nat, u: nat)
    requires Run(cfg, states, acts) && j < k < |acts| && acts[j] == ByUser(u, Die)
    ensures !(acts[k].ByUser? && acts[k].u == u)
    ensures u < |states[k].users| && states[k].users[u].phase == UDead
    decreases k
  {
    hide Initial, Apply, EffectCan, Can;
    assert Next(cfg, states[j], acts[j], states[j + 1]) && Next(cfg, states[k], acts[k], states[k + 1]);
    DieIsThere(cfg, states[j], u);
    StepDead(cfg, states[j], acts[j], states[j + 1], u);
    if j + 1 < k {
      DeadStays(cfg, states, acts, j, k - 1, u);
      assert Next(cfg, states[k - 1], acts[k - 1], states[k - 1 + 1]);
      StepDead(cfg, states[k - 1], acts[k - 1], states[k], u);
    }
    StepDead(cfg, states[k], acts[k], states[k + 1], u);
  }

  lemma DieIsThere(cfg: Config, s: State, u: nat)
    requires Can(cfg, s, ByUser(u, Die))
    ensures u < |s.users|
  {
  }
}
