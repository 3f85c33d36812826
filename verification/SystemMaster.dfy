/** What the master does with a transaction whose hops are used up, in every run. */
module SystemMaster {
  import opened Common
  import opened System
  import opened SystemMoney
  import opened SystemRouting
  import opened SystemRuns
  import P = Pool
  import L = Ledger

  /** A message to pid with no hops is put on the priority queue. */
  predicate MasterSends(s: State, s': State, pid: int, t: Transaction) {
    s'.queue == s.queue && s'.refunds == s.refunds && s'.priority == s.priority + [Message(pid, 0, t)]
  }

  /** The steps of the master, and that no other process moves it or adds a node. */
  lemma MasterSteps(cfg: Config, s: State, a: Act, s': State)
    requires Inv(cfg, s) && Next(cfg, s, a, s')
    ensures s'.masterPid == s.masterPid
    ensures !a.ByMaster? ==> s'.master == s.master && |s'.nodes| == |s.nodes|
    ensures a.ByMaster? && s.master.MIdle? ==>
              && a.mc.k < |s.priority| && s.priority[a.mc.k].to == s.masterPid && s'.nodes == s.nodes
              && s'.master == MHold(s.priority[a.mc.k])
              && s'.priority == s.priority[..a.mc.k] + s.priority[a.mc.k + 1..]
              && s'.queue == s.queue && s'.refunds == s.refunds
    ensures a.ByMaster? && s.master.MHold? ==>
              && SameQueues(s, s')
              && if |s.nodes| < cfg.maxNodes && a.mc.ok
                 then var pool := P.Pool(P.EmptySlots(cfg.tpSize), 0, -1);
                      && s'.nodes == s.nodes + [Node(a.mc.pid, pool, 0, a.mc.friends, NFresh)]
                      && s'.master == MForward(s.master.msg, a.mc.pid)
                 else s'.nodes == s.nodes && s'.master == MReject(s.master.msg)
    ensures a.ByMaster? && s.master.MForward? ==>
              && s'.nodes == s.nodes
              && if a.mc.ok then s'.master == MIdle && MasterSends(s, s', s.master.to, s.master.msg.trans)
                 else s'.master == MReject(s.master.msg) && SameQueues(s, s')
    ensures a.ByMaster? && s.master.MReject? ==>
              && s'.nodes == s.nodes && s'.master == MIdle
              && if a.mc.ok then PaysBack(s, s', s.master.msg.trans) else SameQueues(s, s')
  {
    hide Inv, NodeOk, NodeCan, NodeNext, NodeEffect, UserCan, UserNext, FreshPid, DrawnTrans;
    match a
    case ByNode(i, c) => NodeStepLedger(cfg, s, i, c);
    case ByUser(u, ua) => UserEffectKinds(cfg, s, s.users[u], ua);
    case ByMaster(c) =>
  }

  // ---- counting over an interval of a run ----

  function SendBit(s: State, a: Act, s': State, pid: int, t: Transaction): nat {
    if a.ByMaster? && MasterSends(s, s', pid, t) then 1 else 0
  }

  /** The master refunds t to its sender, or tries to and fails. */
  function RefundBit(s: State, a: Act, s': State, t: Transaction): nat {
    if a.ByMaster? && (PaysBack(s, s', t) || (s.master.MReject? && !a.mc.ok)) then 1 else 0
  }

  /** The master fails to send to the node it has just created. */
  function FailBit(s: State, a: Act): nat {
    if a.ByMaster? && s.master.MForward? && !a.mc.ok then 1 else 0
  }

  function Sends(states: seq<State>, acts: seq<Act>, a: nat, b: nat, pid: int, t: Transaction): nat
    requires |states| == |acts| + 1 && a <= b <= |acts|
    decreases b
  {
    if a == b then 0 else Sends(states, acts, a, b - 1, pid, t) + SendBit(states[b - 1], acts[b - 1], states[b], pid, t)
  }

  function Refunds(states: seq<State>, acts: seq<Act>, a: nat, b: nat, t: Transaction): nat
    requires |states| == |acts| + 1 && a <= b <= |acts|
    decreases b
  {
    if a == b then 0 else Refunds(states, acts, a, b - 1, t) + RefundBit(states[b - 1], acts[b - 1], states[b], t)
  }

  function Fails(states: seq<State>, acts: seq<Act>, a: nat, b: nat): nat
    requires |states| == |acts| + 1 && a <= b <= |acts|
    decreases b
  {
    if a == b then 0 else Fails(states, acts, a, b - 1) + FailBit(states[b - 1], acts[b - 1])
  }

  // ---- from the queue and back ----

  /** How far the master is with m: created says whether it has added a node, pid is that node's pid. */
  ghost predicate Stage(master: MasterPhase, m: Message, created: bool, pid: int, fails: nat, refunds: nat,
                        sends: int -> nat) {
    match master
    case MHold(x) => x == m && !created && fails == refunds == 0 && forall p :: sends(p) == 0
    case MForward(x, to) => x == m && created && to == pid && fails == refunds == 0 && forall p :: sends(p) == 0
    case MReject(x) => x == m && fails == (if created then 1 else 0) && refunds == 0 && forall p :: sends(p) == 0
    case MIdle =>
      && (created || fails == 0) && fails <= 1
      && refunds == (if created && fails == 0 then 0 else 1)
      && forall p :: sends(p) == if created && fails == 0 && p == pid then 1 else 0
  }

  ghost predicate Underway(states: seq<State>, acts: seq<Act>, a: nat, k: nat, m: Message, n: nat)
    requires |states| == |acts| + 1 && a <= k <= |acts|
  {
    && n <= |states[k].nodes| <= n + 1
    && Stage(states[k].master, m, |states[k].nodes| == n + 1,
             if |states[k].nodes| == n + 1 then states[k].nodes[n].pid else 0,
             Fails(states, acts, a, k), Refunds(states, acts, a, k, m.trans),
             (pid: int) => Sends(states, acts, a, k, pid, m.trans))
  }

  lemma StepStage(cfg: Config, s: State, a: Act, s': State, m: Message, n: nat, fails: nat, refunds: nat,
                  sends: int -> nat, sends': int -> nat)
    requires Inv(cfg, s) && Next(cfg, s, a, s') && PidsDistinct(s) && n <= |s.nodes| <= n + 1 && !s.master.MIdle?
    requires Stage(s.master, m, |s.nodes| == n + 1, if |s.nodes| == n + 1 then s.nodes[n].pid else 0,
                   fails, refunds, sends)
    requires forall p :: sends'(p) == sends(p) + SendBit(s, a, s', p, m.trans)
    ensures n <= |s'.nodes| <= n + 1
    ensures Stage(s'.master, m, |s'.nodes| == n + 1, if |s'.nodes| == n + 1 then s'.nodes[n].pid else 0,
                  fails + FailBit(s, a), refunds + RefundBit(s, a, s', m.trans), sends')
  {
    hide Inv, Next, PidsDistinct, MasterSends, PaysBack;
    MasterSteps(cfg, s, a, s');
    StepPids(cfg, s, a, s');
    OneEvent(s, s', m.trans);
  }

  /** A step sends to one pid at most, and sends, refunds or leaves the queues. */
  lemma OneEvent(s: State, s': State, t: Transaction)
    ensures forall p, q :: MasterSends(s, s', p, t) && MasterSends(s, s', q, t) ==> p == q
    ensures PaysBack(s, s', t) ==> forall p :: !MasterSends(s, s', p, t)
    ensures SameQueues(s, s') ==> !PaysBack(s, s', t) && forall p :: !MasterSends(s, s', p, t)
  {
    forall p, q | MasterSends(s, s', p, t) && MasterSends(s, s', q, t) ensures p == q {
      assert s'.priority[|s.priority|] == Message(p, 0, t);
    }
  }

  lemma {:induction false} StaysUnderway(cfg: Config, states: seq<State>, acts: seq<Act>, a: nat, k: nat, m: Message)
    requires Run(cfg, states, acts) && a < k <= |acts| && acts[a].ByMaster? && states[a].master == MIdle
    requires states[a + 1].master == MHold(m) && SameButTaken(states[a], states[a + 1])
    requires forall j :: a < j < k ==> states[j].master != MIdle
    ensures Underway(states, acts, a, k, m, |states[a].nodes|)
    decreases k
  {
    hide Inv, Next, Initial, PidsDistinct, Stage, SendBit, RefundBit, FailBit;
    var n := |states[a].nodes|;
    if k == a + 1 {
      StartsUnderway(states, acts, a, m);
    } else {
      StaysUnderway(cfg, states, acts, a, k - 1, m);
      RunInv(cfg, states, acts, k - 1);
      RunPids(cfg, states, acts, k - 1);
      assert Next(cfg, states[k - 1], acts[k - 1], states[k - 1 + 1]);
      StepStage(cfg, states[k - 1], acts[k - 1], states[k], m, n,
                Fails(states, acts, a, k - 1), Refunds(states, acts, a, k - 1, m.trans),
                (pid: int) => Sends(states, acts, a, k - 1, pid, m.trans),
                (pid: int) => Sends(states, acts, a, k, pid, m.trans));
    }
  }

  /** The step that takes a message leaves the nodes and the refunds, and adds to no queue. */
  predicate SameButTaken(s: State, s': State) {
    s'.nodes == s.nodes && s'.refunds == s.refunds && |s'.priority| < |s.priority|
  }

  lemma StartsUnderway(states: seq<State>, acts: seq<Act>, a: nat, m: Message)
    requires |states| == |acts| + 1 && a < |acts| && states[a].master == MIdle
    requires states[a + 1].master == MHold(m) && SameButTaken(states[a], states[a + 1])
    ensures Underway(states, acts, a, a + 1, m, |states[a].nodes|)
  {
    var s, s', k := states[a], states[a + 1], a + 1;
    assert RefundBit(s, acts[a], s', m.trans) == 0 && FailBit(s, acts[a]) == 0;
    assert Refunds(states, acts, a, a, m.trans) == 0 && Fails(states, acts, a, a) == 0;
    forall pid ensures Sends(states, acts, a, k, pid, m.trans) == 0 {
      assert SendBit(s, acts[a], s', pid, m.trans) == 0 && Sends(states, acts, a, a, pid, m.trans) == 0;
    }
  }

  /**
   In every run, between the step in which the master takes a message and its return to the queue,
   whatever the others do: it adds at most one node; if it adds one and its send succeeds, it sends the
   transaction, with no hops, to that node and to nobody else, once, and refunds nothing; otherwise it
   sends it to nobody and refunds it once to its sender, or fails to.
   */
  lemma MasterSettlesOnce(cfg: Config, states: seq<State>, acts: seq<Act>, a: nat, b: nat)
    requires Run(cfg, states, acts) && a < b <= |acts| && acts[a].ByMaster? && states[a].master == MIdle
    requires states[b].master == MIdle && forall k :: a < k < b ==> states[k].master != MIdle
    ensures acts[a].mc.k < |states[a].priority| && states[a].priority[acts[a].mc.k].to == states[a].masterPid
    ensures |states[a].nodes| <= |states[b].nodes| <= |states[a].nodes| + 1
    ensures var t, n := states[a].priority[acts[a].mc.k].trans, |states[a].nodes|;
            var served := |states[b].nodes| == n + 1 && Fails(states, acts, a, b) == 0;
            && Refunds(states, acts, a, b, t) == (if served then 0 else 1)
            && forall pid :: Sends(states, acts, a, b, pid, t)
                             == if served && pid == states[b].nodes[n].pid then 1 else 0
  {
    hide Inv, Next, Initial, Sends, Refunds, Fails;
    RunInv(cfg, states, acts, a);
    assert Next(cfg, states[a], acts[a], states[a + 1]);
    MasterSteps(cfg, states[a], acts[a], states[a + 1]);
    var m := states[a].priority[acts[a].mc.k];
    StaysUnderway(cfg, states, acts, a, b, m);
    var f := (p: int) => Sends(states, acts, a, b, p, m.trans);
    assert forall pid :: Sends(states, acts, a, b, pid, m.trans) == f(pid);
  }
}
