/** Pools and nodes in every run of the simulation. */
module SystemRuns {
  import opened Common
  import opened System
  import opened SystemMoney
  import C = Cyclic
  import P = Pool
  import L = Ledger

  // ---- pools ----

  /** In every state of every run a node's counter is the number of its used slots, within the pool size. */
  lemma PoolsAgree(cfg: Config, states: seq<State>, acts: seq<Act>, k: nat, i: nat)
    requires Run(cfg, states, acts) && k <= |acts| && i < |states[k].nodes|
    ensures var p := states[k].nodes[i].pool;
            && |p.slots| == cfg.tpSize && p.size == P.UsedCount(p.slots) && 0 <= p.size <= cfg.tpSize
    ensures var n := states[k].nodes[i];
            && (n.phase.NExtract? ==> n.phase.at < cfg.tpSize && n.pool.slots[n.phase.at].used)
            && (n.phase.NBuilt? ==> P.PicksOk(n.pool.slots, n.phase.picks))
  {
    hide Initial, Next, IdsOk, L.LedgerOk, P.UsedCount;
    RunInv(cfg, states, acts, k);
    assert NodeOk(cfg, states[k].nodes[i]);
    P.SizeMeans(states[k].nodes[i].pool, cfg.tpSize);
  }

  // ---- one node over a run ----

  lemma StepSameNode(cfg: Config, s: State, a: Act, s': State, i: nat)
    requires Inv(cfg, s) && Next(cfg, s, a, s') && i < |s.nodes|
    ensures i < |s'.nodes|
    ensures if a.ByNode? && a.n == i then s'.nodes[i] == NodeNext(cfg, s, s.nodes[i], a.c)
            else s'.nodes[i] == s.nodes[i]
  {
    hide NodeOk, NodeCan, NodeNext, NodeEffect, UserNext, L.LedgerOk, IdsOk, FreshNode, FreshPid;
    match a
    case ByNode(k, c) => NodeStepLedger(cfg, s, k, c);
    case ByUser(u, ua) => UserEffectKinds(cfg, s, s.users[u], ua);
    case ByMaster(c) =>
  }

  /** Between a and b node i does nothing. */
  predicate Idle(acts: seq<Act>, a: nat, b: nat, i: nat) {
    forall k :: a < k < b && k < |acts| ==> !(acts[k].ByNode? && acts[k].n == i)
  }

  lemma {:induction false} NodeWhileIdle(cfg: Config, states: seq<State>, acts: seq<Act>, a: nat, b: nat, i: nat)
    requires Run(cfg, states, acts) && a + 1 <= b <= |acts| && Idle(acts, a, b, i) && i < |states[a + 1].nodes|
    ensures i < |states[b].nodes| && states[b].nodes[i] == states[a + 1].nodes[i]
    decreases b
  {
    hide Inv, Next, Initial;
    if a + 1 < b {
      NodeWhileIdle(cfg, states, acts, a, b - 1, i);
      RunInv(cfg, states, acts, b - 1);
      assert Next(cfg, states[b - 1], acts[b - 1], states[b - 1 + 1]);
      StepSameNode(cfg, states[b - 1], acts[b - 1], states[b], i);
    }
  }

  // ---- the number of nodes ----

  predicate PidsDistinct(s: State) {
    forall i, j :: 0 <= i < j < |s.nodes| ==> s.nodes[i].pid != s.nodes[j].pid
  }

  lemma StepPids(cfg: Config, s: State, a: Act, s': State)
    requires Next(cfg, s, a, s') && Inv(cfg, s) && PidsDistinct(s)
    ensures PidsDistinct(s') && |s.nodes| <= |s'.nodes|
    ensures forall i :: 0 <= i < |s.nodes| ==> s'.nodes[i].pid == s.nodes[i].pid
    ensures |s'.nodes| > |s.nodes| ==> a.ByMaster? && Creates(cfg, s, a.mc)
                                       && s'.nodes == s.nodes + [FreshNode(cfg, a.mc.pid, a.mc.friends, NFresh)]
  {
    hide NodeOk, NodeCan, NodeEffect, UserNext, L.LedgerOk, IdsOk, FreshNode, P.Deposit, P.Clear, P.RewardSum,
         P.BlockPicks, P.Next, L.RewardBy;
    match a
    case ByNode(i, c) =>
      assert NodeOk(cfg, s.nodes[i]);
      SamePid(cfg, s, s.nodes[i], c);
      NodeStepLedger(cfg, s, i, c);
    case ByUser(u, ua) => UserEffectKinds(cfg, s, s.users[u], ua);
    case ByMaster(c) => FreshPidOf(cfg, c.pid, c.friends);
  }

  lemma SamePid(cfg: Config, s: State, n: Node, c: Choice)
    requires NodeCan(s, n, c) && NodeOk(cfg, n)
    ensures NodeNext(cfg, s, n, c).pid == n.pid
  {
    hide P.Deposit, P.Clear, P.RewardSum, P.BlockPicks, P.Next, P.UsedCount, C.Distinct;
  }

  lemma FreshPidOf(cfg: Config, pid: int, friends: seq<int>)
    ensures FreshNode(cfg, pid, friends, NFresh).pid == pid
  {
  }

  lemma InitialPids(cfg: Config, s: State)
    requires Initial(cfg, s)
    ensures PidsDistinct(s)
  {
  }

  lemma {:induction false} RunPids(cfg: Config, states: seq<State>, acts: seq<Act>, k: nat)
    requires Run(cfg, states, acts) && k <= |acts|
    ensures PidsDistinct(states[k])
  {
    hide Next, Inv, PidsDistinct, Initial;
    if k == 0 {
      InitialPids(cfg, states[0]);
    } else {
      RunPids(cfg, states, acts, k - 1);
      RunInv(cfg, states, acts, k - 1);
      assert Next(cfg, states[k - 1], acts[k - 1], states[k - 1 + 1]);
      StepPids(cfg, states[k - 1], acts[k - 1], states[k]);
    }
  }

  /** Dynamic creation stops at max_nodes. */
  lemma {:induction false} NodeCount(cfg: Config, states: seq<State>, acts: seq<Act>, k: nat)
    requires Run(cfg, states, acts) && k <= |acts|
    requires cfg.maxNodes == 4 * |states[0].nodes|
    ensures |states[0].nodes| <= |states[k].nodes| <= 4 * |states[0].nodes|
  {
    hide Inv, Next, PidsDistinct, Initial;
    if k > 0 {
      NodeCount(cfg, states, acts, k - 1);
      RunInv(cfg, states, acts, k - 1);
      RunPids(cfg, states, acts, k - 1);
      assert Next(cfg, states[k - 1], acts[k - 1], states[k - 1 + 1]);
      StepPids(cfg, states[k - 1], acts[k - 1], states[k]);
    }
  }

  // ---- no starvation in the pool ----

  /** Searches of the pool that node i makes in this step. */
  function PicksMade(s: State, a: Act, i: nat): nat {
    if a.ByNode? && a.n == i && i < |s.nodes| then
      var n := s.nodes[i];
      if n.phase.NCron? && n.pool.size > 0 then 1
      else if n.phase.NId? && n.phase.id <= REGISTRY_SIZE then BLOCK_TRANS
      else 0
    else 0
  }

  /** One of these searches takes slot j. */
  predicate Takes(n: Node, n': Node, j: nat) {
    || (n.phase.NCron? && n'.phase.NExtract? && n'.phase.at == j)
    || (n.phase.NId? && n'.phase.NBuilt? && j in n'.phase.picks)
  }

  function Wait(cfg: Config, n: Node, j: nat): nat
    requires j < cfg.tpSize && -1 <= n.pool.cursor < cfg.tpSize
  {
    C.Dist(cfg.tpSize, n.pool.cursor + 1, j)
  }

  lemma NodeWaits(cfg: Config, s: State, n: Node, c: Choice, i: nat, j: nat)
    requires NodeCan(s, n, c) && NodeOk(cfg, n) && j < cfg.tpSize && n.pool.slots[j].used
    requires i < |s.nodes| && s.nodes[i] == n
    requires !Takes(n, NodeNext(cfg, s, n, c), j)
    ensures var n' := NodeNext(cfg, s, n, c);
            -1 <= n'.pool.cursor < cfg.tpSize && Wait(cfg, n', j) + PicksMade(s, ByNode(i, c), i) <= Wait(cfg, n, j)
  {
    hide P.Deposit, P.UsedCount, P.RewardSum, P.Clear, C.Distinct, C.Find, C.Picks, P.Next, P.BlockPicks, C.Dist;
    if n.phase.NCron? {
      CronCloser(cfg, n.pool, j);
    } else if n.phase.NId? {
      BuildCloser(cfg, n.pool, j);
    } else if n.phase.NRoute? {
      P.DepositSpec(n.pool, cfg.tpSize, n.phase.msg.trans);
    } else if n.phase.NFresh? {
      P.DepositSpec(n.pool, cfg.tpSize, s.priority[c.k].trans);
    }
  }

  lemma CronCloser(cfg: Config, p: P.Pool, j: nat)
    requires P.PoolOk(p, cfg.tpSize) && j < cfg.tpSize && p.slots[j].used
    ensures 0 <= P.Next(p) < cfg.tpSize
    ensures P.Next(p) == j || C.Dist(cfg.tpSize, P.Next(p) + 1, j) < C.Dist(cfg.tpSize, p.cursor + 1, j)
  {
    hide P.UsedCount, C.Find;
    C.FindCloser(P.Marks(p.slots), p.cursor, j);
  }

  lemma BuildCloser(cfg: Config, p: P.Pool, j: nat)
    requires P.PoolOk(p, cfg.tpSize) && j < cfg.tpSize && p.slots[j].used && p.size >= BLOCK_TRANS
    ensures P.PicksOk(p.slots, P.BlockPicks(p))
    ensures var last := P.BlockPicks(p)[BLOCK_TRANS - 1];
            && 0 <= last < cfg.tpSize
            && (j !in P.BlockPicks(p) ==>
                  C.Dist(cfg.tpSize, last + 1, j) + BLOCK_TRANS <= C.Dist(cfg.tpSize, p.cursor + 1, j))
  {
    hide P.UsedCount, C.Find, C.Picks, C.Dist, C.Distinct;
    P.BlockPicksSpec(p, cfg.tpSize);
    if j !in P.BlockPicks(p) {
      C.PicksCloser(P.Marks(p.slots), p.cursor, BLOCK_TRANS, j);
    }
  }

  function PicksBetween(states: seq<State>, acts: seq<Act>, a: nat, b: nat, i: nat): nat
    requires |states| == |acts| + 1 && a <= b <= |acts|
    decreases b
  {
    if a == b then 0 else PicksBetween(states, acts, a, b - 1, i) + PicksMade(states[b - 1], acts[b - 1], i)
  }

  /** Slot j of node i stays used from state a to state b, and no step in between takes it. */
  predicate Overlooked(cfg: Config, states: seq<State>, a: nat, b: nat, i: nat, j: nat) {
    && a <= b < |states| && j < cfg.tpSize
    && (forall k :: a <= k <= b ==> i < |states[k].nodes| && j < |states[k].nodes[i].pool.slots|
                                    && states[k].nodes[i].pool.slots[j].used)
    && forall k :: a < k <= b ==> !Takes(states[k - 1].nodes[i], states[k].nodes[i], j)
  }

  /**
   No transaction starves: in every run, through deposits, extractions and blocks alike, a slot that
   stays used is overlooked by fewer than SO_TP_SIZE searches in a row.
   */
  lemma NoSlotStarves(cfg: Config, states: seq<State>, acts: seq<Act>, a: nat, b: nat, i: nat, j: nat)
    requires Run(cfg, states, acts) && Overlooked(cfg, states, a, b, i, j)
    ensures PicksBetween(states, acts, a, b, i) < cfg.tpSize
  {
    hide Inv, Next, Initial, PicksBetween;
    WaitBound(cfg, states, acts, a, b, i, j);
  }

  lemma {:induction false} WaitBound(cfg: Config, states: seq<State>, acts: seq<Act>, a: nat, b: nat, i: nat, j: nat)
    requires Run(cfg, states, acts) && Overlooked(cfg, states, a, b, i, j)
    ensures -1 <= states[a].nodes[i].pool.cursor < cfg.tpSize && -1 <= states[b].nodes[i].pool.cursor < cfg.tpSize
    ensures Wait(cfg, states[b].nodes[i], j) + PicksBetween(states, acts, a, b, i) <= Wait(cfg, states[a].nodes[i], j)
    decreases b
  {
    hide Next, Initial, Takes, PicksMade, Wait, PhaseOk, IdsOk, L.LedgerOk, P.UsedCount;
    RunInv(cfg, states, acts, b);
    assert NodeOk(cfg, states[b].nodes[i]);
    if a < b {
      WaitBound(cfg, states, acts, a, b - 1, i, j);
      RunInv(cfg, states, acts, b - 1);
      assert Next(cfg, states[b - 1], acts[b - 1], states[b - 1 + 1]);
      StepWaits(cfg, states[b - 1], acts[b - 1], states[b], i, j);
    }
  }

  lemma StepWaits(cfg: Config, s: State, a: Act, s': State, i: nat, j: nat)
    requires Inv(cfg, s) && Next(cfg, s, a, s') && i < |s.nodes| && j < cfg.tpSize
    requires NodeOk(cfg, s.nodes[i]) && s.nodes[i].pool.slots[j].used
    requires i < |s'.nodes| && !Takes(s.nodes[i], s'.nodes[i], j)
    ensures -1 <= s'.nodes[i].pool.cursor < cfg.tpSize
    ensures Wait(cfg, s'.nodes[i], j) + PicksMade(s, a, i) <= Wait(cfg, s.nodes[i], j)
  {
    hide NodeNext, NodeCan, NodeEffect, UserCan, MasterCan, Takes, Wait, Apply, EffectCan, PhaseOk, IdsOk,
         L.LedgerOk, P.UsedCount;
    StepSameNode(cfg, s, a, s', i);
    if a.ByNode? && a.n == i {
      NodeWaits(cfg, s, s.nodes[i], a.c, i, j);
    }
  }
}
