/** Every node's budget against its reward entries in the ledger, in every run. */
module SystemBooks {
  import opened Common
  import opened Sums
  import opened System
  import opened SystemMoney
  import opened SystemRuns
  import opened SystemLedger
  import C = Cyclic
  import P = Pool
  import L = Ledger
  import T = SystemTrans

  /** Rewards of a recorded block that clear_block has not yet credited. */
  function PendingReward(n: Node): int {
    if n.phase.NRecorded? && P.InPool(n.pool.slots, n.phase.picks) then P.RewardSum(n.pool.slots, n.phase.picks) else 0
  }

  /** Budget and uncredited rewards, beyond the node's reward entries in the ledger. */
  function Excess(s: State, n: Node): int {
    n.budget + PendingReward(n) - L.LedgerRewards(s.ledger, n.pid)
  }

  /** Node i clears a block the ledger has refused. */
  predicate ClearsRefused(s: State, a: Act, i: nat) {
    a.ByNode? && a.n == i && i < |s.nodes| && s.nodes[i].phase.NRefused?
  }

  /** The acting node's own step, on its own books. */
  lemma ActorExcess(cfg: Config, s: State, i: nat, c: Choice, s': State)
    requires Inv(cfg, s) && Next(cfg, s, ByNode(i, c), s')
    ensures i < |s'.nodes| && Excess(s', s'.nodes[i]) == Excess(s, s.nodes[i])
              + (if s.nodes[i].phase.NRefused? then P.RewardSum(s.nodes[i].pool.slots, s.nodes[i].phase.picks) else 0)
  {
    hide NodeOk, NodeCan, NodeNext, NodeEffect, L.LedgerOk, IdsOk, L.AddBlock, L.RewardBy, SumOf, P.RewardSum,
         PendingReward;
    var n, e := s.nodes[i], NodeEffect(cfg, s, s.nodes[i], c);
    assert NodeOk(cfg, n);
    NodeStepLedger(cfg, s, i, c);
    NodeBooks(cfg, s, n, c);
    assert s'.nodes[i] == NodeNext(cfg, s, n, c);
    if e.Write? {
      L.AddBlockMoney(s.ledger, e.b, n.pid);
      WrittenReward(cfg, s, n, c);
    }
  }

  lemma WrittenReward(cfg: Config, s: State, n: Node, c: Choice)
    requires NodeCan(s, n, c) && NodeOk(cfg, n) && NodeEffect(cfg, s, n, c).Write?
    ensures n.phase.NBuilt?
    ensures L.RewardBy(NodeEffect(cfg, s, n, c).b, n.pid) == P.RewardSum(n.pool.slots, n.phase.picks)
    ensures forall pid :: pid != n.pid ==> L.RewardBy(NodeEffect(cfg, s, n, c).b, pid) == 0
  {
    hide NodeEffect, P.RewardSum, P.PoolOk, C.Distinct;
    WrittenBlock(cfg, s, n, c);
  }

  /** Budget and uncredited rewards grow by the rewards exactly when a block is written or a refused one cleared. */
  lemma NodeBooks(cfg: Config, s: State, n: Node, c: Choice)
    requires NodeCan(s, n, c) && NodeOk(cfg, n)
    ensures var n', e := NodeNext(cfg, s, n, c), NodeEffect(cfg, s, n, c);
            && n'.pid == n.pid
            && (e.Write? ==> n.phase.NBuilt?)
            && n'.budget + PendingReward(n') == n.budget + PendingReward(n)
                 + (if e.Write? then P.RewardSum(n.pool.slots, n.phase.picks) else 0)
                 + (if n.phase.NRefused? then P.RewardSum(n.pool.slots, n.phase.picks) else 0)
  {
    hide P.Deposit, P.UsedCount, P.BlockPicks, P.RewardSum, P.Clear, P.Next, C.Distinct, L.BlockOf;
  }

  /** Every other node's books are unchanged. */
  lemma OtherExcess(cfg: Config, s: State, a: Act, s': State, j: nat)
    requires Inv(cfg, s) && Next(cfg, s, a, s') && PidsDistinct(s) && j < |s.nodes|
    requires !(a.ByNode? && a.n == j)
    ensures j < |s'.nodes| && Excess(s', s'.nodes[j]) == Excess(s, s.nodes[j])
  {
    hide NodeOk, NodeCan, NodeNext, NodeEffect, UserNext, L.LedgerOk, IdsOk, L.AddBlock, L.RewardBy, P.RewardSum,
         PendingReward, FreshNode, FreshPid, SumOf;
    match a
    case ByNode(i, c) =>
      assert NodeOk(cfg, s.nodes[i]);
      var e := NodeEffect(cfg, s, s.nodes[i], c);
      NodeStepLedger(cfg, s, i, c);
      if e.Write? {
        L.AddBlockMoney(s.ledger, e.b, s.nodes[j].pid);
        WrittenReward(cfg, s, s.nodes[i], c);
      }
    case ByUser(u, ua) => UserEffectKinds(cfg, s, s.users[u], ua);
    case ByMaster(c) =>
  }

  lemma FreshExcess(cfg: Config, s: State, pid: int, friends: seq<int>, phase: NodePhase)
    requires forall i :: 0 <= i < |s.ledger.blocks| ==> L.RewardBy(s.ledger.blocks[i], pid) == 0
    requires phase.NFresh? || phase.NPoll?
    ensures Excess(s, FreshNode(cfg, pid, friends, phase)) == 0
  {
    hide L.RewardBy;
    ZeroSum(s.ledger.blocks, L.RewardByFn(pid));
  }

  lemma SameLedger(cfg: Config, s: State, c: Choice, s': State)
    requires Next(cfg, s, ByMaster(c), s')
    ensures s'.ledger == s.ledger
  {
    hide FreshPid, FreshNode;
  }

  // ---- what clearing a refused block adds ----

  /** Rewards that node i credits to itself in this step by clearing a block the ledger has refused. */
  function RefusedClear(s: State, a: Act, i: nat): int {
    if ClearsRefused(s, a, i) && P.InPool(s.nodes[i].pool.slots, s.nodes[i].phase.picks)
    then P.RewardSum(s.nodes[i].pool.slots, s.nodes[i].phase.picks) else 0
  }

  /** And in the first k steps of a run. */
  function RefusedRewards(states: seq<State>, acts: seq<Act>, k: nat, i: nat): int
    requires |states| == |acts| + 1 && k <= |acts|
  {
    if k == 0 then 0 else RefusedRewards(states, acts, k - 1, i) + RefusedClear(states[k - 1], acts[k - 1], i)
  }

  /** Every reward entry was written by some node. */
  predicate RewardSenders(s: State) {
    forall i :: i in s.ledger.written && 0 <= i < |s.ledger.blocks| ==> SentByNode(s, s.ledger.blocks[i])
  }

  predicate SentByNode(s: State, b: L.Block) {
    |b.trans| == BLOCK_SIZE && exists j :: 0 <= j < |s.nodes| && s.nodes[j].pid == b.trans[BLOCK_TRANS].sender
  }

  lemma SameSenders(s: State, s': State, b: L.Block)
    requires SentByNode(s, b) && |s.nodes| <= |s'.nodes|
    requires forall i :: 0 <= i < |s.nodes| ==> s'.nodes[i].pid == s.nodes[i].pid
    ensures SentByNode(s', b)
  {
    var j :| 0 <= j < |s.nodes| && s.nodes[j].pid == b.trans[BLOCK_TRANS].sender;
    assert s'.nodes[j].pid == b.trans[BLOCK_TRANS].sender;
  }

  lemma NodeWrites(cfg: Config, s: State, i: nat, c: Choice, s': State)
    requires Inv(cfg, s) && Next(cfg, s, ByNode(i, c), s')
    ensures || (s'.ledger.blocks == s.ledger.blocks && s'.ledger.written == s.ledger.written)
            || exists b :: && SentByNode(s, b) && 0 <= b.id < |s.ledger.blocks|
                           && s'.ledger.written == s.ledger.written + {b.id}
                           && s'.ledger.blocks == s.ledger.blocks[b.id := b]
  {
    hide NodeOk, NodeCan, NodeNext, NodeEffect, L.LedgerOk, IdsOk, SoundBlock;
    var n, e := s.nodes[i], NodeEffect(cfg, s, s.nodes[i], c);
    assert NodeOk(cfg, n);
    NodeStepLedger(cfg, s, i, c);
    if e.Write? {
      WrittenBlock(cfg, s, n, c);
      assert SentByNode(s, e.b);
    }
  }

  lemma StepSenders(cfg: Config, s: State, a: Act, s': State)
    requires Inv(cfg, s) && Next(cfg, s, a, s') && PidsDistinct(s) && RewardSenders(s)
    ensures RewardSenders(s')
  {
    hide Inv, Next, PidsDistinct, SentByNode;
    StepPids(cfg, s, a, s');
    if a.ByNode? {
      NodeWrites(cfg, s, a.n, a.c, s');
    } else {
      OthersWriteNothing(cfg, s, a, s');
    }
    forall i | i in s'.ledger.written && 0 <= i < |s'.ledger.blocks| ensures SentByNode(s', s'.ledger.blocks[i]) {
      SameSenders(s, s', s'.ledger.blocks[i]);
    }
  }

  lemma OthersWriteNothing(cfg: Config, s: State, a: Act, s': State)
    requires Next(cfg, s, a, s') && !a.ByNode?
    ensures s'.ledger == s.ledger
  {
    hide FreshPid, FreshNode, UserNext, UserCan;
    match a
    case ByUser(u, ua) => UserEffectKinds(cfg, s, s.users[u], ua);
    case ByMaster(c) => SameLedger(cfg, s, c, s');
  }

  lemma NothingSent(cfg: Config, s: State)
    requires Initial(cfg, s)
    ensures RewardSenders(s)
  {
  }

  lemma {:induction false} RunSenders(cfg: Config, states: seq<State>, acts: seq<Act>, k: nat)
    requires Run(cfg, states, acts) && k <= |acts|
    ensures RewardSenders(states[k])
  {
    hide Next, Inv, PidsDistinct, Initial, RewardSenders;
    if k == 0 {
      NothingSent(cfg, states[0]);
    } else {
      RunSenders(cfg, states, acts, k - 1);
      RunPids(cfg, states, acts, k - 1);
      RunInv(cfg, states, acts, k - 1);
      assert Next(cfg, states[k - 1], acts[k - 1], states[k - 1 + 1]);
      StepSenders(cfg, states[k - 1], acts[k - 1], states[k]);
    }
  }

  /** So a pid that no node has is the sender of none. */
  lemma FreshMeans(s: State, pid: int)
    requires L.LedgerOk(s.ledger) && RewardSenders(s) && FreshPid(s, pid)
    ensures forall i :: 0 <= i < |s.ledger.blocks| ==> L.RewardBy(s.ledger.blocks[i], pid) == 0
  {
    forall i | 0 <= i < |s.ledger.blocks| ensures L.RewardBy(s.ledger.blocks[i], pid) == 0 {
      if i in s.ledger.written { assert SentByNode(s, s.ledger.blocks[i]); } else { L.ZeroBlockMoney(pid); }
    }
  }

  lemma StepExcess(cfg: Config, s: State, a: Act, s': State, j: nat)
    requires Inv(cfg, s) && Next(cfg, s, a, s') && PidsDistinct(s) && RewardSenders(s) && j < |s'.nodes|
    ensures j < |s.nodes| ==> Excess(s', s'.nodes[j]) == Excess(s, s.nodes[j]) + RefusedClear(s, a, j)
    ensures j >= |s.nodes| ==> Excess(s', s'.nodes[j]) == 0
  {
    hide NodeCan, NodeNext, NodeEffect, UserNext, UserEffect, MasterNext, MasterEffect, ApplyEffect, EffectCan,
         L.LedgerOk, IdsOk, FreshNode, FreshPid, Excess, P.RewardSum, P.PoolOk, C.Distinct, RewardSenders;
    if j >= |s.nodes| {
      StepPids(cfg, s, a, s');
      SameLedger(cfg, s, a.mc, s');
      assert FreshPid(s, a.mc.pid);
      FreshMeans(s, a.mc.pid);
      FreshExcess(cfg, s', a.mc.pid, a.mc.friends, NFresh);
    } else if a.ByNode? && a.n == j {
      assert NodeOk(cfg, s.nodes[j]);
      ActorExcess(cfg, s, j, a.c, s');
    } else {
      OtherExcess(cfg, s, a, s', j);
    }
  }

  lemma InitialExcess(cfg: Config, s: State, i: nat)
    requires Initial(cfg, s) && i < |s.nodes|
    ensures Excess(s, s.nodes[i]) == 0
  {
    hide Excess, FreshNode, P.EmptySlots;
    L.ZeroBlockMoney(s.nodes[i].pid);
    FreshExcess(cfg, s, s.nodes[i].pid, s.nodes[i].friends, NPoll);
  }

  lemma {:induction false} RunBooks(cfg: Config, states: seq<State>, acts: seq<Act>, k: nat, i: nat)
    requires Run(cfg, states, acts) && k <= |acts|
    ensures RefusedRewards(states, acts, k, i) == if i < |states[k].nodes|
            then Excess(states[k], states[k].nodes[i]) else 0
  {
    hide Next, Inv, PidsDistinct, Initial, Excess, P.RewardSum, RewardSenders;
    if k == 0 {
      if i < |states[0].nodes| { InitialExcess(cfg, states[0], i); }
    } else {
      RunBooks(cfg, states, acts, k - 1, i);
      RunPids(cfg, states, acts, k - 1);
      RunSenders(cfg, states, acts, k - 1);
      RunInv(cfg, states, acts, k - 1);
      assert Next(cfg, states[k - 1], acts[k - 1], states[k - 1 + 1]);
      StepPids(cfg, states[k - 1], acts[k - 1], states[k]);
      if i < |states[k].nodes| { StepExcess(cfg, states[k - 1], acts[k - 1], states[k], i); }
    }
  }

  /**
   In every state of every run a node's budget, with the rewards of a recorded block not yet cleared,
   is the sum of its reward entries in the ledger plus exactly what it has credited to itself for
   refused blocks.
   */
  lemma NodeBudgets(cfg: Config, states: seq<State>, acts: seq<Act>, k: nat, i: nat)
    requires Run(cfg, states, acts) && k <= |acts| && i < |states[k].nodes|
    ensures states[k].nodes[i].budget + PendingReward(states[k].nodes[i])
            == L.LedgerRewards(states[k].ledger, states[k].nodes[i].pid) + RefusedRewards(states, acts, k, i)
  {
    hide PendingReward, L.LedgerRewards, Next, Initial, RefusedRewards;
    RunBooks(cfg, states, acts, k, i);
  }

  lemma {:induction false} RewardsPositive(slots: seq<P.Slot>, picks: seq<int>)
    requires P.InPool(slots, picks) && forall i :: 0 <= i < |picks| ==> slots[picks[i]].trans.reward >= 1
    ensures P.RewardSum(slots, picks) >= |picks|
  {
    if picks != [] { RewardsPositive(slots, picks[..|picks| - 1]); }
  }

  lemma RefusedClearPositive(cfg: Config, s: State, a: Act, i: nat)
    requires Inv(cfg, s) && T.Everywhere(s, (t: Transaction) => t.reward >= 1) && ClearsRefused(s, a, i)
    ensures RefusedClear(s, a, i) >= BLOCK_TRANS
  {
    hide P.RewardSum, C.Distinct, P.PoolOk, L.LedgerOk, IdsOk, T.Queues, T.AtMaster, T.InLedger;
    var n := s.nodes[i];
    assert NodeOk(cfg, n) && T.AtNode(n, (t: Transaction) => t.reward >= 1);
    RewardsPositive(n.pool.slots, n.phase.picks);
  }

  lemma {:induction false} RefusedRewardsMean(cfg: Config, states: seq<State>, acts: seq<Act>, k: nat, i: nat)
    requires Run(cfg, states, acts) && k <= |acts|
    ensures RefusedRewards(states, acts, k, i) >= 0
    ensures RefusedRewards(states, acts, k, i) == 0
            <==> forall j :: 0 <= j < k ==> !ClearsRefused(states[j], acts[j], i)
  {
    hide Next, Inv, Initial, RefusedClear, ClearsRefused, T.Everywhere;
    if k > 0 {
      RefusedRewardsMean(cfg, states, acts, k - 1, i);
      RunInv(cfg, states, acts, k - 1);
      T.Rewarded(cfg, states, acts, k - 1);
      if ClearsRefused(states[k - 1], acts[k - 1], i) {
        RefusedClearPositive(cfg, states[k - 1], acts[k - 1], i);
      } else {
        NoRefusedClear(states[k - 1], acts[k - 1], i);
      }
    }
  }

  lemma NoRefusedClear(s: State, a: Act, i: nat)
    requires !ClearsRefused(s, a, i)
    ensures RefusedClear(s, a, i) == 0
  {
  }

  /** So a node's books balance exactly when it has cleared no refused block. */
  lemma BooksBalanceIff(cfg: Config, states: seq<State>, acts: seq<Act>, k: nat, i: nat)
    requires Run(cfg, states, acts) && k <= |acts| && i < |states[k].nodes|
    ensures states[k].nodes[i].budget + PendingReward(states[k].nodes[i])
            == L.LedgerRewards(states[k].ledger, states[k].nodes[i].pid)
            <==> forall j :: 0 <= j < k ==> !ClearsRefused(states[j], acts[j], i)
  {
    hide PendingReward, L.LedgerRewards, Next, Initial, RefusedRewards, ClearsRefused;
    NodeBudgets(cfg, states, acts, k, i);
    RefusedRewardsMean(cfg, states, acts, k, i);
  }
}
