/** The ledger in every run of the simulation. */
module SystemLedger {
  import opened Common
  import opened Sums
  import opened System
  import opened SystemMoney
  import opened SystemRuns
  import C = Cyclic
  import P = Pool
  import L = Ledger
  import S = SystemSafety
  import T = SystemTrans

  // ---- the flag ----

  /** This step is a call of add_block that sets reached_max_size. */
  predicate SetsFlag(s: State, a: Act, s': State) {
    && a.ByNode? && a.n < |s.nodes| && a.n < |s'.nodes|
    && s.nodes[a.n].phase.NBuilt? && s'.nodes[a.n].phase.NRecorded? && s'.nodes[a.n].phase.full
  }

  function FlagBit(s: State, a: Act, s': State): nat {
    if SetsFlag(s, a, s') then 1 else 0
  }

  function FlagsUpTo(states: seq<State>, acts: seq<Act>, k: nat): nat
    requires |states| == |acts| + 1 && k <= |acts|
  {
    if k == 0 then 0 else FlagsUpTo(states, acts, k - 1) + FlagBit(states[k - 1], acts[k - 1], states[k])
  }

  lemma NodeFlag(cfg: Config, s: State, i: nat, c: Choice, s': State)
    requires Inv(cfg, s) && Next(cfg, s, ByNode(i, c), s')
    ensures s'.ledger.signals == s.ledger.signals + FlagBit(s, ByNode(i, c), s')
  {
    hide P.Deposit, P.PoolOk, P.PicksOk, P.RewardSum, P.BlockPicks, P.Clear, P.Next, Forwarded, C.Distinct, IdsOk,
         L.LedgerOk, L.BlockOf;
    var n := s.nodes[i];
    assert s'.nodes[i] == NodeNext(cfg, s, n, c) by { NodeStepLedger(cfg, s, i, c); }
  }

  lemma StepFlag(cfg: Config, s: State, a: Act, s': State)
    requires Inv(cfg, s) && Next(cfg, s, a, s')
    ensures s'.ledger.signals == s.ledger.signals + FlagBit(s, a, s')
  {
    hide Inv, NodeOk, NodeCan, NodeNext, NodeEffect, UserNext, FreshPid, FlagBit;
    match a
    case ByNode(i, c) => NodeFlag(cfg, s, i, c, s');
    case ByUser(u, ua) => UserEffectKinds(cfg, s, s.users[u], ua); NoFlag(s, a, s');
    case ByMaster(c) => NoFlag(s, a, s');
  }

  lemma NoFlag(s: State, a: Act, s': State)
    requires !a.ByNode?
    ensures FlagBit(s, a, s') == 0
  {
  }

  lemma {:induction false} FlagsCounted(cfg: Config, states: seq<State>, acts: seq<Act>, k: nat)
    requires Run(cfg, states, acts) && k <= |acts|
    ensures states[k].ledger.signals == FlagsUpTo(states, acts, k)
  {
    hide Inv, Next, FlagBit;
    if k > 0 {
      FlagsCounted(cfg, states, acts, k - 1);
      RunInv(cfg, states, acts, k - 1);
      assert Next(cfg, states[k - 1], acts[k - 1], states[k - 1 + 1]);
      StepFlag(cfg, states[k - 1], acts[k - 1], states[k]);
    }
  }

  /**
   With add_block as one step, exactly one call in a run that fills the ledger sets
   reached_max_size, none before; and then every slot holds its own block.
   */
  lemma FilledOnce(cfg: Config, states: seq<State>, acts: seq<Act>, k: nat)
    requires Run(cfg, states, acts) && k <= |acts|
    ensures FlagsUpTo(states, acts, k) <= 1
    ensures FlagsUpTo(states, acts, k) == 1
            <==> forall i :: 0 <= i < |states[k].ledger.blocks| ==> i in states[k].ledger.written
    ensures FlagsUpTo(states, acts, k) == 1
            ==> forall i :: 0 <= i < |states[k].ledger.blocks| ==> states[k].ledger.blocks[i].id == i
  {
    hide Initial, Next, IdsOk, NodeOk, L.LedgerOk;
    RunInv(cfg, states, acts, k);
    FlagsCounted(cfg, states, acts, k);
    L.FullMeansAll(states[k].ledger);
  }

  // ---- what the ledger holds ----

  function RewardOf(t: Transaction): int {
    t.reward
  }

  /** The last entry of a block is paid to nobody and is the sum of the other 99 rewards. */
  predicate SoundBlock(b: L.Block) {
    && |b.trans| == BLOCK_SIZE
    && b.trans[BLOCK_TRANS].receiver == REWARD_PID && b.trans[BLOCK_TRANS].reward == 0
    && b.trans[BLOCK_TRANS].quantity == SumOf(b.trans[..BLOCK_TRANS], RewardOf)
  }

  predicate SoundBlocks(l: L.Ledger) {
    forall i :: i in l.written && 0 <= i < |l.blocks| ==> SoundBlock(l.blocks[i])
  }

  lemma {:induction false} BlockRewards(slots: seq<P.Slot>, picks: seq<int>, ts: seq<Transaction>)
    requires P.InPool(slots, picks) && |ts| == |picks|
    requires forall i :: 0 <= i < |ts| ==> ts[i] == slots[picks[i]].trans
    ensures SumOf(ts, RewardOf) == P.RewardSum(slots, picks)
  {
    if ts != [] {
      BlockRewards(slots, picks[..|picks| - 1], ts[..|ts| - 1]);
    }
  }

  /** What a node step writes is a sound block holding the node's own pool entries as they are. */
  lemma WrittenBlock(cfg: Config, s: State, n: Node, c: Choice)
    requires NodeCan(s, n, c) && NodeOk(cfg, n) && NodeEffect(cfg, s, n, c).Write?
    ensures var b := NodeEffect(cfg, s, n, c).b;
            && n.phase.NBuilt? && b.id == n.phase.id && SoundBlock(b) && b.trans[BLOCK_TRANS].sender == n.pid
            && b.trans[BLOCK_TRANS].quantity == P.RewardSum(n.pool.slots, n.phase.picks)
            && forall i :: 0 <= i < BLOCK_TRANS ==> b.trans[i] == n.pool.slots[n.phase.picks[i]].trans
  {
    hide P.Deposit, P.UsedCount, P.BlockPicks, P.RewardSum, C.Distinct, SumOf;
    assert n.phase.NBuilt?;
    var b := L.BlockOf(n.pool.slots, n.phase.id, n.phase.picks, RewardTrans(n, n.phase.rewards, c));
    BlockRewards(n.pool.slots, n.phase.picks, b.trans[..BLOCK_TRANS]);
  }

  lemma StepSoundBlocks(cfg: Config, s: State, a: Act, s': State)
    requires Inv(cfg, s) && Next(cfg, s, a, s') && SoundBlocks(s.ledger)
    ensures SoundBlocks(s'.ledger)
  {
    hide NodeOk, NodeCan, NodeNext, NodeEffect, UserNext, FreshPid, SoundBlock, IdsOk, L.LedgerOk;
    match a
    case ByNode(i, c) =>
      assert NodeOk(cfg, s.nodes[i]);
      NodeStepLedger(cfg, s, i, c);
      var e := NodeEffect(cfg, s, s.nodes[i], c);
      if e.Write? { WrittenBlock(cfg, s, s.nodes[i], c); }
    case ByUser(u, ua) => UserEffectKinds(cfg, s, s.users[u], ua);
    case ByMaster(c) =>
  }

  lemma NothingWritten(cfg: Config, s: State)
    requires Initial(cfg, s)
    ensures SoundBlocks(s.ledger)
  {
  }

  /** In every run every block in the ledger sits in the slot of its id and is sound. */
  lemma {:induction false} LedgerContents(cfg: Config, states: seq<State>, acts: seq<Act>, k: nat)
    requires Run(cfg, states, acts) && k <= |acts|
    ensures SoundBlocks(states[k].ledger)
    ensures forall i :: i in states[k].ledger.written ==>
                          0 <= i < |states[k].ledger.blocks| && states[k].ledger.blocks[i].id == i
  {
    hide Next, IdsOk, NodeOk, SoundBlocks;
    RunInv(cfg, states, acts, k);
    if k == 0 {
      NothingWritten(cfg, states[0]);
    } else {
      LedgerContents(cfg, states, acts, k - 1);
      RunInv(cfg, states, acts, k - 1);
      assert Next(cfg, states[k - 1], acts[k - 1], states[k - 1 + 1]);
      StepSoundBlocks(cfg, states[k - 1], acts[k - 1], states[k]);
    }
  }

  // ---- the reward entries are nobody's revenue ----

  /** The user entries of a slot. */
  function UserEntries(b: L.Block): seq<Transaction> {
    if |b.trans| == BLOCK_SIZE then b.trans[..BLOCK_TRANS] else b.trans
  }

  /** What the user entries of the first n slots pay to pid. */
  function EntriesPaid(blocks: seq<L.Block>, n: nat, pid: int): int
    requires n <= |blocks|
  {
    if n == 0 then 0 else EntriesPaid(blocks, n - 1, pid) + L.PaidIn(UserEntries(blocks[n - 1]), pid)
  }

  lemma SlotPays(l: L.Ledger, i: nat, pid: int)
    requires L.LedgerOk(l) && SoundBlocks(l) && i < |l.blocks| && pid != REWARD_PID
    ensures L.Paid(l.blocks[i], pid) == L.PaidIn(UserEntries(l.blocks[i]), pid)
  {
    hide L.PaidIn;
    var b := l.blocks[i];
    if i in l.written {
      LastEntryPays(b, pid);
    } else {
      L.PaidInZero(b.trans, pid);
      L.PaidInZero(UserEntries(b), pid);
    }
  }

  lemma LastEntryPays(b: L.Block, pid: int)
    requires SoundBlock(b) && pid != REWARD_PID
    ensures L.Paid(b, pid) == L.PaidIn(b.trans[..BLOCK_TRANS], pid)
  {
  }

  lemma {:induction false} EntriesOnly(l: L.Ledger, n: nat, pid: int)
    requires L.LedgerOk(l) && SoundBlocks(l) && n <= |l.blocks| && pid != REWARD_PID
    ensures L.RevenueUpTo(l.blocks, n, pid) == EntriesPaid(l.blocks, n, pid)
  {
    hide L.LedgerOk, SoundBlocks, L.Paid;
    if n > 0 {
      EntriesOnly(l, n - 1, pid);
      SlotPays(l, n - 1, pid);
    }
  }

  /** In every run the revenue of any process other than pid -1 comes from user entries alone. */
  lemma RewardIsNobodysRevenue(cfg: Config, states: seq<State>, acts: seq<Act>, k: nat, pid: int)
    requires Run(cfg, states, acts) && k <= |acts| && pid != REWARD_PID
    ensures var l := states[k].ledger;
            0 <= l.count <= |l.blocks| && L.Revenue(l, pid) == EntriesPaid(l.blocks, l.count, pid)
  {
    hide Initial, Next, IdsOk, NodeOk, SoundBlocks, EntriesPaid, L.RevenueUpTo;
    RunInv(cfg, states, acts, k);
    LedgerContents(cfg, states, acts, k);
    L.LedgerBounds(states[k].ledger);
    EntriesOnly(states[k].ledger, states[k].ledger.count, pid);
  }

  // ---- the revenues add up to what the counted blocks pay ----

  function RevenueFn(blocks: seq<L.Block>, n: nat): int -> int
    requires n <= |blocks|
  {
    (pid: int) => L.RevenueUpTo(blocks, n, pid)
  }

  /** All receivers of user entries in the first n slots are among pids, and the pid -1 is not. */
  predicate Receivers(l: L.Ledger, n: nat, pids: seq<int>)
    requires n <= |l.blocks|
  {
    && C.Distinct(pids) && REWARD_PID !in pids
    && forall i, j :: 0 <= i < n && i in l.written && 0 <= j < BLOCK_TRANS && j < |l.blocks[i].trans|
                      ==> l.blocks[i].trans[j].receiver in pids
  }

  lemma SlotPaidOut(l: L.Ledger, i: nat, pids: seq<int>)
    requires L.LedgerOk(l) && SoundBlocks(l) && i < |l.blocks| && Receivers(l, i + 1, pids)
    ensures SumOf(pids, L.PaidFn(UserEntries(l.blocks[i]))) == L.UserQuantities(l.blocks[i])
  {
    var b := l.blocks[i];
    if i in l.written {
      L.PaidOut(UserEntries(b), pids);
    } else {
      forall k | 0 <= k < |pids| ensures L.PaidFn(UserEntries(b))(pids[k]) == 0 {
        L.PaidInZero(UserEntries(b), pids[k]);
      }
      ZeroSum(pids, L.PaidFn(UserEntries(b)));
      L.ZeroBlockMoney(0);
    }
  }

  lemma {:induction false} SlotsPaidOut(l: L.Ledger, n: nat, pids: seq<int>)
    requires L.LedgerOk(l) && SoundBlocks(l) && n <= |l.blocks| && Receivers(l, n, pids)
    ensures SumOf(pids, RevenueFn(l.blocks, n)) == SumOf(l.blocks[..n], L.UserQuantities)
  {
    hide L.LedgerOk, SoundBlocks, L.UserQuantities, UserEntries;
    if n == 0 {
      ZeroSum(pids, RevenueFn(l.blocks, 0));
    } else {
      var b := l.blocks[n - 1];
      SlotsPaidOut(l, n - 1, pids);
      SlotPaidOut(l, n - 1, pids);
      forall k | 0 <= k < |pids|
        ensures RevenueFn(l.blocks, n)(pids[k])
                == RevenueFn(l.blocks, n - 1)(pids[k]) + L.PaidFn(UserEntries(b))(pids[k])
      {
        SlotPays(l, n - 1, pids[k]);
      }
      SumAdd(pids, RevenueFn(l.blocks, n), RevenueFn(l.blocks, n - 1), L.PaidFn(UserEntries(b)));
      assert l.blocks[..n] == l.blocks[..n - 1] + [b];
      SumPush(l.blocks[..n - 1], b, L.UserQuantities);
    }
  }

  /**
   In every run the revenues of all receivers together are the quantities of the user entries in the
   counted slots: everything is paid out, and nothing twice.
   */
  lemma RevenuesAddUp(cfg: Config, states: seq<State>, acts: seq<Act>, k: nat, pids: seq<int>)
    requires Run(cfg, states, acts) && k <= |acts|
    requires var l := states[k].ledger; 0 <= l.count <= |l.blocks| ==> Receivers(l, l.count, pids)
    ensures var l := states[k].ledger;
            && 0 <= l.count <= |l.blocks|
            && SumOf(pids, RevenueFn(l.blocks, l.count)) == SumOf(l.blocks[..l.count], L.UserQuantities)
            && forall pid :: RevenueFn(l.blocks, l.count)(pid) == L.Revenue(l, pid)
  {
    hide Initial, Next, IdsOk, NodeOk, SoundBlocks, L.LedgerOk, Receivers, L.RevenueUpTo;
    RunInv(cfg, states, acts, k);
    LedgerContents(cfg, states, acts, k);
    L.LedgerBounds(states[k].ledger);
    SlotsPaidOut(states[k].ledger, states[k].ledger.count, pids);
  }

  // ---- revenue over runs ----

  /** A user's revenue never decreases during a run. */
  lemma {:induction false} RevenueGrowsInRuns(cfg: Config, states: seq<State>, acts: seq<Act>, j: nat, k: nat, pid: int)
    requires S.Sound(cfg) && Run(cfg, states, acts) && j <= k <= |acts|
    ensures 0 <= states[j].ledger.count <= |states[j].ledger.blocks|
    ensures 0 <= states[k].ledger.count <= |states[k].ledger.blocks|
    ensures L.Revenue(states[j].ledger, pid) <= L.Revenue(states[k].ledger, pid)
    decreases k
  {
    hide Next, Initial, T.Everywhere, S.UserSafe, L.NoNegatives, L.Revenue, Inv;
    S.RunSafe(cfg, states, acts, k);
    S.RunSafe(cfg, states, acts, j);
    if j < k {
      RevenueGrowsInRuns(cfg, states, acts, j, k - 1, pid);
      S.RunSafe(cfg, states, acts, k - 1);
      RunInv(cfg, states, acts, k - 1);
      assert Next(cfg, states[k - 1], acts[k - 1], states[k - 1 + 1]);
      StepRevenue(cfg, states[k - 1], acts[k - 1], states[k], pid);
    }
  }

  lemma StepRevenue(cfg: Config, s: State, a: Act, s': State, pid: int)
    requires S.Safe(cfg, s) && Inv(cfg, s) && Next(cfg, s, a, s')
    requires 0 <= s'.ledger.count <= |s'.ledger.blocks|
    ensures L.Revenue(s.ledger, pid) <= L.Revenue(s'.ledger, pid)
  {
    hide NodeOk, NodeCan, NodeNext, NodeEffect, UserNext, FreshPid, IdsOk, L.LedgerOk, L.NoNegatives, L.NoNegative,
         L.WellFormed, S.UserSafe, T.AtNode, T.AtMaster, T.InLedger, T.Queues, L.AddBlock;
    match a
    case ByNode(i, c) =>
      assert NodeOk(cfg, s.nodes[i]) && T.AtNode(s.nodes[i], S.GoodTrans);
      NodeStepLedger(cfg, s, i, c);
      S.WriteGood(cfg, s, s.nodes[i], c);
      var e := NodeEffect(cfg, s, s.nodes[i], c);
      if e.Write? {
        L.RevenueNeverDecreases(s.ledger, e.b, pid);
      }
    case ByUser(u, ua) => UserEffectKinds(cfg, s, s.users[u], ua);
    case ByMaster(c) =>
  }

  // ---- a recorded budget is what the ledger pays ----

  /** Slot by slot the ledger pays pid at least as much as blocks do. */
  predicate PaysMore(blocks: seq<L.Block>, l: L.Ledger, pid: int) {
    |l.blocks| == |blocks| && forall x :: 0 <= x < |blocks| ==> L.Paid(blocks[x], pid) <= L.Paid(l.blocks[x], pid)
  }

  lemma WritePaysMore(l: L.Ledger, b: L.Block, blocks: seq<L.Block>, pid: int)
    requires L.LedgerOk(l) && 0 <= b.id && b.id !in l.written && L.NoNegative(b) && PaysMore(blocks, l, pid)
    ensures PaysMore(blocks, L.AddBlock(l, b), pid)
  {
    L.ZeroBlockPays(pid);
    L.PaidInNonNegative(b.trans, pid);
  }

  lemma StepPaysMore(cfg: Config, s: State, a: Act, s': State, blocks: seq<L.Block>, pid: int)
    requires S.Safe(cfg, s) && Inv(cfg, s) && Next(cfg, s, a, s') && PaysMore(blocks, s.ledger, pid)
    ensures PaysMore(blocks, s'.ledger, pid)
    ensures s.ledger.count <= s'.ledger.count
  {
    hide NodeOk, NodeCan, NodeNext, NodeEffect, UserNext, FreshPid, IdsOk, L.LedgerOk, L.NoNegatives, L.NoNegative,
         L.WellFormed, S.UserSafe, T.AtNode, T.AtMaster, T.InLedger, T.Queues, PaysMore;
    match a
    case ByNode(i, c) =>
      assert NodeOk(cfg, s.nodes[i]) && T.AtNode(s.nodes[i], S.GoodTrans);
      NodeStepLedger(cfg, s, i, c);
      S.WriteGood(cfg, s, s.nodes[i], c);
      var e := NodeEffect(cfg, s, s.nodes[i], c);
      if e.Write? { WritePaysMore(s.ledger, e.b, blocks, pid); } else { SameBlocks(blocks, s.ledger, s'.ledger, pid); }
    case ByUser(u, ua) => UserEffectKinds(cfg, s, s.users[u], ua);
    case ByMaster(c) =>
  }

  lemma SameBlocks(blocks: seq<L.Block>, l: L.Ledger, l': L.Ledger, pid: int)
    requires PaysMore(blocks, l, pid) && l'.blocks == l.blocks
    ensures PaysMore(blocks, l', pid)
  {
  }

  /** User u sums its revenue from state a on, still does in state b, and no other steps of u lie in between. */
  ghost predicate Reads(states: seq<State>, a: nat, b: nat, u: nat) {
    && a <= b < |states| && u < |states[a].users| && states[a].users[u].phase == UReading(0, 0)
    && forall k :: a <= k <= b ==> u < |states[k].users| && states[k].users[u].phase.UReading?
  }

  lemma StepUser(cfg: Config, s: State, a: Act, s': State, u: nat)
    requires Next(cfg, s, a, s') && u < |s.users| && s.users[u].phase.UReading?
    ensures u < |s'.users|
    ensures s'.users[u] == if a.ByUser? && a.u == u then UserNext(cfg, s, s.users[u], Go) else s.users[u]
  {
    hide NodeOk, NodeCan, NodeNext, NodeEffect, UserNext, FreshPid;
  }

  lemma {:induction false} SumsEnough(cfg: Config, states: seq<State>, acts: seq<Act>, a: nat, b: nat, u: nat)
    requires S.Sound(cfg) && Run(cfg, states, acts) && Reads(states, a, b, u)
    ensures var v, w, blocks := states[a].users[u], states[b].users[u], states[a].ledger.blocks;
            && w == v.(phase := w.phase) && w.phase.i <= |blocks| && PaysMore(blocks, states[b].ledger, v.pid)
            && w.phase.sum >= L.RevenueUpTo(blocks, w.phase.i, v.pid)
            && states[a].ledger.count <= states[b].ledger.count
    decreases b
  {
    hide Next, Initial, Inv, T.Everywhere, L.NoNegatives, L.Paid, S.UserSafe;
    if a < b {
      SumsEnough(cfg, states, acts, a, b - 1, u);
      S.RunSafe(cfg, states, acts, b - 1);
      RunInv(cfg, states, acts, b - 1);
      assert Next(cfg, states[b - 1], acts[b - 1], states[b - 1 + 1]);
      StepPaysMore(cfg, states[b - 1], acts[b - 1], states[b], states[a].ledger.blocks, states[a].users[u].pid);
      StepUser(cfg, states[b - 1], acts[b - 1], states[b], u);
    }
  }

  /**
   In every run, a budget that a user records lies between what it is worth by the ledger as it was when
   the user began to read and by the ledger as it is when the user is done; so it is exact if nothing was
   written in between.
   */
  lemma RecordedExact(cfg: Config, states: seq<State>, acts: seq<Act>, a: nat, b: nat, u: nat)
    requires S.Sound(cfg) && Run(cfg, states, acts) && Reads(states, a, b, u) && b < |acts|
    requires u < |states[b + 1].users| && !states[b + 1].users[u].phase.UReading?
    ensures 0 <= states[a].ledger.count <= |states[a].ledger.blocks|
    ensures 0 <= states[b].ledger.count <= |states[b].ledger.blocks|
    ensures var v, w := states[a].users[u], states[b + 1].users[u];
            && w == v.(phase := UIdle, recorded := w.recorded)
            && cfg.budgetInit + L.Revenue(states[a].ledger, v.pid) - v.local <= w.recorded
            && w.recorded <= cfg.budgetInit + L.Revenue(states[b].ledger, v.pid) - v.local
  {
    hide Next, Initial, Inv, T.Everywhere, L.NoNegatives, L.Paid;
    SumsEnough(cfg, states, acts, a, b, u);
    S.RunSafe(cfg, states, acts, a);
    S.RunSafe(cfg, states, acts, b);
    assert Next(cfg, states[b], acts[b], states[b + 1]);
    StepUser(cfg, states[b], acts[b], states[b + 1], u);
    var v, w := states[a].users[u], states[b].users[u];
    assert S.UserSafe(cfg, states[b].ledger, w);
    L.RevenueRest(states[a].ledger.blocks, states[a].ledger.count, w.phase.i, v.pid);
  }

  // ---- the life of a block ----

  /** Exactly the slots picks become unused, and their rewards are credited. */
  ghost predicate Clears(n: Node, n': Node, picks: seq<int>) {
    && P.PicksOk(n.pool.slots, picks)
    && |n'.pool.slots| == |n.pool.slots| && n'.pool.cursor == n.pool.cursor && n'.pool.size == n.pool.size - BLOCK_TRANS
    && (forall j :: 0 <= j < |n.pool.slots| ==>
                      && n'.pool.slots[j].trans == n.pool.slots[j].trans
                      && (n'.pool.slots[j].used <==> n.pool.slots[j].used && j !in picks))
    && n'.budget == n.budget + P.RewardSum(n.pool.slots, picks)
  }

  /**
   The steps of building a block: with at least 99 transactions a node reserves the next id; above 1000
   it stops; else it picks 99 used slots in cyclic order behind its cursor; the ledger takes the block or
   refuses it; and the slots are cleared either way, the node stopping if the block has filled the ledger.
   */
  lemma BlockLife(cfg: Config, s: State, i: nat, c: Choice, s': State)
    requires Inv(cfg, s) && Next(cfg, s, ByNode(i, c), s')
    ensures |s'.nodes| == |s.nodes| && i < |s.nodes| && !s.nodes[i].phase.NStopped?
    ensures s.nodes[i].phase.NBlock? ==>
              && s'.nodes[i].pool == s.nodes[i].pool && s'.nodes[i].budget == s.nodes[i].budget
              && if s.nodes[i].pool.size >= BLOCK_TRANS
                 then s'.nodes[i].phase == NId(s.ledger.lastId) && s'.ledger == s.ledger.(lastId := s.ledger.lastId + 1)
                 else s'.nodes[i].phase == NPoll && s'.ledger == s.ledger
    ensures s.nodes[i].phase.NId? ==>
              var n, n' := s.nodes[i], s'.nodes[i];
              && s'.ledger == s.ledger && n'.budget == n.budget
              && if n.phase.id > REGISTRY_SIZE then n'.phase == NStopped && n'.pool == n.pool
                 else
                   && n'.phase.NBuilt? && n'.phase.id == n.phase.id && P.PicksOk(n.pool.slots, n'.phase.picks)
                   && n.pool.cursor + 1 <= |P.Marks(n.pool.slots)|
                   && C.InCyclicOrder(P.Marks(n.pool.slots), n.pool.cursor + 1, n'.phase.picks)
                   && n'.pool == n.pool.(cursor := n'.phase.picks[BLOCK_TRANS - 1])
    ensures s.nodes[i].phase.NBuilt? ==>
              var n, n' := s.nodes[i], s'.nodes[i];
              && n'.pool == n.pool && n'.budget == n.budget
              && if n.phase.id >= |s.ledger.blocks| then n'.phase == NRefused(n.phase.picks) && s'.ledger == s.ledger
                 else n'.phase == NRecorded(n.phase.picks, s.ledger.count + 1 == |s.ledger.blocks|)
                      && s'.ledger.count == s.ledger.count + 1 && s'.ledger.written == s.ledger.written + {n.phase.id}
    ensures s.nodes[i].phase.NRecorded? ==>
              && Clears(s.nodes[i], s'.nodes[i], s.nodes[i].phase.picks) && s'.ledger == s.ledger
              && s'.nodes[i].phase == if s.nodes[i].phase.full then NStopped else NPoll
    ensures s.nodes[i].phase.NRefused? ==>
              && Clears(s.nodes[i], s'.nodes[i], s.nodes[i].phase.picks) && s'.ledger == s.ledger
              && s'.nodes[i].phase == NPoll
  {
    hide L.LedgerOk, IdsOk, P.FirstFree, P.Deposit, P.UsedCount, P.RewardSum, P.BlockPicks, P.Clear, P.Next,
         L.BlockOf, C.Distinct, C.InCyclicOrder, Forwarded, Clears;
    NodeStepLedger(cfg, s, i, c);
    StepSameNode(cfg, s, ByNode(i, c), s', i);
    assert NodeOk(cfg, s.nodes[i]);
    match s.nodes[i].phase
    case NId(_) => P.BlockPicksSpec(s.nodes[i].pool, cfg.tpSize);
    case NRecorded(picks, full) => ClearsExactly(s.nodes[i], picks, if full then NStopped else NPoll);
    case NRefused(picks) => ClearsExactly(s.nodes[i], picks, NPoll);
    case _ =>
  }

  lemma ClearsExactly(n: Node, picks: seq<int>, next: NodePhase)
    requires P.PicksOk(n.pool.slots, picks)
    ensures Clears(n, ClearBlock(n, picks, next), picks)
  {
    hide C.Distinct, P.RewardSum, P.Clear;
    P.ClearSpec(n.pool.slots, picks);
  }

  /** In every run a node in pause() takes no further step. */
  lemma {:induction false} StoppedStays(cfg: Config, states: seq<State>, acts: seq<Act>, j: nat, k: nat, i: nat)
    requires Run(cfg, states, acts) && j <= k < |acts| && i < |states[j].nodes| && states[j].nodes[i].phase.NStopped?
    ensures !(acts[k].ByNode? && acts[k].n == i)
    ensures i < |states[k].nodes| && states[k].nodes[i] == states[j].nodes[i]
    decreases k
  {
    hide Inv, Initial, Next;
    if j < k {
      StoppedStays(cfg, states, acts, j, k - 1, i);
      RunInv(cfg, states, acts, k - 1);
      assert Next(cfg, states[k - 1], acts[k - 1], states[k - 1 + 1]);
      StepSameNode(cfg, states[k - 1], acts[k - 1], states[k], i);
    }
    assert Next(cfg, states[k], acts[k], states[k + 1]);
    RunInv(cfg, states, acts, k);
    if acts[k].ByNode? && acts[k].n == i { BlockLife(cfg, states[k], i, acts[k].c, states[k + 1]); }
  }

  // ---- a block is recorded as it was built ----

  /**
   The block refers to its node's pool and is copied later, other processes acting in between; still
   the copy in the ledger is what the pool held when create_block picked the 99 slots.
   */
  lemma RecordedAsBuilt(cfg: Config, states: seq<State>, acts: seq<Act>, a: nat, b: nat, i: nat)
    requires Run(cfg, states, acts) && a < b < |acts| && i < |states[a].nodes|
    requires acts[a].ByNode? && acts[a].n == i && states[a].nodes[i].phase.NId?
    requires acts[b].ByNode? && acts[b].n == i && Idle(acts, a, b, i)
    requires i < |states[a + 1].nodes| && states[a + 1].nodes[i].phase.NBuilt?
    requires i < |states[b].nodes| && !L.Refuses(states[b].ledger, states[a].nodes[i].phase.id)
    ensures var id, pool, l := states[a].nodes[i].phase.id, states[a].nodes[i].pool, states[b + 1].ledger;
            && P.PicksOk(pool.slots, P.BlockPicks(pool))
            && id in l.written && 0 <= id < |l.blocks| && |l.blocks[id].trans| == BLOCK_SIZE
            && (forall k :: 0 <= k < BLOCK_TRANS ==> l.blocks[id].trans[k] == pool.slots[P.BlockPicks(pool)[k]].trans)
            && l.blocks[id].trans[BLOCK_TRANS]
               == Transaction(acts[b].c.sec, acts[b].c.nsec, states[a].nodes[i].pid, REWARD_PID,
                              P.RewardSum(pool.slots, P.BlockPicks(pool)), 0)
  {
    hide Initial, Inv, Apply, Can, EffectCan, EffectOf, P.UsedCount, C.Distinct, P.BlockPicks, P.RewardSum, NodeCan,
         NodeEffect, NodeNext, L.LedgerOk, IdsOk;
    RunInv(cfg, states, acts, a);
    RunInv(cfg, states, acts, b);
    assert Next(cfg, states[a], acts[a], states[a + 1]) && Next(cfg, states[b], acts[b], states[b + 1]);
    StepSameNode(cfg, states[a], acts[a], states[a + 1], i);
    NodeWhileIdle(cfg, states, acts, a, b, i);
    Builds(cfg, states[a], i, acts[a].c, states[a + 1]);
    Writes(cfg, states[b], i, acts[b].c, states[b + 1]);
  }

  lemma Builds(cfg: Config, s: State, i: nat, c: Choice, s': State)
    requires Inv(cfg, s) && Next(cfg, s, ByNode(i, c), s') && s.nodes[i].phase.NId?
    requires i < |s'.nodes| && s'.nodes[i] == NodeNext(cfg, s, s.nodes[i], c) && s'.nodes[i].phase.NBuilt?
    ensures var n, n' := s.nodes[i], s'.nodes[i];
            && P.PicksOk(n.pool.slots, P.BlockPicks(n.pool)) && n'.pool.slots == n.pool.slots
            && n'.phase.id == n.phase.id && n'.phase.picks == P.BlockPicks(n.pool) && n'.pid == n.pid
  {
    hide P.UsedCount, C.Distinct, P.BlockPicks, P.RewardSum, NodeEffect, L.LedgerOk, IdsOk;
    P.BlockPicksSpec(s.nodes[i].pool, cfg.tpSize);
  }

  lemma Writes(cfg: Config, s: State, i: nat, c: Choice, s': State)
    requires Inv(cfg, s) && Next(cfg, s, ByNode(i, c), s') && s.nodes[i].phase.NBuilt?
            && !L.Refuses(s.ledger, s.nodes[i].phase.id)
    ensures var n, id := s.nodes[i], s.nodes[i].phase.id;
            && P.InPool(n.pool.slots, n.phase.picks) && |n.phase.picks| == BLOCK_TRANS
            && id in s'.ledger.written && 0 <= id < |s'.ledger.blocks| && |s'.ledger.blocks[id].trans| == BLOCK_SIZE
            && (forall k :: 0 <= k < BLOCK_TRANS
                            ==> s'.ledger.blocks[id].trans[k] == n.pool.slots[n.phase.picks[k]].trans)
            && s'.ledger.blocks[id].trans[BLOCK_TRANS]
               == Transaction(c.sec, c.nsec, n.pid, REWARD_PID, P.RewardSum(n.pool.slots, n.phase.picks), 0)
  {
    hide P.UsedCount, C.Distinct, P.RewardSum, L.LedgerOk, NodeNext;
    assert NodeOk(cfg, s.nodes[i]);
  }

  // ---- at most one refused block ----

  /** A call of add_block that the ledger refuses. */
  predicate IsRefused(s: State, a: Act, s': State) {
    && a.ByNode? && a.n < |s.nodes| && a.n < |s'.nodes|
    && s.nodes[a.n].phase.NBuilt? && s'.nodes[a.n].phase.NRefused?
  }

  function RefusalsUpTo(states: seq<State>, acts: seq<Act>, k: nat): nat
    requires |states| == |acts| + 1 && k <= |acts|
  {
    if k == 0 then 0
    else RefusalsUpTo(states, acts, k - 1) + (if IsRefused(states[k - 1], acts[k - 1], states[k]) then 1 else 0)
  }

  /** After the one refusal its id, the only one between the two size tests, is gone for good. */
  predicate RefusedOnce(s: State, refusals: nat) {
    && |s.ledger.blocks| == REGISTRY_SIZE && refusals <= 1
    && (refusals == 1 ==>
          && s.ledger.lastId > REGISTRY_SIZE
          && forall i :: 0 <= i < |s.nodes| && HoldsId(s.nodes[i]) ==> s.nodes[i].phase.id != REGISTRY_SIZE)
  }

  lemma NodeRefuses(cfg: Config, s: State, i: nat, c: Choice, s': State, r: nat)
    requires Inv(cfg, s) && Next(cfg, s, ByNode(i, c), s') && RefusedOnce(s, r)
    ensures RefusedOnce(s', r + if IsRefused(s, ByNode(i, c), s') then 1 else 0)
  {
    hide NodeOk, NodeCan, NodeEffect, NodeNext, L.LedgerOk;
    var n, n', e := s.nodes[i], NodeNext(cfg, s, s.nodes[i], c), NodeEffect(cfg, s, s.nodes[i], c);
    NodeStepLedger(cfg, s, i, c);
    NodeStepId(cfg, s, i, c);
    RefusedId(cfg, s, n, c);
    StepSameNode(cfg, s, ByNode(i, c), s', i);
    forall j | 0 <= j < |s.nodes| && j != i ensures s'.nodes[j] == s.nodes[j] {
      StepSameNode(cfg, s, ByNode(i, c), s', j);
    }
  }

  /** Only the id REGISTRY_SIZE passes the test of create_block and fails that of add_block. */
  lemma RefusedId(cfg: Config, s: State, n: Node, c: Choice)
    requires NodeCan(s, n, c) && NodeOk(cfg, n) && |s.ledger.blocks| == REGISTRY_SIZE
    ensures n.phase.NBuilt? && NodeNext(cfg, s, n, c).phase.NRefused?
            <==> n.phase.NBuilt? && n.phase.id == REGISTRY_SIZE
  {
    hide P.UsedCount, C.Distinct, P.RewardSum, P.PoolOk;
  }

  lemma StepRefuses(cfg: Config, s: State, a: Act, s': State, r: nat)
    requires Inv(cfg, s) && Next(cfg, s, a, s') && RefusedOnce(s, r)
    ensures RefusedOnce(s', r + if IsRefused(s, a, s') then 1 else 0)
  {
    hide NodeOk, NodeCan, NodeEffect, NodeNext, UserNext, FreshPid, L.LedgerOk, IdsOk, P.EmptySlots;
    match a
    case ByNode(i, c) => NodeRefuses(cfg, s, i, c, s', r);
    case ByUser(u, ua) => UserEffectKinds(cfg, s, s.users[u], ua);
    case ByMaster(c) =>
  }

  /** At most one block is ever refused, however many nodes there are and however long the run. */
  lemma {:induction false} AtMostOneRefusal(cfg: Config, states: seq<State>, acts: seq<Act>, k: nat)
    requires Run(cfg, states, acts) && k <= |acts|
    ensures RefusalsUpTo(states, acts, k) <= 1
    ensures RefusedOnce(states[k], RefusalsUpTo(states, acts, k))
  {
    hide Inv, Next, IsRefused, RefusedOnce;
    if k == 0 {
      NoRefusal(cfg, states[0]);
    } else {
      AtMostOneRefusal(cfg, states, acts, k - 1);
      RunInv(cfg, states, acts, k - 1);
      assert Next(cfg, states[k - 1], acts[k - 1], states[k - 1 + 1]);
      StepRefuses(cfg, states[k - 1], acts[k - 1], states[k], RefusalsUpTo(states, acts, k - 1));
    }
    RefusalBound(states[k], RefusalsUpTo(states, acts, k));
  }

  lemma RefusalBound(s: State, r: nat)
    requires RefusedOnce(s, r)
    ensures r <= 1
  {
  }

  lemma NoRefusal(cfg: Config, s: State)
    requires Initial(cfg, s)
    ensures RefusedOnce(s, 0)
  {
  }
}
