/** The shared ledger (app/ledger.c) as a value, with add_block taken as one step. */
module Ledger {
  import opened Common
  import opened Sums
  import C = Cyclic
  import P = Pool

  datatype Block = Block(id: int, trans: seq<Transaction>)

  function ZeroBlock(): (b: Block)
    ensures b.id == 0 && |b.trans| == BLOCK_SIZE && forall i :: 0 <= i < BLOCK_SIZE ==> b.trans[i] == ZERO_TRANS
  {
    Block(0, seq(BLOCK_SIZE, _ => ZERO_TRANS))
  }

  /** The block that picks refer to, with reward as its last entry. */
  function BlockOf(slots: seq<P.Slot>, id: int, picks: seq<int>, reward: Transaction): (b: Block)
    requires |picks| == BLOCK_TRANS && P.InPool(slots, picks)
    ensures b.id == id && |b.trans| == BLOCK_SIZE && b.trans[BLOCK_TRANS] == reward
    ensures forall i :: 0 <= i < BLOCK_TRANS ==> b.trans[i] == slots[picks[i]].trans
  {
    Block(id, seq(BLOCK_TRANS, i requires 0 <= i < BLOCK_TRANS => slots[picks[i]].trans) + [reward])
  }

  /**
   The shared blocks and the two shared counters.  written and signals are history: which slots
   have been written, and how many calls of add_block have set reached_max_size.
   */
  datatype Ledger = Ledger(blocks: seq<Block>, written: set<int>, count: int, lastId: int, signals: nat)

  function Empty(maxSize: nat): Ledger {
    Ledger(seq(maxSize, i => ZeroBlock()), {}, 0, 0, 0)
  }

  predicate Refuses(l: Ledger, id: int) {
    id > |l.blocks| - 1
  }

  function Reserve(l: Ledger): Ledger {
    l.(lastId := l.lastId + 1)
  }

  /** add_block with slot write, increment and test in one step. */
  function AddBlock(l: Ledger, b: Block): Ledger
    requires b.id >= 0
  {
    if Refuses(l, b.id) then l
    else l.(blocks := l.blocks[b.id := b],
            written := l.written + {b.id},
            count := l.count + 1,
            signals := if l.count + 1 == |l.blocks| then l.signals + 1 else l.signals)
  }

  predicate WellFormed(b: Block) {
    |b.trans| == BLOCK_SIZE
  }

  predicate LedgerOk(l: Ledger) {
    && |l.blocks| > 0
    && 0 <= l.lastId
    && l.count == |l.written|
    && (forall i :: i in l.written ==> 0 <= i < |l.blocks| && i < l.lastId)
    && (forall i :: i in l.written ==> WellFormed(l.blocks[i]) && l.blocks[i].id == i)
    && (forall i :: 0 <= i < |l.blocks| && i !in l.written ==> l.blocks[i] == ZeroBlock())
    && l.signals == (if l.count == |l.blocks| then 1 else 0)
  }

  lemma {:induction false} RangeCard(n: nat, s: set<int>)
    requires forall i :: i in s ==> 0 <= i < n
    ensures |s| <= n
    ensures |s| == n ==> forall i :: 0 <= i < n ==> i in s
    decreases n
  {
    if n == 0 {
      assert s == {} by { assert forall i :: i !in s; }
    } else {
      var r := s - {n - 1};
      RangeCard(n - 1, r);
      if n - 1 in s {
        assert s == r + {n - 1};
      } else {
        assert s == r;
      }
    }
  }

  lemma LedgerBounds(l: Ledger)
    requires LedgerOk(l)
    ensures 0 <= l.count <= |l.blocks| && l.count <= l.lastId
  {
    RangeCard(|l.blocks|, l.written);
    RangeCard(l.lastId, l.written);
  }

  lemma BlockLength(l: Ledger, i: nat)
    requires LedgerOk(l) && i < |l.blocks|
    ensures |l.blocks[i].trans| == BLOCK_SIZE
  {
  }

  lemma EmptyOk(maxSize: nat)
    requires maxSize > 0
    ensures LedgerOk(Empty(maxSize))
  {
  }

  lemma AddBlockOk(l: Ledger, b: Block)
    requires LedgerOk(l) && WellFormed(b) && 0 <= b.id < l.lastId && b.id !in l.written
    ensures LedgerOk(AddBlock(l, b))
    ensures !Refuses(l, b.id) ==> AddBlock(l, b).count == l.count + 1
  {
    LedgerBounds(l);
    RangeCard(|l.blocks|, l.written);
  }

  /** A set reached_max_size means that every slot holds its own block, and that no earlier call set it. */
  lemma FullMeansAll(l: Ledger)
    requires LedgerOk(l)
    ensures l.signals <= 1
    ensures l.signals == 1 <==> forall i :: 0 <= i < |l.blocks| ==> i in l.written
    ensures l.signals == 1 ==> forall i :: 0 <= i < |l.blocks| ==> l.blocks[i].id == i
  {
    RangeCard(|l.blocks|, l.written);
    if forall i :: 0 <= i < |l.blocks| ==> i in l.written {
      RangeSet(|l.blocks|, l.written);
    }
  }

  lemma {:induction false} RangeSet(n: nat, s: set<int>)
    requires forall i :: i in s <==> 0 <= i < n
    ensures |s| == n
    decreases n
  {
    if n == 0 {
      assert s == {} by { assert forall i :: i !in s; }
    } else {
      RangeSet(n - 1, s - {n - 1});
      assert s == (s - {n - 1}) + {n - 1};
    }
  }

  // ---- revenue ----

  function PaidIn(trans: seq<Transaction>, pid: int): int {
    if trans == [] then 0
    else
      var t := trans[|trans| - 1];
      PaidIn(trans[..|trans| - 1], pid) + (if t.receiver == pid then t.quantity else 0)
  }

  function Paid(b: Block, pid: int): int {
    PaidIn(b.trans, pid)
  }

  function RevenueUpTo(blocks: seq<Block>, n: nat, pid: int): int
    requires n <= |blocks|
  {
    if n == 0 then 0 else RevenueUpTo(blocks, n - 1, pid) + Paid(blocks[n - 1], pid)
  }

  /** get_process_revenue: what the first block_count slots pay to pid. */
  function Revenue(l: Ledger, pid: int): int
    requires 0 <= l.count <= |l.blocks|
  {
    RevenueUpTo(l.blocks, l.count, pid)
  }

  /** What all written blocks pay to pid (an unwritten slot pays nothing). */
  function TotalPaid(l: Ledger, pid: int): int {
    RevenueUpTo(l.blocks, |l.blocks|, pid)
  }

  predicate NoNegative(b: Block) {
    forall i :: 0 <= i < |b.trans| ==> b.trans[i].quantity >= 0
  }

  predicate NoNegatives(blocks: seq<Block>) {
    forall i :: 0 <= i < |blocks| ==> NoNegative(blocks[i])
  }

  lemma {:induction false} PaidInNonNegative(trans: seq<Transaction>, pid: int)
    requires forall i :: 0 <= i < |trans| ==> trans[i].quantity >= 0
    ensures PaidIn(trans, pid) >= 0
  {
    if trans != [] { PaidInNonNegative(trans[..|trans| - 1], pid); }
  }

  lemma {:induction false} PaidInZero(trans: seq<Transaction>, pid: int)
    requires forall i :: 0 <= i < |trans| ==> trans[i].quantity == 0
    ensures PaidIn(trans, pid) == 0
  {
    if trans != [] { PaidInZero(trans[..|trans| - 1], pid); }
  }

  lemma ZeroBlockPays(pid: int)
    ensures Paid(ZeroBlock(), pid) == 0 && NoNegative(ZeroBlock())
  {
    PaidInZero(ZeroBlock().trans, pid);
  }

  /** Slot by slot at least as much, over at least as many slots. */
  lemma {:induction false} RevenueGrows(a: seq<Block>, n: nat, b: seq<Block>, m: nat, pid: int)
    requires n <= |a| && n <= m <= |b| && NoNegatives(b)
    requires forall i :: 0 <= i < n ==> Paid(a[i], pid) <= Paid(b[i], pid)
    ensures RevenueUpTo(a, n, pid) <= RevenueUpTo(b, m, pid)
    decreases n, m
  {
    if m > n {
      RevenueGrows(a, n, b, m - 1, pid);
      PaidInNonNegative(b[m - 1].trans, pid);
    } else if n > 0 {
      RevenueGrows(a, n - 1, b, m - 1, pid);
    }
  }

  lemma AddBlockPaysMore(l: Ledger, b: Block, pid: int, n: nat)
    requires LedgerOk(l) && 0 <= b.id && b.id !in l.written
    requires NoNegatives(l.blocks) && NoNegative(b) && n <= |l.blocks|
    ensures NoNegatives(AddBlock(l, b).blocks)
    ensures RevenueUpTo(l.blocks, n, pid) <= RevenueUpTo(AddBlock(l, b).blocks, n, pid)
  {
    var q := AddBlock(l, b);
    assert NoNegatives(q.blocks);
    forall i | 0 <= i < n ensures Paid(l.blocks[i], pid) <= Paid(q.blocks[i], pid) {
      ZeroBlockPays(pid);
      PaidInNonNegative(b.trans, pid);
    }
    RevenueGrows(l.blocks, n, q.blocks, n, pid);
  }

  /** A user's revenue never decreases when a block is added, in whatever slot order. */
  lemma RevenueNeverDecreases(l: Ledger, b: Block, pid: int)
    requires LedgerOk(l) && WellFormed(b) && 0 <= b.id < l.lastId && b.id !in l.written
    requires NoNegatives(l.blocks) && NoNegative(b)
    ensures LedgerOk(AddBlock(l, b)) && 0 <= l.count <= |l.blocks|
    ensures 0 <= AddBlock(l, b).count <= |l.blocks|
    ensures Revenue(l, pid) <= Revenue(AddBlock(l, b), pid)
  {
    LedgerBounds(l);
    AddBlockOk(l, b);
    var q := AddBlock(l, b);
    LedgerBounds(q);
    AddBlockPaysMore(l, b, pid, l.count);
    RevenueGrows(q.blocks, l.count, q.blocks, q.count, pid);
  }

  /** Revenue and total differ by what the slots from n on pay. */
  lemma {:induction false} RevenueRest(blocks: seq<Block>, n: nat, m: nat, pid: int)
    requires n <= m <= |blocks| && NoNegatives(blocks)
    ensures RevenueUpTo(blocks, n, pid) <= RevenueUpTo(blocks, m, pid)
    ensures RevenueUpTo(blocks, n, pid) == RevenueUpTo(blocks, m, pid)
            <==> forall i :: n <= i < m ==> Paid(blocks[i], pid) == 0
    decreases m
  {
    if n < m {
      RevenueRest(blocks, n, m - 1, pid);
      PaidInNonNegative(blocks[m - 1].trans, pid);
    }
  }

  /**
   Revenue never exceeds what the written blocks pay, and equals it exactly when no block written
   beyond the count pays the user; in particular whenever the written slots form a prefix.
   */
  lemma RevenueExact(l: Ledger, pid: int)
    requires LedgerOk(l) && NoNegatives(l.blocks)
    ensures 0 <= l.count <= |l.blocks|
    ensures 0 <= Revenue(l, pid) <= TotalPaid(l, pid)
    ensures Revenue(l, pid) == TotalPaid(l, pid)
            <==> forall i :: i in l.written && i >= l.count ==> Paid(l.blocks[i], pid) == 0
    ensures (forall i :: i in l.written ==> i < l.count) ==> Revenue(l, pid) == TotalPaid(l, pid)
  {
    LedgerBounds(l);
    ZeroBlockPays(pid);
    RevenueRest(l.blocks, 0, l.count, pid);
    RevenueRest(l.blocks, l.count, |l.blocks|, pid);
  }

  // ---- the money in the ledger ----

  function QuantityOf(t: Transaction): int {
    t.quantity
  }

  /** The quantities of the 99 user transactions of a block. */
  function UserQuantities(b: Block): int {
    if |b.trans| == BLOCK_SIZE then SumOf(b.trans[..BLOCK_TRANS], QuantityOf) else 0
  }

  /** The reward entry, if it was written by the node pid. */
  function RewardBy(b: Block, pid: int): int {
    if |b.trans| == BLOCK_SIZE && b.trans[BLOCK_TRANS].sender == pid then b.trans[BLOCK_TRANS].quantity else 0
  }

  function RewardByFn(pid: int): Block -> int {
    (b: Block) => RewardBy(b, pid)
  }

  function LedgerMoney(l: Ledger): int {
    SumOf(l.blocks, UserQuantities)
  }

  /** The reward entries the node pid has in the ledger. */
  function LedgerRewards(l: Ledger, pid: int): int {
    SumOf(l.blocks, RewardByFn(pid))
  }

  // ---- all that is paid is paid out, once ----

  function PaidFn(trans: seq<Transaction>): int -> int {
    (pid: int) => PaidIn(trans, pid)
  }

  function EarnsFn(t: Transaction): int -> int {
    (pid: int) => if t.receiver == pid then t.quantity else 0
  }

  /** Whoever receives no entry is paid nothing. */
  lemma {:induction false} PaidNothing(trans: seq<Transaction>, pid: int)
    requires forall i :: 0 <= i < |trans| ==> trans[i].receiver != pid
    ensures PaidIn(trans, pid) == 0
  {
    if trans != [] { PaidNothing(trans[..|trans| - 1], pid); }
  }

  lemma {:induction false} OneEarns(t: Transaction, pids: seq<int>)
    requires C.Distinct(pids)
    ensures SumOf(pids, EarnsFn(t)) == if t.receiver in pids then t.quantity else 0
  {
    if pids != [] {
      var init, last := pids[..|pids| - 1], pids[|pids| - 1];
      OneEarns(t, init);
      assert pids == init + [last];
      assert last !in init;
    }
  }

  /** Over pairwise distinct pids among which are all receivers, the payments add up to the quantities. */
  lemma {:induction false} PaidOut(trans: seq<Transaction>, pids: seq<int>)
    requires C.Distinct(pids) && forall i :: 0 <= i < |trans| ==> trans[i].receiver in pids
    ensures SumOf(pids, PaidFn(trans)) == SumOf(trans, QuantityOf)
  {
    if trans == [] {
      ZeroSum(pids, PaidFn(trans));
    } else {
      var init, t := trans[..|trans| - 1], trans[|trans| - 1];
      PaidOut(init, pids);
      OneEarns(t, pids);
      SumAdd(pids, PaidFn(trans), PaidFn(init), EarnsFn(t));
    }
  }

  lemma ZeroBlockMoney(pid: int)
    ensures UserQuantities(ZeroBlock()) == 0 && RewardBy(ZeroBlock(), pid) == 0
  {
    ZeroSum(ZeroBlock().trans[..BLOCK_TRANS], QuantityOf);
  }

  lemma EmptyMoney(maxSize: nat, pid: int)
    ensures LedgerMoney(Empty(maxSize)) == 0 && LedgerRewards(Empty(maxSize), pid) == 0
  {
    ZeroBlockMoney(pid);
    ZeroSum(Empty(maxSize).blocks, UserQuantities);
    ZeroSum(Empty(maxSize).blocks, RewardByFn(pid));
  }

  lemma AddBlockMoney(l: Ledger, b: Block, pid: int)
    requires LedgerOk(l) && 0 <= b.id && b.id !in l.written && !Refuses(l, b.id)
    ensures LedgerMoney(AddBlock(l, b)) == LedgerMoney(l) + UserQuantities(b)
    ensures LedgerRewards(AddBlock(l, b), pid) == LedgerRewards(l, pid) + RewardBy(b, pid)
  {
    ZeroBlockMoney(pid);
    SumUpdate(l.blocks, b.id, b, UserQuantities);
    SumUpdate(l.blocks, b.id, b, RewardByFn(pid));
  }
}
