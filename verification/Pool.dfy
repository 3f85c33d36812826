/**
 The transaction pool of a node (app/node.c) as a value: the slots, the separate counter
 trans_pool_size, and the cursor idx_last_tp_used.
 */
module Pool {
  import opened Common
  import opened Sums
  import opened Cyclic

  datatype Slot = Slot(used: bool, trans: Transaction)

  datatype Pool = Pool(slots: seq<Slot>, size: int, cursor: int)

  function EmptySlots(n: nat): (slots: seq<Slot>)
    ensures |slots| == n && forall i :: 0 <= i < n ==> !slots[i].used
  {
    seq(n, i => Slot(false, ZERO_TRANS))
  }

  function Marks(slots: seq<Slot>): (m: seq<bool>)
    ensures |m| == |slots| && forall i :: 0 <= i < |m| ==> m[i] == slots[i].used
  {
    seq(|slots|, i requires 0 <= i < |slots| => slots[i].used)
  }

  function UsedBit(s: Slot): int {
    if s.used then 1 else 0
  }

  function SlotMoney(s: Slot): int {
    if s.used then Amount(s.trans) else 0
  }

  function UsedCount(slots: seq<Slot>): int {
    SumOf(slots, UsedBit)
  }

  function PoolMoney(slots: seq<Slot>): int {
    SumOf(slots, SlotMoney)
  }

  /** The counter agrees with the array and the cursor is on the array or before it. */
  predicate PoolOk(p: Pool, tpSize: nat) {
    && |p.slots| == tpSize
    && p.size == UsedCount(p.slots)
    && -1 <= p.cursor < tpSize
  }

  lemma {:induction false} MarkedIsUsed(slots: seq<Slot>)
    ensures Marked(Marks(slots)) == UsedCount(slots)
  {
    if slots != [] {
      var init := slots[..|slots| - 1];
      MarkedIsUsed(init);
      assert Marks(slots)[..|slots| - 1] == Marks(init);
    }
  }

  /** The counter is within the pool, and its two extremes mean an empty and a full pool. */
  lemma SizeMeans(p: Pool, tpSize: nat)
    requires PoolOk(p, tpSize)
    ensures 0 <= p.size <= tpSize
    ensures p.size > 0 <==> SomeMark(Marks(p.slots))
    ensures p.size < tpSize <==> exists i :: 0 <= i < tpSize && !p.slots[i].used
  {
    MarkedIsUsed(p.slots);
    SomeCount(Marks(p.slots));
    if i :| 0 <= i < tpSize && !p.slots[i].used {
      assert !Marks(p.slots)[i];
    }
  }

  // ---- msg_pool_deposit ----

  function FirstFree(slots: seq<Slot>, from: nat): (r: nat)
    requires from <= |slots|
    ensures from <= r <= |slots|
    ensures forall i :: from <= i < r ==> slots[i].used
    ensures r < |slots| ==> !slots[r].used
    decreases |slots| - from
  {
    if from == |slots| || !slots[from].used then from else FirstFree(slots, from + 1)
  }

  function Deposit(p: Pool, t: Transaction): Option<Pool> {
    var off := FirstFree(p.slots, 0);
    if p.size < |p.slots| && off < |p.slots|
    then Some(p.(slots := p.slots[off := Slot(true, t)], size := p.size + 1))
    else None
  }

  /** A deposit succeeds exactly when a slot is free; it fills the first free slot and moves t into the pool. */
  lemma DepositSpec(p: Pool, tpSize: nat, t: Transaction)
    requires PoolOk(p, tpSize)
    ensures Deposit(p, t).Some? <==> exists i :: 0 <= i < tpSize && !p.slots[i].used
    ensures Deposit(p, t).Some? ==>
              var q := Deposit(p, t).value;
              && PoolOk(q, tpSize) && q.cursor == p.cursor
              && PoolMoney(q.slots) == PoolMoney(p.slots) + Amount(t)
              && exists i :: && 0 <= i < tpSize && !p.slots[i].used && q.slots == p.slots[i := Slot(true, t)]
                             && forall j :: 0 <= j < i ==> p.slots[j].used
  {
    SizeMeans(p, tpSize);
    var off := FirstFree(p.slots, 0);
    if off < tpSize {
      SumUpdate(p.slots, off, Slot(true, t), UsedBit);
      SumUpdate(p.slots, off, Slot(true, t), SlotMoney);
    }
  }

  // ---- extraction of one transaction ----

  function Next(p: Pool): int
    requires p.cursor >= -1
  {
    Find(Marks(p.slots), p.cursor + 1)
  }

  /** Under the guard trans_pool_size > 0 the search never answers -1; without it, always. */
  lemma NextSpec(p: Pool, tpSize: nat)
    requires PoolOk(p, tpSize)
    ensures Next(p) == -1 <==> p.size == 0
    ensures p.size > 0 ==> 0 <= Next(p) < tpSize && p.slots[Next(p)].used
  {
    SizeMeans(p, tpSize);
    FindFirst(Marks(p.slots), p.cursor + 1);
  }

  function Release(p: Pool, i: nat): Pool
    requires i < |p.slots|
  {
    p.(slots := p.slots[i := p.slots[i].(used := false)], size := p.size - 1)
  }

  lemma ReleaseSpec(p: Pool, tpSize: nat, i: nat)
    requires PoolOk(p, tpSize) && i < tpSize && p.slots[i].used
    ensures PoolOk(Release(p, i), tpSize)
    ensures PoolMoney(Release(p, i).slots) == PoolMoney(p.slots) - Amount(p.slots[i].trans)
  {
    SumUpdate(p.slots, i, p.slots[i].(used := false), UsedBit);
    SumUpdate(p.slots, i, p.slots[i].(used := false), SlotMoney);
  }

  // ---- block building and clearing ----

  function BlockPicks(p: Pool): (ps: seq<int>)
    requires p.cursor >= -1
    ensures |ps| == BLOCK_TRANS
  {
    Picks(Marks(p.slots), p.cursor, BLOCK_TRANS)
  }

  predicate PicksOk(slots: seq<Slot>, ps: seq<int>) {
    && |ps| == BLOCK_TRANS
    && Distinct(ps)
    && forall i :: 0 <= i < |ps| ==> 0 <= ps[i] < |slots| && slots[ps[i]].used
  }

  /** Under the guard trans_pool_size >= 99 the block takes 99 distinct used slots in cyclic order. */
  lemma BlockPicksSpec(p: Pool, tpSize: nat)
    requires PoolOk(p, tpSize) && p.size >= BLOCK_TRANS
    ensures PicksOk(p.slots, BlockPicks(p))
    ensures InCyclicOrder(Marks(p.slots), p.cursor + 1, BlockPicks(p))
  {
    hide Picks, InCyclicOrder;
    MarkedIsUsed(p.slots);
    SomeCount(Marks(p.slots));
    PicksGood(Marks(p.slots), p.cursor, BLOCK_TRANS);
  }

  /** Without the guard a non-empty pool still yields 99 references, which are distinct exactly under it. */
  lemma BlockPicksDistinctIff(p: Pool, tpSize: nat)
    requires PoolOk(p, tpSize) && p.size > 0
    ensures Distinct(BlockPicks(p)) <==> p.size >= BLOCK_TRANS
    ensures forall i :: 0 <= i < BLOCK_TRANS ==> BlockPicks(p)[i] != -1
  {
    hide Picks;
    MarkedIsUsed(p.slots);
    SizeMeans(p, tpSize);
    PicksDistinctIff(Marks(p.slots), p.cursor, BLOCK_TRANS);
    forall i | 0 <= i < BLOCK_TRANS ensures BlockPicks(p)[i] != -1 {
      PickIsSpot(Marks(p.slots), p.cursor, BLOCK_TRANS, i);
    }
  }

  predicate InPool(slots: seq<Slot>, ps: seq<int>) {
    forall i :: 0 <= i < |ps| ==> 0 <= ps[i] < |slots|
  }

  function Clear(slots: seq<Slot>, ps: seq<int>): (r: seq<Slot>)
    requires InPool(slots, ps)
    ensures |r| == |slots|
  {
    if ps == [] then slots
    else
      var rest, i := Clear(slots, ps[..|ps| - 1]), ps[|ps| - 1];
      rest[i := rest[i].(used := false)]
  }

  function RewardSum(slots: seq<Slot>, ps: seq<int>): int
    requires InPool(slots, ps)
  {
    if ps == [] then 0 else RewardSum(slots, ps[..|ps| - 1]) + slots[ps[|ps| - 1]].trans.reward
  }

  function QuantitySum(slots: seq<Slot>, ps: seq<int>): int
    requires InPool(slots, ps)
  {
    if ps == [] then 0 else QuantitySum(slots, ps[..|ps| - 1]) + slots[ps[|ps| - 1]].trans.quantity
  }

  /** Clearing frees exactly the given slots and leaves every transaction in place. */
  lemma {:induction false} ClearSpec(slots: seq<Slot>, ps: seq<int>)
    requires InPool(slots, ps)
    ensures forall i :: 0 <= i < |slots| ==>
                          && Clear(slots, ps)[i].trans == slots[i].trans
                          && (Clear(slots, ps)[i].used <==> slots[i].used && i !in ps)
  {
    if ps != [] {
      var init := ps[..|ps| - 1];
      ClearSpec(slots, init);
      assert ps == init + [ps[|ps| - 1]];
    }
  }

  /** Clearing distinct used slots lowers the count by their number and takes exactly their money out. */
  lemma {:induction false} ClearSums(slots: seq<Slot>, ps: seq<int>)
    requires InPool(slots, ps) && Distinct(ps) && forall i :: 0 <= i < |ps| ==> slots[ps[i]].used
    ensures UsedCount(Clear(slots, ps)) == UsedCount(slots) - |ps|
    ensures PoolMoney(Clear(slots, ps)) == PoolMoney(slots) - RewardSum(slots, ps) - QuantitySum(slots, ps)
  {
    if ps != [] {
      var init, last := ps[..|ps| - 1], ps[|ps| - 1];
      ClearSums(slots, init);
      ClearSpec(slots, init);
      var rest := Clear(slots, init);
      SumUpdate(rest, last, rest[last].(used := false), UsedBit);
      SumUpdate(rest, last, rest[last].(used := false), SlotMoney);
    }
  }

  function Cleared(p: Pool, ps: seq<int>): Pool
    requires InPool(p.slots, ps)
  {
    p.(slots := Clear(p.slots, ps), size := p.size - |ps|)
  }

  lemma ClearedOk(p: Pool, tpSize: nat, ps: seq<int>)
    requires PoolOk(p, tpSize) && PicksOk(p.slots, ps)
    ensures PoolOk(Cleared(p, ps), tpSize)
    ensures PoolMoney(Cleared(p, ps).slots) == PoolMoney(p.slots) - RewardSum(p.slots, ps) - QuantitySum(p.slots, ps)
  {
    ClearSums(p.slots, ps);
  }
}
