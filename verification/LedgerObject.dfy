/** The shared ledger as the object its functions mutate (app/ledger.c), without concurrency. */
module LedgerObject {
  import opened Common
  import P = Pool
  import L = Ledger

  /** An entry of a VirtualBlock: the address of a pool slot's transaction, or of the reward transaction. */
  datatype Pointer = PoolCell(at: nat) | RewardCell

  datatype VirtualBlock = VirtualBlock(id: int, ptrs: seq<Pointer>)

  predicate PointsInto(b: VirtualBlock, size: nat) {
    && |b.ptrs| == BLOCK_SIZE
    && forall i :: 0 <= i < |b.ptrs| && b.ptrs[i].PoolCell? ==> b.ptrs[i].at < size
  }

  function Deref(ptr: Pointer, slots: seq<P.Slot>, reward: Transaction): Transaction
    requires ptr.PoolCell? ==> ptr.at < |slots|
  {
    match ptr
    case PoolCell(at) => slots[at].trans
    case RewardCell => reward
  }

  /** The block a VirtualBlock denotes at the moment it is read. */
  function DerefBlock(b: VirtualBlock, slots: seq<P.Slot>, reward: Transaction): (r: L.Block)
    requires PointsInto(b, |slots|)
    ensures r.id == b.id && L.WellFormed(r)
    ensures forall i :: 0 <= i < BLOCK_SIZE ==> r.trans[i] == Deref(b.ptrs[i], slots, reward)
  {
    L.Block(b.id, seq(BLOCK_SIZE, i requires 0 <= i < BLOCK_SIZE => Deref(b.ptrs[i], slots, reward)))
  }

  class SharedLedger {
    const blocks: array<L.Block>
    var count: int
    var lastId: int
    ghost var written: set<int>
    ghost var signals: nat

    ghost function View(): L.Ledger
      reads this, blocks
    {
      L.Ledger(blocks[..], written, count, lastId, signals)
    }

    ghost predicate Valid()
      reads this, blocks
    {
      L.LedgerOk(View())
    }

    constructor (maxSize: nat)
      requires maxSize > 0
      ensures Valid() && View() == L.Empty(maxSize) && fresh(blocks)
    {
      blocks := new L.Block[maxSize](i => L.ZeroBlock());
      count, lastId := 0, 0;
      written, signals := {}, 0;
      new;
      assert blocks[..] == L.Empty(maxSize).blocks;
      L.EmptyOk(maxSize);
    }

    /** get_new_block_id, the semaphore making it one step. */
    method GetNewBlockId() returns (id: int)
      requires Valid()
      modifies this`lastId
      ensures Valid() && View() == L.Reserve(old(View())) && id == old(lastId) >= 0
      ensures id !in written
    {
      id := lastId;
      lastId := lastId + 1;
    }

    /**
     add_block: copies the transactions the block points to, and writes the copy, whatever the state of
     the ledger; a reserved id that has not been written keeps it in order.
     */
    method AddBlock(block: VirtualBlock, slots: array<P.Slot>, reward: Transaction)
        returns (ret: int, reachedMaxSize: bool)
      requires PointsInto(block, slots.Length) && block.id >= 0
      modifies this, blocks
      ensures lastId == old(lastId)
      ensures old(Valid()) && block.id < lastId && block.id !in old(written) ==> Valid()
      ensures View() == L.AddBlock(old(View()), DerefBlock(block, old(slots[..]), reward))
      ensures ret == if L.Refuses(old(View()), block.id) then -1 else 0
      ensures reachedMaxSize <==> ret == 0 && count == blocks.Length
      ensures reachedMaxSize <==> signals > old(signals)
    {
      reachedMaxSize := false;
      if block.id > blocks.Length - 1 {
        return -1, false;
      }
      ghost var result := DerefBlock(block, slots[..], reward);
      var copy := new Transaction[BLOCK_SIZE](i => ZERO_TRANS);
      for i := 0 to BLOCK_SIZE
        modifies copy
        invariant forall j :: 0 <= j < i ==> copy[j] == result.trans[j]
      {
        var source := match block.ptrs[i] case PoolCell(at) => slots[at].trans case RewardCell => reward;
        copy[i] := Transaction(source.sec, source.nsec, source.sender, source.receiver, source.quantity, source.reward);
      }
      assert copy[..] == result.trans;
      if Valid() && block.id < lastId && block.id !in written { L.AddBlockOk(View(), result); }
      blocks[block.id] := L.Block(block.id, copy[..]);
      assert blocks[..] == old(blocks[..])[block.id := result];
      written := written + {block.id};
      count := count + 1;
      ret := 0;
      if count == blocks.Length {
        signals := signals + 1;
        reachedMaxSize := true;
      }
    }

    method GetProcessRevenue(pid: int) returns (sum: int)
      requires Valid()
      ensures 0 <= count <= blocks.Length && sum == L.Revenue(View(), pid)
    {
      L.LedgerBounds(View());
      sum := 0;
      for i := 0 to count
        invariant sum == L.RevenueUpTo(blocks[..], i, pid)
      {
        L.BlockLength(View(), i);
        ghost var before, trans := sum, blocks[i].trans;
        for j := 0 to BLOCK_SIZE
          invariant sum == before + L.PaidIn(trans[..j], pid)
        {
          assert trans[..j + 1][..j] == trans[..j];
          if blocks[i].trans[j].receiver == pid {
            sum := sum + blocks[i].trans[j].quantity;
          }
        }
        assert trans[..BLOCK_SIZE] == trans;
      }
    }
  }
}
