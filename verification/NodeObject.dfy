/** A node process with its private pool and its row of the shared node table (app/node.c). */
module NodeObject {
  import opened Common
  import opened LedgerObject
  import opened Sums
  import C = Cyclic
  import P = Pool
  import L = Ledger

  /** What has become of a message or of an extracted transaction. */
  datatype Outcome = Nothing | Deposited | Sent(m: Message) | HandedOver(m: Message) | Refunded(r: Refund) | Lost

  datatype BlockOutcome = NoBlock | NoId | Refused | Recorded | Filled

  class NodeProcess {
    const pid: int
    const slots: array<P.Slot>
    const clearPos: array<int>
    var size: int                // trans_pool_size
    var budget: int
    var cursor: int              // idx_last_tp_used
    var reward: Transaction      // reward_transaction

    ghost function View(): P.Pool
      reads this, slots
    {
      P.Pool(slots[..], size, cursor)
    }

    ghost predicate Valid()
      reads this, slots
    {
      P.PoolOk(View(), slots.Length) && clearPos.Length == BLOCK_TRANS
    }

    constructor (pid: int, tpSize: nat)
      ensures Valid() && View() == P.Pool(P.EmptySlots(tpSize), 0, -1) && budget == 0
      ensures this.pid == pid && fresh(slots) && fresh(clearPos)
    {
      this.pid := pid;
      slots := new P.Slot[tpSize](i => P.Slot(false, ZERO_TRANS));
      clearPos := new int[BLOCK_TRANS](i => 0);
      size, budget, cursor, reward := 0, 0, -1, ZERO_TRANS;
      new;
      assert slots[..] == P.EmptySlots(tpSize);
      ZeroSum(slots[..], P.UsedBit);
    }

    method MsgPoolDeposit(t: Transaction) returns (ok: int)
      requires Valid()
      modifies this`size, slots
      ensures Valid()
      ensures ok == if P.Deposit(old(View()), t).Some? then 1 else -1
      ensures View() == if ok == 1 then P.Deposit(old(View()), t).value else old(View())
    {
      var off := 0;
      while off < slots.Length && slots[off].used
        invariant 0 <= off <= slots.Length
        invariant forall i :: 0 <= i < off ==> slots[i].used
      {
        off := off + 1;
      }
      P.DepositSpec(View(), slots.Length, t);
      assert off == P.FirstFree(slots[..], 0);
      if size < slots.Length && off < slots.Length {
        slots[off] := P.Slot(true, t);
        size := size + 1;
        return 1;
      }
      return -1;
    }

    method FindTpTrans(off: nat) returns (at: int)
      ensures at == C.Find(P.Marks(slots[..]), off)
    {
      hide C.Find, C.Wrap, C.Gap;
      ghost var marks := P.Marks(slots[..]);
      var count := 0;
      while count < slots.Length
        invariant 0 <= count <= slots.Length
        invariant slots.Length > 0 ==> forall x :: off <= x < off + count ==> !C.At(marks, x)
      {
        C.WrapIsMod(off + count, slots.Length);
        if slots[(off + count) % slots.Length].used {
          C.FindByScan(marks, off, count);
          return (off + count) % slots.Length;
        }
        count := count + 1;
      }
      if slots.Length > 0 { C.FindByScan(marks, off, count); } else { NothingToFind(marks, off); }
      return -1;
    }

    lemma NothingToFind(marks: seq<bool>, off: nat)
      requires marks == []
      ensures C.Find(marks, off) == -1
    {
    }

    /** The first loop of create_block. */
    method PickTransactions() returns (ok: bool, ptrs: seq<Pointer>)
      requires Valid()
      modifies this`cursor, clearPos
      ensures Valid() && ok == (size > 0)
      ensures !ok ==> cursor == -1
      ensures ok ==> clearPos[..] == P.BlockPicks(old(View())) && cursor == clearPos[BLOCK_TRANS - 1]
      ensures ok ==> P.InPool(slots[..], clearPos[..]) && |ptrs| == BLOCK_TRANS
      ensures ok ==> forall i :: 0 <= i < BLOCK_TRANS ==> ptrs[i] == PoolCell(clearPos[i])
    {
      hide C.Find, C.Picks, P.UsedCount;
      ghost var marks, start := P.Marks(slots[..]), cursor;
      P.SizeMeans(View(), slots.Length);
      PickNone(marks, start);
      C.FindFirst(marks, start + 1);
      ptrs := [];
      var off := 0;
      while off < BLOCK_TRANS
        invariant 0 <= off <= BLOCK_TRANS && |ptrs| == off
        invariant clearPos[..off] == C.Picks(marks, start, off) && cursor == C.LastOf(start, clearPos[..off])
        invariant forall i :: 0 <= i < off ==> 0 <= clearPos[i] < slots.Length && ptrs[i] == PoolCell(clearPos[i])
        invariant -1 <= cursor < slots.Length
        invariant off > 0 ==> size > 0
      {
        C.FindFirst(marks, cursor + 1);
        PickOne(marks, start, off);
        ghost var before := clearPos[..off];
        var at := FindTpTrans(cursor + 1);
        cursor := at;
        clearPos[off] := at;
        assert clearPos[..off + 1] == before + [at];
        if cursor == -1 {
          return false, ptrs;
        }
        ptrs := ptrs + [PoolCell(at)];
        off := off + 1;
      }
      assert clearPos[..BLOCK_TRANS] == clearPos[..];
      ok := true;
    }

    /** create_block.  The block refers to pool slots; clearPos remembers which. */
    method CreateBlock(id: int, sec: nat, nsec: nat) returns (ok: int, block: VirtualBlock)
      requires Valid()
      modifies this`cursor, this`reward, clearPos
      ensures Valid()
      ensures ok == if id <= REGISTRY_SIZE && size > 0 then 1 else -1
      ensures ok == -1 ==> cursor == if id > REGISTRY_SIZE then old(cursor) else -1
      ensures ok == 1 ==>
                && clearPos[..] == P.BlockPicks(old(View())) && cursor == clearPos[BLOCK_TRANS - 1]
                && P.InPool(slots[..], clearPos[..]) && PointsInto(block, slots.Length) && block.id == id
                && reward == Transaction(sec, nsec, pid, REWARD_PID, P.RewardSum(slots[..], clearPos[..]), 0)
                && DerefBlock(block, slots[..], reward) == L.BlockOf(slots[..], id, clearPos[..], reward)
    {
      hide P.UsedCount, P.BlockPicks, P.RewardSum;
      block := VirtualBlock(id, []);
      if id > REGISTRY_SIZE {
        return -1, block;
      }
      var found, ptrs := PickTransactions();
      if !found {
        return -1, block;
      }
      var sum := SumRewards();
      reward := Transaction(sec, nsec, pid, REWARD_PID, sum, 0);
      block := VirtualBlock(id, ptrs + [RewardCell]);
      SameBlock(block, slots[..], clearPos[..], reward);
      ok := 1;
    }

    lemma PickNone(marks: seq<bool>, start: int)
      requires start >= -1
      ensures C.Picks(marks, start, 0) == []
    {
    }

    lemma PickOne(marks: seq<bool>, start: int, off: nat)
      requires start >= -1
      ensures C.Picks(marks, start, off + 1) == C.Picks(marks, start, off)
              + [C.Find(marks, C.LastOf(start, C.Picks(marks, start, off)) + 1)]
    {
      hide C.Find;
    }

    lemma SameBlock(block: VirtualBlock, pool: seq<P.Slot>, picks: seq<int>, last: Transaction)
      requires |picks| == BLOCK_TRANS && P.InPool(pool, picks) && PointsInto(block, |pool|)
      requires forall i :: 0 <= i < BLOCK_TRANS ==> block.ptrs[i] == PoolCell(picks[i])
      requires block.ptrs[BLOCK_TRANS] == RewardCell
      ensures DerefBlock(block, pool, last) == L.BlockOf(pool, block.id, picks, last)
    {
      assert DerefBlock(block, pool, last).trans == L.BlockOf(pool, block.id, picks, last).trans;
    }

    method SumRewards() returns (sum: int)
      requires P.InPool(slots[..], clearPos[..]) && clearPos.Length == BLOCK_TRANS
      ensures sum == P.RewardSum(slots[..], clearPos[..])
    {
      sum := 0;
      for i := 0 to BLOCK_TRANS
        invariant sum == P.RewardSum(slots[..], clearPos[..i])
      {
        assert clearPos[..i + 1][..i] == clearPos[..i];
        sum := sum + slots[clearPos[i]].trans.reward;
      }
      assert clearPos[..BLOCK_TRANS] == clearPos[..];
    }

    /** clear_block. */
    method ClearBlock()
      requires clearPos.Length == BLOCK_TRANS && P.InPool(slots[..], clearPos[..])
      modifies this`size, this`budget, slots
      ensures View() == P.Cleared(old(View()), clearPos[..])
      ensures budget == old(budget) + P.RewardSum(old(slots[..]), clearPos[..])
    {
      ghost var was, ps := slots[..], clearPos[..];
      for i := 0 to BLOCK_TRANS
        invariant slots[..] == P.Clear(was, ps[..i])
        invariant size == old(size) - i && budget == old(budget) + P.RewardSum(was, ps[..i])
      {
        assert ps[..i + 1][..i] == ps[..i];
        P.ClearSpec(was, ps[..i]);
        slots[clearPos[i]] := slots[clearPos[i]].(used := false);
        size := size - 1;
        budget := budget + slots[clearPos[i]].trans.reward;
      }
      assert ps[..BLOCK_TRANS] == ps;
    }

    /** One round of the block life cycle in the main loop, with no other process in between. */
    method BlockCycle(ledger: SharedLedger, sec: nat, nsec: nat) returns (outcome: BlockOutcome)
      requires Valid() && ledger.Valid()
      modifies this`size, this`budget, this`cursor, this`reward, slots, clearPos, ledger, ledger.blocks
      ensures Valid() && ledger.Valid()
      ensures outcome == if old(size) < BLOCK_TRANS then NoBlock
                         else if old(ledger.lastId) > REGISTRY_SIZE then NoId
                         else if old(ledger.lastId) > ledger.blocks.Length - 1 then Refused
                         else if ledger.count == ledger.blocks.Length then Filled else Recorded
      ensures outcome == NoBlock || outcome == NoId ==> View() == old(View()) && budget == old(budget)
      ensures outcome == NoBlock ==> ledger.View() == old(ledger.View())
      ensures outcome == NoId || outcome == Refused ==> ledger.View() == L.Reserve(old(ledger.View()))
      ensures outcome != NoBlock && outcome != NoId ==>
                && P.PicksOk(old(slots[..]), P.BlockPicks(old(View())))
                && View() == P.Cleared(old(View()), P.BlockPicks(old(View())))
                             .(cursor := P.BlockPicks(old(View()))[BLOCK_TRANS - 1])
                && budget == old(budget) + P.RewardSum(old(slots[..]), P.BlockPicks(old(View())))
      ensures outcome == Recorded || outcome == Filled ==>
                var block := L.BlockOf(old(slots[..]), old(ledger.lastId), P.BlockPicks(old(View())),
                                       Transaction(sec, nsec, pid, REWARD_PID,
                                           P.RewardSum(old(slots[..]), P.BlockPicks(old(View()))), 0));
                ledger.View() == L.AddBlock(L.Reserve(old(ledger.View())), block)
    {
      hide C.Distinct, P.UsedCount, P.BlockPicks, P.RewardSum, L.LedgerOk, P.Clear, L.BlockOf;
      if size < BLOCK_TRANS {
        return NoBlock;
      }
      ghost var before := View();
      P.BlockPicksSpec(View(), slots.Length);
      var id := ledger.GetNewBlockId();
      var ok, block := CreateBlock(id, sec, nsec);
      if ok == -1 {
        return NoId;
      }
      var ret, reached := ledger.AddBlock(block, slots, reward);
      P.ClearedOk(View(), slots.Length, clearPos[..]);
      ClearBlock();
      outcome := if ret == -1 then Refused else if reached then Filled else Recorded;
    }

    /** The main loop's treatment of a received message; the three flags say which sends succeed. */
    method HandleMessage(mex: Message, maxHops: int, friends: seq<int>, rand: nat, masterPid: int,
                         toFriend: bool, toMaster: bool, toUser: bool) returns (outcome: Outcome)
      requires Valid() && |friends| > 0
      modifies this`size, slots
      ensures Valid() && cursor == old(cursor)
      ensures outcome == Deposited <==> exists i :: 0 <= i < slots.Length && !old(slots[i].used)
      ensures outcome == Deposited ==> P.PoolMoney(slots[..]) == P.PoolMoney(old(slots[..])) + Amount(mex.trans)
      ensures outcome != Deposited ==>
                && View() == old(View())
                && outcome == if mex.hops >= maxHops
                              then (if toMaster then HandedOver(Message(masterPid, mex.hops, mex.trans)) else Lost)
                              else if toFriend
                              then Sent(Message(friends[RandIntRange(rand, 0, |friends| - 1)], mex.hops + 1, mex.trans))
                              else if toUser
                              then Refunded(Refund(mex.trans.sender, mex.trans.quantity + mex.trans.reward))
                              else Lost
    {
      hide P.PoolMoney, P.UsedCount, P.Deposit;
      P.DepositSpec(View(), slots.Length, mex.trans);
      var ok := MsgPoolDeposit(mex.trans);
      if ok == 1 {
        return Deposited;
      }
      match ForwardTo(maxHops, friends, mex, rand)
      case Some(m) => outcome := if toFriend then Sent(m) else if toUser then Refunded(RefundOf(mex.trans)) else Lost;
      case None => outcome := if toMaster then HandedOver(mex.(to := masterPid)) else Lost;
    }

    /** Extraction of one pool transaction for a friend.  Only a successful send frees the slot. */
    method ExtractTransaction(maxHops: int, friends: seq<int>, rand: nat, masterPid: int,
                              toFriend: bool, toMaster: bool, toUser: bool) returns (outcome: Outcome)
      requires Valid() && |friends| > 0
      modifies this`size, this`cursor, slots
      ensures Valid()
      ensures old(size) == 0 ==> outcome == Nothing && View() == old(View())
      ensures old(size) > 0 ==>
                var at := P.Next(old(View()));
                && 0 <= at < slots.Length && old(slots[at].used) && cursor == at
                && (outcome.Sent? <==> toFriend && maxHops > 0)
                && (outcome.Sent? ==> outcome.m.to == friends[RandIntRange(rand, 0, |friends| - 1)]
                                      && outcome.m.trans == old(slots[at].trans) && outcome.m.hops == 1
                                      && View() == P.Release(old(View()), at).(cursor := at))
                && (!outcome.Sent? ==> slots[..] == old(slots[..]) && size == old(size))
                && (!outcome.Sent? && maxHops > 0 ==>
                      outcome == var t := old(slots[at].trans);
                                 if toUser then Refunded(Refund(t.sender, t.quantity + t.reward)) else Lost)
                && (!outcome.Sent? && maxHops <= 0 ==>
                      outcome == if toMaster then HandedOver(Message(masterPid, 0, old(slots[at].trans))) else Lost)
    {
      hide P.UsedCount, C.Find;
      ghost var before := View();
      P.SizeMeans(before, slots.Length);
      P.NextSpec(before, slots.Length);
      if !(size > 0) {
        return Nothing;
      }
      var at := FindTpTrans(cursor + 1);
      assert at == P.Next(before);
      cursor := at;
      var mex := Message(0, 0, slots[at].trans);
      match ForwardTo(maxHops, friends, mex, rand)
      case Some(m) =>
        if toFriend {
          P.ReleaseSpec(before.(cursor := at), slots.Length, at);
          slots[at] := slots[at].(used := false);
          size := size - 1;
          outcome := Sent(m);
        } else {
          outcome := if toUser then Refunded(RefundOf(mex.trans)) else Lost;
        }
      case None =>
        outcome := if toMaster then HandedOver(mex.(to := masterPid)) else Lost;
    }
  }
}
