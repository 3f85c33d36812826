/** A user process with its row of the shared user table (app/user.c). */
module UserObject {
  import opened Common
  import opened LedgerObject
  import L = Ledger

  /** The pids sync_alive_users puts first, in table order. */
  function LiveOthers(t: seq<UserInfo>, me: int): seq<int> {
    if t == [] then []
    else
      var u := t[|t| - 1];
      LiveOthers(t[..|t| - 1], me) + (if u.status == 1 && u.pid != me then [u.pid] else [])
  }

  /** The pids it puts last, in reverse table order. */
  function Remaining(t: seq<UserInfo>, me: int): seq<int> {
    if t == [] then []
    else
      var u := t[|t| - 1];
      (if u.status == 1 && u.pid != me then [] else [u.pid]) + Remaining(t[..|t| - 1], me)
  }

  function Pids(t: seq<UserInfo>): seq<int> {
    if t == [] then [] else Pids(t[..|t| - 1]) + [t[|t| - 1].pid]
  }

  lemma OneMore(t: seq<UserInfo>, i: nat, me: int)
    requires i < |t|
    ensures LiveOthers(t[..i + 1], me) == LiveOthers(t[..i], me)
            + (if t[i].status == 1 && t[i].pid != me then [t[i].pid] else [])
    ensures Remaining(t[..i + 1], me) == (if t[i].status == 1 && t[i].pid != me then [] else [t[i].pid])
            + Remaining(t[..i], me)
  {
    assert t[..i + 1][..i] == t[..i];
  }

  /** The two parts are a permutation of all pids. */
  lemma {:induction false} Partition(t: seq<UserInfo>, me: int)
    ensures |LiveOthers(t, me)| + |Remaining(t, me)| == |t|
    ensures multiset(LiveOthers(t, me) + Remaining(t, me)) == multiset(Pids(t))
  {
    if t != [] {
      Partition(t[..|t| - 1], me);
    }
  }

  /** Exactly the live users other than me come first. */
  lemma {:induction false} LiveOthersAre(t: seq<UserInfo>, me: int, pid: int)
    ensures pid in LiveOthers(t, me) <==> pid != me && exists i :: 0 <= i < |t| && t[i].pid == pid && t[i].status == 1
  {
    if t != [] {
      var init := t[..|t| - 1];
      LiveOthersAre(init, me, pid);
      if i :| 0 <= i < |init| && init[i].pid == pid && init[i].status == 1 {
        assert t[i] == init[i];
      }
    }
  }

  lemma NoneYet(me: int)
    ensures LiveOthers([], me) == Remaining([], me) == []
  {
  }

  class UserProcess {
    const pid: int
    const offset: nat
    const budgetInit: int
    const rewardPercent: int
    const table: array<UserInfo>
    const sendableUsers: array<int>
    var sendableCount: int
    var localBudget: int
    var retry: int

    ghost predicate Valid()
      reads this, sendableUsers
    {
      && offset < table.Length == sendableUsers.Length
      && 0 <= sendableCount <= sendableUsers.Length
      && pid !in sendableUsers[..sendableCount]
    }

    method SyncAliveUsers()
      requires sendableUsers.Length == table.Length && offset < table.Length
      modifies sendableUsers, this`sendableCount
      ensures Valid()
      ensures sendableUsers[..sendableCount] == LiveOthers(table[..], pid)
      ensures sendableUsers[sendableCount..] == Remaining(table[..], pid)
      ensures multiset(sendableUsers[..]) == multiset(Pids(table[..]))
    {
      hide LiveOthers, Remaining;
      ghost var t := table[..];
      var x, y := 0, table.Length;
      NoneYet(pid);
      for i := 0 to table.Length
        modifies sendableUsers
        invariant x == |LiveOthers(t[..i], pid)| && table.Length - y == |Remaining(t[..i], pid)|
        invariant x + (table.Length - y) == i
        invariant sendableUsers[..x] == LiveOthers(t[..i], pid)
        invariant sendableUsers[y..] == Remaining(t[..i], pid)
      {
        OneMore(t, i, pid);
        ghost var front, back := sendableUsers[..x], sendableUsers[y..];
        if table[i].status == 1 && table[i].pid != pid {
          sendableUsers[x] := table[i].pid;
          x := x + 1;
          assert sendableUsers[..x] == front + [table[i].pid];
        } else {
          sendableUsers[y - 1] := table[i].pid;
          y := y - 1;
          assert sendableUsers[y..] == [sendableUsers[y]] + sendableUsers[y + 1..];
          assert sendableUsers[y + 1..] == back;
        }
      }
      sendableCount := x;
      assert t[..table.Length] == t;
      Partition(table[..], pid);
      assert sendableUsers[..] == sendableUsers[..x] + sendableUsers[x..];
      LiveOthersAre(table[..], pid, pid);
    }

    /** aliveUsers is the value of the semaphore of live users. */
    method GetUserRecPid(aliveUsers: int, rand: nat) returns (rec: Option<int>)
      requires Valid()
      modifies sendableUsers, this`sendableCount
      ensures Valid()
      ensures aliveUsers == old(sendableCount) + 1
              ==> sendableCount == old(sendableCount) && sendableUsers[..] == old(sendableUsers[..])
      ensures aliveUsers != old(sendableCount) + 1 ==> sendableUsers[..sendableCount] == LiveOthers(table[..], pid)
      ensures rec.None? <==> sendableCount == 0
      ensures rec.Some? ==> rec.value in sendableUsers[..sendableCount] && rec.value != pid
      ensures rec.Some? ==> rec.value == sendableUsers[RandIntRange(rand, 0, sendableCount - 1)]
    {
      if aliveUsers != sendableCount + 1 {
        SyncAliveUsers();
      }
      if sendableCount == 0 {
        return None;
      }
      var i := RandIntRange(rand, 0, sendableCount - 1);
      assert sendableUsers[..sendableCount][i] == sendableUsers[i];
      return Some(sendableUsers[i]);
    }

    method UpdateBudget(ledger: SharedLedger)
      requires Valid() && ledger.Valid()
      modifies table
      ensures 0 <= ledger.count <= ledger.blocks.Length
      ensures table[..] == old(table[..])[offset := old(table[offset]).(
                budget := budgetInit + L.Revenue(ledger.View(), pid) - localBudget, lastRead := ledger.count - 1)]
    {
      var revenue := ledger.GetProcessRevenue(pid);
      table[offset] := table[offset].(budget := revenue - localBudget + budgetInit, lastRead := ledger.count - 1);
    }

    /** One received refund. */
    method TakeRefund(amount: int, ledger: SharedLedger)
      requires Valid() && ledger.Valid()
      modifies table, this`localBudget, this`retry
      ensures Valid() && localBudget == old(localBudget) - amount && retry == old(retry) + 1
      ensures 0 <= ledger.count <= ledger.blocks.Length
      ensures table[..] == old(table[..])[offset := old(table[offset]).(
                budget := budgetInit + L.Revenue(ledger.View(), pid) - localBudget, lastRead := ledger.count - 1)]
      ensures old(table[offset].budget) == budgetInit + L.Revenue(ledger.View(), pid) - old(localBudget)
              ==> table[offset].budget == old(table[offset].budget) + amount
    {
      localBudget := localBudget - amount;
      UpdateBudget(ledger);
      retry := retry + 1;
    }

    /** generate_transation; sendOk says whether the message queue takes the message. */
    method GenerateTransaction(aliveUsers: int, rand: nat, amountRand: nat, node: int, sec: nat, nsec: nat,
                               sendOk: bool)
      returns (sent: Option<Message>, noMoreUsers: bool)
      requires Valid()
      modifies sendableUsers, this`sendableCount, this`localBudget
      ensures Valid()
      ensures sent.Some? ==>
                var t := sent.value.trans;
                && 2 <= Amount(t) <= table[offset].budget && localBudget == old(localBudget) + Amount(t)
                && t.quantity + t.reward == RandIntRange(amountRand, 2, table[offset].budget)
                && t.reward == GetReward(Amount(t), rewardPercent) && t.reward >= 1
                && (t.quantity >= 0 <==> Amount(t) * (rewardPercent - 100) < 50)
                && t.sender == pid && t.receiver in sendableUsers[..sendableCount] && t.receiver != pid
                && t.receiver == sendableUsers[RandIntRange(rand, 0, sendableCount - 1)]
                && t.sec == sec && t.nsec == nsec
                && sent.value.hops == 0 && sent.value.to == node
      ensures sent.None? ==> localBudget == old(localBudget)
      ensures sent.Some? <==> table[offset].budget >= 2 && sendableCount > 0 && sendOk
      ensures noMoreUsers <==> table[offset].budget >= 2 && sendableCount == 0
    {
      if table[offset].budget < 2 {
        return None, false;
      }
      var rec := GetUserRecPid(aliveUsers, rand);
      if rec.None? {
        return None, true;
      }
      var total := RandIntRange(amountRand, 2, table[offset].budget);
      var rewardImport := GetReward(total, rewardPercent);
      SplitExact(total, rewardPercent);
      if !sendOk {
        return None, false;
      }
      localBudget := localBudget + total;
      sent := Some(Message(node, 0, Transaction(sec, nsec, pid, rec.value, total - rewardImport, rewardImport)));
      noMoreUsers := false;
    }
  }
}
