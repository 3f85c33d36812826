/** Sums of an integer measure over a sequence, and how they change. */
module Sums {

  function SumOf<T>(s: seq<T>, f: T -> int): int
  {
    if s == [] then 0 else SumOf(s[..|s| - 1], f) + f(s[|s| - 1])
  }

  lemma {:induction false} SumAppend<T>(a: seq<T>, b: seq<T>, f: T -> int)
    ensures SumOf(a + b, f) == SumOf(a, f) + SumOf(b, f)
  {
    if b == [] {
      assert a + b == a;
    } else {
      SumAppend(a, b[..|b| - 1], f);
      assert (a + b)[..|a + b| - 1] == a + b[..|b| - 1];
    }
  }

  lemma SumPush<T>(s: seq<T>, x: T, f: T -> int)
    ensures SumOf(s + [x], f) == SumOf(s, f) + f(x)
  {
    assert (s + [x])[..|s + [x]| - 1] == s;
  }

  lemma {:induction false} SumSplit<T>(s: seq<T>, i: nat, f: T -> int)
    requires i < |s|
    ensures SumOf(s, f) == SumOf(s[..i], f) + f(s[i]) + SumOf(s[i + 1..], f)
  {
    assert s == s[..i] + [s[i]] + s[i + 1..];
    SumAppend(s[..i] + [s[i]], s[i + 1..], f);
    SumPush(s[..i], s[i], f);
  }

  lemma {:induction false} SumUpdate<T>(s: seq<T>, i: nat, x: T, f: T -> int)
    requires i < |s|
    ensures SumOf(s[i := x], f) == SumOf(s, f) - f(s[i]) + f(x)
  {
    SumSplit(s, i, f);
    SumSplit(s[i := x], i, f);
    assert s[i := x][..i] == s[..i] && s[i := x][i + 1..] == s[i + 1..];
  }

  lemma {:induction false} SumRemove<T>(s: seq<T>, i: nat, f: T -> int)
    requires i < |s|
    ensures SumOf(s[..i] + s[i + 1..], f) == SumOf(s, f) - f(s[i])
  {
    SumSplit(s, i, f);
    SumAppend(s[..i], s[i + 1..], f);
  }

  lemma {:induction false} SumAdd<T>(s: seq<T>, f: T -> int, g: T -> int, h: T -> int)
    requires forall i :: 0 <= i < |s| ==> f(s[i]) == g(s[i]) + h(s[i])
    ensures SumOf(s, f) == SumOf(s, g) + SumOf(s, h)
  {
    if s != [] { SumAdd(s[..|s| - 1], f, g, h); }
  }

  /** A sum of non-negative parts is at least each of its parts. */
  lemma {:induction false} SumAtLeast<T>(s: seq<T>, f: T -> int)
    requires forall i :: 0 <= i < |s| ==> f(s[i]) >= 0
    ensures SumOf(s, f) >= 0
    ensures forall i :: 0 <= i < |s| ==> SumOf(s, f) >= f(s[i])
  {
    if s != [] {
      SumAtLeast(s[..|s| - 1], f);
    }
  }

  lemma {:induction false} ZeroSum<T>(s: seq<T>, f: T -> int)
    requires forall i :: 0 <= i < |s| ==> f(s[i]) == 0
    ensures SumOf(s, f) == 0
  {
    if s != [] { ZeroSum(s[..|s| - 1], f); }
  }
}

/** app/common.h and app/common.c: transactions, messages, and the two arithmetic helpers. */
module Common {

  const BLOCK_SIZE: nat := 100      // SO_BLOCK_SIZE
  const BLOCK_TRANS: nat := 99      // user transactions in a block
  const REGISTRY_SIZE: nat := 1000  // SO_REGISTRY_SIZE
  const REWARD_PID: int := -1       // REWARD_SENDER_PID

  datatype Option<+T> = None | Some(value: T)

  datatype Transaction = Transaction(sec: nat, nsec: nat, sender: int, receiver: int, quantity: int, reward: int)

  /** Fresh shared memory reads as zeros. */
  const ZERO_TRANS := Transaction(0, 0, 0, 0, 0, 0)

  datatype Message = Message(to: int, hops: int, trans: Transaction)

  datatype UserInfo = UserInfo(pid: int, budget: int, status: int, lastRead: int)

  datatype Refund = Refund(to: int, amount: int)

  /** What a transaction takes from its sender: the import and the reward of the node. */
  function Amount(t: Transaction): int {
    t.quantity + t.reward
  }

  function RefundOf(t: Transaction): Refund {
    Refund(t.sender, Amount(t))
  }

  /** round() of num / 100: to the nearest integer, halves away from zero. */
  function RoundHundredth(num: int): int {
    if num >= 0 then (2 * num + 100) / 200 else -((-2 * num + 100) / 200)
  }

  /** The node's share of a drawn total, on exact rationals. */
  function GetReward(quant: int, percent: int): (r: int)
    ensures quant * percent < 50 ==> r == 1
    ensures quant * percent >= 50 ==> r >= 1 && -50 < 100 * r - quant * percent <= 50
  {
    var ret := RoundHundredth(quant * percent);
    if ret < 1 then 1 else ret
  }

  /** The import left for the receiver is non-negative exactly when the rate is not too far above 100. */
  lemma SplitExact(total: int, percent: int)
    requires total >= 1
    ensures total - GetReward(total, percent) >= 0 <==> total * (percent - 100) < 50
  {
    var num := total * percent;
    assert total * (percent - 100) == num - total * 100;
    if num >= 0 {
      var r := (2 * num + 100) / 200;
      assert 200 * r <= 2 * num + 100 < 200 * r + 200;
    }
  }

  /** Under a rate of 0 to 100 the split is a split into a positive reward and a non-negative import. */
  lemma SplitInRange(total: int, percent: int)
    requires total >= 1 && percent <= 100
    ensures 1 <= GetReward(total, percent) <= total
  {
    SplitExact(total, percent);
    assert total * (percent - 100) <= 0;
  }

  /** rand() % (max - min + 1) + min for a non-negative rand(). */
  function RandIntRange(rand: nat, min: int, max: int): (r: int)
    requires min <= max
    ensures min <= r <= max
  {
    rand % (max - min + 1) + min
  }

  /** Every value of the range is drawn by some random number, and the draw repeats with the length of the range. */
  lemma RandReaches(min: int, max: int, x: int)
    requires min <= x <= max
    ensures RandIntRange(x - min, min, max) == x
  {
  }

  /** send_friend_trans: the message for a friend, or none when the hops are used up. */
  function ForwardTo(maxHops: int, friends: seq<int>, m: Message, rand: nat): Option<Message>
    requires |friends| > 0
  {
    if m.hops >= maxHops then None
    else Some(Message(friends[RandIntRange(rand, 0, |friends| - 1)], m.hops + 1, m.trans))
  }
}
