/** The streaming selection of print_summary (app/main.c): the five highest and five lowest budgets. */
module Selection {
  import opened Common

  const SHOWN: nat := 5  // PRINT_PROCESS_LIMIT / 2

  method GetMinIdxFromArr(users: array<UserInfo>, n: nat) returns (minIdx: nat)
    requires 0 < n <= users.Length
    ensures minIdx < n
    ensures forall i :: 0 <= i < n ==> users[minIdx].budget <= users[i].budget
    ensures forall i :: 0 <= i < minIdx ==> users[minIdx].budget < users[i].budget
  {
    var i := 1;
    minIdx := 0;
    while i < n
      invariant 1 <= i <= n && minIdx < i
      invariant forall j :: 0 <= j < i ==> users[minIdx].budget <= users[j].budget
      invariant forall j :: 0 <= j < minIdx ==> users[minIdx].budget < users[j].budget
    {
      if users[i].budget < users[minIdx].budget {
        minIdx := i;
      }
      i := i + 1;
    }
  }

  method GetMaxIdxFromArr(users: array<UserInfo>, n: nat) returns (maxIdx: nat)
    requires 0 < n <= users.Length
    ensures maxIdx < n
    ensures forall i :: 0 <= i < n ==> users[maxIdx].budget >= users[i].budget
    ensures forall i :: 0 <= i < maxIdx ==> users[maxIdx].budget > users[i].budget
  {
    var i := 1;
    maxIdx := 0;
    while i < n
      invariant 1 <= i <= n && maxIdx < i
      invariant forall j :: 0 <= j < i ==> users[maxIdx].budget >= users[j].budget
      invariant forall j :: 0 <= j < maxIdx ==> users[maxIdx].budget > users[j].budget
    {
      if users[i].budget > users[maxIdx].budget {
        maxIdx := i;
      }
      i := i + 1;
    }
  }

  /** sel holds the users at the pairwise distinct places at, all of them among the first n. */
  predicate Chosen(users: seq<UserInfo>, n: nat, sel: seq<UserInfo>, at: seq<nat>)
  {
    && |at| == |sel| && n <= |users|
    && (forall k :: 0 <= k < |at| ==> at[k] < n && sel[k] == users[at[k]])
    && forall j, k :: 0 <= j < k < |at| ==> at[j] != at[k]
  }

  predicate Highest(users: seq<UserInfo>, n: nat, sel: seq<UserInfo>, at: seq<nat>) {
    && Chosen(users, n, sel, at)
    && forall j, k :: 0 <= j < n && j !in at && 0 <= k < |sel| ==> users[j].budget <= sel[k].budget
  }

  predicate Lowest(users: seq<UserInfo>, n: nat, sel: seq<UserInfo>, at: seq<nat>) {
    && Chosen(users, n, sel, at)
    && forall j, k :: 0 <= j < n && j !in at && 0 <= k < |sel| ==> users[j].budget >= sel[k].budget
  }

  /** Replacing the lowest selected user by a higher newcomer, or leaving it, keeps the selection highest. */
  lemma HighestStep(users: seq<UserInfo>, n: nat, sel: seq<UserInfo>, at: seq<nat>, x: nat)
    requires n < |users| && Highest(users, n, sel, at) && x < |sel|
    requires forall k :: 0 <= k < |sel| ==> sel[x].budget <= sel[k].budget
    ensures users[n].budget > sel[x].budget ==> Highest(users, n + 1, sel[x := users[n]], at[x := n])
    ensures users[n].budget <= sel[x].budget ==> Highest(users, n + 1, sel, at)
  {
    var at' := at[x := n];
    forall j | 0 <= j < n + 1 && j !in at' ensures j < n && (j in at ==> j == at[x]) {
      assert at'[x] == n;
      assert forall k :: 0 <= k < |at| && k != x ==> at[k] == at'[k];
    }
  }

  lemma LowestStep(users: seq<UserInfo>, n: nat, sel: seq<UserInfo>, at: seq<nat>, y: nat)
    requires n < |users| && Lowest(users, n, sel, at) && y < |sel|
    requires forall k :: 0 <= k < |sel| ==> sel[y].budget >= sel[k].budget
    ensures users[n].budget < sel[y].budget ==> Lowest(users, n + 1, sel[y := users[n]], at[y := n])
    ensures users[n].budget >= sel[y].budget ==> Lowest(users, n + 1, sel, at)
  {
    var at' := at[y := n];
    forall j | 0 <= j < n + 1 && j !in at' ensures j < n && (j in at ==> j == at[y]) {
      assert at'[y] == n;
      assert forall k :: 0 <= k < |at| && k != y ==> at[k] == at'[k];
    }
  }

  /** One round of the loop once both selections are full. */
  method Consider(users: array<UserInfo>, j: nat, max: array<UserInfo>, min: array<UserInfo>,
                  ghost hi: seq<nat>, ghost lo: seq<nat>)
    returns (ghost hi': seq<nat>, ghost lo': seq<nat>)
    requires j < users.Length && max.Length == min.Length == SHOWN
    requires max != min && max != users && min != users
    requires Highest(users[..], j, max[..], hi) && Lowest(users[..], j, min[..], lo)
    modifies max, min
    ensures Highest(users[..], j + 1, max[..], hi') && Lowest(users[..], j + 1, min[..], lo')
  {
    var x := GetMinIdxFromArr(max, SHOWN);
    var y := GetMaxIdxFromArr(min, SHOWN);
    HighestStep(users[..], j, max[..], hi, x);
    LowestStep(users[..], j, min[..], lo, y);
    hi', lo' := hi, lo;
    if users[j].budget > max[x].budget {
      max[x] := users[j];
      hi' := hi[x := j];
    }
    if users[j].budget < min[y].budget {
      min[y] := users[j];
      lo' := lo[y := j];
    }
  }

  /** The loop over a fixed snapshot of the user table. */
  method SelectExtremes(users: array<UserInfo>) returns (highest: seq<UserInfo>, lowest: seq<UserInfo>)
    requires users.Length >= SHOWN
    ensures |highest| == |lowest| == SHOWN
    ensures exists at :: Highest(users[..], users.Length, highest, at)
    ensures exists at :: Lowest(users[..], users.Length, lowest, at)
  {
    var max := new UserInfo[SHOWN](i => UserInfo(0, 0, 0, 0));
    var min := new UserInfo[SHOWN](i => UserInfo(0, 0, 0, 0));
    ghost var snap := users[..];
    ghost var hi: seq<nat>, lo: seq<nat> := [], [];
    var j := 0;
    while j < users.Length
      invariant 0 <= j <= users.Length && users[..] == snap
      invariant fresh(max) && fresh(min) && max != min && max.Length == min.Length == SHOWN
      invariant |hi| == |lo| == if j < SHOWN then j else SHOWN
      invariant j < SHOWN ==> forall k :: 0 <= k < j ==> hi[k] == lo[k] == k
      invariant Highest(snap, j, max[..|hi|], hi)
      invariant Lowest(snap, j, min[..|lo|], lo)
    {
      if j < SHOWN {
        ghost var was, was' := max[..j], min[..j];
        max[j], min[j] := users[j], users[j];
        hi, lo := hi + [j], lo + [j];
        assert max[..|hi|] == was + [snap[j]] && min[..|lo|] == was' + [snap[j]];
        Fill(snap, j, was, hi);
        Fill(snap, j, was', lo);
      } else {
        assert max[..] == max[..|hi|] && min[..] == min[..|lo|];
        hi, lo := Consider(users, j, max, min, hi, lo);
        assert max[..] == max[..|hi|] && min[..] == min[..|lo|];
      }
      j := j + 1;
    }
    highest, lowest := max[..], min[..];
    assert highest == max[..|hi|] && lowest == min[..|lo|];
  }

  /** While the selections fill up they hold every user seen, in place. */
  lemma Fill(users: seq<UserInfo>, n: nat, sel: seq<UserInfo>, at: seq<nat>)
    requires n < |users| && |sel| == n && |at| == n + 1
    requires forall k :: 0 <= k <= n ==> at[k] == k
    requires Chosen(users, n, sel, at[..n])
    ensures Highest(users, n + 1, sel + [users[n]], at)
    ensures Lowest(users, n + 1, sel + [users[n]], at)
  {
    forall j | 0 <= j < n + 1 ensures j in at {
      assert at[j] == j;
    }
  }
}
