/**
 A user (app/user.c) beside the ledger under concurrency: over which ledger runs it can be overdrawn.
 Sending a transaction and adding it to local_budget is one step here.
 */
module LedgerOverdraft {
  import opened Common
  import opened LedgerRace
  import opened LedgerCount

  /** At the top of its loop, or inside get_process_revenue. */
  datatype Phase = Top | Summing(i: nat, sum: int)

  /** The ledger is at state pos of its run; local is local_budget, recorded the budget in the user table. */
  datatype World = World(pos: nat, local: int, recorded: int, phase: Phase)

  datatype Act = Ledger | Refresh | Read | Draw(amount: int) | Refund(amount: int)

  /** A user with this initial budget, paid by pays, beside the ledger run t. */
  datatype Setting = Setting(t: seq<Race>, pays: Payments, init: int)

  ghost predicate SettingOk(x: Setting, maxSize: nat, nodes: nat) {
    Run(x.t, maxSize, nodes) && NoNegative(x.pays) && x.init >= 2
  }

  predicate Can(x: Setting, w: World, a: Act) {
    && w.pos < |x.t|
    && match a
       case Ledger => w.pos + 1 < |x.t|
       case Refresh => w.phase.Top?
       case Read => w.phase.Summing?
       case Draw(amount) => w.phase.Top? && 2 <= amount <= w.recorded
       case Refund(amount) => w.phase.Top? && amount >= 0
  }

  function Step(x: Setting, w: World, a: Act): World
    requires Can(x, w, a)
  {
    match a
    case Ledger => w.(pos := w.pos + 1)
    case Refresh => w.(phase := Summing(0, 0))
    case Read =>
      var s, i := x.t[w.pos], w.phase.i;
      if i < s.count
      then w.(phase := Summing(i + 1, w.phase.sum + if i in s.writes then x.pays(i) else 0))
      else w.(recorded := w.phase.sum - w.local + x.init, phase := Top)
    case Draw(amount) => w.(local := w.local + amount, phase := Summing(0, 0))
    case Refund(amount) => w.(local := w.local - amount, phase := Summing(0, 0))
  }

  ghost predicate Beside(x: Setting, ws: seq<World>, acts: seq<Act>) {
    && |ws| == |acts| + 1 && ws[0] == World(0, 0, x.init, Top)
    && forall k :: 0 <= k < |acts| ==> Can(x, ws[k], acts[k]) && ws[k + 1] == Step(x, ws[k], acts[k])
  }

  /** initial budget + revenue - local_budget. */
  function TrueBudget(x: Setting, w: World): int
    requires w.pos < |x.t| && x.t[w.pos].count >= 0
  {
    x.init + Revenue(x.t[w.pos], x.pays) - w.local
  }

  predicate Overdrawn(x: Setting, w: World) {
    w.pos < |x.t| && x.t[w.pos].count >= 0 && TrueBudget(x, w) < 0
  }

  ghost predicate CanOverdraw(x: Setting) {
    exists ws, acts :: Beside(x, ws, acts) && Overdrawn(x, ws[|acts|])
  }

  function Cost(a: Act): int {
    match a
    case Draw(amount) => amount
    case Refund(amount) => -amount
    case _ => 0
  }

  /** What the user has drawn and not had refunded in the first k steps. */
  function Spent(acts: seq<Act>, k: nat): int
    requires k <= |acts|
  {
    if k == 0 then 0 else Spent(acts, k - 1) + Cost(acts[k - 1])
  }

  /** local_budget is the sum of all draws less all refunds. */
  lemma {:induction false} LocalBudget(x: Setting, ws: seq<World>, acts: seq<Act>, k: nat)
    requires Beside(x, ws, acts) && k <= |acts|
    ensures ws[k].local == Spent(acts, k)
  {
    if k > 0 {
      LocalBudget(x, ws, acts, k - 1);
      assert Can(x, ws[k - 1], acts[k - 1]) && ws[k - 1 + 1] == Step(x, ws[k - 1], acts[k - 1]);
    }
  }

  /** Any amount from 2 up to the recorded budget can be drawn. */
  lemma DrawsAny(x: Setting, w: World, amount: int)
    requires w.pos < |x.t| && w.phase.Top? && 2 <= amount <= w.recorded
    ensures Can(x, w, Draw(amount)) && Step(x, w, Draw(amount)).local == w.local + amount
    ensures Step(x, w, Draw(amount)).phase == Summing(0, 0)
  {
  }

  // ---- not while revenue never falls ----

  predicate Safe(x: Setting, w: World) {
    && w.pos < |x.t| && x.t[w.pos].count >= 0 && TrueBudget(x, w) >= 0
    && match w.phase
       case Top => w.recorded <= TrueBudget(x, w)
       case Summing(i, sum) => sum <= Revenue(x.t[w.pos], x.pays) && sum <= PaidUpTo(x.t[w.pos].writes, x.pays, i)
  }

  lemma StepSafe(x: Setting, maxSize: nat, nodes: nat, w: World, a: Act)
    requires SettingOk(x, maxSize, nodes) && Safe(x, w) && Can(x, w, a)
    requires a.Ledger? ==> !Uncovers(x.t[w.pos], x.t[w.pos + 1], x.pays)
    ensures Safe(x, Step(x, w, a))
  {
    hide Next, Inv, Uncovers;
    var s := x.t[w.pos];
    if a.Ledger? {
      RunInv(x.t, maxSize, nodes, w.pos);
      assert Next(x.t[w.pos + 1 - 1], x.t[w.pos + 1]);
      NextRevenue(s, x.t[w.pos + 1], x.pays);
      NextWrites(s, x.t[w.pos + 1]);
      if w.phase.Summing? { PaidGrows(s.writes, x.t[w.pos + 1].writes, x.pays, w.phase.i); }
    } else if a.Read? && w.phase.i < s.count {
      PaidRest(s.writes, x.pays, w.phase.i + 1, s.count);
    } else if !a.Read? {
      PaidRest(s.writes, x.pays, 0, s.count);
    }
  }

  lemma {:induction false} RunSafe(x: Setting, maxSize: nat, nodes: nat, ws: seq<World>, acts: seq<Act>, k: nat)
    requires SettingOk(x, maxSize, nodes) && Beside(x, ws, acts) && k <= |acts|
    requires forall j :: 0 < j < |x.t| ==> !Uncovers(x.t[j - 1], x.t[j], x.pays)
    ensures Safe(x, ws[k])
  {
    hide Next, Uncovers, Safe, SettingOk;
    if k == 0 {
      StartSafe(x, maxSize, nodes);
    } else {
      RunSafe(x, maxSize, nodes, ws, acts, k - 1);
      var w, a := ws[k - 1], acts[k - 1];
      assert Can(x, w, a) && ws[k - 1 + 1] == Step(x, w, a);
      if a.Ledger? { assert !Uncovers(x.t[w.pos + 1 - 1], x.t[w.pos + 1], x.pays); }
      StepSafe(x, maxSize, nodes, w, a);
    }
  }

  lemma StartSafe(x: Setting, maxSize: nat, nodes: nat)
    requires SettingOk(x, maxSize, nodes)
    ensures Safe(x, World(0, 0, x.init, Top))
  {
  }

  // ---- but as soon as it falls ----

  ghost predicate Reached(x: Setting, w: World) {
    exists ws, acts :: Beside(x, ws, acts) && ws[|acts|] == w
  }

  lemma Do(x: Setting, w: World, a: Act)
    requires Reached(x, w) && Can(x, w, a)
    ensures Reached(x, Step(x, w, a))
  {
    hide Can, Step;
    var ws, acts :| Beside(x, ws, acts) && ws[|acts|] == w;
    var ws', acts' := ws + [Step(x, w, a)], acts + [a];
    assert Beside(x, ws', acts') && ws'[|acts'|] == Step(x, w, a);
  }

  lemma {:induction false} Waits(x: Setting, pos: nat)
    requires pos < |x.t|
    ensures Reached(x, World(pos, 0, x.init, Top))
  {
    hide Reached;
    if pos == 0 {
      StartReached(x);
    } else {
      Waits(x, pos - 1);
      Do(x, World(pos - 1, 0, x.init, Top), Ledger);
    }
  }

  lemma StartReached(x: Setting)
    ensures Reached(x, World(0, 0, x.init, Top))
  {
    var acts: seq<Act> := [];
    assert Beside(x, [World(0, 0, x.init, Top)], acts);
  }

  lemma {:induction false} Sums(x: Setting, pos: nat, i: nat)
    requires pos < |x.t| && 0 <= i <= x.t[pos].count
    ensures Reached(x, World(pos, 0, x.init, Summing(i, PaidUpTo(x.t[pos].writes, x.pays, i))))
  {
    hide Reached;
    if i == 0 {
      Waits(x, pos);
      Do(x, World(pos, 0, x.init, Top), Refresh);
    } else {
      Sums(x, pos, i - 1);
      Do(x, World(pos, 0, x.init, Summing(i - 1, PaidUpTo(x.t[pos].writes, x.pays, i - 1))), Read);
    }
  }

  /** The user draws all it has just before its revenue falls. */
  lemma DrawsAll(x: Setting, maxSize: nat, nodes: nat, pos: nat)
    requires SettingOk(x, maxSize, nodes) && pos + 1 < |x.t| && Uncovers(x.t[pos], x.t[pos + 1], x.pays)
    ensures CanOverdraw(x)
  {
    hide Next, Inv, Reached, Uncovers;
    RunInv(x.t, maxSize, nodes, pos);
    assert Next(x.t[pos + 1 - 1], x.t[pos + 1]);
    NextRevenue(x.t[pos], x.t[pos + 1], x.pays);
    var s := x.t[pos];
    var revenue := Revenue(s, x.pays);
    PaidRest(s.writes, x.pays, 0, s.count);
    Sums(x, pos, s.count);
    Do(x, World(pos, 0, x.init, Summing(s.count, revenue)), Read);
    var w := World(pos, 0, revenue + x.init, Top);
    Do(x, w, Draw(revenue + x.init));
    var v := World(pos, revenue + x.init, revenue + x.init, Summing(0, 0));
    Do(x, v, Ledger);
    Overdraws(x, Step(x, v, Ledger));
  }

  lemma Overdraws(x: Setting, w: World)
    requires Reached(x, w) && Overdrawn(x, w)
    ensures CanOverdraw(x)
  {
    hide Beside, Overdrawn;
  }

  /**
   For any run of the ledger with any number of nodes: a user beside it that starts with at least 2
   cannot become overdrawn, whatever it draws and is refunded and however its steps fall between the
   others', if and only if no step of the run takes a block that pays it out of the count.
   */
  lemma NoOverdraftIff(x: Setting, maxSize: nat, nodes: nat)
    requires SettingOk(x, maxSize, nodes)
    ensures !CanOverdraw(x) <==> forall k :: 0 < k < |x.t| ==> !Uncovers(x.t[k - 1], x.t[k], x.pays)
  {
    hide Run, Next, Uncovers, Overdrawn, Safe;
    if k :| 0 < k < |x.t| && Uncovers(x.t[k - 1], x.t[k], x.pays) {
      DrawsAll(x, maxSize, nodes, k - 1);
    } else {
      forall ws, acts | Beside(x, ws, acts) ensures !Overdrawn(x, ws[|acts|]) {
        RunSafe(x, maxSize, nodes, ws, acts, |acts|);
        SafeMeans(x, ws[|acts|]);
      }
    }
  }

  lemma SafeMeans(x: Setting, w: World)
    requires Safe(x, w)
    ensures !Overdrawn(x, w)
  {
  }
}
