/**
 The whole simulation as one state machine: users (app/user.c), nodes (app/node.c), the master
 (app/main.c) and the ledger (app/ledger.c, with add_block as one step).  Every send, receive and
 update of shared data is a step of its own, in any interleaving.
 */
module System {
  import opened Common
  import P = Pool
  import L = Ledger

  datatype Config = Config(budgetInit: int, rewardPercent: int, tpSize: nat, hops: int, maxNodes: int)

  // ---- processes ----

  datatype UserPhase =
    | UIdle
    | UDebit(total: int)           // has sent a transaction, before adding it to local_budget
    | UCredit(amount: int)         // has received a refund, before subtracting it from local_budget
    | UReading(i: nat, sum: int)   // inside get_process_revenue
    | UDead

  datatype User = User(pid: int, local: int, recorded: int, phase: UserPhase)

  datatype NodePhase =
    | NFresh                                      // created by the master, waits for its first transaction
    | NPoll                                       // reads the message queues
    | NRoute(msg: Message)                        // holds a received message
    | NToMaster(msg: Message)                     // hops used up: hands it to the master
    | NReject(msg: Message)                       // no room in the queues: sends a refund
    | NCron                                       // about to extract one transaction
    | NExtract(at: nat)                           // has found one, about to send it to a friend
    | NCronMaster(at: nat)
    | NCronReject(at: nat)
    | NSent(at: nat)                              // has sent it, before freeing the slot
    | NBlock                                      // checks whether a block can be built
    | NId(id: int)                                // has reserved a block id
    | NBuilt(id: int, picks: seq<int>, rewards: int)  // the block refers to the slots picks
    | NRecorded(picks: seq<int>, full: bool)      // has written the block, before clear_block
    | NRefused(picks: seq<int>)                   // the ledger refused the block, before clear_block
    | NStopped                                    // in pause()

  datatype Node = Node(pid: int, pool: P.Pool, budget: int, friends: seq<int>, phase: NodePhase)

  datatype MasterPhase = MIdle | MHold(msg: Message) | MForward(msg: Message, to: int) | MReject(msg: Message)

  datatype State = State(users: seq<User>, nodes: seq<Node>, ledger: L.Ledger, queue: seq<Message>,
                         priority: seq<Message>, refunds: seq<Refund>, master: MasterPhase, masterPid: int)

  // ---- what a step does to the shared part ----

  datatype Effect =
    | Nothing
    | TakeQueue(k: nat) | TakePriority(k: nat) | TakeRefund(k: nat)
    | PutQueue(m: Message) | PutPriority(m: Message) | PutRefund(r: Refund)
    | ReserveId | Write(b: L.Block) | NewNode(n: Node)

  function Without<T>(s: seq<T>, k: nat): seq<T>
    requires k < |s|
  {
    s[..k] + s[k + 1..]
  }

  predicate EffectCan(s: State, e: Effect) {
    match e
    case TakeQueue(k) => k < |s.queue|
    case TakePriority(k) => k < |s.priority|
    case TakeRefund(k) => k < |s.refunds|
    case Write(b) => b.id >= 0
    case _ => true
  }

  function ApplyEffect(s: State, e: Effect): State
    requires EffectCan(s, e)
  {
    match e
    case Nothing => s
    case TakeQueue(k) => s.(queue := Without(s.queue, k))
    case TakePriority(k) => s.(priority := Without(s.priority, k))
    case TakeRefund(k) => s.(refunds := Without(s.refunds, k))
    case PutQueue(m) => s.(queue := s.queue + [m])
    case PutPriority(m) => s.(priority := s.priority + [m])
    case PutRefund(r) => s.(refunds := s.refunds + [r])
    case ReserveId => s.(ledger := L.Reserve(s.ledger))
    case Write(b) => s.(ledger := L.AddBlock(s.ledger, b))
    case NewNode(n) => s.(nodes := s.nodes + [n])
  }

  // ---- users ----

  datatype UserAct =
    | Refresh                                                             // starts update_budget
    | Collect(k: nat)                                                     // receives a refund
    | Draw(rand: nat, node: int, receiver: int, sec: nat, nsec: nat)      // sends a transaction
    | Die
    | Go                                                                  // continues what it is doing

  predicate UserCan(s: State, u: User, a: UserAct) {
    match a
    case Refresh => u.phase.UIdle?
    case Collect(k) => u.phase.UIdle? && k < |s.refunds| && s.refunds[k].to == u.pid
    case Draw(_, _, receiver, _, _) => u.phase.UIdle? && u.recorded >= 2 && receiver != u.pid
    case Die => u.phase.UIdle?
    case Go => u.phase.UDebit? || u.phase.UCredit? || u.phase.UReading?
  }

  function DrawnTotal(u: User, rand: nat): int
    requires u.recorded >= 2
  {
    RandIntRange(rand, 2, u.recorded)
  }

  function DrawnTrans(cfg: Config, u: User, a: UserAct): Transaction
    requires a.Draw? && u.recorded >= 2
  {
    var total := DrawnTotal(u, a.rand);
    var reward := GetReward(total, cfg.rewardPercent);
    Transaction(a.sec, a.nsec, u.pid, a.receiver, total - reward, reward)
  }

  function UserNext(cfg: Config, s: State, u: User, a: UserAct): User
    requires UserCan(s, u, a)
  {
    match a
    case Refresh => u.(phase := UReading(0, 0))
    case Collect(k) => u.(phase := UCredit(s.refunds[k].amount))
    case Draw(rand, _, _, _, _) => u.(phase := UDebit(DrawnTotal(u, rand)))
    case Die => u.(phase := UDead)
    case Go =>
      match u.phase
      case UDebit(total) => u.(local := u.local + total, phase := UReading(0, 0))
      case UCredit(amount) => u.(local := u.local - amount, phase := UReading(0, 0))
      case UReading(i, sum) =>
        if i < s.ledger.count && i < |s.ledger.blocks|
        then u.(phase := UReading(i + 1, sum + L.Paid(s.ledger.blocks[i], u.pid)))
        else u.(recorded := sum - u.local + cfg.budgetInit, phase := UIdle)
  }

  function UserEffect(cfg: Config, s: State, u: User, a: UserAct): Effect
    requires UserCan(s, u, a)
  {
    match a
    case Collect(k) => TakeRefund(k)
    case Draw(_, node, _, _, _) => PutQueue(Message(node, 0, DrawnTrans(cfg, u, a)))
    case _ => Nothing
  }

  // ---- nodes ----

  /** ok: whether a message is found, or a send succeeds; k: which message; rand: which friend. */
  datatype Choice = Choice(ok: bool, k: nat, rand: nat, pid: int, friends: seq<int>, sec: nat, nsec: nat)

  predicate NodeCan(s: State, n: Node, c: Choice) {
    match n.phase
    case NFresh => c.k < |s.priority| && s.priority[c.k].to == n.pid
    case NPoll => c.ok ==> c.k < |s.queue| && s.queue[c.k].to == n.pid
    case NRoute(_) => |n.friends| > 0
    case NExtract(_) => |n.friends| > 0
    case NStopped => false
    case _ => true
  }

  function Forwarded(cfg: Config, n: Node, m: Message, rand: nat): Option<Message>
    requires |n.friends| > 0
  {
    ForwardTo(cfg.hops, n.friends, m, rand)
  }

  function RewardTrans(n: Node, rewards: int, c: Choice): Transaction {
    Transaction(c.sec, c.nsec, n.pid, REWARD_PID, rewards, 0)
  }

  /** The phases carry places and references that exist. */
  predicate PhaseOk(n: Node) {
    match n.phase
    case NFresh => n.pool.size == 0
    case NExtract(at) => at < |n.pool.slots| && n.pool.slots[at].used
    case NCronMaster(at) => at < |n.pool.slots| && n.pool.slots[at].used
    case NCronReject(at) => at < |n.pool.slots| && n.pool.slots[at].used
    case NSent(at) => at < |n.pool.slots| && n.pool.slots[at].used
    case NId(_) => n.pool.size >= BLOCK_TRANS
    case NBuilt(id, picks, rewards) => id <= REGISTRY_SIZE && P.PicksOk(n.pool.slots, picks)
        && rewards == P.RewardSum(n.pool.slots, picks)
    case NRecorded(picks, _) => P.PicksOk(n.pool.slots, picks)
    case NRefused(picks) => P.PicksOk(n.pool.slots, picks)
    case _ => true
  }

  predicate NodeOk(cfg: Config, n: Node) {
    P.PoolOk(n.pool, cfg.tpSize) && PhaseOk(n)
  }

  function Poll(n: Node): Node {
    n.(phase := NPoll)
  }

  /** clear_block. */
  function ClearBlock(n: Node, picks: seq<int>, next: NodePhase): Node
    requires P.InPool(n.pool.slots, picks)
  {
    n.(pool := P.Cleared(n.pool, picks), budget := n.budget + P.RewardSum(n.pool.slots, picks), phase := next)
  }

  function NodeNext(cfg: Config, s: State, n: Node, c: Choice): Node
    requires NodeCan(s, n, c) && NodeOk(cfg, n)
  {
    match n.phase
    case NFresh =>
      (match P.Deposit(n.pool, s.priority[c.k].trans)
       case Some(pool) => n.(pool := pool, phase := NPoll)
       case None => Poll(n))
    case NPoll => if c.ok then n.(phase := NRoute(s.queue[c.k])) else n.(phase := NCron)
    case NRoute(msg) =>
      (match P.Deposit(n.pool, msg.trans)
       case Some(pool) => n.(pool := pool, phase := NPoll)
       case None =>
         if Forwarded(cfg, n, msg, c.rand).None? then n.(phase := NToMaster(msg))
         else if c.ok then Poll(n)
         else n.(phase := NReject(msg)))
    case NToMaster(_) => Poll(n)
    case NReject(_) => Poll(n)
    case NCron =>
      if n.pool.size > 0
      then (P.NextSpec(n.pool, cfg.tpSize);
            n.(pool := n.pool.(cursor := P.Next(n.pool)), phase := NExtract(P.Next(n.pool))))
      else n.(phase := NBlock)
    case NExtract(at) =>
      if Forwarded(cfg, n, Message(0, 0, n.pool.slots[at].trans), c.rand).None? then n.(phase := NCronMaster(at))
      else if c.ok then n.(phase := NSent(at))
      else n.(phase := NCronReject(at))
    case NCronMaster(_) => n.(phase := NBlock)
    case NCronReject(_) => n.(phase := NBlock)
    case NSent(at) => n.(pool := P.Release(n.pool, at), phase := NBlock)
    case NBlock => if n.pool.size >= BLOCK_TRANS then n.(phase := NId(s.ledger.lastId)) else Poll(n)
    case NId(id) =>
      if id > REGISTRY_SIZE then n.(phase := NStopped)
      else
        var picks := P.BlockPicks(n.pool);
        if !P.InPool(n.pool.slots, picks) then n.(pool := n.pool.(cursor := -1), phase := NStopped)
        else n.(pool := n.pool.(cursor := picks[BLOCK_TRANS - 1]),
                phase := NBuilt(id, picks, P.RewardSum(n.pool.slots, picks)))
    case NBuilt(id, picks, _) =>
      if L.Refuses(s.ledger, id) then n.(phase := NRefused(picks))
      else n.(phase := NRecorded(picks, s.ledger.count + 1 == |s.ledger.blocks|))
    case NRecorded(picks, full) => ClearBlock(n, picks, if full then NStopped else NPoll)
    case NRefused(picks) => ClearBlock(n, picks, NPoll)
    case NStopped => n
  }

  function NodeEffect(cfg: Config, s: State, n: Node, c: Choice): Effect
    requires NodeCan(s, n, c) && NodeOk(cfg, n)
  {
    match n.phase
    case NFresh => TakePriority(c.k)
    case NPoll => if c.ok then TakeQueue(c.k) else Nothing
    case NRoute(msg) =>
      var f := Forwarded(cfg, n, msg, c.rand);
      if P.Deposit(n.pool, msg.trans).None? && f.Some? && c.ok then PutQueue(f.value) else Nothing
    case NToMaster(msg) => if c.ok then PutPriority(msg.(to := s.masterPid)) else Nothing
    case NReject(msg) => if c.ok then PutRefund(RefundOf(msg.trans)) else Nothing
    case NExtract(at) =>
      var f := Forwarded(cfg, n, Message(0, 0, n.pool.slots[at].trans), c.rand);
      if f.Some? && c.ok then PutQueue(f.value) else Nothing
    case NCronMaster(at) => if c.ok then PutPriority(Message(s.masterPid, 0, n.pool.slots[at].trans)) else Nothing
    case NCronReject(at) => if c.ok then PutRefund(RefundOf(n.pool.slots[at].trans)) else Nothing
    case NBlock => if n.pool.size >= BLOCK_TRANS then ReserveId else Nothing
    case NBuilt(id, picks, rewards) =>
      if L.Refuses(s.ledger, id) then Nothing
      else Write(L.BlockOf(n.pool.slots, id, picks, RewardTrans(n, rewards, c)))
    case _ => Nothing
  }

  // ---- the master ----

  function FreshNode(cfg: Config, pid: int, friends: seq<int>, phase: NodePhase): Node {
    Node(pid, P.Pool(P.EmptySlots(cfg.tpSize), 0, -1), 0, friends, phase)
  }

  /** fork returns a pid that no node has. */
  predicate FreshPid(s: State, pid: int) {
    pid > 0 && forall i :: 0 <= i < |s.nodes| ==> s.nodes[i].pid != pid
  }

  predicate Creates(cfg: Config, s: State, c: Choice) {
    s.master.MHold? && |s.nodes| < cfg.maxNodes && c.ok
  }

  ghost predicate MasterCan(cfg: Config, s: State, c: Choice) {
    && (s.master.MIdle? ==> c.k < |s.priority| && s.priority[c.k].to == s.masterPid)
    && (Creates(cfg, s, c) ==> FreshPid(s, c.pid) && |c.friends| > 0)
  }

  function MasterNext(cfg: Config, s: State, c: Choice): MasterPhase
    requires s.master.MIdle? ==> c.k < |s.priority|
  {
    match s.master
    case MIdle => MHold(s.priority[c.k])
    case MHold(msg) => if Creates(cfg, s, c) then MForward(msg, c.pid) else MReject(msg)
    case MForward(msg, _) => if c.ok then MIdle else MReject(msg)
    case MReject(_) => MIdle
  }

  function MasterEffect(cfg: Config, s: State, c: Choice): Effect
  {
    match s.master
    case MIdle => TakePriority(c.k)
    case MHold(_) => if Creates(cfg, s, c) then NewNode(FreshNode(cfg, c.pid, c.friends, NFresh)) else Nothing
    case MForward(msg, to) => if c.ok then PutPriority(Message(to, 0, msg.trans)) else Nothing
    case MReject(msg) => if c.ok then PutRefund(RefundOf(msg.trans)) else Nothing
  }

  // ---- the machine ----

  datatype Act = ByUser(u: nat, a: UserAct) | ByNode(n: nat, c: Choice) | ByMaster(mc: Choice)

  /** NodeOk excludes nothing: SystemMoney.RunInv shows that it holds of every node in every run. */
  ghost predicate Can(cfg: Config, s: State, a: Act) {
    match a
    case ByUser(u, ua) => u < |s.users| && UserCan(s, s.users[u], ua)
    case ByNode(n, c) => n < |s.nodes| && NodeOk(cfg, s.nodes[n]) && NodeCan(s, s.nodes[n], c)
    case ByMaster(c) => MasterCan(cfg, s, c)
  }

  /** The part of a step that concerns the acting process alone. */
  ghost function Moved(cfg: Config, s: State, a: Act): State
    requires Can(cfg, s, a)
  {
    match a
    case ByUser(u, ua) => s.(users := s.users[u := UserNext(cfg, s, s.users[u], ua)])
    case ByNode(n, c) => s.(nodes := s.nodes[n := NodeNext(cfg, s, s.nodes[n], c)])
    case ByMaster(c) => s.(master := MasterNext(cfg, s, c))
  }

  ghost function EffectOf(cfg: Config, s: State, a: Act): Effect
    requires Can(cfg, s, a)
  {
    match a
    case ByUser(u, ua) => UserEffect(cfg, s, s.users[u], ua)
    case ByNode(n, c) => NodeEffect(cfg, s, s.nodes[n], c)
    case ByMaster(c) => MasterEffect(cfg, s, c)
  }

  ghost function Apply(cfg: Config, s: State, a: Act): State
    requires Can(cfg, s, a) && EffectCan(s, EffectOf(cfg, s, a))
  {
    ApplyEffect(Moved(cfg, s, a), EffectOf(cfg, s, a))
  }

  /** Everything set up, nothing sent yet. */
  ghost predicate Initial(cfg: Config, s: State) {
    && (forall i :: 0 <= i < |s.users| ==> s.users[i] == User(s.users[i].pid, 0, cfg.budgetInit, UIdle))
    && (forall i :: 0 <= i < |s.nodes| ==> s.nodes[i] == FreshNode(cfg, s.nodes[i].pid, s.nodes[i].friends, NPoll))
    && (forall i :: 0 <= i < |s.nodes| ==> s.nodes[i].pid > 0)
    && (forall i, j :: 0 <= i < j < |s.nodes| ==> s.nodes[i].pid != s.nodes[j].pid)
    && s.ledger == L.Empty(REGISTRY_SIZE)
    && s.queue == [] && s.priority == [] && s.refunds == [] && s.master == MIdle
  }

  ghost predicate Next(cfg: Config, s: State, a: Act, s': State) {
    Can(cfg, s, a) && EffectCan(s, EffectOf(cfg, s, a)) && s' == Apply(cfg, s, a)
  }

  /** acts[k] leads from states[k] to states[k + 1]. */
  ghost predicate Run(cfg: Config, states: seq<State>, acts: seq<Act>) {
    && |states| == |acts| + 1
    && Initial(cfg, states[0])
    && forall k :: 0 <= k < |acts| ==> Next(cfg, states[k], acts[k], states[k + 1])
  }
}
