# A model of the blockchain simulation

The program simulates a blockchain with Unix processes. Users draw transactions from their budget and send
them to nodes; a node keeps them in a fixed pool, forwards some to friend nodes, and packs 99 at a time into a
block of the shared ledger; a master creates nodes for transactions whose hops are used up and prints summaries
of the shared tables. The model follows the C sources file by file, on mathematical integers.

| file | content |
|---|---|
| `Common.dfy` | sums over sequences; transactions, messages, `get_reward`, `rand_int_range`, the hop test |
| `Cyclic.dfy` | the circular search, alone and repeated, over a sequence of marks |
| `Pool.dfy` | the transaction pool as a value: slots, the separate counter, the cursor |
| `Ledger.dfy` | the ledger as a value, with `add_block` as one step; revenue |
| `LedgerObject.dfy`, `NodeObject.dfy`, `UserObject.dfy` | the ledger, a node and a user as objects whose methods change their fields and arrays |
| `LedgerRace.dfy`, `LedgerCount.dfy`, `LedgerOverdraft.dfy` | the ledger under concurrency, one shared access a step; when its count and a user's revenue fall, and when a user can then be overdrawn |
| `Sync.dfy` | the two synchronisation semaphores, one `semop` a step |
| `Selection.dfy`, `Shuffle.dfy`, `Friends.dfy` | the selection loops of the master |
| `Recipients.dfy` | the cache of live recipients as a state machine |
| `System.dfy` | users, nodes, master, ledger and queues as one state machine |
| `SystemMoney.dfy`, `SystemTrans.dfy`, `SystemUsers.dfy`, `SystemLeaks.dfy`, `SystemSafety.dfy` | what every step does to the money; where transactions and refunds come from; what users book; exactly when money changes; no overdraft |
| `SystemRuns.dfy`, `SystemLedger.dfy`, `SystemBooks.dfy`, `SystemRouting.dfy`, `SystemMaster.dfy` | pools and nodes, ledger contents and revenue, node budgets, and what nodes and the master do with messages, in every run |
| `SystemWitness.dfy` | runs in which money is created, and in which a block is refused |

**How the pieces meet.** The methods of the three object files are proved against the functions of `Pool.dfy`,
`Ledger.dfy` and `Cyclic.dfy`; the state machine of `System.dfy` moves by the same functions. A pointer into the pool
is an index, and reading through it reads the array as it then is. In `System.dfy` a send, a receive, a call of
`add_block`, a debit, each slot read of `get_process_revenue` and each clearing of a block are separate steps, and the
states between them are covered; inside `add_block` the slot write, the increment and the test are one step there, and
single steps in `LedgerRace.dfy`; message queues are sequences from which any message addressed to the receiver may be
taken; whether a send or a fork succeeds, what `rand()` and the clock yield, and which pid `fork` returns (one no node
has) are inputs of the step. A send may thus fail whatever the queues hold: their capacity is not modelled, and
`msgsnd` can also fail for lack of memory. A user at the top of its loop may refresh, collect a refund, draw or die in
any order, which includes the order of its loop and of a signal between two rounds. `written`, `signals`, `issued`,
`writes` and `raised` are histories kept for the statements only.

**Assumptions.** The pool starts unused (the program does not clear the `malloc` at `app/node.c:156`), shared memory
starts as zeros, and the scan for a free slot stops at the pool size (the program tests the bound after the scan). A
node in `pause()` takes no further step. Friend lists are not empty. In `Ledger.dfy` and in the files about the whole
system `add_block` is one step; the program does not make it one, and what depends on that says so.

**What is false of the code, and exactly when it holds.**

* Money is not constant. `SystemMoney.Drift` lists the steps that change it, each by an exact amount, and
  `SystemLeaks.ConservedExactly` that it is constant in a run if and only if no step takes one of the branches
  listed in `SystemLeaks.Leaks`. `SystemWitness.MoneyCreated`: an extraction whose send to a friend fails refunds
  the transaction and leaves it in the pool (`app/node.c:279-290`), here with any number of messages waiting for
  that friend.
* A block can be cleared without being recorded: id 1000 passes `app/node.c:508` and is refused at
  `app/ledger.c:88`. `SystemWitness.RefusedBlockReached` reaches this point with no money lost before, and says what
  the clearing then loses; `LedgerRace.RefusedIdReached` reaches the id under concurrency. It is the only such id
  (`SystemLedger.RefusedId`), so this happens at most once in a run (`SystemLedger.AtMostOneRefusal`).
* A node's budget is not always the sum of its reward entries: `SystemBooks.NodeBudgets` states the difference,
  and `SystemBooks.BooksBalanceIff` that it is zero exactly if the node has cleared no refused block.
* With the unprotected increment of `block_count`, `reached_max_size` may be set by nobody
  (`LedgerRace.NoSignal`) or twice (`LedgerRace.TwoSignals`), for any ledger size from 2 to 1000 and any number of
  nodes from two on; `LedgerRace.SignalsExact` says how often, for every run.
* The count of blocks, and with it a user's revenue, can fall: `LedgerCount.CountFalls`, from any number of recorded
  blocks back to 1. `LedgerCount.CountNeverFallsIff` and `LedgerCount.RevenueNeverFallsIff` say exactly when this
  does not happen, and `LedgerOverdraft.NoOverdraftIff` that a user can be overdrawn beside exactly the runs in
  which its revenue falls. With `add_block` as one step there are none: `SystemLedger.RevenueGrowsInRuns` and
  `SystemSafety.NoOverdraft`.
* The gate alone does not keep writers out while the master reads (`Sync.ReadsWhileWriting`, for all numbers of
  nodes, users and friends with which the master uses the gate); `Sync.ExclusionExact` says when it does, and
  `Sync.MergedExcludes` that one combined `semop` would.
* The cardinality test of the recipient cache can accept a cache with dead users (`Recipients.DeadRecipient`);
  `Recipients.CacheExact` says exactly when it is right.
* `create_block` does not notice that it picks a slot twice; it does so exactly when fewer than 99 slots are
  used (`Pool.BlockPicksDistinctIff`), which the guard of the main loop excludes.
* The comment at `app/node.c:536` says that the reward transaction has sender -1; by the argument order of
  `build_transaction` it is the receiver that is -1. The model follows the code.

## Model

| member | source | states |
|---|---|---|
| Common.GetReward | app/common.c:34-38 | the reward is 1 where the exact percentage is below a half, and elsewhere the whole number nearest to it, halves going up |
| Common.SplitExact | app/user.c:446-450 | the import left after the reward is non-negative if and only if total * (rate - 100) < 50 |
| Common.RandIntRange | app/common.c:40-42 | for any non-negative random number the result lies in the closed range |
| Common.RandReaches | app/common.c:40-42 | every value of the range is drawn by some random number |
| Cyclic.FindFirst | app/node.c:545-556 | the circular search misses only when nothing is marked, and otherwise yields a marked place no farther ahead than any other |
| Cyclic.FindCloser | app/node.c:545-556 | a search takes a given marked place or brings the cursor strictly closer to it |
| Cyclic.NoStarvation | app/node.c:545-556 | over a pool that changes between searches, a place that stays marked is found by one of the first n |
| Cyclic.PicksGood | app/node.c:518-529 | k picks out of at least k marked places are marked, pairwise distinct, in cyclic order and leave no marked place out |
| Cyclic.PicksDistinctIff | app/node.c:518-529 | k picks do not repeat if and only if at least k places are marked |
| Pool.SizeMeans | app/node.c:266-294 | the counter is between 0 and the pool size, positive exactly when a slot is used, below the size exactly when one is free |
| Pool.DepositSpec | app/node.c:465-500 | a deposit succeeds if and only if a slot is free, fills one free slot, and adds exactly the transaction's money |
| Pool.NextSpec | app/node.c:266-268 | the search of an extraction answers -1 if and only if the counter is 0 |
| Pool.BlockPicksSpec | app/node.c:294-310 | under the guard of the main loop a block takes 99 distinct used slots in cyclic order, from any cursor |
| Pool.BlockPicksDistinctIff | app/node.c:518-529 | from a non-empty pool the 99 references are distinct if and only if the counter is at least 99; none is -1 |
| Pool.ClearSpec | app/node.c:558-573 | clearing frees exactly the listed slots and changes no stored transaction |
| Pool.ClearSums | app/node.c:558-573 | clearing 99 distinct used slots lowers the used count by 99 and takes exactly their rewards and quantities out of the pool |
| NodeObject.NodeProcess.MsgPoolDeposit | app/node.c:465-500 | the scan and the slot write are the deposit of the pool model, and leave a full pool alone |
| NodeObject.NodeProcess.FindTpTrans | app/node.c:545-556 | the counting loop with its modulus finds what the circular search specifies, for any start |
| NodeObject.NodeProcess.CreateBlock | app/node.c:502-543 | succeeds if and only if the id is at most 1000 and a transaction is there; the block then points to the picked slots, dereferences to their contents, and its last entry carries the sum of their rewards |
| NodeObject.NodeProcess.ClearBlock | app/node.c:558-573 | frees the remembered slots, lowers the counter by 99 and credits their rewards |
| NodeObject.NodeProcess.BlockCycle | app/node.c:293-341 | the whole block life cycle: which of five outcomes occurs, what the ledger then holds, what left the pool, what the node earned |
| NodeObject.NodeProcess.HandleMessage | app/node.c:246-261 | a received message is deposited exactly when a slot is free; otherwise the drawn friend gets it with one more hop, the master gets it if its hops are used up, its sender gets quantity + reward back if the send fails, or it is lost |
| NodeObject.NodeProcess.ExtractTransaction | app/node.c:265-291 | only a successful send, with one hop and to the drawn friend, frees the extracted slot; a refund to the sender or a hand-over keeps the transaction in the pool |
| LedgerObject.SharedLedger.GetNewBlockId | app/ledger.c:56-79 | yields an unwritten id and advances the counter, nothing else |
| LedgerObject.SharedLedger.AddBlock | app/ledger.c:82-113 | in any state, writes the block as its pointers read now into its slot, refuses exactly ids beyond the size, and reports the size as reached exactly when the count becomes it; keeps the ledger in order for a reserved unwritten id |
| LedgerObject.SharedLedger.GetProcessRevenue | app/ledger.c:137-148 | the nested loop computes the revenue the ledger model defines |
| Ledger.PaidOut | app/ledger.c:139-146 | over any pairwise distinct pids among which are all receivers, the payments of a block add up to its quantities |
| Ledger.PaidNothing | app/ledger.c:142-143 | a process that receives no entry is paid nothing |
| Ledger.AddBlockOk | app/ledger.c:82-113 | adding an unwritten reserved block keeps the count equal to the number of written slots and each block in its own slot |
| Ledger.FullMeansAll | app/ledger.c:103-110 | the size is reported as reached at most once, if and only if all slots are written, and then slot i holds block i |
| Ledger.RevenueNeverDecreases | app/ledger.c:137-148 | a block added in one step in any free slot never lowers a user's revenue |
| Ledger.RevenueExact | app/ledger.c:137-148 | revenue never exceeds what the written blocks pay, and equals it if and only if no block beyond the count pays the user |
| LedgerRace.RaceSafe | app/ledger.c:56-113 | for any number of nodes and any interleaving: reserved ids are 0, 1, 2, ... without gap or repetition, no slot is written twice, and block_count <= written slots <= min(last_block_id, size) |
| LedgerRace.WriteIsFirst | app/ledger.c:103-103 | in every run the slot a node writes, outside the semaphore, has not been written before, and no step of any node ever writes it again |
| LedgerRace.SignalsExact | app/ledger.c:103-110 | how many calls report the size as reached: none if the last increment was stale, otherwise one plus the calls then between increment and test |
| LedgerRace.NoSignal | app/ledger.c:104-110 | for every size from 2 to 1000 and two nodes or more, a reachable full ledger with all tests made and no report |
| LedgerRace.RefusedIdReached | app/ledger.c:87-90 | at the program's size, a reachable full ledger with a node that holds id 1000, whose next step writes nothing |
| LedgerRace.LateStops | app/node.c:508-510 | in every run a node that reserves an id above 1000 stops for good and writes nothing |
| LedgerRace.SpawnJoins | app/main.c:229-239 | a node can be added at any time and takes part as soon as the semaphore is free |
| LedgerRace.TwoSignals | app/ledger.c:104-110 | for the same sizes and numbers of nodes, a reachable state with two reports |
| LedgerCount.CountNeverFallsIff | app/ledger.c:104-104 | in any run with any number of nodes block_count never falls if and only if no node stores a value computed from a count that has since been passed |
| LedgerCount.NextRevenue | app/ledger.c:137-148 | a step lowers a user's revenue if and only if it takes a written slot that pays the user out of the count |
| LedgerCount.RevenueNeverFallsIff | app/ledger.c:137-148 | in any run a user's revenue never falls if and only if no step does so |
| LedgerCount.CountFalls | app/ledger.c:103-104 | for every size from 3 to 1000, two nodes or more and any r below the size, a reachable step that lowers the count from r to 1; it lowers a user's revenue if and only if one of the dropped blocks pays the user |
| LedgerOverdraft.NoOverdraftIff | app/user.c:386-463 | for any run of the ledger with split increments and any number of nodes, a user with an initial budget of at least 2 cannot become overdrawn, whatever it draws and whenever, if and only if no step takes a block that pays it out of the count |
| LedgerOverdraft.LocalBudget | app/user.c:155-205 | beside any run of the ledger local_budget is the sum of all draws less all refunds |
| Sync.RunInv | app/main.c:471-472 | in every run semaphore 0 counts missing initialisations plus the flag, semaphore 1 nodes still to decrement plus active writers |
| Sync.StartUpBarrier | app/node.c:178-197 | nobody passes the wait on semaphore 1 before every initial node has its whole friend list |
| Sync.UserWritesEarly | app/user.c:139-156 | for any numbers of nodes, users and friends a user may already be inside a write section while no node has received a single friend |
| Sync.LeavesForGood | app/user.c:273-291 | a process that terminates after a write section has left it and takes no part in the protocol any more |
| Sync.SpawnJoins | app/main.c:229-239 | a node created later changes no semaphore, has no barrier to pass, and comes to the gate at its first write |
| Sync.FewUsersNoFlag | app/main.c:547-547 | with at most ten users the flag is never raised, in any run |
| Sync.NoWriterWhenMasterPasses | app/main.c:549-558 | when the master passes its wait no process is inside a write section |
| Sync.OneEntryAtMost | app/node.c:669-690 | while the flag is up each process begins at most one write section, and only one whose gate it had passed |
| Sync.GateOverRuns | app/main.c:549-594 | the two preceding facts for any stretch of any run with any number of writers |
| Sync.ExclusionExact | app/node.c:674-679 | once the master reads, a writer can still enter during this reading if and only if some process has passed the gate and not yet announced itself |
| Sync.MergedExcludes | app/node.c:674-679 | with wait and increment in one semop call, reading excludes writing in every run |
| Sync.ReadsWhileWriting | app/main.c:547-558 | for any numbers of nodes and friends, and any number of users above the limit from which the flag is raised, a reachable state in which a user writes while the master reads |
| Sync.NoDeadlock | app/main.c:189-208 | in every reachable state in which anyone is inside a protocol, some step other than an arrival or a new flag is possible |
| Sync.RunNoDeadlock | app/node.c:158-197 | the same for every state of every run from start-up on |
| Sync.RaisedBound | app/main.c:549-558 | while the master waits with its flag up, the others take no more steps than a measure that each of them lowers |
| Sync.RaisedSomeoneSteps | app/main.c:549-558 | and in each such state the master or one of them can step |
| Selection.GetMinIdxFromArr | app/main.c:636-647 | the first place of a lowest budget |
| Selection.GetMaxIdxFromArr | app/main.c:650-661 | the first place of a highest budget |
| Selection.HighestStep | app/main.c:582-586 | replacing a lowest selected user by a richer newcomer keeps the selection highest |
| Selection.SelectExtremes | app/main.c:563-590 | over a fixed table, five distinct users no richer than whom is left out, and five no poorer than whom is left out |
| Shuffle.GetRandomInt | app/main.c:893-922 | the in-place shuffle fills the result with the drawn values and leaves its input and the rest of the result alone |
| Shuffle.DrawnPermutes | app/main.c:904-918 | drawn values and remaining prefix together are a permutation of the input |
| Shuffle.DrawnBySwaps | app/main.c:904-918 | what is drawn stands, in reverse, behind what is left, after swapping each drawn place with the last of the remaining ones in the whole array |
| Shuffle.DistinctPlaces | app/main.c:904-918 | for any random stream and any values, the drawn entries come from pairwise distinct places |
| Shuffle.DrawnChoicesFor | app/main.c:904-918 | every ordered selection is drawn by some vector of choices |
| Shuffle.ChoicesForDrawn | app/main.c:904-918 | and by one only: a vector of choices is recovered from what it draws |
| Friends.GenerateInitFriends | app/main.c:780-799 | with two nodes or more the scan that skips the node itself yields successive picks of the circular search, and the place to go on from; a single node is its own friend |
| Friends.FriendsGood | app/main.c:783-793 | friends are other nodes, pairwise distinct if and only if no more are asked for than there are other nodes |
| Friends.SendFriends | app/main.c:759-778 | the lists written one after another go round the nodes, each entry being the first node behind the previous entry other than the one the list is for; no list repeats a node exactly if there are enough; a single node is its own friend |
| UserObject.Partition | app/user.c:310-325 | the two-ended filling is a permutation of all pids |
| UserObject.UserProcess.SyncAliveUsers | app/user.c:310-325 | live others first in table order, the remaining pids behind in reverse, nothing lost |
| UserObject.LiveOthersAre | app/user.c:316-318 | a pid is in the first part if and only if it is another user's and its status is 1 |
| UserObject.UserProcess.GetUserRecPid | app/user.c:356-373 | synchronises exactly when the count disagrees; answers none exactly when no recipient is cached, and otherwise the drawn one; never the sender |
| UserObject.UserProcess.UpdateBudget | app/user.c:403-404 | the user's own row, and no other, gets initial budget + revenue - local_budget |
| UserObject.UserProcess.TakeRefund | app/user.c:159-164 | a refund lowers local_budget, rewrites the user's own row and no other, raises an up-to-date recorded budget by exactly the amount, and counts as a retry |
| UserObject.UserProcess.GenerateTransaction | app/user.c:420-463 | a sent transaction costs the amount drawn between 2 and the recorded budget, is debited in full, goes to the drawn cached recipient, which is not the sender, and has a non-negative import under an exact condition |
| Recipients.CacheExact | app/user.c:360-366 | in every run from the first synchronisation on, with deaths before it and while the table is read: when the cardinality test keeps the cache, it holds the live others if and only if no user is between its status drop and its exit |
| Recipients.OnlyAfterFailedTest | app/user.c:363-367 | in every run a synchronisation follows a failed test, with no other in between |
| Recipients.OneStepDeathsAreSafe | app/user.c:356-373 | with no user in between, a recipient drawn from a trusted cache or right after a synchronisation is alive and not the sender |
| Recipients.DeadRecipient | app/user.c:273-304 | a run, synchronising only after a failed test, whose trusted cache holds a user that has fully exited |
| SystemMoney.StepInv | app/node.c:215-342 | every step keeps pools, references and ledger in order, reserved ids unique, and writes a block only where none has been written |
| SystemMoney.NodeMoney | app/node.c:246-341 | every node step moves money without changing it, except by its listed drift |
| SystemMoney.StepMoney | app/main.c:217-293 | every step of any process changes the total by exactly its drift |
| SystemMoney.Conservation | app/node.c:215-342 | in every state of every run the money is what the users started with plus exactly what the failing steps have added or taken |
| SystemLeaks.DriftExact | app/node.c:215-342 | a step changes the money if and only if it is in one of the listed branches |
| SystemLeaks.ConservedExactly | app/user.c:155-205 | in every run the money is the same in all states up to k if and only if no step before k takes one of these branches |
| SystemTrans.Provenance | app/user.c:446-454 | in every run each transaction in a queue, a pool, a process's hands or a user entry of the ledger is one that some user has drawn before, with that user as sender, the chosen receiver, and reward and quantity that split the drawn total |
| SystemTrans.RefundsAreDraws | app/node.c:735-741 | in every run each refund in the queue is addressed to a user that has drawn before, and is exactly the total drawn then |
| SystemTrans.DrawsAny | app/user.c:446-446 | a user at the top of its loop can draw every total from 2 to its recorded budget |
| SystemTrans.DrawMade | app/user.c:327-332 | a draw puts one message with no hops and exactly the drawn transaction on the queue, for the chosen node |
| SystemUsers.LocalBudget | app/user.c:155-205 | in every run local_budget, with what is not yet booked, is the sum of all draws less all collected refunds addressed to the user |
| SystemUsers.ReadsAnew | app/user.c:155-164 | at the top of the loop, and after every debit and refund, the user sums its revenue from the first slot on |
| SystemUsers.DeadStays | app/user.c:168-180 | in every run a user that has died takes no further step |
| SystemLedger.RecordedExact | app/user.c:403-403 | with add_block as one step and a rate of at most 100, a budget a user records lies between what the ledger was worth to it when it began to read and when it was done, hence is exact if nothing is written meanwhile |
| SystemWitness.MoneyCreated | app/node.c:279-290 | with any number of messages waiting for the friend, a reachable state and two steps that leave the pool and the queue as they are and add the transaction's money to the total |
| SystemSafety.UserStaysSafe | app/user.c:155-205 | each user step keeps the recorded budget at most the true one wherever a draw may follow |
| SystemSafety.BlockKeepsSafe | app/ledger.c:103-104 | so does a block written and counted in one step by anyone in any free slot, even while the user is summing its revenue |
| SystemSafety.NoOverdraft | app/user.c:386-463 | with add_block as one step and a rate of at most 100 no user ever overdraws, in any run; every draw is at most the true budget and splits into reward >= 1 and import >= 0 |
| SystemRuns.PoolsAgree | app/node.c:266-341 | in every run each node's counter is its number of used slots, and extraction and block building only ever refer to used slots |
| SystemLedger.FilledOnce | app/ledger.c:103-110 | with add_block as one step exactly one call in a run that fills the ledger reports it, none before, and then every slot holds its own block |
| SystemLedger.LedgerContents | app/node.c:531-540 | in every run each block lies in the slot of its id and its last entry, paid to nobody and with no reward, is the sum of the other 99 rewards |
| SystemLedger.RecordedAsBuilt | app/node.c:518-540 | although the block points into the pool and others act in between, the ledger copy is what the pool held when the slots were picked, followed by the node's reward entry |
| SystemLedger.RewardIsNobodysRevenue | app/node.c:537-540 | in every run the revenue of every process other than pid -1 comes from the 99 user entries of the slots alone |
| SystemLedger.RevenuesAddUp | app/ledger.c:137-148 | in every run the revenues of all receivers of user entries together are the quantities of the counted user entries: everything is paid out, and nothing twice |
| SystemLedger.BlockLife | app/node.c:293-341 | each step of building a block: its guard, the id, the 99 slots in cyclic order, what the ledger takes or refuses, exactly the slots cleared and the rewards credited, and when the node stops |
| SystemLedger.StoppedStays | app/node.c:300-330 | in every run a node in pause() takes no further step |
| SystemLedger.RevenueGrowsInRuns | app/ledger.c:137-148 | with add_block as one step and a rate of at most 100 a user's revenue never decreases during a run |
| SystemBooks.ActorExcess | app/node.c:558-573 | a node step keeps budget and uncredited rewards equal to its ledger entries, except that clearing a refused block adds its rewards |
| SystemBooks.RunSenders | app/node.c:537-540 | in every run each reward entry of the ledger was written by a node that exists |
| SystemBooks.NodeBudgets | app/node.c:558-573 | in every run each node's budget, a recorded block being credited when cleared, is the sum of its reward entries plus exactly the rewards of the refused blocks it has cleared |
| SystemBooks.BooksBalanceIff | app/node.c:558-573 | in every run a node's books balance if and only if it has cleared no refused block |
| SystemWitness.RefusedBlockReached | app/node.c:316-340 | a reachable state, with all the money still there, in which a block is refused; clearing it loses 99 units and credits the node 99 that the ledger does not hold |
| SystemLedger.RefusedId | app/ledger.c:87-90 | an id accepted by create_block is refused by add_block if and only if it is 1000 |
| SystemLedger.AtMostOneRefusal | app/node.c:508-510 | at most one block is ever refused |
| SystemRouting.HopBound | app/node.c:630-641 | every message in the node queues, or just received, has between 0 and SO_HOPS hops, in every run |
| SystemRouting.ChainBound | app/node.c:630-641 | forwards of one message chosen anywhere in a run carry one transaction, add a hop each, and are at most SO_HOPS - hops |
| SystemRouting.RoutingComplete | app/node.c:246-261 | each step of a node with a received message: deposit, the message to the drawn friend, to the master or back to the sender, decided by a free slot, hops left and the outcome of the sends |
| SystemRouting.SettledOnce | app/node.c:229-262 | in every run, between taking a message addressed to it and returning to its queues a node settles the message exactly once: one deposit, one forward with one more hop, one hand-over, one refund to the sender, or one loss |
| SystemRouting.ExtractionComplete | app/node.c:265-291 | each step of an extraction: the first used slot behind the cursor, one hop, the drawn friend, and that only a sent transaction leaves the pool |
| SystemRouting.FirstTransaction | app/node.c:199-209 | a node created by the master starts with a message addressed to it, and stores it if it has a slot |
| SystemMaster.MasterSteps | app/main.c:217-293 | each step of the master: the message it takes, when it creates a node and which, to whom it sends, and when and to whom it refunds |
| SystemMaster.MasterSettlesOnce | app/main.c:217-293 | in every run, between taking a message and returning to the queue the master sends the transaction once, with no hops, to the node created in between, if there is one and the send succeeds, and otherwise refunds it once to its sender or fails to |
| SystemRuns.NodeCount | app/main.c:229-239 | nodes never disappear and never exceed four times the initial number |
| SystemRuns.NoSlotStarves | app/node.c:266-274 | in every run, through deposits, extractions and blocks, a slot that stays used is passed over by fewer than SO_TP_SIZE searches in a row |

## Left out

- Operating-system plumbing: shared memory and queue set-up, process creation arguments, printing, sleeping, clocks.
- Signals and interrupted calls, except that a user may draw at any time between two rounds of its loop; behaviour after `pause()`.
- Configuration parsing in `app/config.c`.
- The choice among several node queues and any delivery guarantee: `get_queue_id_less_used` never updates its minimum, and with 200 or more users the reading loop skips the last queue.
- Friend lists of nodes created later (`app/main.c:244-264` fills the wrong buffer): they are given.
- Floating-point rounding of large amounts, the int-float-int pass of the reward at `app/user.c:328-330`, and machine integer overflow.
- `get_trans` and `print_budget`, which the program does not call.
- The gate inside `System.dfy`: it only delays steps there; it is modelled in `Sync.dfy`.
- The retry counter and last_block_read inside `System.dfy`: users may die at any loop top, which includes every death the counter causes.
- LedgerObject.SharedLedger.AddBlock: is sequential; its interleavings are in `LedgerRace.dfy`.
- SystemSafety.NoOverdraft: takes `add_block` as one step; `LedgerOverdraft.NoOverdraftIff` has the exact condition without that.
- SystemLedger.RevenueGrowsInRuns: takes `add_block` as one step; `LedgerCount.RevenueNeverFallsIff` has the exact condition without that.
- LedgerOverdraft.NoOverdraftIff: takes a send and its debit as one step, and one user.
- NodeObject.NodeProcess.BlockCycle: has no other process in between; `SystemLedger.RecordedAsBuilt` covers interleaving.
- Friends.GenerateInitFriends: the place that the program leaves undefined for a single node is a parameter; nothing reads it.
- Selection.SelectExtremes: reads a fixed table; a writer that the gate lets in while the master reads is not modelled there.
- Recipients.OneStepDeathsAreSafe: says nothing of deaths after the choice, or during the synchronisation before it.
