# Susanow verification

A Dafny 4.11 model of the algorithmic cores of Susanow, the NFV platform, and
of the libraries it carries in its tree. `dafny verify dfyconfig.toml` checks
everything. Each core of the repository is one group of modules, with `Common`
and `Bytes` for what several of them share:

- The lthread cooperative runtime. `MpscQueue` is the lock-free queue with any
  number of producers and one consumer, `ExitJoin` the exit/join handshake of
  two threads on any two schedulers, and `MutexSmp` the mutex across
  schedulers; each is a transition system whose steps are single accesses to
  shared memory, under sequential consistency. `Scheduler` is one scheduler
  with ready, peer-ready and blocked queues, mutexes, condition variables,
  exit and join, whose steps are the stretches of code between two switches;
  `SchedulerEffects` says what each operation changes and `SchedulerRuns` what
  becomes of the threads it wakes.
  `QnodePool` is the node pool, as the class with linked nodes that it is.
- The crow router. `RoutePattern` reads a rule text and matches a URL,
  `RouteMatch` says on the texts alone what that means, `RouteTrie` what the nodes of a trie spell and what compressing may
  change, `Router` is the trie and the router with their methods, and
  `RouteTag` the base-6 parameter tag and the typed call of a handler.
- The incremental HTTP parser, for requests. `HttpSwitch` is one pass through
  the switch, `HttpMachine` the machine that takes one byte at a time with its
  invariant, `HttpParser` the parser with marks and bulk skips, refining that
  machine. `HttpNames` and `HttpValues` are about header lines, `HttpUrl` about
  request targets, `HttpChunks` about the chunked transfer coding, and
  `HttpRequest` is the law of whole requests.
- Text engines. `JsonText` is the parser as a function, `JsonGrammar` the
  grammar it accepts, `JsonUnicode` what its escapes stand for, `JsonRoundTrip` printing and the round trip,
  `JsonBuffer` the parser and the unescaper that rewrite their buffer in place,
  `JsonList` the growing array of a list. `MustacheTree` relates flat actions
  with jumps to nested sections, `MustacheRender` interprets them, and
  `MustacheLaws` says what sections, names and values render to.
- Algorithms. `Words32`, `Sha1` and `Sha1Stream` are SHA-1 as in RFC 3174,
  `IncludeOrder` the script that merges headers.
- Queue ownership. `QueueAccess` deals the queues of a port or ring out to
  access ids, `Coremask` and `VnfAccess` are the ports and blocks that hand the
  ids to virtual cores, `VnfOwners` proves who owns what, `VnfDeploy` is the
  VNF from attaching ports to deployment.

## Where the code departs from its promises

The model does what the code does; the following are proved of it.

- A NULL exit value does not overwrite the joiner's variable.
- A thread that blocks after its own `lthread_exit` (which returns to its
  caller) is freed while it still counts as blocked, and the scheduler loop
  then never ends. Joining a thread twice puts it in the ready queue twice.
- Across schedulers the mutex can end up free with threads blocked on it and
  nobody trying for it, by exactly two kinds of steps.
- A new node pool never sets its fast slot, and is sound only if the memory
  there is zero.
- Preallocating a single pool node makes allocation write through NULL.
- `add` does not end on a rule text with a `<` that starts no known tag.
- The tag check of dynamic rules compares a tag with itself, so that only the
  numbers of arguments are compared.
- A template with an unclosed block is accepted, and its jump goes backwards.
- The numbers that JSON texts may hold are not those of RFC 8259: `1.` and
  `1e+` are accepted, `0e1` is not (`JsonGrammar.NumbersThatDiffer`, and
  `JsonGrammar.NumbersAgreeIff` for the exact condition).
- Two escaped surrogates are not joined to the character they stand for; what
  is written for them is not UTF-8 (`JsonUnicode.ValidIffNoSurrogate`).
- Spaces between the digits of a content length are skipped, and of several
  content lengths the last counts (`HttpValues.RunValue`,
  `HttpValues.RunLines`).
- A full list of more than 2147423647 elements gets a smaller array when it
  grows.
- The SHA-1 padding differs from the standard's from 2^32 bits on.
- `ssn_vnf::reset` uses a missing port before it checks for one, and a second
  coremask without a reset leaves access ids that nobody uses.
- A port side without queues is deployed, and the first burst on it takes a
  remainder by zero.

One case is documented as unsafe, and the model says how far it goes: two
producers that both use the single-producer insert
(`lib/liblthread_dpdk/lthread_queue.h:220`) break the queue exactly when one of
them stores a head over another head than the one it read.

## Model

| member | source | states |
|---|---|---|
| `MpscQueue.StepInv` | lib/liblthread_dpdk/lthread_queue.h:188-303 | Every step of any producer or of the consumer keeps the queue sound: the chain runs from tail to head, and each link is either written or owed by exactly one insert that has exchanged the head. |
| `MpscQueue.RunInv` | lib/liblthread_dpdk/lthread_queue.h:188-303 | The same for every run of any number of producers and one consumer, interleaved at every shared access. |
| `MpscQueue.StepRefinesFifo` | lib/liblthread_dpdk/lthread_queue.h:188-303 | Seen through the abstract contents, the exchange of the head is an atomic enqueue, the move of the tail an atomic dequeue of the first item, and no other step is visible. |
| `MpscQueue.NothingLostOrReordered` | lib/liblthread_dpdk/lthread_queue.h:188-303 | In every run the inserted items, in the order of the head exchanges, are exactly the results handed out, the one in flight and the queued items, in order: nothing lost, duplicated or reordered. |
| `MpscQueue.RemoveNullOnlyWhenEmpty` | lib/liblthread_dpdk/lthread_queue.h:281-303 | Remove may give up at its emptiness check if and only if the abstract queue is empty there. |
| `MpscQueue.PollNullIffEmptyOrUnlinked` | lib/liblthread_dpdk/lthread_queue.h:250-276 | Poll sees no next node if and only if the queue is empty or the insert of its first item stands between the exchange and the link. |
| `MpscQueue.FreedNodeIsUnreferenced` | lib/liblthread_dpdk/lthread_queue.h:260-275 | The node the consumer gives back is off the chain and is neither the new node nor the previous node of any unfinished insert. |
| `MpscQueue.NoAccessAfterFree` | lib/liblthread_dpdk/lthread_queue.h:188-303 | No step of anybody reads or writes a node that is in the pool, however often nodes are recycled. |
| `MpscQueue.NobodyIsBlocked` | lib/liblthread_dpdk/lthread_queue.h:188-303 | Whoever is inside an operation can always take its next step. |
| `MpscQueue.StoreIsSoundIff` | lib/liblthread_dpdk/lthread_queue.h:222-245 | However many producers use the single-producer insert, the store of the head by one of them keeps a sound queue sound if and only if the head is still the one it read; otherwise the head it overwrites is never linked to what follows. |
| `MpscQueue.TwoStoringProducersLoseAnItem` | lib/liblthread_dpdk/lthread_queue.h:217-245 | An input for that: a complete run of two such producers in which both inserts finish and the first item is never returned. |
| `ExitJoin.StepInv` | lib/liblthread_dpdk/lthread.c:402-494 | Every access of the exiting or the joining thread, on any two schedulers, keeps the handshake sound. |
| `ExitJoin.RunInv` | lib/liblthread_dpdk/lthread.c:402-494 | The same for every interleaving. |
| `ExitJoin.NeverReadyTwice` | lib/liblthread_dpdk/lthread.c:402-494 | Neither thread ever has two entries in the ready queues, and a thread still on the cpu that has one is about to switch away. |
| `ExitJoin.PointersSetBeforeStore` | lib/liblthread_dpdk/lthread.c:414-442 | Whenever the exit value is about to be stored, the joiner has already recorded itself and its pointer, and has not returned. |
| `ExitJoin.ExitValueReachesJoiner` | lib/liblthread_dpdk/lthread.c:402-494 | The joiner is never refused; when it returns, its variable holds the exit value if it asked for one and the value is not NULL, and is untouched otherwise. |
| `ExitJoin.NullExitValueIsNotDelivered` | lib/liblthread_dpdk/lthread.c:420-432 | A joiner that asks for the value finds what was passed to lthread_exit if and only if that was not NULL or its variable was NULL before. |
| `ExitJoin.FreeableOnlyAfterLastAccess` | lib/liblthread_dpdk/lthread.c:402-494 | The exiting thread can be freed only when the joiner has made its last access to it, and is freed only once. |
| `ExitJoin.FairTurnsFinish` | lib/liblthread_dpdk/lthread.c:402-494 | From every reachable state, however the two threads take turns from there as long as neither is left out for ever, the joiner returns and the exiting thread is freed, and it stays so; no wait loop is a trap. |
| `Scheduler.StepInv` | lib/liblthread_dpdk/lthread_sched.c:374-468 | On one scheduler, every operation of a thread and every resume keeps all threads placed, counted and joined consistently. |
| `Scheduler.RunInv` | lib/liblthread_dpdk/lthread_sched.c:511-559 | The same for every run in which no thread is joined twice. |
| `Scheduler.OnePlace` | lib/liblthread_dpdk/lthread_sched.c:374-434 | At every scheduling point a live thread is running and in no queue, in exactly one queue exactly once, or parked in exit or join; a freed one is nowhere. |
| `Scheduler.ReadyOrSuspended` | lib/liblthread_dpdk/lthread_sched.h:126-149 | Between two threads each live thread is ready, peer-ready or inside _suspend. |
| `Scheduler.DoneIffNoThreads` | lib/liblthread_dpdk/lthread_sched.c:461-468 | _lthread_sched_isdone implies that no thread is left; and if no thread was freed while blocked, it holds exactly when the scheduler was told to stop and no thread is left. |
| `Scheduler.FreedOnce` | lib/liblthread_dpdk/lthread_sched.c:374-434 | A freed thread never is on the cpu or in a queue again. |
| `Scheduler.BlockedCountExact` | lib/liblthread_dpdk/lthread_sched.h:126-149 | Nb_blocked_threads equals the number of threads whose continuation is inside _suspend if and only if no thread has been freed there. |
| `Scheduler.ZombieIffBlocksAfterExit` | lib/liblthread_dpdk/lthread_sched.c:374-434 | A step creates a suspended thread that would be freed instead of resumed if and only if it is a blocking call made after the caller's own lthread_exit. |
| `Scheduler.LeakPreventsShutdown` | lib/liblthread_dpdk/lthread_sched.c:461-468 | Once a thread has been freed inside _suspend the scheduler loop never ends, whatever happens later. |
| `Scheduler.BlockingAfterExitLeaks` | lib/liblthread_dpdk/lthread.c:402-448 | A concrete run that leaves nb_blocked_threads at one with nobody suspended. |
| `Scheduler.NoWakeUpLost` | lib/liblthread_dpdk/lthread_mutex.c:131-242 | In every run without such calls, a mutex counts its blocked threads plus its owner, and a free mutex with blocked threads has a woken waiter that is ready or running. |
| `Scheduler.UnlockFindsWaiter` | lib/liblthread_dpdk/lthread_mutex.c:209-242 | The loop in unlock never spins: the count says somebody waits if and only if the blocked queue is not empty. |
| `Scheduler.SecondJoinerDuplicates` | lib/liblthread_dpdk/lthread.c:454-494 | A join keeps every thread in one place if and only if the joined thread has no joiner yet or the join is refused; otherwise the thread stands in the ready queue twice. |
| `Scheduler.SecondJoinHappens` | lib/liblthread_dpdk/lthread.c:454-494 | An input for that: a thread that has joined another, comes back with its value and joins it again leaves it in the ready queue twice. |
| `Scheduler.DrainQueues` | lib/liblthread_dpdk/lthread_cond.c:204-228 | Broadcast empties the queue of the condition variable into the ready queue, in order. |
| `Scheduler.DrainInv` | lib/liblthread_dpdk/lthread_cond.c:204-228 | And keeps every thread placed. |
| `SchedulerEffects.CreateAppends` | lib/liblthread_dpdk/lthread.c:206-252 | The new thread stands at the end of the ready queue, not started, and nothing else changes. |
| `SchedulerEffects.PeerCreateAppends` | lib/liblthread_dpdk/lthread.c:206-252 | Created from another core it stands at the end of the peer-ready queue. |
| `SchedulerEffects.DispatchTakesFirst` | lib/liblthread_dpdk/lthread_sched.c:374-434 | A poll resumes exactly the first entry, where it stopped, or frees it if it has exited and is detached; the others keep their order. |
| `SchedulerEffects.YieldGoesLast` | lib/liblthread_dpdk/lthread.c:388-398 | The running thread goes to the end of the ready queue. |
| `SchedulerEffects.LockTakesOrBlocks` | lib/liblthread_dpdk/lthread_mutex.c:131-172 | A free mutex is taken at once; for one that another thread holds the caller goes to the end of its queue and counts as blocked; one's own is left alone. |
| `SchedulerEffects.TryLockNeverBlocks` | lib/liblthread_dpdk/lthread_mutex.c:177-204 | A free mutex is taken, any other left exactly as it was, and the caller goes on. |
| `SchedulerEffects.UnlockWakesFirst` | lib/liblthread_dpdk/lthread_mutex.c:209-242 | Only the owner unlocks; the mutex is free, the first thread that waits goes to the end of the ready queue, the others keep their order and are what is counted. |
| `SchedulerEffects.WaitGoesLast` | lib/liblthread_dpdk/lthread_cond.c:153-178 | The caller goes to the end of the condition's queue and counts as blocked. |
| `SchedulerEffects.SignalWakesFirst` | lib/liblthread_dpdk/lthread_cond.c:182-200 | Signalling puts the first thread of the queue at the end of the ready queue, leaves the others in order, and touches no other queue, mutex or count; on an empty queue it changes nothing. |
| `SchedulerEffects.BroadcastWakesAll` | lib/liblthread_dpdk/lthread_cond.c:204-228 | All that wait become ready, first entry first, and the caller goes behind them. |
| `SchedulerEffects.DetachMarks` | lib/liblthread_dpdk/lthread.c:501-511 | Marks the caller and nothing else. |
| `SchedulerEffects.ExitEffect` | lib/liblthread_dpdk/lthread.c:402-448 | Nothing for a detached thread; otherwise it parks until it is joined, or stores its value and becomes ready behind the joiner that is parked on it. |
| `SchedulerEffects.ReturnEffect` | lib/liblthread_dpdk/lthread.c:92-112 | The same when the function returns; a detached thread then only waits to be freed. |
| `SchedulerEffects.JoinEffect` | lib/liblthread_dpdk/lthread.c:454-494 | Refused for a detached thread and for one that is being joined; otherwise the caller parks, or makes the thread that is parked in its exit ready in front of itself. |
| `SchedulerEffects.LockGoesOn` | lib/liblthread_dpdk/lthread_mutex.c:131-172 | A woken locker takes the mutex if it is free by then and waits again, at the end, if not. |
| `SchedulerEffects.WaitGoesOn` | lib/liblthread_dpdk/lthread_cond.c:153-178 | A woken waiter is back in its function and no longer blocked. |
| `SchedulerEffects.JoinGoesOn` | lib/liblthread_dpdk/lthread.c:454-494 | A joiner that goes on takes the value if it is there and yields if not. |
| `SchedulerEffects.ExitGoesOn` | lib/liblthread_dpdk/lthread.c:402-448 | An exiting thread that goes on stores its value, waits for it to be read, or ends; after an explicit call it is back in its function, detached and marked as exited. |
| `SchedulerRuns.NobodyOvertakes` | lib/liblthread_dpdk/lthread_sched.h:79-149 | Every step appends to the ready queue at most, a poll takes its first entry, and a thread that is neither running nor polled keeps its continuation. |
| `SchedulerRuns.WaitsItsTurn` | lib/liblthread_dpdk/lthread_sched.c:511-559 | A ready thread waits for exactly as many polls as there are threads in front of it, whatever these do. |
| `SchedulerRuns.SignalledGetsOn` | lib/liblthread_dpdk/lthread_cond.c:182-200 | For every sound state and every run of the others: the thread signalled is, after the polls for those that were ready before and its own, back in its function with one thread fewer blocked. |
| `SchedulerRuns.UnlockedGetsOn` | lib/liblthread_dpdk/lthread_mutex.c:131-242 | The same for the thread woken by an unlock: it holds the mutex if that is free by then, and otherwise waits at the end of the queue. |
| `SchedulerRuns.JoinedGetsOn` | lib/liblthread_dpdk/lthread.c:402-494 | The same for a joiner when the thread it waits for returns: it has taken the value. |
| `MutexSmp.StepInv` | lib/liblthread_dpdk/lthread_mutex.c:131-242 | Every access of lock, trylock and unlock by any thread on any scheduler keeps owner and count sound. |
| `MutexSmp.RunInv` | lib/liblthread_dpdk/lthread_mutex.c:131-242 | The same for every interleaving. |
| `MutexSmp.MutualExclusion` | lib/liblthread_dpdk/lthread_mutex.c:131-242 | At most one thread is between taking the mutex and clearing its owner. |
| `MutexSmp.CountIsSound` | lib/liblthread_dpdk/lthread_mutex.c:131-242 | The count is never negative and never below the number of blocked threads. |
| `MutexSmp.LostIff` | lib/liblthread_dpdk/lthread_mutex.c:131-242 | A mutex is lost when it is free, somebody is parked on it and nobody is trying for it. In every sound state a step leads there if and only if it is an unlock clearing the owner with somebody parked and nobody else trying, or a locker turned away by a count other than 1 when the owner has been cleared meanwhile and nobody else is trying; or it was lost before and nobody new arrives. |
| `MutexSmp.CarefulRunKeeps` | lib/liblthread_dpdk/lthread_mutex.c:131-242 | Hence in every run without those two kinds of steps no mutex is ever lost. |
| `MutexSmp.OneAtATimeIsCareful` | lib/liblthread_dpdk/lthread_mutex.c:131-242 | A run in which at most one thread at a time is between its first shared access and its decision has no such step. |
| `MutexSmp.NothingLostOneAtATime` | lib/liblthread_dpdk/lthread_mutex.c:131-242 | So when the lock operations take turns, as they do on one scheduler, no wake-up is lost. |
| `MutexSmp.LostByClearing` | lib/liblthread_dpdk/lthread_mutex.c:131-242 | An input for the first kind: the unlocker reads the count before the locker adds to it, and the locker sees the owner before it is cleared. |
| `MutexSmp.LostByGivingUp` | lib/liblthread_dpdk/lthread_mutex.c:131-242 | An input for the second kind: two lockers fail while the owner is set, and both give up after it was cleared because the count is 2. |
| `MutexSmp.LockAlone` | lib/liblthread_dpdk/lthread_mutex.c:131-172 | A lock that nobody interrupts takes a free mutex, and joins the end of the queue of one that is held. |
| `MutexSmp.TryLockAlone` | lib/liblthread_dpdk/lthread_mutex.c:177-204 | A trylock that nobody interrupts takes a free mutex and leaves one that is held as it was. |
| `MutexSmp.UnlockAlone` | lib/liblthread_dpdk/lthread_mutex.c:209-242 | An unlock that nobody interrupts frees the mutex and lets the first thread in its queue try again. |
| `QnodePool.Pool.constructor` | lib/liblthread_dpdk/lthread_pool.h:137-171 | A new pool holds only its stub, and is sound if and only if the memory of its fast slot, which is never written, holds NULL. |
| `QnodePool.Pool.Insert` | lib/liblthread_dpdk/lthread_pool.h:177-188 | Appends a node that is in no place. |
| `QnodePool.Pool.PoolRemove` | lib/liblthread_dpdk/lthread_pool.h:201-235 | Takes the oldest chained node, and none exactly when fewer than two are chained; the stub is dropped and never handed out. |
| `QnodePool.Pool.Remove` | lib/liblthread_dpdk/lthread_pool.h:242-256 | The same after its retry loop, which ends. |
| `QnodePool.Pool.Refill` | lib/liblthread_dpdk/lthread_pool.h:279-296 | A batch chains exactly the requested number of fresh nodes, or as many as the system has. |
| `QnodePool.Pool.Alloc` | lib/liblthread_dpdk/lthread_pool.h:262-300 | The fast slot first, then the oldest chained node, then a new batch; NULL exactly when the batch cannot be completed, a NULL dereference exactly when the batch is too small to leave two chained nodes, and otherwise a node nobody uses. |
| `QnodePool.Pool.Free` | lib/liblthread_dpdk/lthread_pool.h:307-321 | Gives a node back to the fast slot or the end of the chain. |
| `QnodePool.Pool.Conservation` | lib/liblthread_dpdk/lthread_pool.h:177-321 | Every node made is in use, chained or in the fast slot, the three counts add up, and the stub is in none of them. |
| `RoutePattern.CapturesLiteral` | lib/crow/include/crow/routing.h:742-752 | Matching a fragment of several characters at once is matching its characters one by one. |
| `RoutePattern.CapturesHaveKinds` | lib/crow/include/crow/routing.h:658-740 | The captured values have the kinds of the placeholders, in order. |
| `RoutePattern.PopUndoesPush` | lib/crow/include/crow/routing.h:666-672 | Backtracking out of a placeholder restores the collected parameters. |
| `RouteMatch.PatternIff` | lib/crow/include/crow/routing.h:757-806 | A rule text reads as a pattern if and only if it is that pattern's characters and tag names in a row, each kind by its one or two names. |
| `RouteMatch.CapturesIff` | lib/crow/include/crow/routing.h:634-755 | A pattern matches a URL with some captures if and only if the URL divides into one part for each token: a literal its character, a string a whole segment, a path the whole rest, a number what its C parser reads where one of its characters stands; and the captures are these parts and numbers in order. |
| `RouteTrie.JoinedFragmentsDiffer` | lib/crow/include/crow/routing.h:592-608 | Two merged fragments are equal, or one a prefix of the other, only if both parts are the same: merging never collides. |
| `RouteTrie.MergeIsWf` | lib/crow/include/crow/routing.h:592-608 | Merging keeps the fragments below a node prefix-free and links going forward. |
| `RouteTrie.MergeKeepsSpelling` | lib/crow/include/crow/routing.h:592-608 | Merging a node with simple children changes no pattern that any node spells. |
| `RouteTrie.MergeShrinksSlack` | lib/crow/include/crow/routing.h:609-611 | The call of optimizeNode on the same node after merging is on a smaller problem, so the recursion ends. |
| `RouteTrie.CompressedStays` | lib/crow/include/crow/routing.h:612-618 | Nodes compressed earlier are left alone. |
| `RouteTrie.TriedTogether` | lib/crow/include/crow/routing.h:658-754 | The order in which the search comes to two different patterns is never a tie. |
| `RouteTrie.FragmentComesNext` | lib/crow/include/crow/routing.h:742-752 | The search comes to each fragment after all placeholders and after the fragments before it; of the fragments at most one can match, so the order of their map does not matter. |
| `RouteTrie.BestOfBoth` | lib/crow/include/crow/routing.h:648-656 | The update_found closure keeps the smallest rule number over everything searched so far, and on equal numbers the pattern that was tried first, with its captures. |
| `RouteTrie.AllWaysCovered` | lib/crow/include/crow/routing.h:658-754 | Going through every placeholder and every fragment covers every pattern below a node. |
| `Router.AddEndsIff` | lib/crow/include/crow/routing.h:757-812 | The loop of add ends if and only if every < of the rule text starts a known tag. |
| `Router.SetRuleElsewhere` | lib/crow/include/crow/routing.h:808-811 | Setting the rule of one node changes what a node spells only along the path to it. |
| `Router.NewChildSpellsNothing` | lib/crow/include/crow/routing.h:770-806 | A new node adds no pattern. |
| `Router.Trie.Add` | lib/crow/include/crow/routing.h:757-812 | The table of patterns gains exactly this pattern with its rule; it fails and leaves the table alone exactly when the pattern has a rule already, and never ends exactly on a text that is no row of characters and tag names. |
| `Router.Trie.MergeFragments` | lib/crow/include/crow/routing.h:592-608 | The nested loops build the merged children. |
| `Router.Trie.OptimizeNode` | lib/crow/include/crow/routing.h:576-619 | What every node spells is unchanged, everything below is compressed, and a compressed trie is left exactly as it was. |
| `Router.Trie.Validate` | lib/crow/include/crow/routing.h:621-632 | Keeps the table of patterns, refuses exactly a root that is not simple, compresses otherwise, and changes nothing the second time. |
| `Router.Trie.FindThroughKind` | lib/crow/include/crow/routing.h:658-740 | One placeholder of find covers exactly the patterns through it. |
| `Router.Trie.FindThroughFragments` | lib/crow/include/crow/routing.h:742-752 | The loop over fragments covers them in any order. |
| `Router.Trie.Find` | lib/crow/include/crow/routing.h:634-755 | Below a node the search gives the smallest rule number among the patterns that match the rest of the URL, with the captures of the first such pattern in the order of the search. |
| `Router.Trie.FindRule` | lib/crow/include/crow/routing.h:634-755 | For a whole URL: 0 exactly when no pattern of the table matches, else the smallest matching rule number, with the parts of the URL that the pattern tried first among those with this rule takes. |
| `Router.BestIsUnique` | lib/crow/include/crow/routing.h:634-755 | The rule number and the captures of a search are determined by the URL and the patterns alone. |
| `Router.CompressionKeepsLanguage` | lib/crow/include/crow/routing.h:576-619 | Compressing changes the language of no node. |
| `Router.CompressionKeepsAnswers` | lib/crow/include/crow/routing.h:576-755 | For every URL, searches before and after compressing give the same rule number and the same captures. |
| `Router.FindAroundValidate` | lib/crow/include/crow/routing.h:621-755 | Calling find, validate and find again gives the same rule and the same parameters. |
| `Router.WithoutSlash` | lib/crow/include/crow/routing.h:910-918 | Dropping a final slash of a rule text drops exactly the last token of its pattern. |
| `Router.Router.AddRule` | lib/crow/include/crow/routing.h:906-919 | The rule gets the next number, and a rule text ending in a slash also gives the text without it the redirecting rule, in every combination with rules that exist already; a text that cannot be read never ends and stores nothing. |
| `Router.Router.Handle` | lib/crow/include/crow/routing.h:1001-1052 | Not found exactly when no pattern matches, a redirect exactly when a redirecting pattern matches, and otherwise the smallest matching rule, whose pattern is the only one with that number, with the parts of the URL that its placeholders take; never an index outside the rules. |
| `RouteTag.TagIsEncoding` | lib/crow/include/crow/utility.h:216-235 | The tag is the base-6 number of the placeholder kinds taken modulo 2^64, and it throws exactly when the trie cannot read the rule text. |
| `RouteTag.DigitsOfEncoding` | lib/crow/include/crow/utility.h:301-313 | Peeling base-6 digits off the encoding gives the kinds back in order. |
| `RouteTag.DigitsAreUnique` | lib/crow/include/crow/utility.h:301-313 | Different tags have different digits. |
| `RouteTag.TagSpellsKindsIff` | lib/crow/include/crow/utility.h:216-235 | The tag spells the placeholder kinds in order if and only if their encoding is below 2^64. |
| `RouteTag.TwentyFourFit` | lib/crow/include/crow/utility.h:216-235 | It always is with at most 24 placeholders. |
| `RouteTag.TwentyFiveMayNotFit` | lib/crow/include/crow/utility.h:216-235 | With 25 path placeholders it is not. |
| `RouteTag.ArgumentsOfEncoding` | lib/crow/include/crow/utility.h:301-313 | The argument list decoded from the encoding has the types of the placeholders in order. |
| `RouteTag.CallPicksPushed` | lib/crow/include/crow/routing.h:93-153 | With one counter per type, the k-th argument of the call is the k-th value pushed, although values live in four vectors. |
| `RouteTag.HandlerGetsCaptures` | lib/crow/include/crow/routing.h:93-153 | From rule text to handler: with at most 24 placeholders, and a URL that divides into parts for the rule, the handler's k-th argument is what the k-th placeholder takes. |
| `RouteTag.TagOfName` | lib/crow/include/crow/utility.h:216-235 | Each tag name by itself has its digit: 1 for int, 2 for uint, 3 for float and double, 4 for str and string, 5 for path. |
| `RouteTag.CompatibleIffSameCount` | lib/crow/include/crow/utility.h:169-182 | The compatibility check of a dynamic rule accepts if and only if the two argument lists are equally long, since both compared digits come from the same tag. |
| `RouteTag.ArgumentsInRangeIff` | lib/crow/include/crow/routing.h:93-153 | The arguments of a call lie inside their vectors if and only if no type is asked for more often than it was captured. |
| `RouteTag.MismatchedHandlerPasses` | lib/crow/include/crow/utility.h:169-182 | A handler of a string passes that check for a rule with an int, and its argument lies outside its vector. |
| `HttpMachine.RunConcat` | lib/crow/include/crow/http_parser_merged.h:934-2231 | Running the byte-at-a-time machine on a stream is running it on a first part and then on the rest. |
| `HttpMachine.LengthIsExact` | lib/crow/include/crow/http_parser_merged.h:1819-1842 | The overflow test lets a further decimal or hexadecimal digit pass if and only if the length times the radix plus the radix fits in 64 bits, and an accepted length is the exact number and never the 2^64-1 sentinel. |
| `HttpMachine.SwitchKeepsInv` | lib/crow/include/crow/http_parser_merged.h:978-2200 | No assertion of the source fails in a pass, and counters and matching positions stay within their bounds. |
| `HttpMachine.RunKeepsInv` | lib/crow/include/crow/http_parser_merged.h:934-2231 | The same for every run on every input. |
| `HttpParser.SwitchMarks` | lib/crow/include/crow/http_parser_merged.h:1225-2035 | Every pass outside the bulk states sets, keeps or flushes marks as the change of state requires. |
| `HttpParser.PassDelivers` | lib/crow/include/crow/http_parser_merged.h:1225-2035 | What the callbacks have told plus what the marks still owe grows by exactly the data of the byte. |
| `HttpParser.RunBulk` | lib/crow/include/crow/http_parser_merged.h:2036-2071 | Skipping body bytes in bulk is taking them one at a time. |
| `HttpParser.RunWholeBody` | lib/crow/include/crow/http_parser_merged.h:2036-2071 | So is the bulk step that reaches the end of a chunk or of a body. |
| `HttpParser.TurnRuns` | lib/crow/include/crow/http_parser_merged.h:978-2200 | A turn of the main loop is a run of the byte machine over the bytes it consumed. |
| `HttpParser.Leftovers` | lib/crow/include/crow/http_parser_merged.h:2203-2231 | At most one mark is left at the end of a piece, and its callback delivers exactly what is owed. |
| `HttpParser.RequestParser.TakeByte` | lib/crow/include/crow/http_parser_merged.h:978-2035 | One byte with all its repeated passes, whether it is taken or stops the parser. |
| `HttpParser.RequestParser.TakeBody` | lib/crow/include/crow/http_parser_merged.h:2036-2071 | The bulk skip. |
| `HttpParser.RequestParser.EndBody` | lib/crow/include/crow/http_parser_merged.h:2047-2070 | The end of a body or chunk. |
| `HttpParser.RequestParser.TakeSome` | lib/crow/include/crow/http_parser_merged.h:963-2200 | One turn of the main loop, with the header limit. |
| `HttpParser.RequestParser.CallLeftovers` | lib/crow/include/crow/http_parser_merged.h:2203-2231 | The callbacks for marks left at the end of a piece. |
| `HttpParser.RequestParser.Execute` | lib/crow/include/crow/http_parser_merged.h:895-2240 | The final state, everything told byte by byte and the number of bytes consumed are those of the byte machine; a failure or upgrade is the machine's, and the count stops behind the byte that caused it. What was told by then is everything up to that byte, except that a failure inside the URL, a header or a body leaves untold just those bytes of it which this piece holds. A parser with an error set does nothing; the empty piece is accepted exactly between messages. |
| `HttpParser.RequestParser.Feed` | lib/crow/include/crow/http_parser_merged.h:895-2240 | Feeding a stream in any division into non-empty pieces succeeds exactly when the byte machine runs through the whole stream, with the same final state, the same order of notifications and the same data; otherwise it ends with the machine's error or upgrade, and all the machine reported has been told but for some last bytes of the data it was inside. |
| `HttpChunks.RunHex` | lib/crow/include/crow/http_parser_merged.h:2084-2135 | The hexadecimal size of a chunk is read exactly. |
| `HttpChunks.RunChunk` | lib/crow/include/crow/http_parser_merged.h:2084-2200 | One non-empty chunk is delivered whole and leads back to where it began. |
| `HttpChunks.RunLast` | lib/crow/include/crow/http_parser_merged.h:2084-2162 | The empty chunk with an empty trailer completes the message, once. |
| `HttpChunks.ChunkedBodyDelivered` | lib/crow/include/crow/http_parser_merged.h:2084-2200 | The chunked encoding of any list of non-empty chunks delivers exactly their concatenation and one message-complete. |
| `HttpChunks.FeedChunked` | lib/crow/include/crow/http_parser_merged.h:895-2240 | The same through http_parser_execute with the encoding cut up in any way. |
| `HttpValues.RunName` | lib/crow/include/crow/http_parser_merged.h:1546-1724 | A header name is told whole, and the parser then knows which of the names that steer it this is. |
| `HttpValues.RunValue` | lib/crow/include/crow/http_parser_merged.h:1741-1888 | A value is told whole, and the parser then knows whether it is chunked, keep-alive or close in any letter case with nothing but spaces behind it, or the number its digits spell. |
| `HttpValues.RunLine` | lib/crow/include/crow/http_parser_merged.h:1546-1943 | One header line, ended by CR and LF or by LF alone, is told whole and sets exactly the flag or the length that it asks for. |
| `HttpValues.RunLines` | lib/crow/include/crow/http_parser_merged.h:1546-1943 | Any header lines are told in order; a flag is set exactly if some line asks for it, and the last content length counts. |
| `HttpUrl.UrlFits` | lib/crow/include/crow/http_parser_merged.h:641-829 | After any characters of a request target each state of the parser means one language of the grammar: a scheme, a server, a path, a query, a fragment. |
| `HttpUrl.TargetIff` | lib/crow/include/crow/http_parser_merged.h:1351-1422 | Up to the space behind it the parser goes on if and only if the text is a target of the grammar, and then has told all of it. |
| `HttpRequest.RunMethod` | lib/crow/include/crow/http_parser_merged.h:1225-1349 | The name of every method is read as that method. |
| `HttpRequest.RunVersion` | lib/crow/include/crow/http_parser_merged.h:1424-1543 | The version is read as its two numbers. |
| `HttpRequest.RunEmptyLine` | lib/crow/include/crow/http_parser_merged.h:1945-2034 | The empty line completes the headers and leads to an upgrade, to chunks, to a body of the given length, or to the end of the message. |
| `HttpRequest.RequestDelivered` | lib/crow/include/crow/http_parser_merged.h:895-2240 | A whole request by its text: from its method, target, version, header lines and body exactly these are told, in order, and the parser then takes another request if and only if the version and the Connection lines keep the connection. |
| `HttpRequest.UpgradeEnds` | lib/crow/include/crow/http_parser_merged.h:1993-2004 | A CONNECT or an upgrade ends with its head, and nothing behind it is read. |
| `HttpRequest.ExtensionIgnored` | lib/crow/include/crow/http_parser_merged.h:2100-2146 | An extension behind the size of a chunk changes nothing. |
| `HttpRequest.TrailersDelivered` | lib/crow/include/crow/http_parser_merged.h:1945-2200 | A chunked body with trailer lines: the data, the lines and one end of message, and what the trailer asks for counts for the connection. |
| `HttpRequest.BlankSkipped` | lib/crow/include/crow/http_parser_merged.h:1225-1228 | Empty lines between requests are skipped. |
| `HttpRequest.ClosedRefuses` | lib/crow/include/crow/http_parser_merged.h:982-990 | After a request that closes the connection any other byte is refused. |
| `HttpRequest.PipelineDelivered` | lib/crow/include/crow/http_parser_merged.h:895-2240 | Any number of requests on one connection are told one after the other. |
| `HttpRequest.FeedRequests` | lib/crow/include/crow/http_parser_merged.h:895-2240 | The same through http_parser_execute with the bytes cut up in any way. |
| `HttpNames.MethodIsText` | lib/crow/include/crow/http_parser_merged.h:1225-1349 | While the letters of a method are accepted they are a prefix of the method at hand. |
| `HttpNames.MethodRecognised` | lib/crow/include/crow/http_parser_merged.h:1266-1349 | The method after the space is the one whose name was sent. |
| `HttpNames.RecognisedMeans` | lib/crow/include/crow/http_parser_merged.h:1596-1716 | The header matching state says exactly which of the five names the letters so far begin or spell. |
| `HttpNames.HeaderNameRecognised` | lib/crow/include/crow/http_parser_merged.h:1546-1716 | A header steers the parser if and only if its whole name, in any letter case, is one of the five. |
| `MustacheTree.ParseConcat` | lib/crow/include/crow/mustache.h:320-371 | Parsing a sequence of tags is parsing a first part and then the rest. |
| `MustacheTree.ParseForest` | lib/crow/include/crow/mustache.h:320-371 | Nested sections parse to their flat actions with matching targets. |
| `MustacheTree.AcceptedIsNested` | lib/crow/include/crow/mustache.h:338-371 | Whatever parse accepts is a sequence of nested sections, apart from the blocks left on its stack. |
| `MustacheTree.ClosedIffNested` | lib/crow/include/crow/mustache.h:338-371 | Parse accepts with every block closed if and only if the tags are those of some nested sections, and then its actions are the compiled ones. |
| `MustacheTree.ForwardIffClosed` | lib/crow/include/crow/mustache.h:338-371 | The target of a block lies ahead if and only if the block is closed; the others keep target 0. |
| `MustacheTree.TargetCloses` | lib/crow/include/crow/mustache.h:338-371 | The target of a closed block is the tag that closes it: it has the name of the block, and the tags between the two are nested sections. |
| `MustacheTree.UnclosedBlockLoops` | lib/crow/include/crow/mustache.h:221-228 | In every accepted template, skipping a closed block goes on behind the tag that closes it; skipping an unclosed one goes on at index 1, which is not behind the block. |
| `MustacheRender.InnermostWins` | lib/crow/include/crow/mustache.h:67-111 | A name is looked up in the innermost context of the stack that has it. |
| `MustacheRender.Template.Parse` | lib/crow/include/crow/mustache.h:307-381 | Parse fills actions and fragments as the tree parser says, and throws when it does. |
| `MustacheRender.Template.ParseAction` | lib/crow/include/crow/mustache.h:320-371 | One tag. |
| `MustacheRender.Template.FindContext` | lib/crow/include/crow/mustache.h:67-111 | Find_context finds what the lookup finds. |
| `MustacheRender.Template.AppendValue` | lib/crow/include/crow/mustache.h:172-188 | A value tag appends its text, nothing if the name is missing, and throws on other types. |
| `MustacheRender.Template.RenderList` | lib/crow/include/crow/mustache.h:231-242 | The body once for every element of a list. |
| `MustacheRender.Template.TurnBlock` | lib/crow/include/crow/mustache.h:192-258 | Skipping, entering or repeating a section keeps what is left to render and goes forward. |
| `MustacheRender.Template.EnterSection` | lib/crow/include/crow/mustache.h:243-248 | Entering a section pushes one context and owes its body. |
| `MustacheRender.Template.RenderInternal` | lib/crow/include/crow/mustache.h:146-269 | Interpreting a balanced range of the flat action array appends exactly the meaning of its nested sections, leaves the context stack as it was, and ends. |
| `MustacheRender.Template.Render` | lib/crow/include/crow/mustache.h:285-303 | A template whose blocks are all closed renders to the meaning of its section tree. |
| `MustacheLaws.PartsOfName` | lib/crow/include/crow/mustache.h:82-100 | The parts of a dotted name hold no dot, and joined by dots they are the name. |
| `MustacheLaws.PartsAreUnique` | lib/crow/include/crow/mustache.h:82-100 | No other division of the name has such parts. |
| `MustacheLaws.ResolveIff` | lib/crow/include/crow/mustache.h:102-120 | A path leads to a value if and only if its keys do, one object after the other. |
| `MustacheLaws.PlainSection` | lib/crow/include/crow/mustache.h:221-258 | For every name, body and stack: nothing for a missing name, null, false and an empty list; the body once for each element of a list, in order; and once with the value pushed for true, numbers, strings and objects. |
| `MustacheLaws.InvertedSection` | lib/crow/include/crow/mustache.h:192-220 | Renders its body, once and with null pushed, exactly where the plain section renders nothing. |
| `MustacheLaws.ForestParts` | lib/crow/include/crow/mustache.h:146-269 | What stands in a row is rendered one behind the other. |
| `MustacheLaws.ValueTag` | lib/crow/include/crow/mustache.h:171-191 | Nothing for a missing name, the printed number, the string with references for its special characters unless the tag is unescaped, and an exception for anything else. |
| `MustacheLaws.EscapeReadsBack` | lib/crow/include/crow/mustache.h:128-144 | Reading the references of an escaped string back gives the string. |
| `MustacheLaws.NothingSpecialLeft` | lib/crow/include/crow/mustache.h:128-144 | No special character is left in it but the references' own. |
| `JsonText.ContentIsWellEscaped` | lib/crow/include/crow/json.h:715-775 | The content of every string decode_string accepts is made of plain bytes and complete escapes. |
| `JsonText.PlainMeansItself` | lib/crow/include/crow/json.h:738-772 | Without a backslash it means itself. |
| `JsonText.UnescapeShift` | lib/crow/include/crow/json.h:338-401 | The meaning of a string does not depend on where it stands. |
| `JsonUnicode.Utf8Decodes` | lib/crow/include/crow/json.h:373-386 | For every code below 0x10000 the bytes written decode to exactly that code by the ranges of section 3 of RFC 3629, in the fewest bytes, and no other bytes do. |
| `JsonUnicode.LettersIff` | lib/crow/include/crow/json.h:346-355 | The eight letters behind a backslash stand for the characters that section 7 of RFC 8259 lists. |
| `JsonUnicode.DigitsDecode` | lib/crow/include/crow/json.h:356-389 | Four hexadecimal digits in either letter case become bytes that decode to the number they spell. |
| `JsonUnicode.UnescapeIff` | lib/crow/include/crow/json.h:338-401 | A string is accepted and means t if and only if it consists of plain bytes, letter escapes and four-digit escapes that stand for t piece by piece. |
| `JsonUnicode.ValidIffNoSurrogate` | lib/crow/include/crow/json.h:356-389 | A string written in bytes below 0x80 becomes valid UTF-8 if and only if none of its escapes is a surrogate. |
| `JsonUnicode.PairIsNotJoined` | lib/crow/include/crow/json.h:356-389 | An input: two surrogates that RFC 8259 reads as one character become six bytes that are not UTF-8. |
| `JsonUnicode.EscapeIsShortest` | lib/crow/include/crow/json.h:35-68 | Of all ways to write a string without bare control bytes and quotes the printed one is the shortest. |
| `JsonGrammar.LoadIsTheGrammar` | lib/crow/include/crow/json.h:1051-1064 | A text loads with a value if and only if the grammar lets one write the value so: any white space between tokens, no trailing commas, strings of plain bytes and accepted escapes, and anything behind a NUL. |
| `JsonGrammar.NumberIff` | lib/crow/include/crow/json.h:817-932 | The texts that decode_number accepts are exactly a sign, a whole part without leading zeros, a fraction and an exponent, of which the fraction and a signed exponent need no digits and a zero takes an exponent only behind a point. |
| `JsonGrammar.NumbersAgreeIff` | lib/crow/include/crow/json.h:817-932 | A text is accepted, with a digit behind every point and every later sign, if and only if it is a number of section 6 of RFC 8259 in which no exponent follows a whole part of zero; so these two tests say where the accepted numbers and those of the standard differ. |
| `JsonGrammar.NumbersThatDiffer` | lib/crow/include/crow/json.h:817-932 | Inputs for both: `1.` and `1e+` are accepted and no numbers of the standard, `0e1` is one and refused. |
| `JsonGrammar.ParsesSpelled` | lib/crow/include/crow/json.h:935-987 | Every way of the grammar to write a value is parsed, wherever it stands, to what it means and to its end. |
| `JsonGrammar.ValueIsSpelled` | lib/crow/include/crow/json.h:935-987 | Whatever is parsed was written in a way of the grammar, and this is what it means. |
| `JsonGrammar.ItemsAreSpelled` | lib/crow/include/crow/json.h:777-815 | The same for the loop over a list. |
| `JsonGrammar.FieldsAreSpelled` | lib/crow/include/crow/json.h:989-1043 | The same for the loop over an object. |
| `JsonRoundTrip.EscapedEnds` | lib/crow/include/crow/json.h:35-68 | An escaped string ends exactly at the quote that was put behind it. |
| `JsonRoundTrip.EscapeMeans` | lib/crow/include/crow/json.h:35-68 | Escaping any byte string, control characters included, and decoding it gives it back. |
| `JsonRoundTrip.PrintedIs` | lib/crow/include/crow/json.h:1398-1459 | The printed form of a value is one way of the grammar to write it, without white space, and means the value. |
| `JsonRoundTrip.ParseDumped` | lib/crow/include/crow/json.h:1398-1459 | A printed value parses to itself wherever it stands in a text, and parsing ends where the value ends. |
| `JsonRoundTrip.RoundTrip` | lib/crow/include/crow/json.h:1051-1064 | For every number-free value of any depth, loading its dump succeeds, consumes everything and gives the value back. |
| `JsonRoundTrip.EscapeInto` | lib/crow/include/crow/json.h:35-68 | Escape appends the escaped form. |
| `JsonRoundTrip.DumpInto` | lib/crow/include/crow/json.h:1398-1459 | Dump_internal appends the printed form. |
| `JsonBuffer.DecodingStep` | lib/crow/include/crow/json.h:345-395 | One turn of unescape keeps written bytes plus the meaning of unread bytes equal to the meaning of the whole. |
| `JsonBuffer.UnescapeBytes` | lib/crow/include/crow/json.h:340-397 | The loop of unescape leaves the meaning at the start of the range, never writes past what it has read and touches nothing outside. |
| `JsonBuffer.UnescapeInPlace` | lib/crow/include/crow/json.h:338-401 | The range becomes exactly the meaning of the original bytes, piece by piece as the escapes stand for it, only the string's own span changes, and with the flag cleared a further call changes nothing. |
| `JsonBuffer.DenotesStays` | lib/crow/include/crow/json.h:777-1043 | What a parsed value stands for survives writes outside its own span. |
| `JsonBuffer.Parser.DecodeString` | lib/crow/include/crow/json.h:715-775 | Accepts exactly the strings of the grammar and returns a range that stands for the decoded bytes. |
| `JsonBuffer.Parser.DecodeNumber` | lib/crow/include/crow/json.h:817-932 | Accepts exactly the numbers of its automaton and keeps their text. |
| `JsonBuffer.Parser.DecodeValue` | lib/crow/include/crow/json.h:935-987 | Accepts exactly the values of the grammar and returns one that stands for the parsed value in the buffer as rewritten so far. |
| `JsonBuffer.Parser.DecodeList` | lib/crow/include/crow/json.h:777-815 | The same for lists. |
| `JsonBuffer.Parser.DecodeObject` | lib/crow/include/crow/json.h:989-1043 | The same for objects, whose names are unescaped in place at once. |
| `JsonBuffer.Parser.Parse` | lib/crow/include/crow/json.h:1051-1064 | Parsing a whole text in place succeeds exactly when the grammar accepts it and gives a value that stands for the result. |
| `JsonList.Elements.EmplaceBack` | lib/crow/include/crow/json.h:574-592 | Appends an element, moving the others to a larger array exactly when the free count is 0; the free count fits its 16 bits and the total is right. The size passes through an int: moving would run past the new array exactly when no place is free and 60000 more elements do not fit an int. |
| `Words32.ShiftRightSplits` | lib/crow/include/crow/TinySHA1.hpp:35-37 | A right shift takes off exactly the low bits. |
| `Words32.JoinDisjoint` | lib/crow/include/crow/TinySHA1.hpp:144-147 | Joining numbers with disjoint bits by or, by exclusive or and by addition is the same. |
| `Words32.RotateWithXor` | lib/crow/include/crow/TinySHA1.hpp:35-37 | Joining the two shifted parts with exclusive or is the circular shift of section 3 of RFC 3174. |
| `Words32.BitByBit` | lib/crow/include/crow/TinySHA1.hpp:157-181 | Each bit operation does to every place what its name says. |
| `Words32.RotatedBit` | lib/crow/include/crow/TinySHA1.hpp:35-37 | The circular shift moves every bit by n places. |
| `Sha1.LeftRotate` | lib/crow/include/crow/TinySHA1.hpp:35-37 | Computes the circular shift. |
| `Sha1.JoinOctets` | lib/crow/include/crow/TinySHA1.hpp:142-147 | Joins four octets to a big-endian word. |
| `Sha1.FillSchedule` | lib/crow/include/crow/TinySHA1.hpp:140-150 | The 80 words of section 6.1 of RFC 3174. |
| `Sha1.FunctionBits` | lib/crow/include/crow/TinySHA1.hpp:157-177 | In every place the functions choose, add up or take the majority of three bits. |
| `Sha1.ConstantsAreRoots` | lib/crow/include/crow/TinySHA1.hpp:157-177 | The four constants are the square roots of 2, 3, 5 and 10 in units of 2^-30, rounded down. |
| `Sha1.InitialIsCounted` | lib/crow/include/crow/TinySHA1.hpp:49-53 | Octet by octet the initial words count up, down, and from both ends at once. |
| `Sha1.OneRound` | lib/crow/include/crow/TinySHA1.hpp:157-181 | One round of section 6.1 of RFC 3174. |
| `Sha1.ProcessBlock` | lib/crow/include/crow/TinySHA1.hpp:140-188 | The block function of section 6.1 of RFC 3174, computed on the buffer. |
| `Sha1.Sha1OfPieces` | lib/crow/include/crow/TinySHA1.hpp:58-107 | For messages under 2^32 bits, any division into pieces fed bytewise or in bulk gives the SHA-1 digest of the whole. |
| `Sha1Stream.ZerosAreFewest` | lib/crow/include/crow/TinySHA1.hpp:83-95 | The padding uses the fewest zeros that leave eight octets for the length. |
| `Sha1Stream.PaddingAgreesIff` | lib/crow/include/crow/TinySHA1.hpp:81-107 | The padding of getDigest is that of section 4 of RFC 3174 if and only if the message is shorter than 2^32 bits. |
| `Sha1Stream.SHA1.Reset` | lib/crow/include/crow/TinySHA1.hpp:48-57 | Forgets everything fed. |
| `Sha1Stream.SHA1.ProcessByte` | lib/crow/include/crow/TinySHA1.hpp:58-66 | Adds one octet to what was fed, compressing full blocks. |
| `Sha1Stream.SHA1.ProcessBytes` | lib/crow/include/crow/TinySHA1.hpp:67-80 | Adds the octets in order. |
| `Sha1Stream.SHA1.GetDigest` | lib/crow/include/crow/TinySHA1.hpp:81-107 | The digest of what was fed with its padding; the padding counts as fed afterwards. |
| `Sha1Stream.DigestOfPieces` | lib/crow/include/crow/TinySHA1.hpp:58-107 | Any division of a message gives the digest of the whole. |
| `IncludeOrder.BackEdge` | lib/crow/amalgamate/merge_all.py:32-34 | An edge back into the path being visited closes a cycle. |
| `IncludeOrder.Finish` | lib/crow/amalgamate/merge_all.py:35 | Finishing a file keeps every finished file behind its includers, unless there is a cycle. |
| `IncludeOrder.Merger.Dfs` | lib/crow/amalgamate/merge_all.py:29-35 | Visits a file and keeps the search sound, at any depth of recursion. |
| `IncludeOrder.Merger.VisitAll` | lib/crow/amalgamate/merge_all.py:37-41 | The reversed order holds every header exactly once, and puts every included file before its includers when there is no cycle. |
| `IncludeOrder.ReversedOrder` | lib/crow/amalgamate/merge_all.py:41 | Reversing the finishing order turns it into an include order. |
| `IncludeOrder.OrderedHasNoCycle` | lib/crow/amalgamate/merge_all.py:44-46 | A graph whose assertion succeeds has no cycle. |
| `IncludeOrder.IndexOf` | lib/crow/amalgamate/merge_all.py:46 | The first position of a file. |
| `IncludeOrder.Check` | lib/crow/amalgamate/merge_all.py:44-46 | The double loop succeeds exactly when every included file stands before its includers, and fails on a missing file otherwise. |
| `IncludeOrder.BuildEdges` | lib/crow/amalgamate/merge_all.py:17-23 | The edges are exactly the include lines of the headers. |
| `IncludeOrder.Merge` | lib/crow/amalgamate/merge_all.py:17-46 | The script succeeds exactly when every included name is a header and the include graph has no cycle; with all names known, the assertion fails exactly on a cycle. |
| `Coremask.NoCoresIffZero` | nfvi/ssn_vnf_block.h:268-278 | A coremask starts no virtual core if and only if it is zero. |
| `Coremask.CoresAreBits` | nfvi/ssn_vnf_block.h:272-275 | The cores of a mask are exactly its set bits, in increasing order. |
| `QueueAccess.SlicesPartition` | lib/libsusanow/ssn_ma_port.cc:236-258 | When the counts divide, each queue is in the slice of exactly one access id, and no slice holds a queue that does not exist. |
| `QueueAccess.LabelledRows` | lib/libsusanow/ssn_ma_port.cc:171-182 | Filtering the labels of a port gives an access id its contiguous span and nothing else. |
| `QueueAccess.OneSide.QidsFromAid` | lib/libsusanow/ssn_ma_port.cc:171-182 | The queues labelled with an access id, in order. |
| `QueueAccess.OneSide.ConfigureQueueAccessor` | lib/libsusanow/ssn_ma_port.cc:236-258 | Throws exactly when there are access ids and the counts do not divide; otherwise every access id gets its slice. |
| `QueueAccess.OneSide.Burst` | lib/libsusanow/ssn_ma_port.cc:164-169 | Uses the current queue of the access id and advances it, wrapping around; it takes a remainder by zero exactly when the access id owns no queue. |
| `QueueAccess.RoundVisitsEachOnce` | lib/libsusanow/ssn_ma_port.cc:164-169 | From any position, as many bursts as there are owned queues use each exactly once and return the accessor to where it was. |
| `QueueAccess.Ring.ConfigureDeqAcc` | lib/libsusanow/ssn_ma_ring.h:101-130 | The direct slices of a ring are those of a port; no access ids at all is a division by zero. |
| `QueueAccess.Ring.ConfigureEnqAcc` | lib/libsusanow/ssn_ma_ring.h:132-161 | The same for the other end. |
| `VnfAccess.Port.RequestRxAccess` | nfvi/ssn_vnf_port.cc:50-55 | Hands out the next access id, to the virtual core that asks. |
| `VnfAccess.Port.RequestTxAccess` | nfvi/ssn_vnf_port.cc:57-62 | The same for transmitting. |
| `VnfAccess.Port.ConfigAcc` | nfvi/ports/virt.h:138-142 | Deals the queues of both sides to the access ids given out: a NIC port throws exactly when a count does not divide, a patched virtual port also divides by zero exactly when a side has no access ids; the receive side decides first. |
| `VnfAccess.OneMoreServed` | nfvi/vnfs/l2fwd.h:44-56 | Serving one more virtual core extends the run of consecutive access ids on every port. |
| `VnfAccess.Block.RequestAll` | nfvi/vnfs/l2fwd.h:44-56 | A virtual core takes the next id of every port on both sides; it faults exactly when a port is missing. |
| `VnfAccess.Block.RequestBound` | nfvi/vnfs/l2fwd_numa.h:47-60 | The same for a block that polls one port and transmits on all. |
| `VnfAccess.Block.RequestAccess` | nfvi/vnfs/l2fwd.h:44-56 | All virtual cores hold consecutive ids of every port they ask. |
| `VnfAccess.Block.SetCoremask` | nfvi/ssn_vnf_block.h:268-278 | The virtual cores become the set bits of the mask and take fresh ids, on top of all given out before; it faults exactly for a non-zero mask with a port missing. |
| `VnfAccess.Block.Reset` | nfvi/ssn_vnf_block.h:257-266 | Requests access for one virtual core, so it faults exactly when a port is missing. |
| `VnfAccess.Block.GetVlcoreId` | nfvi/ssn_vnf_block.h:199-210 | Every virtual core finds its own index from its core, any other core finds none. |
| `VnfAccess.Block.Deploy` | nfvi/ssn_vnf_block.h:280-295 | Succeeds exactly with at least one virtual core and a launch on each of their cores. |
| `VnfOwners.HeldKept` | nfvi/ssn_vnf_block.h:268-278 | A new coremask for any block keeps that so. |
| `VnfOwners.ExactIff` | nfvi/ssn_vnf_block.h:268-278 | It keeps every id given out in use if and only if the block held none before, since ids of replaced virtual cores are not given back. |
| `VnfOwners.MaskStep` | nfvi/ssn_vnf_block.h:268-278 | Both, read off the ports before and after the call. |
| `VnfOwners.OwnedStep` | nfvi/ssn_vnf_block.h:268-278 | The same for all ports at once. |
| `VnfOwners.QueuesShared` | lib/libsusanow/ssn_ma_port.cc:236-258 | With one holder per id and dividing counts no queue is used by two virtual cores, and with every id in use every queue is used. |
| `VnfOwners.FitsIsDone` | nfvi/ssn_vnf.cc:57-63 | Dealing out the queues of all ports succeeds if and only if what the masks ask for divides the queues of each side, and asks something of each ring. |
| `VnfDeploy.Vnf.AttachPort` | nfvi/ssn_vnf.cc:236-255 | Plugs a port in unless the slot is taken or the port is plugged in anywhere; the same slot is seen by all blocks. |
| `VnfDeploy.Vnf.DettachPort` | nfvi/ssn_vnf.cc:257-270 | Unplugs it. |
| `VnfDeploy.Vnf.SetCoremask` | nfvi/ssn_vnf.cc:139-147 | Refused with nothing changed while a port is missing; otherwise exactly one block takes the mask. |
| `VnfDeploy.Vnf.Reset` | nfvi/ssn_vnf.cc:92-114 | With every port plugged in, all virtual cores and ids are taken back; with one missing it faults if there is a block, before its own check is reached. |
| `VnfDeploy.Vnf.Deployable` | nfvi/ssn_vnf.cc:65-90 | True exactly when every port is plugged in and no mask is zero. |
| `VnfDeploy.Vnf.ConfigureAcc` | nfvi/ssn_vnf.cc:57-63 | Deals the queues of every port, NIC or patched, up to the first one whose counts do not divide or whose ring has no access ids, and ends as that one does. |
| `VnfDeploy.Vnf.Deploy` | nfvi/ssn_vnf.cc:184-206 | Refused, thrown, divided by zero, failed or done, each under its exact condition; when done every access id owns its slice, and ports and virtual cores are untouched. |
| `VnfDeploy.Vnf.SetNext` | nfvi/ssn_vnf.cc:139-147 | One more block takes its mask, and every id stays held by exactly one virtual core. |
| `VnfDeploy.Vnf.BringUp` | nfvi/examples/l2fwd2b/main.cc:60-80 | Reset, one coremask per block and deploy succeed exactly when every port is plugged in and deployable, no mask is zero, the ids asked for divide the queues on both sides of each port, each ring is asked for something, and the threads start; then every id is held by one virtual core and dealt its slice. |
| `VnfDeploy.Vnf.OwnsNoneIff` | lib/libsusanow/ssn_ma_port.cc:164-169 | Once deployed, a virtual core owns no queue of a side it asked, so that its first burst takes a remainder by zero, if and only if that side has no queues. |
| `VnfDeploy.Vnf.QueuesAreOwnedOnce` | nfvi/ssn_vnf.cc:184-206 | Once deployed, a queue of a port exists if and only if some virtual core uses it, and no two virtual cores use the same one. |

## Left out

- MpscQueue.StepInv: the lthread modules are state machines over values, not classes, because the property is about interleavings; weak memory is not modelled, every step is sequentially consistent.
- Scheduler.RunInv: runs in which a thread that already has a joiner is joined again are excluded, since they break the invariant; Scheduler.SecondJoinerDuplicates says exactly when.
- Scheduler.NoWakeUpLost: only runs in which no thread blocks after its own lthread_exit; Scheduler.ZombieIffBlocksAfterExit gives the exact condition.
- ExitJoin.StepInv: one exiting and one joining thread; a second joiner is in the scheduler's model.
- Sleep timers, cancellation, affinity migration, detached creation and thread-local storage of lthreads; the assembly of a context switch is a change of the current thread.
- QnodePool.Pool.PoolRemove: all inserts are complete between calls; a removal that overlaps an insert is left out.
- Router.Trie.Add: takes a trie that has not been compressed; the source also lets one add to a compressed trie, whose fragments are then no longer prefix-free.
- Router.Router.AddRule: takes a router that has not been validated, for the same reason; the rule objects themselves and the methods they accept are not modelled; a call that never ends is an outcome here.
- Router.Trie.FindRule: strtoll, strtoull and strtod are parameters that give an optional value and a strictly later position; nothing else is assumed of them.
- The constexpr and the runtime tag functions are one function here; the types of handlers are lists of argument types.
- HttpParser.RequestParser.Execute: requests only; callbacks succeed, pausing and the response side are not modelled, and data callbacks without bytes count as nothing told.
- HttpParser.RequestParser.Feed: which bytes of the last data a failing stream leaves untold is said for one piece only, by HttpParser.RequestParser.Execute.
- The parser does not reset nread after a trailer; the model follows it.
- HttpRequest.RequestDelivered: request lines without a version, folded header lines and heads over the header limit are not among its texts; HttpParser.RequestParser.Feed covers them as the byte machine has them.
- MustacheRender.Template.Parse: takes the texts and tags already split; cutting the body at its delimiters is left out.
- MustacheRender.Template.Render: needs a template whose blocks are all closed; splitting the body at its delimiters, partials, indentation, delimiter changes and standalone lines are left out, and numbers print through a parameter.
- JsonRoundTrip.RoundTrip: number-free values, with objects as sequences of fields in printing order; numbers are parsed to their text only.
- JsonList.Elements.EmplaceBack: moving elements past the end of the new array is an outcome here, not an access; running out of memory is left out.
- Sorting and lookup of object members, and the wvalue side of JSON.
- Sha1Stream.SHA1.GetDigest: the block function is a parameter of the streaming class and is supplied by the module Sha1; getDigestBytes is left out.
- Sha1.Sha1OfPieces: the example digests in section 7.3 of RFC 3174 are not evaluated.
- IncludeOrder.Merge: the files' include lines are a parameter; reading and writing files is left out.
- VnfDeploy.Vnf.BringUp: a virtual port has its rings for good, so patching and unpatching at run time is left out; launching a thread is a set of cores on which it fails.
- VnfAccess.Block.Reset: the choice of a socket by counting port accesses is left out.
- Undeploying, statistics, REST handlers, the shell, DPDK itself and the packet processing of the VNFs.
