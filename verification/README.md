# Distributed STM, its allocator, and the scheduler it ships with

The repository is a distributed software transactional memory: transactions on
many nodes read and write 64-byte blocks that live on home nodes, and a compiler
pass (Tanger) rewrites programs to use it. It bundles the TBB scheduler. This
project models the parts with the hardest invariants and proves what they are
for. `dafny verify dfyconfig.toml` checks all of it.

**The commit protocol** (`Stm*.dfy`, `Timestamps.dfy`). A step system: any number
of nodes, transactions and objects; one lock word per block; every read or write
of shared memory, every message and every attempt of a compare-and-swap loop is a
step of its own, in any interleaving, over sequentially consistent memory. Words
of a block are copied one by one and in any order. `abort` is a step that drops
both sets and starts the transaction over. The state carries history
(who committed which version, what each program read, the order in which
`validateAll` was begun); no step depends on it. *Hypothesis H*, `SingleWriterNode`:
for each object all committed version words carry the same node field. The server
compares raw words (`src/glue.cpp:60`); every other place that orders words looks
at versions only. The model keeps the raw comparison, and each theorem that needs H
says so; `StmStale.dfy` is a run without H in which an update is lost. Clocks stay
below 2^48, where the node field begins.

The theorems about values speak of what programs ask for: the steps of a run are named
(`StmPrograms.dfy`), the history of a transaction is the accesses its program has
completed since it last began or gave up, and every word of its copies follows from
them (`StmCopies.dfy`). What a failed commit leaves behind is in `StmAborts.dfy`, why a
transaction gives up in `StmReasons.dfy`, and that every program can be carried out and
committed when nobody is in the way in `StmPaths.dfy`, `StmCommits.dfy` and
`StmAlone.dfy`.

**Asking for locks** (`LockCodec.dfy`, `LockRequests.dfy`). The batching loop of
`getLocks` with its per-node buffers, the server's decoding of them, and the
replies. The other transactions enter as the two words each compare-and-swap meets,
the one read first and the one found, which are arbitrary.

**The buddy allocator** (`Buddy*.dfy`, `Powers.dfy`). A class over an array of tags,
with the search, marking and combining loops of the source. They are proved
against recursive functions on trees, and those against the set of live blocks.
Tags below an unused or used node are stale and are never looked at. Requests are
32-bit words, and the cast of the rounded size to a signed number is part of the model.

**The hash map** (`Hash*.dfy`). The buckets as values (`HashLayout`, `HashTable`,
`HashState`), the map as a class used by one thread at a time with masks that may
be stale (`HashMap`), the serial `rehash` (`HashRehash`), the map used by many
threads, linearized to a finite map (`HashThreads`), and the life of its nodes, which
accessors lock and `erase` and `exclude` unlink and delete (`HashItems`). What the
operations answer is in `HashAnswers` and `HashItemCalls`; that one alone completes, and
that from every reachable state all of them still can, in `HashAlone`, `HashProgress` and
`HashItemProgress`.

**The scheduler.** The arena's pool state (`ArenaPool`), the mailbox and the task
proxies in it (`Mailbox`, `TaskProxy`), the server of worker threads
(`WorkerServer`) and the observer list (`Observer*.dfy`) are step systems with locks
as atomic sections; the market's allotment arithmetic (`Market*.dfy`) is a class.
In the observer list callbacks are user code that may itself switch observers on and
off and start passes, so every thread has a stack of calls; the position a scheduler
has saved in its field and the one a pass carries in its parameter are separate. Which
observers a pass calls is in `ObserverCalls`, `ObserverTold` and `ObserverOnce`. Each of
these systems has, beside what its steps keep, what its operations answer and that they
can end (`ArenaScan`, `WorkerSettling`, `ObserverProgress`, the last part of `Mailbox`).

**Nesting levels** (`TxnPaths.dfy`, `TxnLevels.dfy`). `determineLevels` as a class
over an abstract control-flow graph, for transactions delimited by marker calls.

Six statements one would expect are false of the code. The project keeps the code
as it is, names an input, and says exactly when they hold:

- The raw comparison of lock words is not a comparison of versions across nodes
  (`Timestamps.RawComparisonAcrossNodes`; exactly when:
  `Timestamps.RawComparisonIsVersionComparison`). The protocol meets such words: in
  `StmStale.StaleGrantLosesUpdate` a lock is granted on a stale copy, and of three
  committed increments one is lost.
- `rehash(n)` can leave buckets waiting: when the table is empty, the segments it
  adds count as rehashed, the scan of the last one meets nothing, and older waiting
  buckets stay (`HashRehash.EmptyTableKeepsWaitingBuckets`; exactly when:
  `HashMap.Map.Rehash`).
- The counts of observer proxies can go wrong, and a deleted proxy can be used: when
  a callback of an entry pass switches an observer on, the pass this starts on the
  same thread begins at a position already given up
  (`ObserverLost.NestedPassLosesProxy`; exactly when:
  `ObserverPasses.ExactExactlyWhenProper` step by step, and
  `ObserverNesting.ExactExactlyWhenCareful` in terms of what programs do).
- A request to the buddy allocator for more than 2^30 units is not refused: the cast
  makes its size negative or zero, and the search leaves the array unless everything
  is taken (`Buddy.FreshTreeIsLeft`; exactly when: `Buddy.Allocator.Alloc`).
- The market's `assert_market_valid` fails when nobody asks for workers and an arena
  below the normal priority begins to (`Market.IdleArenaAsksFromBelow`; exactly when:
  `Market.Market.AdjustDemand`).
- The books of the market go wrong when an arena whose request is negative changes its
  level (exactly when: `Market.Market.LowerArenaPriority`, `Market.Market.UpdateArenaPriority`).

## Model

| member | source | states |
|---|---|---|
| Timestamps.UnpackPack | src/dstm_lib_p1/dstm_timestamps.h:6-10 | Lock bit, node and version come back from a packed word, and locking a word adds exactly bit 63. |
| Timestamps.PackUnpack | src/dstm_lib_p1/dstm_timestamps.h:6-10 | Every 64-bit word is the packing of its three fields. |
| Timestamps.RawComparison | src/glue.cpp:60-60 | Comparing packed words as integers compares lock bit, then node, then version. |
| Timestamps.RawComparisonIsVersionComparison | src/dstm_timestamps.cpp:18-23 | For unlocked words the raw comparison agrees with the version comparison if and only if the nodes are equal or ordered like the versions. |
| Timestamps.RawComparisonAcrossNodes | src/glue.cpp:60-61 | An input on which they disagree: a newer version of a lower node is not refused. |
| StmTheorems.LockSafety | src/dstm_lib_p1/dstm_transaction.cpp:56-189 | In every reachable state a word is locked exactly when some transaction holds it; the holder is unique, is committing, and has the object in its write set (without H). |
| StmTheorems.PutBackRestores | src/dstm_lib_p1/dstm_transaction.cpp:164-189 | A failed commit only gives back locks it holds, and the word it stores is the locked word without its lock bit. |
| StmAborts.FailedCommitRestores | src/dstm_lib_p1/dstm_transaction.cpp:127-189 | Under H, over every run: a lock that was granted and is no longer held, by a transaction that has published nothing, was put back by it, and that step leaves the lock word and the block as they were before the grant. |
| StmAborts.FailedCommitHoldsNothing | src/dstm_lib_p1/dstm_transaction.cpp:542-587 | When a failed commit gives up it holds no lock; a word still locked is another transaction's (without H). |
| StmReasons.OnlyConflictsAbort | src/dstm_cache_impl.h:297-383 | Over every run a transaction gives up, other than at its program's wish, only on a conflict: the block it reads is locked, an entry it looks up is locked or has a newer version, or its commit failed earlier, at a lock word that was raw-greater or had changed or at a stale entry (without H). |
| StmReasons.LooksUpOnlyOlder | src/dstm_lib_p1/dstm_transaction.cpp:214-292 | In every reachable state, what remains to be looked up is older than the version just read, and that version is above the vector clock: nothing else is checked. |
| StmCommits.CommitsAlone | src/dstm_lib_p1/dstm_transaction.cpp:542-587 | Undisturbed, a transaction with any sets commits whenever no packed word at home is greater than the one it read of a block it writes and the blocks it only read are intact; it leaves its copies in memory under one new version. |
| StmAlone.AnyProgramCommitsAlone | src/dstm_lib_p1/dstm_transaction_impl.h:187-277 | From every reachable state in which no lock is held, a new transaction can carry out any program and commit; its loads return, and memory becomes, what the program executed alone gives. |
| StmStale.StaleGrantLosesUpdate | src/glue.cpp:45-66 | A run without H: the home node grants a lock to a transaction that has read an older version, all three transactions commit an increment, the word that was 0 is 2, and no order of the three explains what they loaded. |
| StmTheorems.GrantTakesCurrent | src/glue.cpp:45-66 | Under H a granted lock replaces exactly the word the transaction read, so putting it back restores the earlier value. |
| StmTheorems.VersionsIncrease | src/glue.cpp:93-129 | Under H, between any two states of a run the version of an object is the same word or strictly larger. |
| StmTheorems.CommitAboveReads | src/dstm_lib_p1/dstm_transaction.cpp:462-476 | A committed version exceeds every version its transaction holds (without H). |
| StmTheorems.SnapshotReads | src/dstm_cache_impl.h:297-383 | Under H, when the two reads of the lock word agree, the copy taken word by word between them is the committed block of that version. |
| StmTheorems.EveryRunIsSerializable | src/dstm_lib_p1/dstm_transaction.cpp:542-587 | Under H, in every reachable state the transactions that passed `validateAll`, replayed one at a time in the order in which they began it, load exactly the values they loaded, and end with the shared memory (with the holder's block where a write-back is under way). |
| StmPrograms.EveryStepOfAProgram | src/dstm_lib_p1/dstm_transaction_impl.h:187-277 | Over every run with named steps: a step completes the access its program asked for last, which is recorded with the word loaded from or stored to its copy of the block and leaves the other words and blocks alone, or drops everything, or leaves sets, copies and history alone; other transactions keep theirs (without H). |
| StmPrograms.LogIsProgram | src/dstm_lib_p1/dstm_transaction_impl.h:187-277 | In every reachable state the history of a transaction lists, in order, exactly the accesses its program has completed since it last began or gave up: each store with its value, each load with some value (without H). |
| StmCopies.SetsFollowTheLog | src/dstm_lib_p1/dstm_transaction_impl.h:187-277 | In every reachable state a transaction has exactly the blocks its history mentions, every word of a copy is the last value stored there, or as read, and every load has returned the word as the accesses before it left it (without H). |
| StmCopies.ProgramsAreSerializable | src/dstm_lib_p1/dstm_transaction.cpp:542-587 | Under H, over every run: the programs of the transactions that passed `validateAll`, executed alone one after the other in the order in which they began it, load what the transactions loaded and leave the shared memory there is. |
| StmTheorems.EverySerialOrderIsComplete | src/dstm_lib_p1/dstm_transaction.cpp:560-580 | That order lists exactly the transactions that passed `validateAll`, each once, by the moment of beginning it. |
| StmTheorems.EveryRunIsCausallyConsistent | src/dstm_lib_p1/dstm_transaction.cpp:207-295 | Under H, no transaction, running or committed, ever holds a version of x together with a value written by W when W, or anything W transitively read from, had replaced that x, although the vector clock test skips checks and the timestamp filter skips entries. |
| StmLocks.LocksInvStep | src/dstm_lib_p1/dstm_transaction.cpp:56-205 | Every step keeps: one holder per locked word, commit versions unique per node and covered by its clock, every version in a set or a lock word was committed by its recorded origin. |
| StmVersions.VersionsInvStep | src/glue.cpp:60-64 | Every step keeps (under H): nobody holds a version newer than the one at home, and no lock word goes back. |
| StmVersions.GrantIsCurrent | src/glue.cpp:60-61 | Under H the raw comparison lets exactly the version through that is at home now. |
| StmVersions.LockWordGrows | src/dstm_lib_p1/dstm_transaction.cpp:469-476 | Releasing with a new clock strictly raises the version; any other store to a lock word leaves version and origin alone. |
| StmValues.ValuesInvStep | src/dstm_lib_p1/dstm_transaction.cpp:430-436 | Every step keeps (under H): memory holds the committed block unless its holder is writing back, and every snapshot is the committed block of its version. |
| StmValues.FreshSnapshot | src/dstm_cache_impl.h:314-323 | The copy that lies between two equal, unlocked reads of the lock word is the committed block of that version. |
| StmOrder.OrderInvStep | src/dstm_lib_p1/dstm_transaction.cpp:297-348 | Every step keeps: the order of beginning `validateAll` agrees with the order of versions on every object a transaction has confirmed. |
| StmSerial.LogsStep | src/dstm_lib_p1/dstm_transaction_impl.h:187-277 | Every step keeps: run alone from any memory that has its snapshots, a transaction loads what it loaded and leaves its write set. |
| StmSerial.ReadsLastWriter | src/dstm_lib_p1/dstm_transaction.cpp:313-345 | What a committed transaction read of x was left there by the last writer before it in the serial order. |
| StmCausal.CausalInvStep | src/dstm_lib_p1/dstm_transaction.cpp:214-292 | Every step keeps: what a transaction holds is not replaced by anything its vector clock covers. |
| LockCodec.KeyRoundTrip | src/dstm_malloc/dstm_malloc.h:18-22 | A server rebuilds the global address from its local part exactly for addresses without the topmost bit. |
| LockCodec.KeyParts | src/dstm_malloc/dstm_malloc.h:18-22 | A rebuilt global address has the node and the local part it was built from. |
| LockCodec.DecodeEncoded | src/glue.cpp:37-56 | The server decodes exactly the addresses and versions that were encoded, in order. |
| LockCodec.ReplyRoundTrip | src/gasnet_handlers.cpp:148-175 | The refused addresses reach the transaction unchanged, with and without refusals. |
| LockRequests.Servers.ProcessLocksRequest | src/glue.cpp:35-79 | Whatever other transactions do to the words: a word is stored to, once and with the requested version and the lock bit, exactly when the word read first is not raw-greater and the compare-and-swap still finds it; otherwise its address, equal to the write-set key, is reported; no other word is stored to. |
| LockRequests.Transaction.FillBatch | src/dstm_lib_p1/dstm_transaction.cpp:64-102 | A batch is the next slice of the write set, collected per node in order within the capacity of every buffer; it ends early only when a buffer is full. |
| LockRequests.Transaction.GetLocks | src/dstm_lib_p1/dstm_transaction.cpp:56-162 | Whatever other transactions do to the words: the outer loop ends; every entry asked for is asked for once, all of them if no batch is refused; the result is success exactly when every entry asked for is granted; each granted word is stored to once, locked, and on failure exactly once more, with the version asked with; no other word is stored to. |
| LockRequests.Transaction.ReleaseLocks | src/dstm_lib_p1/dstm_transaction.cpp:164-189 | Stores the version once more for exactly the entries that were asked for and not refused. |
| LockRequests.Transaction.LocksRequestProcessed | src/dstm_lib_p1/dstm_transaction.cpp:191-205 | Appends the refused addresses and counts the reply. |
| BuddyRounding.NextPowOf2IsLeast | src/dstm_malloc/buddy.cpp:43-52 | The bit smearing yields the least power of two that covers the request. |
| BuddyRounding.NextPowOf2Wraps | src/dstm_malloc/buddy.cpp:43-52 | It wraps round to zero exactly for zero and for words above 2^31. |
| BuddyRounding.SizeForIsPower | src/dstm_malloc/buddy.cpp:74-78 | The rounded request is a power of two as a number. |
| BuddyRounding.SizeOutOfRange | src/dstm_malloc/buddy.cpp:74-78 | Above 2^30 the cast of the rounded word is -2^31, or zero above 2^31. |
| BuddyTree.AlwaysBeyond | src/dstm_malloc/buddy.cpp:84-130 | A search for a size no node has stays in the tree if and only if the root is used or full. |
| Buddy.FreshTreeIsLeft | src/dstm_malloc/buddy.cpp:72-130 | A request of 2^30 + 1 units on a fresh allocator: no such range exists, and the search leaves the tree. |
| BuddyHeap.PlaceOffset | src/dstm_malloc/buddy.cpp:54-56 | The shift-and-subtract formula is the leftmost unit of the node in the tree. |
| BuddyTree.Canonical | src/dstm_malloc/buddy.cpp:132-145 | A reachable tree is determined by its live blocks. |
| BuddyTree.BlocksAreDisjoint | src/dstm_malloc/buddy.cpp:72-130 | Live blocks never overlap. |
| BuddyTree.BlocksAreAligned | src/dstm_malloc/buddy.cpp:54-56 | Every live block has a power of two as its size and starts at a multiple of it. |
| BuddyTree.NoBlocksIsUnused | src/dstm_malloc/buddy.cpp:132-145 | A tree without live blocks is one unused root, and only then. |
| BuddyTree.FullCovers | src/dstm_malloc/buddy.cpp:58-70 | Every unit below a used or full node lies in a live block. |
| BuddyTree.AllocTakes | src/dstm_malloc/buddy.cpp:87-128 | A successful search adds exactly one block, of the rounded size, where there was none, and keeps the tree legal. |
| BuddyTree.AllocLowest | src/dstm_malloc/buddy.cpp:87-128 | If an aligned free range exists the search succeeds, at or below it. |
| BuddyTree.ReleaseRemoves | src/dstm_malloc/buddy.cpp:132-173 | A release removes exactly its block and keeps the tree legal. |
| BuddyTree.AllocThenRelease | src/dstm_malloc/buddy.cpp:132-173 | Releasing what was just allocated restores the tree. |
| BuddyTree.ReleaseEvery | src/dstm_malloc/buddy.cpp:147-173 | Releasing all live blocks, in any order, ends at one unused root. |
| Buddy.FirstFit | src/dstm_malloc/buddy.cpp:87-128 | The search finds the lowest candidate whenever there is one. |
| Buddy.Allocator.constructor | src/dstm_malloc/buddy.cpp:25-33 | A new allocator is legal and has no live block. |
| Buddy.Allocator.MarkParent | src/dstm_malloc/buddy.cpp:58-70 | The upward loop marks exactly the ancestors whose halves are both full. |
| Buddy.Allocator.Search | src/dstm_malloc/buddy.cpp:84-130 | The backtracking loop ends, for sizes of every kind: with the tree and offset of the recursive search, with -1 and the array as it was, or at an index outside the array. |
| Buddy.Allocator.Alloc | src/dstm_malloc/buddy.cpp:72-130 | For every request up to 2^30: the lowest offset aligned to the rounded size whose whole range is free, which becomes a block, or -1 exactly when there is none, with no tag changed. For every request above: -1 inside the array if and only if the root is used or full, and otherwise an index at or beyond the end of the array. |
| Buddy.Allocator.ClearMarks | src/dstm_malloc/buddy.cpp:137-140 | Clears exactly the full marks above a node. |
| Buddy.Allocator.Combine | src/dstm_malloc/buddy.cpp:132-145 | Merges unused buddies upwards and clears exactly the full marks above. |
| Buddy.Allocator.Free | src/dstm_malloc/buddy.cpp:147-173 | Removes exactly the block that starts at the offset. |
| Buddy.Allocator.Size | src/dstm_malloc/buddy.cpp:175-200 | Returns the rounded size of the block that starts at the offset. |
| HashLayout.CutAndShift | src/tbb/include/tbb/concurrent_hash_map.h:158-171 | A mask keeps the low bits of a code: code, masked code and shifted code fit together. |
| HashLayout.ParentOfCut | src/tbb/include/tbb/concurrent_hash_map.h:643-648 | Clearing the topmost bit of a bucket index gives the bucket the shorter mask selects. |
| HashLayout.ChainOfCut | src/tbb/include/tbb/concurrent_hash_map.h:643-648 | The buckets above the one a code selects are exactly those shorter masks select for it. |
| HashTable.HomeDecides | src/tbb/include/tbb/concurrent_hash_map.h:607-613 | An item of a key is in the first bucket of its chain that has a list, or nowhere. |
| HashTable.PullIsSound | src/tbb/include/tbb/concurrent_hash_map.h:650-668 | Moving the selected items from the parent keeps every item, in its home, with unique keys. |
| HashTable.RehashedIsSound | src/tbb/include/tbb/concurrent_hash_map.h:639-669 | So does the recursion over all waiting ancestors. |
| HashTable.GrowIsSound | src/tbb/include/tbb/concurrent_hash_map.h:203-227 | Adding waiting buckets, and with them a longer mask, moves no item's home and loses none. |
| HashTable.InsertIsSound | src/tbb/include/tbb/concurrent_hash_map.h:187-192 | Linking a new key into its home bucket keeps every item in place and adds one. |
| HashTable.RemoveIsSound | src/tbb/include/tbb/concurrent_hash_map.h:1111-1112 | Unlinking a node removes that item and no other. |
| HashTable.NextLevelDecides | src/tbb/include/tbb/concurrent_hash_map.h:261-276 | If the bucket selected by the next longer mask still waits, the old bucket is the home under every longer mask. |
| HashTable.NextLevelMoved | src/tbb/include/tbb/concurrent_hash_map.h:266-275 | If it has been rehashed, the home lies at or beyond it. |
| HashState.CollisionDecides | src/tbb/include/tbb/concurrent_hash_map.h:259-278 | The collision check is right in both directions. |
| HashMap.MarkThenPull | src/tbb/include/tbb/concurrent_hash_map.h:642-648 | Marking a bucket as rehashed before its ancestors are rehashed makes no difference. |
| HashMap.SplitList | src/tbb/include/tbb/concurrent_hash_map.h:653-668 | The in-place walk splits the parent's list into the items that stay, in order, and those that move. |
| HashMap.Map.RehashBucket | src/tbb/include/tbb/concurrent_hash_map.h:639-669 | The recursion ends and computes the rehashed table. |
| HashMap.Map.Acquire | src/tbb/include/tbb/concurrent_hash_map.h:621-631 | Visiting a bucket gives it a list and changes no item. |
| HashMap.Map.CheckMaskRace | src/tbb/include/tbb/concurrent_hash_map.h:250-256 | For a stale mask, reports a race exactly when the bucket it selected is no longer the key's home. |
| HashMap.Map.EnableSegment | src/tbb/include/tbb/concurrent_hash_map.h:203-227 | Grows to the first block or doubles, waiting or (for an empty table) rehashed, with the same contents. |
| HashMap.Map.InsertNewNode | src/tbb/include/tbb/concurrent_hash_map.h:281-293 | Adds exactly the item, and grows to the next segment exactly when the table is full and the mask is the current one. |
| HashMap.Map.Lookup | src/tbb/include/tbb/concurrent_hash_map.h:956-1034 | Through any mask loaded since the table was last taken as empty: finds the key if it is there, inserts it exactly if it is not and insertion is asked for, and then grows exactly when the table has become full. |
| HashMap.Map.Erase | src/tbb/include/tbb/concurrent_hash_map.h:1086-1120 | Removes exactly the item of the key and reports whether there was one. |
| HashMap.Map.Reserve | src/tbb/include/tbb/concurrent_hash_map.h:296-301 | Adds segments until there are enough buckets, and none otherwise. |
| HashMap.Map.MarkRehashedLevels | src/tbb/include/tbb/concurrent_hash_map.h:239-246 | Marks exactly the waiting buckets whose root is the given one, across all segments. |
| HashMap.Map.SpreadRoot | src/tbb/include/tbb/concurrent_hash_map.h:1141-1157 | Traces a waiting bucket to its root and sends every item of the root to the bucket the full mask selects. |
| HashMap.Map.Rehash | src/tbb/include/tbb/concurrent_hash_map.h:1130-1159 | Keeps the contents; for every table, leaves a bucket waiting if and only if the enlarged table has a waiting bucket with no bucket of the last segment waiting for the same root; when rehashed buckets had rehashed parents, that is if and only if the table was empty, had to grow, and had one waiting before; when none waits, every item is in bucket hash & mask. |
| HashRehash.SpreadIsSound | src/tbb/include/tbb/concurrent_hash_map.h:1148-1157 | Spreading a root keeps the items, their uniqueness and their homes. |
| HashRehash.ClosedIsReached | src/tbb/include/tbb/concurrent_hash_map.h:1133-1140 | The last segment alone leads to every waiting bucket. |
| HashRehash.ScanVerdict | src/tbb/include/tbb/concurrent_hash_map.h:1131-1158 | Exactly when the scan leaves a bucket waiting, for every table and, in terms of what a caller can check, for tables whose rehashed buckets have rehashed parents. |
| HashRehash.AllInPlace | src/tbb/include/tbb/concurrent_hash_map.h:1149-1157 | With no bucket waiting, every item is where the full mask sends it. |
| HashRehash.EmptyTableKeepsWaitingBuckets | src/tbb/include/tbb/concurrent_hash_map.h:296-301 | A table of 256 buckets without items, enlarged to 512, whose bucket 2 still waits after any such scan. |
| HashThreads.NoRaceIsHome | src/tbb/include/tbb/concurrent_hash_map.h:250-278 | When the check finds no race, the bucket already locked through a stale mask is still the home, even if the table has grown between the load of the mask and the look at the bucket of its next bit. |
| HashThreads.CompareKeeps | src/tbb/include/tbb/concurrent_hash_map.h:259-278 | The second half of the check, any number of steps of other threads after the first, gives a right answer or starts again. |
| HashThreads.EveryStepIsAMapStep | src/tbb/include/tbb/concurrent_hash_map.h:615-669 | Every step of every thread keeps the invariant and is one step of a finite map, or invisible there. |
| HashThreads.RunsAreMapRuns | src/tbb/include/tbb/concurrent_hash_map.h:956-1120 | Over every run, with locks, recursive rehashing and growth interleaved, all results are those of a finite map, and every item sits in its home bucket. |
| HashAnswers.OperationIsAnswered | src/tbb/include/tbb/concurrent_hash_map.h:956-1120 | Over every run, the step in which a thread becomes idle answers the operation it loaded when it last left idle: a search with the key absent or an item of that key, an insertion with exactly its item or one of that key present, an erasure with the key absent or an item of that key; and the answer is a step of the finite map. |
| HashAnswers.OnlyAnswersSpeak | src/tbb/include/tbb/concurrent_hash_map.h:956-1120 | All other steps are silent, and no step answers two operations. |
| HashAlone.CompletesAlone | src/tbb/include/tbb/concurrent_hash_map.h:956-1120 | From every reachable state in which all threads are idle, any operation can be carried through, however many buckets wait for rehashing, to an answer of the kind above. |
| HashProgress.ListsChangeAlone | src/tbb/include/tbb/concurrent_hash_map.h:659-669 | Whoever changes the list of a bucket is the only thread that has it locked, readers included. |
| HashProgress.SomebodyGoesOn | src/tbb/include/tbb/concurrent_hash_map.h:621-669 | There is no deadlock: while a thread is busy some busy thread can take a step, and one that brings the end of all operations under way nearer, through claimed buckets, chains of waiting parents, upgrades and mask races. |
| HashProgress.EveryoneCanFinish | src/tbb/include/tbb/concurrent_hash_map.h:956-1120 | From every reachable state all operations under way can come to their answers without a new one and without growth. |
| HashProgress.EveryOperationCanComplete | src/tbb/include/tbb/concurrent_hash_map.h:956-1120 | From every reachable state any thread can begin and complete any further operation, with an answer of the kind above. |
| HashItems.InvStep | src/tbb/include/tbb/concurrent_hash_map.h:956-1120 | Every step of lookups, accessors, `erase`, `exclude` and rehashing keeps: whoever refers to a node refers to a live one, item and bucket locks exclude each other as they should, and an unlinked node has one owner. |
| HashItems.NothingDangles | src/tbb/include/tbb/concurrent_hash_map.h:1003-1120 | Over every run no accessor, and no thread in the middle of an operation, refers to a deleted node. |
| HashItems.DeletedLast | src/tbb/include/tbb/concurrent_hash_map.h:1072-1120 | A node is deleted by a thread that has unlinked it, when no accessor and no other thread refers to it. |
| HashItems.RemovedOnce | src/tbb/include/tbb/concurrent_hash_map.h:1062-1113 | Of all `erase` and `exclude` calls over a run at most one removes a node. |
| HashItems.WritersAreAlone | src/tbb/include/tbb/concurrent_hash_map.h:1003-1018 | While an accessor holds an item for writing nobody else holds it. |
| HashItems.NewItemIsFree | src/tbb/include/tbb/concurrent_hash_map.h:1003-1013 | The item just inserted can be locked at once, as the source asserts. |
| HashItems.QuietMapHoldsItsNodes | src/tbb/include/tbb/concurrent_hash_map.h:1074-1120 | With no operation under way the nodes not deleted are exactly the linked ones: none is leaked. |
| HashItemCalls.AccessorsHoldWhatWasAsked | src/tbb/include/tbb/concurrent_hash_map.h:1003-1021 | Over every run an accessor never changes what it holds; it is made by a lookup for the node it found or linked, of the kind asked for; and it ends by being released or given to `exclude`. |
| HashItemCalls.RemovalEnds | src/tbb/include/tbb/concurrent_hash_map.h:1053-1120 | A thread that removes a node and is done leaves it in no bucket, so `exclude` fails only when somebody else removed it, and deleted if the thread itself had unlinked it. |
| HashItemCalls.LookupAlone | src/tbb/include/tbb/concurrent_hash_map.h:1003-1021 | A search whose bucket and item are free ends with an accessor of the kind asked for, and changes nothing else. |
| HashItemCalls.InsertAlone | src/tbb/include/tbb/concurrent_hash_map.h:990-1021 | An insertion whose bucket is free ends with an accessor for its new node in every reachable state. |
| HashItemCalls.EraseAlone | src/tbb/include/tbb/concurrent_hash_map.h:1111-1120 | An erasure of a node nobody holds unlinks and deletes it. |
| HashItemCalls.UpgradeYields | src/tbb/include/tbb/concurrent_hash_map.h:1078-1081 | An upgrade that meets a reader lets go of its own lock, so that it and the reader do not wait for each other. |
| HashItemProgress.EveryNodeIsDeletedAtLast | src/tbb/include/tbb/concurrent_hash_map.h:1072-1120 | From every reachable state the accessors can be released and all operations under way end, without linking anything; then the nodes not deleted are exactly the linked ones. |
| ArenaPool.WorkStep | src/tbb/src/tbb/arena.cpp:301-441 | Every step keeps: in a pool marked busy, every task is one the snapshot has seen or will come past, or has a publisher bound to undo the snapshot; in an EMPTY pool every task has a publisher inside `advertise_new_work`. |
| ArenaPool.NoStrandedWork | src/tbb/src/tbb/arena.h:306-357 | In every reachable state with the pool EMPTY, every task has a publisher that has not finished advertising. |
| ArenaPool.PublisherMarksFull | src/tbb/src/tbb/arena.h:329-351 | A publisher that acts on the EMPTY mark makes the pool FULL before it leaves. |
| ArenaPool.DemandMatchesTransitions | src/tbb/src/tbb/arena.cpp:399-405 | Each EMPTY-to-FULL transition is followed by one raise of demand and each busy-to-EMPTY transition by one reduction; with none outstanding demand is all or nothing, by the pool state. |
| ArenaScan.ScanVerdict | src/tbb/src/tbb/arena.cpp:301-441 | Over every run a snapshot ends with the pool EMPTY and one drop of demand owed if and only if every slot below its limit was empty when it came past, the stream was empty when tested, and its own mark was still there; otherwise the answer is false and no pool becomes EMPTY. |
| ArenaScan.DropAnswers | src/tbb/src/tbb/arena.cpp:399-406 | Whoever owes a drop lowers demand by the maximum, once, and answers that the arena is out of work. |
| ArenaScan.AnswersAtOnce | src/tbb/src/tbb/arena.cpp:301-316 | Without a snapshot the answer is whether the pool was EMPTY. |
| ArenaScan.DecidesAlone | src/tbb/src/tbb/arena.cpp:301-441 | An undisturbed call on a FULL pool finds the arena out of work, makes it EMPTY and lowers demand exactly when no slot and not the stream has a task; otherwise it changes nothing. |
| ArenaScan.QuietArenaGoesToSleep | src/tbb/src/tbb/arena.cpp:386-406 | From every reachable state without tasks, with the pool FULL and no adjustment outstanding, one undisturbed call leaves the pool EMPTY and demand 0. |
| Mailbox.InvStep | src/tbb/src/tbb/mailbox.h:115-153 | Every step keeps the chain of links, and pops at most the next item in push order. |
| Mailbox.PoppedInOrder | src/tbb/src/tbb/mailbox.h:115-153 | With any number of pushers, what was popped is a prefix of the order in which they exchanged `my_last`, without repetition. |
| Mailbox.QuietBoxHoldsTheRest | src/tbb/src/tbb/mailbox.h:146-153 | With no push or pop under way, following the links from `my_first` spells exactly the items not popped. |
| Mailbox.WaitingIsOwed | src/tbb/src/tbb/mailbox.h:132-137 | A popper that waits for a link waits for a pusher about to fill it. |
| Mailbox.PopAnswers | src/tbb/src/tbb/mailbox.h:110-139 | Over every run a pop answers NULL only if `my_first` was NULL when it began, and otherwise the next item in the order of the exchanges; nothing else answers. |
| Mailbox.QuietPopHandsOutTheNext | src/tbb/src/tbb/mailbox.h:110-139 | A pop begun with no push between its two steps, on a box with items left, hands out the next one whatever pushes do meanwhile. |
| Mailbox.PopEnds | src/tbb/src/tbb/mailbox.h:110-139 | From wherever the popper stands, when no push is between its two steps, it comes alone to its answer: the next item, or NULL on an empty box. |
| Mailbox.PushEnds | src/tbb/src/tbb/mailbox.h:146-153 | A push alone ends with its proxy the last in the order. |
| TaskProxy.TakenOnceFreedOnce | src/tbb/src/tbb/mailbox.h:69-92 | Of pool and mailbox, exactly one gets the task and only the other one frees the proxy, after that. |
| TaskProxy.EveryCallAnswers | src/tbb/src/tbb/mailbox.h:69-92 | In every reachable state either call ends with its second step, and takes the task exactly when the other has not. |
| WorkerServer.InvStep | src/tbb/src/tbb/private_server.cpp:336-390 | Every step keeps the balance of slack and the wake-up guarantee. |
| WorkerServer.SlackBalances | src/tbb/src/tbb/private_server.cpp:336-390 | Slack plus workers not on the asleep list is the net of the requests, up to what is in flight. |
| WorkerServer.NoLostWakeUp | src/tbb/src/tbb/private_server.cpp:256-277 | While the list lock is free, slack is positive and somebody sleeps, some woken worker still has its chain reaction to run. |
| WorkerServer.RequestsAreMet | src/tbb/src/tbb/private_server.cpp:351-390 | With the list lock free and nothing waiting or pending, at least as many workers are awake as are requested, or all of them. |
| WorkerSettling.SleepsExactlyWithoutSlack | src/tbb/src/tbb/private_server.cpp:336-349 | Over every run a worker that ends its attempt is on the list if and only if the slack it found under the lock, its own unit included, was not positive; otherwise it takes its unit back and runs. |
| WorkerSettling.LastIsWokenFirst | src/tbb/src/tbb/private_server.cpp:341-369 | Over every run, while a worker stays on the list so does, behind it and in order, everyone who was there when it came: the last to sleep is the first to be woken. |
| WorkerSettling.RequestsSettle | src/tbb/src/tbb/private_server.cpp:260-277 | In every reachable state in which no step but the client's is possible and the requests are not negative, exactly as many workers are awake as are requested, or all of them. |
| WorkerSettling.UndisturbedEnds | src/tbb/src/tbb/private_server.cpp:351-379 | No continuation without the client goes on for ever. |
| WorkerSettling.LeftAloneItSettles | src/tbb/src/tbb/private_server.cpp:260-379 | From every reachable state with requests that are not negative, the server left alone comes to rest with exactly that many workers awake, or all of them. |
| ObserverList.InvStep | src/tbb/src/tbb/observer_proxy.cpp:66-232 | Every step, nested calls from callbacks included, keeps the doubly linked list, the counts and the liveness of everything referred to, unless it starts a pass from a position already used, overwrites one still held, or frees a scheduler with one. |
| ObserverPasses.ExactExactlyWhenProper | src/tbb/src/tbb/observer_proxy.cpp:131-203 | Over every run: the counts are right in every state if and only if no step did one of these three things, and then no deleted proxy is touched either. |
| ObserverPasses.MisuseBreaks | src/tbb/src/tbb/scheduler.cpp:1163-1169 | The first such step leaves a count that is wrong. |
| ObserverPasses.CountsAreExact | src/tbb/src/tbb/observer_proxy.cpp:131-203 | In runs without such steps a linked proxy's count is 1 for its observer plus one for each saved position, pass position and reference being dropped, and whatever is referred to is linked. |
| ObserverPasses.UnlinkedAtZero | src/tbb/src/tbb/observer_proxy.cpp:102-129 | In runs without such steps a proxy leaves the list in exactly the step in which its count becomes zero. |
| ObserverPasses.EnteredInsideNeverReturns | src/tbb/src/tbb/scheduler.cpp:1163-1165 | In runs without such steps an entry pass inside which another has begun never returns. |
| ObserverPasses.NoneBeginsInside | src/tbb/src/tbb/observer_proxy.cpp:205-217 | In runs without such steps the first pass to begin inside another on the same thread finds an empty field. |
| ObserverNesting.OrderlyRunsAreSafe | src/tbb/src/tbb/observer_proxy.cpp:131-232 | If no pass begins while another is under way on its thread, none after the exit pass, and no scheduler is freed before it, the counts are right and no deleted proxy is touched, over every run. |
| ObserverNesting.ExactExactlyWhenCareful | src/tbb/src/tbb/scheduler.cpp:1163-1169 | For every run at whose end all calls have returned: counts right and nothing deleted touched all along, if and only if no callback of an entry pass has started a pass on its own thread, no pass has started from a position used before, as an exit pass leaves it, and no scheduler was freed with its position. |
| ObserverTold.PassCallsThemAll | src/tbb/src/tbb/observer_proxy.cpp:131-203 | Over every proper run, a pass that has returned has called, of the observers linked and observed all the while, in list order exactly those that are not at or before the position it started from; an exit pass starts from none and calls them all. |
| ObserverTold.PassCallsEachOnce | src/tbb/src/tbb/observer_proxy.cpp:131-203 | It has called each of these exactly once. |
| ObserverTold.OnlyObserversAreCalled | src/tbb/src/tbb/observer_proxy.cpp:131-203 | A pass calls nobody who was not observed at some time during it. |
| ObserverOnce.ToldAtMostOnce | src/tbb/src/tbb/observer_proxy.cpp:131-203 | In runs that follow the rule of `OrderlyRunsAreSafe`, a scheduler tells an observer that stays at most once that it is there, over all its entry passes. |
| ObserverOnce.ToldExactlyOnce | src/tbb/src/tbb/observer_proxy.cpp:131-203 | Exactly once, when an entry pass of it has begun and returned meanwhile. |
| ObserverProgress.PassCanReturn | src/tbb/src/tbb/observer_proxy.cpp:131-203 | In every reachable state of a proper run a pass whose thread goes on alone, with no other thread under the reader lock, returns. |
| ObserverLost.NestedPassLosesProxy | src/tbb/src/tbb/observer_proxy.cpp:141-177 | A run of two threads: an observer switched on inside a callback makes the nested pass drop a saved reference a second time, the proxy is deleted, and the other thread is about to touch it. |
| MarketShares.CarryStep | src/tbb/src/tbb/market.cpp:205-207 | One round of the carry loop is the exact division of the running product, and gives an arena at most its request. |
| MarketShares.ShareIsModest | src/tbb/src/tbb/market.cpp:191-215 | An arena's share lies between zero and its request. |
| MarketShares.UncappedSum | src/tbb/src/tbb/market.cpp:205-209 | A level none of whose requesting arenas is at its cap is allotted exactly min(demand, available). |
| MarketShares.LevelSum | src/tbb/src/tbb/market.cpp:191-215 | A level gets at most min(demand, available), and exactly that when no arena's own cap binds. |
| MarketBooks.BooksAreBalanced | src/tbb/src/tbb/market.cpp:267-298 | With the books in order, all allotments together never exceed the maximum; a level gets at most what the demand of higher levels leaves, and exactly the smaller of that and its own demand unless the cap of one of its arenas binds; no arena gets more than it asks for. |
| Market.Market.CreateArena | src/tbb/src/tbb/market.cpp:149-156 | A new arena asks for nothing, and the books stay in order. |
| Market.Market.Divide | src/tbb/src/tbb/market.cpp:191-215 | The loop gives each arena its share of the exact division, cut at its own cap. |
| Market.Market.UpdateAllotment | src/tbb/src/tbb/market.cpp:267-298 | Puts the books of a level and of all lower ones in order, changing allotments only. |
| Market.Market.AdjustDemand | src/tbb/src/tbb/market.cpp:301-383 | Changes one request, puts an arena that stops asking back at the normal priority, keeps the books in order on every branch, changes nothing else but allotments, and tells the server the change of the arena's positive demand. `assert_market_valid`, if it held, holds again if and only if it is not the case that no level had demand and an arena below the range began to ask. |
| Market.Market.LowerArenaPriority | src/tbb/src/tbb/market.cpp:451-475 | Lowers the priority unless it has changed meanwhile and changes nothing else but allotments; the books stay in order if and only if nothing was lowered or the arena's request is not negative, and with them what `assert_market_valid` asserts. |
| Market.Market.UpdateArenaPriority | src/tbb/src/tbb/market.cpp:477-524 | Raises the priority exactly when the new one is higher, lets a lower one only widen the arena's range, and changes nothing else but allotments; the books stay in order if and only if nothing was raised or the arena's request is not negative, and with them what `assert_market_valid` asserts. |
| MarketBooks.DemandDecides | src/tbb/src/tbb/market.h:199-204 | With the lists in order, `assert_market_valid` says that there is demand at the top level or only the normal level counts. |
| MarketMoves.RelistKeepsLists | src/tbb/src/tbb/market.cpp:430-449 | An arena listed at another level leaves lists and demands in order if and only if its request is not negative. |
| Market.IdleArenaAsksFromBelow | src/tbb/src/tbb/market.h:199-204 | Four calls after which `assert_market_valid` does not hold. |
| TxnLevels.ChainLevel | src/tanger/lib/funcinfo.h:132-139 | The level of a transaction is the number of transactions around it. |
| TxnLevels.PathsMatch | src/tanger/lib/tanger.cpp:962-1061 | When the records fit along every edge, the open transactions of every path are the recorded ones. |
| TxnLevels.MismatchIsAmbiguous | src/tanger/lib/tanger.cpp:1030-1046 | A record that does not fit comes from two paths to one block with different open transactions. |
| TxnLevels.ReturnIsInside | src/tanger/lib/tanger.cpp:967-971 | A reported return block ends a path with a transaction open. |
| TxnLevels.Verdict | src/tanger/lib/tanger.cpp:962-1097 | With the list drained, the error flag is right in both directions. |
| TxnLevels.FuncInfo.AddTxn | src/tanger/lib/funcinfo.h:132-139 | Adds one transaction, one level below its parent. |
| TxnLevels.Analysis.Record | src/tanger/lib/tanger.cpp:981-1016 | Records a block met for the first time: begins open, commits close, others inherit. |
| TxnLevels.Analysis.CheckSeen | src/tanger/lib/tanger.cpp:1018-1057 | Reports a block met again exactly when it expects another transaction. |
| TxnLevels.Analysis.DetermineLevels | src/tanger/lib/tanger.cpp:947-1098 | The work list drains; an error is reported if and only if some block is reached with different transactions open or returns inside one; otherwise, on every path from the entry, the stack of open transactions is the recorded one. |

## Left out

- VARIANT2, VARIANT3 and CACHE builds of the STM: other read and write sets, and a cache that is mostly commented out.
- GASNet transport, `setjmp`/`longjmp`, thread and JIT start-up: a message is an answered or unanswered entry, an abort a step that drops both sets.
- Fairness: the theorems about progress say that operations can end, alone or together, and not that a scheduler lets them.
- Weak memory orders, fences and padding: atomic primitives and single words are sequentially consistent.
- Clock overflow: clocks are unbounded in the steps; `Timestamps.Word.Fits` says what the packing needs.
- A null address, for which read and write abort at once: it is the same step as an explicit rollback.
- Statistics, profiling, logging, the load balancer, barriers, thread tables and the bump allocator: timing or easy members.
- LockRequests.Transaction.GetLocks: other transactions appear as the words they leave to be read and found, not by their own steps, which are in the Stm modules. The condition variable is left out, and replies arrive one by one.
- Buddy.Allocator.Alloc: trees of more than 29 levels, for which the source's own computation of the array size overflows; what happens after an index has left the array.
- Buddy.Allocator.Free: requires an offset at which a live block starts, as the source asserts; so does Buddy.Allocator.Size.
- buddy_delete and the dump of the tree: no state to speak of.
- Hash codes and table sizes are unbounded; the number of segments that fit a word is not modelled.
- HashThreads.RunsAreMapRuns: `spin_rw_mutex` is taken as mutual exclusion; the parent bucket of a recursive rehash is released a little earlier than in the source, which only adds interleavings; the locks of single items and `exclude` are in HashItems, where nodes have no keys; `internal_find`, iterators, `clear` and copying are not modelled.
- HashItems.InvStep: a node's address is not used again after its deletion, and which bucket is tried is left open, so `exclude` gives up only when the node is in no bucket (`HashThreads.NoRaceIsHome` is why). A node made for an insertion that turns out unnecessary is left out.
- HashMap.Map.Lookup: requires a mask not shorter than the table had when it was last taken as empty; masks across a `rehash` call cannot be stale, because that call must be alone.
- The task priorities, orphaned tasks, skipped FIFO levels and mandatory concurrency of the arena: they rest on scheduler code that is not part of this model. Reading whether a slot is empty is one step.
- ArenaPool.DemandMatchesTransitions: demand is a number; what the market does with it is in the Market modules.
- Mailbox.PoppedInOrder: a proxy is pushed once, and neither proxies nor mailboxes are reused at the same address; draining and idleness flags are left out.
- WorkerServer.InvStep: shutdown, thread launch and the `st_` states; the source drops the slack invariant there.
- ObserverList.InvStep: `my_busy_count` and the waiting for it; a proxy address is not reused after deletion; a scheduler is not terminated from inside a callback, so its exit pass begins with no call under way.
- Market.Market.AdjustDemand: the request changes sign only through zero, as the source asserts; the product in the carry loop does not overflow.
- `detach_arena`, `arena_in_need`, reload epochs and saturation tracking of the market: they do not touch allotments.
- TxnLevels.Analysis.DetermineLevels: only transactions delimited by marker calls, whose merging is refused; a missing transaction on one side only, where the source follows a null pointer, is an error outcome. The sets of code blocks and commit calls and the pass over dead code are left out.
- The rewriting passes of Tanger: LLVM is not part of this model.
