# Verification of cpuperf

A Dafny model of the parts of cpuperf that are hard to get right, with proofs of what
they are for. `dafny verify dfyconfig.toml` checks all of it.

## What is modelled

* **The lock-free stack** (`lfstack.c`, modules `LfStack*`, `AtomicStack`). Any number
  of threads push and pop; each atomic operation and each plain access to a node is a
  step of its own, a weak exchange may fail for no reason, and the read of `next`
  through a head that may be stale is a step too. The main results: every interleaving
  is a run of an atomic LIFO stack, so that each call acts at one instant; an exchange
  that succeeds saw no move of its head; every node handed out is in exactly one place;
  and but for spurious failures the steps of a run are bounded by the calls it began,
  so the stack is lock-free. All of it holds with generations that wrap at 2^64, unless
  an exchange is late by a whole multiple of 2^64 others, and a reachable run shows that
  an exchange exactly 2^64 late breaks the stack. `LfStackObject` is the structure in memory, with one method for
  each access and the loops of push, pop and destroy.
* **Its client** (`StackBenchmark`, `StackBenchmarkEmpty`). The pop+inc+push benchmark
  ignores the result of its push and increments items without a lock. A count over all
  threads shows why that is safe. No pop finds the stack empty if and only if there are
  at most as many threads as items.
* **The spin locks and the locked stacks** (`TicketLock`, `CmpxchgLock`,
  `AtomicCounter`, `LockedStack`). Mutual exclusion, service in order, and
  lock+inc+unlock as one atomic increment. The ticket lock excludes if and only if there
  are at most 2^64 threads; the locked benchmark never follows a null pointer if and
  only if there are at most as many threads as nodes.
* **The command line** (`BreakArgs`, `Posparam`, `Excludes`, `UsageGroups`). The
  quoting lexer writing into its exactly sized buffer, the greedy distribution of
  positional arguments, the exclusion check while parsing, and the groups of exclusive
  options in the usage line.
* **The generator** (`Xoroshiro`). Seeding and step are built from maps on words that
  can be undone, so seeds stay apart for ever and no run comes to the zero state.
* **CPU lists, threads and phases** (`CpuSet`, `ThreadStart`, `Phases`,
  `PhasesOverlap`, `PhasesProgress`). Reading and printing CPU sets, with the grammar of
  exactly the lists that are accepted; one thread for each CPU of each group; and the
  barrier and flag phases of a test, which are kept apart if and only if no CPU is in
  two groups and all are available. Then every test can be brought to its end.

Concurrent code is a state machine whose steps are the program's atomic operations and
accesses; statements about runs are about every schedule. Fields updated in place are
fields of classes or arrays, and their methods are proved against the step functions.
Lemmas switch Dafny's automatic induction off: every induction is written out.
`Runs`, `Words` and `Chars` hold runs of a step relation, counters that wrap, and
character classes.

## Where the code and what it says about itself differ

* `clp.c:1504-1512` counts a pointer for every character that is no letter. With a
  letter among the delimiters that can be too few (`BreakArgs.LettersOverflow`), and only
  then (`BreakArgs.SafeIffNoLetters`).
* `clp.c:994-1001` gives a variadic parameter a maximum of 4096 arguments. The sum of the
  maxima is checked, but the distribution may give one parameter more
  (`Posparam.AcceptedAboveMaximum`); `Posparam.WithinMaximumIff` says exactly when it does
  not.
* `clp.c:671-695` shows only groups in which all options exclude each other. Options that
  exclude others can be missing from every group (`UsageGroups.RingIsNotShown`);
  `UsageGroups.OptionShownIff` says exactly which are shown.
* `cpuperf.c:288-299` rejects a range without its end only because the missing number is
  read as 0; the test for it never holds, and `0-` is accepted (`CpuSet.OpenRangeIff`). A
  minus sign is accepted too, in any number, if that wraps to a small one
  (`CpuSet.MinusIff`). `CpuSet.ListedIff` says which lists are accepted at all.
* `cpuperf.c:726` makes the barrier for the CPUs under test, not for the threads started
  (`Phases.TogetherIff`). With fewer places than participants a call for throughput can
  be made during one for latency, unless there is one thread or there are two and two
  places (`PhasesOverlap.CallsApartIff`, for groups `PhasesOverlap.CallsKeptIff`).

## Model

| member | source | states |
|---|---|---|
| LfStackInvariant.InitInv | lfstack.c:60-76 | a freshly initialised stack, its nodes not cleared, satisfies the invariant: two acyclic disjoint chains, every node handed out in one place, every snapshot and every `next` read accounted for |
| LfStackInvariant.InvStep | lfstack.c:97-179 | every atomic operation and every node access of a push or a pop, by any thread, with any spurious failure of an exchange, keeps the invariant |
| LfStackInvariant.InvRun | lfstack.c:97-179 | the invariant holds in every state of every run of any number of threads, as long as no exchange is a whole multiple of 2^64 exchanges late |
| LfStackInvariant.TakeStackFresh | lfstack.c:155-162 | a pop's exchange that succeeds has the top of the stack in its snapshot, and the `next` it read, perhaps long ago, is still the true successor |
| LfStackInvariant.TakeCacheFresh | lfstack.c:108-124 | the same for taking a node from the cache |
| LfStackSafety.StackExchangeSawNoMove | lfstack.c:135-138 | over whole runs: if an exchange on the stack head succeeds, that head and its chain never changed between the load and the exchange (no ABA) |
| LfStackSafety.CacheExchangeSawNoMove | lfstack.c:120-122 | the same for the node cache |
| LfStackSafety.NodesPartitioned | lfstack.c:103-140 | the nodes with index below min(nodec, nodemax) are exactly the stack chain, the cache chain and the nodes owned by one thread each, pairwise disjoint |
| LfStackSafety.ReadsAreSafe | lfstack.c:151-178 | no thread reads `next` of a node whose `next` was never written, and none leaves the vector of nodes |
| LfStackSafety.PushFailsOnlyWhenExhausted | lfstack.c:109-114 | a push that returns false found all nodemax nodes handed out |
| LfStackProgress.LoserSawMove | lfstack.c:120-162 | an exchange that fails, but not spuriously, is on a head that another exchange moved since the thread read it |
| LfStackProgress.LostBounded | lfstack.c:97-179 | in every run a thread loses no more exchanges than were won on both heads together |
| LfStackProgress.LossesNeedWins | lfstack.c:97-179 | all n threads together lose at most n exchanges for each one won |
| LfStackProgress.LockFree | lfstack.c:97-179 | a run of n threads has at most 9 + 4n steps for each call begun and 2 for each spurious failure, however it is scheduled: no calls can keep each other going for ever |
| LfStackRefinement.PushTakesEffect | lfstack.c:134-140 | a true push takes effect at its exchange on the stack: the data pointer is on top from then on |
| LfStackRefinement.PopTakesEffect | lfstack.c:155-168 | a successful pop takes effect at its exchange on the stack and gets the data of the top node, although it reads it later |
| LfStackRefinement.StepRefines | lfstack.c:97-179 | each step of the program is no step, or the one instant at which the call takes effect, of an atomic stack of data pointers |
| LfStackRefinement.RunRefines | lfstack.c:97-179 | every interleaving of pushes and pops is a run of the atomic LIFO stack with the same calls, the same results and the same order |
| LfStackLinear.PopIsAtomic | lfstack.c:142-179 | in every run a pop that returns d has one instant between its start and its end at which it takes d off the top, or finds the stack empty and d is NULL; its other steps leave the contents alone |
| LfStackLinear.PushIsAtomic | lfstack.c:97-140 | a push that returns true has one such instant at which its data pointer goes on top; no step of one that returns false changes the contents |
| LfStackWrap.LateExchangeBreaksTheStack | lfstack.c:153-162 | the condition on late exchanges cannot be dropped: a reachable run in which a pop's exchange comes exactly 2^64 exchanges late succeeds, and two threads end up with the same node |
| LfStackWrap.StaleExchangeSucceedsIff | lfstack.c:160-162 | an exchange whose pointer came back succeeds if and only if the number of exchanges in between is a multiple of 2^64 |
| LfStackWrap.WrappedCounterBreaksTheStack | lfstack.c:109-117 | the bound on nodec is sharp too: a reachable run in which refused pushes bring it to 2^64 - 1, the next wraps it, and the push after that is given a node that is on the stack |
| LfStackObject.Capacity | lfstack.c:66-69 | the number of nodes is the largest that fits the buffer, and the initialisation fails exactly if not one fits |
| LfStackObject.CreateCapacity | lfstack.c:46-58 | a stack created for n nodes has exactly n; for n = 0 none is created |
| LfStackObject.Stack.constructor | lfstack.c:60-76 | the object starts empty, valid and at rest |
| LfStackObject.Stack.Start | lfstack.c:97-106 | entering or leaving a call is the machine's step and shows on nothing else |
| LfStackObject.Stack.LoadHead | lfstack.c:106-106 | each of the four loads of a head takes pointer and generation together, keeps the invariant and the contents |
| LfStackObject.Stack.ReadSuccessor | lfstack.c:120-120 | reading `next` through a snapshot that may be stale is a step that keeps the invariant |
| LfStackObject.Stack.TakeUnused | lfstack.c:109-118 | the fetch-and-add hands out a node never used, exactly if one is left |
| LfStackObject.Stack.FindEmpty | lfstack.c:156-158 | a pop that read a null head ends with NULL and changes nothing |
| LfStackObject.Stack.TakeFromCache | lfstack.c:119-124 | the exchange on the cache: succeeds exactly if the head equals the snapshot and nothing fails spuriously, else reloads |
| LfStackObject.Stack.GiveToCache | lfstack.c:172-176 | the exchange that frees a node; the contents stay |
| LfStackObject.Stack.GiveToStack | lfstack.c:134-138 | the exchange that pushes: the contents grow by the node's data on top, exactly if it succeeds |
| LfStackObject.Stack.TakeFromStack | lfstack.c:155-162 | the exchange that pops: the contents lose exactly the top |
| LfStackObject.Stack.StoreData | lfstack.c:130-130 | writing `data` to a node the thread owns shows to nobody else |
| LfStackObject.Stack.FetchData | lfstack.c:168-168 | reading `data` from a node the thread owns |
| LfStackObject.Stack.StoreNext | lfstack.c:135-135 | writing `next` of a node the thread owns disturbs neither chain |
| LfStackObject.Stack.Push | lfstack.c:97-141 | with no other call in flight a push returns true exactly if fewer than nodemax pointers are on the stack, and then adds the pointer on top: a bounded stack |
| LfStackObject.Stack.Pop | lfstack.c:144-179 | with no other call in flight a pop returns and removes the top pointer, NULL on an empty stack |
| LfStackObject.Stack.Destroy | lfstack.c:78-95 | the walk ends and visits each pointer on the stack once, top first |
| LfStackObject.AtRestCounts | lfstack.c:97-179 | with all threads idle every node handed out is on the stack or in the cache |
| StackBenchmark.InitBenchmark | subr.c:454-475 | the initialisation loop leaves a state in which the benchmark's runs may start, with one item for each allocation that succeeded |
| StackBenchmark.BenchInvRun | subr.c:477-490 | in every run of the pop+inc+push benchmark the cache holds as many nodes as threads hold an item without a node, every item is on the stack or in one thread's hands, and the count a thread has loaded is still in the item when it stores |
| StackBenchmark.PushNeverFails | subr.c:486-486 | the push whose result is ignored never fails, and nodec never moves after the initialisation |
| StackBenchmark.PopNeverFindsEmpty | subr.c:483-484 | with at most as many threads as items no pop returns NULL |
| StackBenchmarkEmpty.FindsEmpty | subr.c:483-484 | with more threads than items a run exists in which a pop returns NULL |
| StackBenchmarkEmpty.PopFindsEmptyIff | subr.c:483-484 | from any start no pop of any run returns NULL if and only if there are at most as many threads as items |
| StackBenchmark.ItemsAreExclusive | subr.c:483-486 | an item a thread holds is not on the stack and in no other thread's hands |
| StackBenchmark.CountersAreExact | subr.c:485-485 | an item's counter has grown by one for every push of it that has ended in the run, and by one while a thread is about to push it or pushing it, though each increment is a plain read and a plain write |
| StackBenchmark.SumIsExact | subr.c:485-485 | so the counters together have grown by the pushes ended and those on their way |
| StackBenchmark.NoThreadIsStuck | subr.c:477-490 | every thread of the benchmark can always take a step |
| StackBenchmark.AtRestAllOnStack | lfstack.c:88-91 | with no call in flight the stack holds each item exactly once, so destroying it visits each once |
| Chars.ClassesAre | clp.c:1511-1574 | the characters that isspace, isdigit and isalpha of the C locale accept |
| AtomicCounter.CountIsExact | subr.c:98-104 | in every run of an atomic counter the count is the initial one bumped once for each call that took effect |
| AtomicCounter.PlusWraps | subr.c:98-104 | k such increments add k modulo 2^64 |
| TicketLock.InvRun | subr.c:404-434 | in every run of up to 2^64 threads the tickets out, the two wrapping counters and the threads agree |
| TicketLock.MutualExclusion | subr.c:404-422 | two threads never hold the lock together |
| TicketLock.TicketsOut | subr.c:409-421 | the outstanding tickets are exactly those from tail to head - 1, each with one thread |
| TicketLock.SomeoneMayEnter | subr.c:411-415 | if somebody waits and nobody holds the lock, exactly one waiter finds its own number in `tail` |
| TicketLock.ServedInTurn | subr.c:409-415 | a waiter enters after exactly as many releases as tickets were ahead of it |
| TicketLock.FirstComeFirstServed | subr.c:404-422 | whoever holds the lock drew its ticket before everyone who waits |
| TicketLock.TurnsFollowFetchAdds | subr.c:409-409 | tickets are ordered as the fetch-and-adds were |
| TicketLock.RunRefines | subr.c:424-434 | lock, read, write, unlock is one atomic increment in every interleaving: the count grows by one per completed call |
| TicketLock.TooManyThreads | subr.c:404-416 | with more than 2^64 threads a run exists in which two hold the lock |
| TicketLock.ExclusionIffThreadsFit | subr.c:404-422 | the lock excludes in every run if and only if there are at most 2^64 threads |
| TicketLock.TicketSpin.TakeTicket | subr.c:409-409 | the fetch-and-add on `head` as a step that keeps the invariant |
| TicketLock.TicketSpin.Look | subr.c:411-415 | a look at `tail` finds the thread's number exactly if it is its turn, wrapping or not |
| TicketLock.TicketSpin.LoadCnt | subr.c:430-430 | the read half of the increment, under the lock |
| TicketLock.TicketSpin.StoreCnt | subr.c:430-430 | the write half of the increment writes the counter's current value plus one |
| TicketLock.TicketSpin.Unlock | subr.c:418-422 | the release leaves nobody holding the lock |
| CmpxchgLock.InvRun | subr.c:286-314 | in every run the lock word is 1 exactly while one thread holds the lock, and 0 otherwise |
| CmpxchgLock.RunRefines | subr.c:304-314 | exclusion, and lock, read, write, unlock as one atomic increment, under every interleaving and every spurious failure |
| CmpxchgLock.FreeLockCanBeTaken | subr.c:291-295 | a spinning thread that finds the lock free is in with its next exchange unless that fails spuriously |
| CmpxchgLock.CmpxchgSpin.CompareExchange | subr.c:291-291 | the weak exchange succeeds exactly if nobody holds the lock and it does not fail spuriously |
| CmpxchgLock.CmpxchgSpin.Look | subr.c:292-294 | the inner spin loop and the reset of `old` |
| CmpxchgLock.CmpxchgSpin.LoadCnt | subr.c:310-310 | the read half of the increment, under the lock |
| CmpxchgLock.CmpxchgSpin.StoreCnt | subr.c:310-310 | the write half of the increment writes the current value plus one |
| CmpxchgLock.CmpxchgSpin.Unlock | subr.c:298-302 | the release leaves nobody holding the lock |
| LockedStack.InvRun | subr.c:529-563 | in every run of the locked stack benchmark the list is acyclic, one thread at most is inside the lock and every node is on the list or in one thread's hands |
| LockedStack.PopNeverNull | subr.c:552-563 | with at most as many threads as allocated nodes the unchecked increment never meets NULL |
| LockedStack.NodeInOnePlace | subr.c:591-625 | a node in a thread's hands is one of those allocated, on no list and in no other hands, and none is lost |
| LockedStack.LockHeldIff | subr.c:529-550 | in every run the lock is held exactly while some thread is between taking and releasing it: no return leaves it taken |
| LockedStack.SomeoneGoesOn | subr.c:552-563 | with at most as many threads as nodes some thread can take its next step in every state of a run |
| LockedStack.CountersAreExact | subr.c:559-559 | a node's counter is the number of times the run has linked it again, and one more while a thread is about to |
| LockedStack.SafeIffEnoughNodes | subr.c:552-563 | the increment is safe in every run if and only if there are at most as many threads as nodes |
| LockedStack.MutexStack.constructor | subr.c:515-524 | the initialisation loop links the nodes whose allocation succeeded, last one on top, and leaves a state in which the benchmark's runs may start with that many nodes |
| LockedStack.MutexStack.Push | subr.c:529-536 | the pushed node is on top, the list stays acyclic |
| LockedStack.MutexStack.Pop | subr.c:538-550 | the top node is taken off, NULL exactly from the empty list |
| LockedStack.MutexStack.Drain | subr.c:841-847 | popping until NULL ends and frees every node on the stack once, top first |
| BreakArgs.LexUndoesEscaping | clp.c:1525-1604 | words quoted with backslashes and joined by any separator are lexed back to exactly the words kept; those are all of them if and only if the separator is no space of a delimiter string, or no word is empty, the last one excepted with a delimiter string |
| BreakArgs.UndoesEscapingIff | clp.c:1453-1484 | for any separator: lexing undoes the quoting of all words but those empty ones if and only if no delimiter is a digit or a letter that has a meaning behind a backslash |
| BreakArgs.LexUndoesQuoting | clp.c:1545-1601 | the same for words in quotes of either kind, whatever the delimiters: the words kept come back, all of them under the same condition |
| BreakArgs.OpenQuoteFails | clp.c:1594-1598 | a quote of either kind that is not closed is the error |
| BreakArgs.ThreeDigits | clp.c:1541-1548 | three octal digits with none behind them are the character 64a + 8b + c, modulo 256 |
| BreakArgs.NumeralRead | clp.c:1541-1548 | any number in base 8 is read as the number modulo 256, and as 255 from 2^64 on |
| BreakArgs.LexUndoesWriting | clp.c:1525-1548 | words whose every character is written as three octal digits, or as one of the seven letters where it has one, come back like those that are escaped |
| BreakArgs.BlanksSeparate | clp.c:1574-1581 | with nil delimiters words of printing characters come back if any of the six white space characters stands between them |
| BreakArgs.Argcmax | clp.c:1504-1512 | the size counted for the vector: four and one for every character that is no letter |
| BreakArgs.Round | clp.c:1525-1604 | one round of the loop is one step of the lexer on the buffer, and writes at most one byte more than the characters read |
| BreakArgs.Octal | clp.c:1541-1548 | the octal branch: all octal digits that follow, possibly none, make one character, cut to a byte |
| BreakArgs.Loop | clp.c:1525-1604 | wherever the vector is long enough for the words, the loop ends, bytes written plus a pending backslash never exceed the characters read, and the result is the lexer's |
| BreakArgs.ClpBreakargs | clp.c:1486-1619 | wherever the program's own assertion on its count holds, status, vector and buffer are exactly the specification's: the words, each a C string that an escaped NUL may cut, and a final null pointer; every write in bounds |
| BreakArgs.SafeIffNoLetters | clp.c:1504-1606 | the counted size suffices, and the assertion holds, for all inputs if and only if no delimiter is a letter |
| BreakArgs.LettersOverflow | clp.c:1504-1512 | with a letter as delimiter three of them already make more words than were counted for |
| BreakArgs.BreakEscaped | clp.c:1486-1619 | in memory: words without NUL, escaped and joined, are found again in the vector and the buffer, exactly those kept; all of them if and only if none is lost |
| BreakArgs.BreakQuoted | clp.c:1486-1619 | the same for words in quotes of either kind, whatever the delimiters |
| BreakArgs.BreakWritten | clp.c:1486-1619 | the same for words written as octal digits and letters |
| Posparam.StripName | clp.c:434-463 | the loops count the opening brackets and leave the name cut at the next bracket and trimmed |
| Posparam.UnbracketName | clp.c:430-463 | a name that fits the buffer, behind any spaces and open brackets and before spaces and a bracket or the end, is left as it is, and the open brackets are counted |
| Posparam.LongNameCut | clp.c:450-451 | a longer name is cut to 127 characters |
| Posparam.MarksTell | clp.c:987-1001 | such a parameter takes any number of arguments if and only if it selects a subcommand or its name ends in three dots, and need not get one if and only if a bracket is before it |
| Posparam.MinMax | clp.c:975-1010 | the loop stores each parameter's own limits and sums them up to and including the first subcommand |
| Posparam.AcceptsIff | clp.c:1194-1214 | the count check admits exactly the numbers of arguments that can be given away fairly, with at most 4096 to a variadic parameter |
| Posparam.GreedyIsFair | clp.c:1234-1262 | within the limits every argument is given away, each mandatory parameter gets one at least, each non-variadic one at most |
| Posparam.GreedyIsGreatest | clp.c:1230-1262 | the counts are lexicographically the greatest of all fair assignments |
| Posparam.FairExistsIff | clp.c:1194-1214 | a fair assignment with unlimited variadics exists if and only if there is an argument for each mandatory parameter and, with no variadic, no more arguments than parameters |
| Posparam.AcceptedIsGivenAway | clp.c:1194-1262 | for every accepted count the greedy assignment is fair and beats every other |
| Posparam.WithinMaximumIff | clp.c:1234-1257 | the distribution keeps every parameter within its maximum if and only if what is left for the first variadic one does: argc, less the other mandatory parameters and the optional ones before it, is at most 4096; without a variadic one it always does |
| Posparam.AcceptedAboveMaximum | clp.c:1194-1257 | 4097 arguments for a mandatory variadic parameter and an optional one pass the count check, and the first takes them all |
| Posparam.Give | clp.c:1234-1257 | one turn of the loop stores the slice and lowers posmin for a mandatory parameter |
| Posparam.Distribute | clp.c:1230-1269 | the loop gives every argument away, in the greedy counts and at contiguous offsets; parameters not reached keep an empty slice |
| Posparam.SlicesMakeAll | clp.c:1259-1260 | read in order the slices make up the argument vector: nothing lost, repeated or moved |
| Posparam.Positionals | clp.c:1183-1269 | the status is decided by the sums of the limits, and on success the slices make up the vector with the greedy counts |
| Excludes.DoExclude | clp.c:366-398 | the tests in the order of the program decide the exclusion relation |
| Excludes.Excludes2Symmetric | clp.c:366-398 | the relation is symmetric |
| Excludes.SaysWhom | clp.c:366-398 | with "*" an option excludes another that says nothing itself, with "^abc" unless it is listed, with "abc" if it is, and with none never |
| Excludes.StarStandsAlone | clp.c:1131-1137 | a command line that gives an option with "*", as the help and version options have, is accepted only if it gives no other |
| Excludes.FindOption | clp.c:333-345 | the first option with the letter, or none |
| Excludes.FindExcluder | clp.c:404-416 | the first option given often enough that excludes this one, or none exists |
| Excludes.Parser.Take | clp.c:1119-1154 | one option: refused exactly with an excluding option given before, otherwise counted, put on the after-list at its first appearance and its parameter vector chosen |
| Excludes.Parser.Parse | clp.c:1103-1154 | a command line is parsed to the end if and only if its options are known and pairwise compatible; state, after-list and parameter vector are then those of the specification |
| Excludes.AcceptedIff | clp.c:1131-1137 | what stops the loop is never the order: some option is stopped if and only if two of them exclude each other or one is unknown |
| Excludes.OrderIrrelevant | clp.c:1131-1154 | reordered or repeated options are as compatible as before and choose the same parameter vector |
| Excludes.GivenOnesAgree | clp.c:391-393 | all given options with a parameter vector have the same one |
| Excludes.ParamIsNamed | clp.c:1153-1154 | the vector in force is one that a given option named, or the default if none did |
| Excludes.AftersOnceInOrder | clp.c:1139-1145 | the after-list holds each given option with an after procedure once, in the order of first appearance |
| UsageGroups.BuildGroups | clp.c:628-654 | the group built around each listed option is that option and all it excludes, in list order |
| UsageGroups.DropDuplicates | clp.c:656-669 | afterwards no two groups left are equal and no group is lost |
| UsageGroups.DropMixed | clp.c:671-695 | exactly the groups in which all options exclude each other stay |
| UsageGroups.Groups | clp.c:628-695 | what is left are the distinct closed neighbourhoods that are cliques, and all of those |
| UsageGroups.ShownIsMaximal | clp.c:628-695 | every group left is a clique of listed options that no other listed option could join |
| UsageGroups.MaximalCliqueShownIff | clp.c:628-695 | a maximal clique is shown if and only if one of its options excludes nothing outside it |
| UsageGroups.OptionShownIff | clp.c:628-695 | a listed option is in some group if and only if it, or an option it excludes, has a closed neighbourhood in which all exclude each other |
| UsageGroups.OptionShownWithKeeperIff | clp.c:628-695 | in other words, if and only if it is in a maximal clique one of whose options excludes nothing outside it |
| UsageGroups.ShownSetsDiffer | clp.c:656-695 | two groups left are different as sets of options, not only as strings |
| UsageGroups.RingIsNotShown | clp.c:671-695 | four options excluding each other in a ring are in no group at all |
| Xoroshiro.MixInverse | xoroshiro.c:20-23 | the splitmix64 mixing is a bijection on 64-bit words |
| Xoroshiro.SeedRecovered | xoroshiro.c:15-29 | the seed can be computed back from either word of the state |
| Xoroshiro.SeededIff | xoroshiro.c:15-29 | a state comes from a seed if and only if its second word fits its first |
| Xoroshiro.SeededIsNotZero | xoroshiro.c:15-29 | no seed yields the all-zero state |
| Xoroshiro.RotlIsRotation | xoroshiro.h:15-19 | the shift expression is the rotation for the two amounts used and their complements |
| Xoroshiro.NextInverse | xoroshiro.h:21-33 | the state step is a bijection on 128-bit states |
| Xoroshiro.SeededNeverZero | xoroshiro.h:21-33 | the all-zero state is never reached from a seed |
| Xoroshiro.StateTellsSeed | xoroshiro.h:21-33 | any later state still determines the seed |
| Xoroshiro.DifferentSeedsStayApart | xoroshiro.h:21-33 | different seeds give different states after every equal number of steps |
| Xoroshiro.ThreadsStayApart | cpuperf.c:812-812 | so do the seeds seed + tdnum of different threads |
| Xoroshiro.RepeatMeansReturn | xoroshiro.h:21-33 | the first state to recur is the one the run started with |
| Xoroshiro.EveryRunReturns | xoroshiro.h:21-33 | every run returns to its start within 2^128 steps |
| Xoroshiro.Init | xoroshiro.c:15-29 | the array holds the seeded state |
| Xoroshiro.FirstWordIs | xoroshiro.c:20-23 | the first word of a seed, line by line, with the constants written out |
| Xoroshiro.SecondWordIs | xoroshiro.c:25-28 | the second word likewise |
| Xoroshiro.Draw | xoroshiro.h:21-33 | the result is the sum of the old words and the array holds the next state |
| Xoroshiro.NextIs | xoroshiro.h:25-31 | the next state: rotations by 24 and 37 and a shift by 16, with the shifts written out |
| CpuSet.ReadSpan | cpuperf.c:272-299 | the two conversions for an id or a range, with their errors, are the specification's item |
| CpuSet.SetRange | cpuperf.c:301-304 | exactly the CPUs from left to right are added |
| CpuSet.RangeDecode | cpuperf.c:260-308 | the outer loop always advances; the mask becomes the union of the ids and ranges listed, or the error and the place it is reported at are the specification's |
| CpuSet.SepsBefore | cpuperf.c:269-270 | what is skipped before an item is exactly the run of commas and white space characters there |
| CpuSet.DecodeLaid | cpuperf.c:260-308 | a text made of ids, ranges and ranges without an end, with any separators, spaces, signs and leading zeros, is accepted if and only if each is in order and below 1024 as strtoul takes its numbers, and then read as what was written |
| CpuSet.ListedIff | cpuperf.c:260-308 | the converse too: a list is accepted if and only if it is made of such entries, all in order and below 1024, and then its mask is theirs |
| CpuSet.DecodeJoined | cpuperf.c:260-308 | ids and ranges below 1024 in decimal, with a comma or any white space character between them, are read as just these |
| CpuSet.OpenRangeIff | cpuperf.c:288-299 | a range without its end, wherever it stands and whatever its sign, is good if and only if its first number is read as 0 |
| CpuSet.MinusIff | cpuperf.c:272-290 | a number behind a minus sign, either of an item's, is taken for an id if and only if it is 0 or negates, modulo 2^64, to one below 1024 |
| CpuSet.CpusetPrint | cpuperf.c:253-257 | the text printed behind the label |
| CpuSet.DecimalStarts | cpuperf.c:254-254 | numbers are printed without leading zeros |
| CpuSet.DecodePrinted | cpuperf.c:244-308 | reading what was printed gives the mask back, for every mask |
| ThreadStart.TestMask | cpuperf.c:632-639 | the test mask is the union of the groups, restricted to what is available |
| ThreadStart.BarrierCount | cpuperf.c:632-730 | the program ends if and only if no CPU of the groups is available; otherwise the barrier is made for the CPUs under test and one more, which is tdmax + 1 if and only if the groups are pairwise disjoint and available |
| ThreadStart.ThreadMax | cpuperf.c:713-716 | tdmax is the sum of the group sizes |
| ThreadStart.Ffs | cpuperf.c:58-66 | the number behind the lowest CPU of a mask, 0 for an empty one |
| ThreadStart.StartGroup | cpuperf.c:769-861 | the FFS/CLR loop starts one thread for each CPU of the group, lowest first |
| ThreadStart.StartThreads | cpuperf.c:769-869 | tdcnt comes to tdmax, whatever the groups |
| ThreadStart.AllThreadsCount | cpuperf.c:713-716 | the number of threads is the sum of the group sizes, and they are numbered in order |
| ThreadStart.ThreadsHaveCpus | cpuperf.c:769-861 | every thread runs for a CPU of its group |
| ThreadStart.CpusHaveThreads | cpuperf.c:769-861 | every CPU of every group has a thread |
| ThreadStart.ThreadsDiffer | cpuperf.c:769-861 | no two threads run for the same CPU of the same group |
| ThreadStart.BarrierFitsIff | cpuperf.c:713-730 | the barrier is made for tdmax + 1 if and only if the groups are pairwise disjoint and available; otherwise it is made for fewer |
| Phases.InvStep | cpuperf.c:384-514 | every step of the leader or of a thread keeps the phases' invariant |
| Phases.InvRun | cpuperf.c:875-919 | with a barrier that fits the invariant holds in every run over any number of tests |
| Phases.LoopsNeverOverlap | cpuperf.c:410-493 | no thread is in the throughput loop while another is in the latency loop |
| Phases.AllTogether | cpuperf.c:390-510 | nobody comes back from a barrier before all have come to it, so participants differ by at most one completed barrier |
| Phases.LeaderReadsFinal | cpuperf.c:919-950 | the leader reads results only when all are final, in thread order, and nothing changes them until the test is over |
| Phases.CallsAreCounted | cpuperf.c:418-499 | in every run, whatever the barrier is made for, a thread's latency result counts its own turns of the latency loop in this test, and its throughput result four for each turn of the throughput loop |
| Phases.LeaderReadsCounts | cpuperf.c:919-950 | so do the results the leader has read |
| Phases.NobodyLeavesEarly | cpuperf.c:418-493 | in every run, whatever the barrier is made for, no thread is out of a loop before the leader has ended it |
| Phases.NeverStuck | cpuperf.c:875-919 | someone can always go on: the barrier never blocks everybody |
| Phases.TooFewPlaces | cpuperf.c:726-726 | with a barrier made for fewer a run exists in which a thread starts to measure before the leader has come |
| Phases.TogetherIff | cpuperf.c:726-726 | the participants stay together in every run if and only if the barrier is made for all of them |
| Phases.PhasesKeptIff | cpuperf.c:641-919 | for the groups of a command line, some CPU of which is available: the phases are kept apart in every run if and only if no CPU is in two groups and all are available |
| PhasesOverlap.LatecomerOverlaps | cpuperf.c:418-503 | with a barrier made for fewer, but not for one, a run exists in which a latecomer stands in the latency loop while another thread stands in the throughput loop |
| PhasesOverlap.ApartIff | cpuperf.c:418-503 | no thread is at the test or in a call of the throughput loop while another is in the latency loop, in every run, if and only if the barrier is made for all or there is at most one thread |
| PhasesOverlap.OpenBarrierCalls | cpuperf.c:418-503 | with a barrier made for one a call for throughput is made during one for latency |
| PhasesOverlap.SlowCallOverlaps | cpuperf.c:418-503 | so it is with a barrier for three or more but not for all: a latecomer takes the place of a thread still in its call |
| PhasesOverlap.PairsOverlap | cpuperf.c:418-503 | so it is with a barrier for two and three threads or more, which meet in pairs |
| PhasesOverlap.TwoCallsApart | cpuperf.c:418-503 | with two threads and a barrier for two no call for throughput is ever made during one for latency |
| PhasesOverlap.CallsApartIff | cpuperf.c:418-503 | in every run no call for throughput is made during one for latency, if and only if the barrier is made for all, or there is at most one thread, or there are two and two places |
| PhasesOverlap.LoopsKeptIff | cpuperf.c:641-919 | for the groups of a command line, some CPU available: no two threads are in the two loops at once if and only if no CPU is in two groups and all are available, or at most one thread is started |
| PhasesOverlap.CallsKeptIff | cpuperf.c:641-919 | no calls of the two loops overlap if and only if no CPU is in two groups and all are available, or at most two threads are started and one CPU is under test |
| PhasesProgress.TestCompletes | cpuperf.c:875-950 | from every state of the invariant some schedule brings the test to its end: all threads joined, all results read and final |
| PhasesProgress.TestsComplete | cpuperf.c:875-950 | with a barrier that fits every run can be carried on to the end of its test, and of as many more as are wanted |

## Left out

- BreakArgs.ClpBreakargs: asks that the program's own assertion on its count of arguments holds for the input, as behind it nothing is defined; BreakArgs.SafeIffNoLetters decides for which delimiters it always does.
- LfStackInvariant.InvRun: assumes that `nodec` stays below 2^64 - 1 while pushes find the cache empty, and that no exchange is a whole multiple of 2^64 exchanges late; LfStackWrap has a run for each that breaks the stack otherwise.
- LfStackObject.Stack.Push: asks for `nodec` + 1 < 2^64, for the same reason.
- StackBenchmark.CountersAreExact: counters are unbounded integers, because the overflow of a signed long has no meaning in C.
- Phases.InvRun: the leader and the threads are a state machine on values, one step for each barrier call, flag access and result; a call of the test function is a place a thread is in, and the clock is left out, so a loop ends when its thread reads the flag down.
- PhasesProgress.TestsComplete: some schedule, not every one, as a thread may be held up in a call and a flag goes down only when the leader is run.
- Excludes.Parser.Parse: conversions and actions are taken to succeed; one that fails ends parsing with its own status.
- Weak memory: steps are interleaved; what a processor may reorder around plain accesses is not modelled.
- The fields `at`, `stackX`, `cacheX`, `stackChain`, `cacheChain`, `written`, `taken`, `released`, `turn` and `chain` are history that no step looks at.
- The write-lock and semaphore stacks share one model with the mutex stack, the lock itself being taken as given; pthread and semaphore internals are not modelled.
- The read-lock benchmark and `subr_sema` keep no exact count, so nothing is said about theirs.
- Allocation failure, except for items of the stack benchmarks.
- Freeing: that memory given back is not used again is outside the model.
- `getopt_long`: its result is an arbitrary sequence of letters; clearing of `given` and of parameter fields before parsing is a precondition.
- An options vector that is a null pointer, and a CPU list that is one (it leaves the mask empty).
- Numeric and file converters, help and version text, error message text, and subcommand lookup.
- The order in which the usage line lists options before grouping; the groups keep whatever order the list has.
- The floating-point statistics, timing, priorities, affinity calls and the sharing of data objects between threads of a group.
- Regular expressions for choosing tests, and the CPU instruction benchmarks.
