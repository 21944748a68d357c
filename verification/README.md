# A verified model of the Minix semaphore server

The repository adds POSIX semaphores to the Minix file-system server, with a Linux emulation over
sockets. This project models the server down to its static pools and proves what it keeps over
every run, and, where the code falls short of its documentation, exactly when.

## How it is built

| layer | files | modules |
|---|---|---|
| shared node, element and list pools | `lists.dfy`, `listlaws.dfy`, `listruns.dfy` | `PoolModel`, `ListPool`, `ListLaws`, `ListRuns` |
| name table | `names.dfy`, `rows.dfy` | `NameTable`, `NameRows` |
| the server as a state machine on values | `machine.dfy`, `invariants.dfy` | `Machine`, `Invariants` |
| the server as a class over pools and table | `server.dfy` | `Server` |
| one semaphore on its own | `semaphore.dfy` | `Semaphore` |
| runs of the server | `runs.dfy`, `accounting.dfy`, `wakeups.dfy`, `lifecycle.dfy`, `replies.dfy`, `slots.dfy`, `findings.dfy` | `Runs`, `Accounting`, `Wakeups`, `Lifecycle`, `Replies`, `Slots`, `Findings` |
| clients and the Linux wire | `client.dfy`, `buffer.dfy`, `wire.dfy` | `ProdCons`, `BufferServer`, `Wire` |

`Server.SemServer` mutates arrays, pool slots and globals as the C code does, and each of its
methods is proved to take exactly the step that `Machine` describes; `ServeAll` carries this over
every finite stretch of the main loop, replies included. Each slot of `Machine` is then proved to
move as the one-semaphore automaton of `Semaphore`, where counting and the order of wake-ups are proved
for all action sequences. `Wakeups` carries that back to the server and states it by the replies that
clients get, mutual exclusion included. The pool is finite (`src/fs/list.h` has 20 nodes for
all lists together, and 80 list slots) and `ListInsert`'s failure is ignored by every caller; the model does the same, so the
theorems either hold in spite of it or name it as their condition.

The main results:

- the pools behind all lists stay a disjoint union of acyclic chains, and an operation on one list
  changes no other; the two first-fit searches of an insert run in lockstep, as do the allocators
  of semaphore slots and list slots, so a stale list pointer never reaches another semaphore's list;
- names and linked slots correspond one to one after every prefix of a run if and only if the run
  never destroys a semaphore that still has a name;
- every request is answered with 0, a slot or -1 by an exact condition on the state, and when refused with the
  error of the first of an ordered list of reasons; getvalue answers, after any run, the value at the start plus
  posts less takes;
- over every run the slots in use are those at the start plus the semaphores made less those freed; a process can
  init and destroy without end; and a slot that sem_init takes while the pool is full is lost for good, only then;
- after every iteration of every run the processes owed a reply are exactly the sleepers if and only
  if no wait found the pool full; a process gets one reply for each of its requests if and only if no wake-up
  reached it while it was owed nothing;
- the counting invariant and `grants + strays = min(v + posts, takes)` over every run;
- wake-ups match waits like parentheses: a sleeper gets its reply from the first post that brings the count
  back to where its wait found it, and none before, if and only if no waiter of that semaphore was lost
  meanwhile and no stray reply reached the sleeper;
- a waiter that finds the pool full gets a reply, in any run that follows, if and only if another post is
  answered to it by accident;
- mutual exclusion, counted by the replies sent: over every run in which only holders post, the holders, the
  count if positive and the wake-ups wasted on others add up to v plus the waiters let in by accident, so at
  most v hold the semaphore if and only if the accidents are no more than the waste and the count; with a run
  from boot in which a dropped waiter of another semaphore breaks it;
- stability of handles, the multiplicity of openers, and fork followed by exit as an identity, down to the
  chain of nodes of every list;
- the bounded buffer of the example program, run from boot against the server, in every interleaving of its
  opens, loops and ends: as the code is written it holds for one process and no more, since the library's
  `sem_wait` overwrites the handle, and a process that ends unlinks the names, so that one that starts later
  works on other semaphores. Without these two habits it holds if and only if at most seven processes take
  part. If all of them open the semaphores before any of them starts its loop, in whatever order, it holds if and
  only if they are at most ten, ends included, or one with the library as it is. The limit is the pool's, whose
  20 nodes openers and sleepers share.

## Where the code and its documentation differ

The model follows the code in each of these; the members named say what follows from it.

- `ListInsert` fails when the 20 nodes are used up; twenty processes opening one semaphore are enough
  (`Findings.TwentyOpenersLoseAWaiter`). No post is addressed to a process whose wait blocks then
  (`Accounting.AccountedIffNoDrops`). But a later post that finds a negative count and an empty list answers
  whatever process number its uninitialised local holds, and that may be the lost process
  (`Wakeups.DroppedAnsweredIff`, `Wakeups.StrayAnswersTheLost`) or one that waits for another semaphore
  (`Findings.StrayBreaksExclusion`). The events of a run carry that number.
- `sem_open` against a full pool succeeds, but its caller is not among the openers and every later wait or
  post of it fails (`Findings.OpenShutsOutIff`). The example program does not look at the results of its waits
  and posts and runs on without synchronisation (`BufferServer.EightBreak`, `BufferServer.OpenFirstIff`).
- `sem_init` against a full pool succeeds as well; its semaphore has no member and no name, and nothing ever frees
  the slot (`Slots.InitLostIff`).
- `sem_init` tests an `errno` that it does not clear, and `sem_close_all`, run by every exec and exit,
  leaves it set (`Findings.InitAfterCloseAllIff`).
- `sem_close_all` closes each slot once, so a process that opened a semaphore twice stays a member
  after it has exited (`Lifecycle.ExitLeavesNothingIff`).
- `O_CREAT` with `O_EXCL` never creates anything (`Findings.OpenSucceedsIff`).
- The reply to a woken process reuses the global message, and the library's `sem_wait` stores its second
  field into the caller's handle (`Findings.WokenHandleIff`, `Findings.WokenHandleWrong`). That alone lets the
  example program go wrong with two processes (`BufferServer.StoringBreaks`).
- `sem_destroy` of a semaphore that has a name leaves the name bound (`Findings.DestroyedNameIsReused`).
  The manual page makes its effect undefined, so runs that do it are not lawful; once it has happened the
  class `SemServer` promises nothing more.
- `sem_close` never decrements the reference count (`Lifecycle.ForkThenExit` shows the stale reference),
  and a process that exits asleep stays in the blocked list unless its exit releases the slot
  (`Findings.ExitLeavesSleeperIff`, `Findings.ExitedSleeperEatsPost`).
- `HashTableRemove` always returns `HASH_NO_ELEM`; its header promises 1 on success.
- `str_hash` is declared with its dimensions swapped. `NameTable` gives every entry a row of its own,
  as intended; `NameRows.InsertAgreesIff` says when the declared memory behaves like that.

Three readings of undefined behaviour are fixed: `sem_post`, which has no return statement, returns 0
on success and -1 on failure; a failed open is answered with -1 and `errno` (the code dereferences a
null pointer there and returns an uninitialised variable); a slot never used has no members (its list
pointer is null). Names are C strings without NUL characters.

Runs that reason about replies assume of their requests (`Accounting.Allowed`) that a process sends nothing
while it waits for a reply, which the kernel guarantees, and that the memory manager does not exec or exit it
meanwhile. The second is an assumption of these runs alone: a signal can kill a waiting process, and
`Findings.ExitLeavesSleeperIff` and `Findings.ExitedSleeperEatsPost` say what follows then. POSIX
behaviour is that of the pages sem_open, sem_close, sem_unlink, sem_destroy, sem_wait, sem_post and
sem_getvalue in section 3, System Interfaces, of IEEE Std 1003.1.

## Model

| member | source | states |
|---|---|---|
| PoolModel.LinkKeepsInv | src/fs/list.c:204-245 | linking a free node at any place of a list keeps all chains acyclic, disjoint and equal to the busy nodes, adds exactly that element there, and changes no other list |
| PoolModel.UnlinkKeepsInv | src/fs/list.c:262-276 | splicing out and freeing a node keeps the same invariant, drops exactly that position, and changes no other list |
| PoolModel.RoomIffNotFull | src/fs/list.c:204-216 | the first-fit search finds a node exactly when all lists together hold fewer than MAX_NODES elements |
| ListPool.FirstFreeAgree | src/fs/list.c:204-235 | the element search stops at the slot the node search stopped at, so the second LIST_NO_MEM branch is dead |
| PoolModel.ScanFindsFirst | src/fs/list.c:335-374 | on an unsorted list the search stops at the first occurrence, with either comparator sign, and finds members only |
| PoolModel.RemoveFirstIsRemoveAt | src/fs/list.c:254-269 | deleting at that position removes the first occurrence and nothing else |
| ListPool.ListPool.NewList | src/fs/list.c:110-139 | takes the lowest free list slot, NULL only when all are busy; contents of all lists unchanged |
| ListPool.ListPool.ListFindNode | src/fs/list.c:335-374 | returns whether the element is there and the node before the place where the search stopped, terminating on the rest of the chain |
| ListPool.ListPool.ListInsert | src/fs/list.c:170-245 | the new contents of every list, the result code in each case (exists, no memory, done), and where the cursor is afterwards |
| ListPool.ListPool.ListDelete | src/fs/list.c:248-277 | drops the element the search stopped at, moves a cursor that stood on it to the next node, leaves all other lists alone |
| ListPool.ListPool.ListGetElement | src/fs/list.c:157-167 | returns the element at the cursor and advances, LIST_END at the end |
| ListPool.ListPool.ReadAll | src/fs/list.c:149-167 | rewinding and getting until LIST_END yields the list's elements in order and changes no contents |
| ListPool.ListPool.ListRemoveFirst | src/fs/list.c:314-330 | removes the head and leaves the cursor on the freed node |
| ListPool.ListPool.FreeList | src/fs/list.c:298-311 | empties the list, frees its slot and all its nodes, terminates |
| ListLaws.CursorReadsSurvivors | src/fs/list.c:149-167 | reads interleaved with deletions return every surviving node once, in list order |
| ListRuns.ReadAndDelete | src/fs/list.c:149-277 | the pool, driven through any sequence of reads and deletions after a rewind, does exactly that: node by node the calls of `CursorReadsSurvivors`, with the elements read |
| ListLaws.SortedListIsSet | src/fs/list.c:176-186 | any inserts and deletes on a sorted list leave the ascending sequence of the set they leave |
| ListRuns.InsertAndRemove | src/fs/list.c:170-277 | the pool, driven through any inserts and deletes on a sorted list, holds that sequence for the calls not refused for lack of a node; no other list changes |
| ListRuns.ApplyOne | src/fs/list.c:170-277 | one such call, and that it is refused exactly for a new element in a full pool |
| ListLaws.AscendingIsUnique | src/fs/list.c:176-186 | there is only one ascending sequence of a set |
| ListLaws.ScanSeparates | src/fs/list.c:335-374 | on an ascending list the search stops between the smaller and the greater elements and finds exactly the members |
| NameTable.ClipIff | src/fs/hash.c:104-127 | two names are one to the table iff they are equal or agree in the 255 characters it looks at |
| NameTable.UsedIsOccupied | src/fs/hash.c:56-77 | used_slot is the number of occupied entries, and a hole exists exactly while it is below the capacity |
| NameTable.HoldsIffBound | src/fs/hash.c:104-127 | a linear scan meets a name exactly when the map binds it, and then with the map's value |
| NameTable.NameTable.HashTableInsert | src/fs/hash.c:52-78 | refuses a full table or a bound name, else binds the name and nothing else |
| NameTable.NameTable.HashTableFind | src/fs/hash.c:104-127 | answers as the finite map does |
| NameTable.NameTable.HashTableRemove | src/fs/hash.c:81-100 | unbinds the name and nothing else; always answers HASH_NO_ELEM |
| NameRows.InsertAgreesIff | src/fs/hash.c:20-24 | storing a name in the declared memory keeps all names readable iff each other name survives: the six rows after hold the part of the new name that falls there, and a name that runs into the row goes on as the new one does; names of any length below 255 |
| NameRows.ShortNamesIff | src/fs/hash.c:20-24 | for names that fit their rows that means that the six entries after it hold no name |
| NameRows.LongNameIffSuffix | src/fs/hash.c:69-73 | a name of 40 or more characters reads back as its first 40 followed by the next row's new name, and survives iff that is equal |
| NameRows.UnlinkThenCreateLosesName | src/fs/hash.c:67-76 | refilling the hole left by "a" makes "b" unreadable |
| Server.FirstFreeLists | src/fs/semaphore.c:94-118 | the lists given to the first free semaphore slot i are list slots 2i and 2i+1 |
| Server.SemServer.SemCreate | src/fs/semaphore.c:89-124 | the concrete creation takes the state machine's step, with the lists of lockstep slots |
| Server.SemServer.SemOpen | src/fs/semaphore.c:126-187 | all branches of sem_open, state and result, with the invariant kept |
| Server.SemServer.SemDestroy | src/fs/semaphore.c:202-229 | takes the state machine's step; validity is lost exactly when the slot still has a name |
| Server.SemServer.SemUnlink | src/fs/semaphore.c:231-262 | unbinds and marks, or fails with the right errno |
| Server.SemServer.SemClose | src/fs/semaphore.c:305-335 | removes the first entry of the caller and releases an unlinked slot with its last |
| Server.SemServer.SemWait | src/fs/semaphore.c:337-368 | decrements, and blocks by withholding the reply and pushing the caller if a node is free |
| Server.SemServer.SemPost | src/fs/semaphore.c:397-437 | increments, and wakes the head of the blocked list with one reply sent at once |
| Server.SemServer.SemOpenAll | src/fs/semaphore.c:264-286 | the fork hook takes the state machine's step, and each chain of openers stays or gets one node at its head |
| Server.SemServer.SemCloseAll | src/fs/semaphore.c:288-303 | the exec and exit hook takes the state machine's step and restores `who`; if it releases no slot, a chain whose first opener leaves loses its first node |
| Server.SemServer.ServeRequest | src/fs/main.c:49-66 | one iteration of the main loop: new state and the replies sent, in order |
| Server.SemServer.ServeAll | src/fs/main.c:49-66 | every lawful stretch of requests takes the concrete server through the state machine's run and sends its replies |
| Invariants.ServeKeepsInv | src/fs/semaphore.c:202-229 | every request keeps the server invariant except exactly the destroy of a slot with a name |
| Invariants.RunKeepsInvIff | src/fs/semaphore.c:144-181 | names and linked slots stay in one-to-one correspondence along a run iff it destroys no slot with a name |
| Invariants.NamesFit | src/fs/semaphore.c:180 | at most ten names are bound, so the insert of sem_open cannot fail as full |
| Semaphore.Counting | src/fs/semaphore.c:337-437 | count, sleepers, lost waiters, stray wakes and grants of any action sequence from value v |
| Semaphore.SleepersMatchIff | src/fs/semaphore.c:357-364 | sleepers equal max(0, -count) after every prefix iff no waiter was lost |
| Semaphore.SleepUntilReturn | src/fs/semaphore.c:418-435 | a sleeper sleeps on, earlier sleepers untouched, up to the first post that finds the count where its wait left it, iff no waiter was lost meanwhile; then that post wakes it |
| Runs.RunProjects | src/fs/semaphore.c:337-437 | over any lawful run a slot moves as the one-semaphore automaton on the requests addressed to it; nothing else moves it |
| Runs.ServerCounting | src/fs/semaphore.c:337-437 | the counting invariant on the server, for as long as a slot holds the same semaphore |
| Wakeups.ServerStack | src/fs/semaphore.c:425-433 | on the server: p gets no reply before the first post that returns to its level iff no waiter of the slot was lost meanwhile and no stray reply reached p; then that post answers p, first and once, and leaves the slot as p found it |
| Runs.CountFitsInt | src/fs/semaphore.c:19-22 | the count stays a 32-bit int over any run of fewer than 2^31 - 35000 requests |
| Replies.AnswerIff | src/fs/semaphore2.c:73-133 | every call but a sleeping wait is answered; with -1 iff its condition on the state fails (member; for trywait count positive, for destroy nobody asleep; for unlink name bound, short enough, caller a member; for init and a new open errno, value, free slot; never with O_EXCL), else with 0 or, by open, the slot of the name or the lowest free one |
| Replies.ErrorIs | src/fs/semaphore2.c:143-145 | the result is Ok iff no reason for refusal applies, and otherwise the error of the first one: ENOENT, ENAMETOOLONG, EEXIST, ENOSPC, EINVAL, EACCES, EBUSY, EAGAIN, in the order of each call |
| Replies.UnlinkErrorIff | src/fs/semaphore.c:239-261 | sem_unlink: ENAMETOOLONG, ENOENT, EACCES and Ok, each with its exact condition |
| Replies.ErrnoAfter | src/fs/semaphore.c:337-437 | errno after a request: the error of a refusal; otherwise clear after open, wait, trywait and post and untouched after the others |
| Replies.FieldsAre | src/fs/semaphore2.c:163-185 | the handle and the value in the answer, which fields each call leaves from earlier answers, and that the message keeps them |
| Replies.ManagerAnswer | src/fs/misc.c:220-225 | fork, exec and exit are answered Ok to the memory manager and EGENERIC, without effect, to anyone else |
| Replies.RefusedIsClean | src/fs/semaphore.c:99-124 | a request answered -1 changes no live semaphore and no name and makes none |
| Replies.MakesOne | src/fs/semaphore.c:94-120 | a successful init or new open puts a semaphore of the value asked for into the lowest free slot, unlinked or bound to the name, and changes no other slot or name |
| Replies.DestroyFrees | src/fs/semaphore.c:214-228 | a destroy answered 0 frees the slot, empties both lists, changes nothing else |
| Replies.UnlinkUnbinds | src/fs/semaphore.c:248-259 | an unlink answered 0 unbinds that name, marks its slot, changes nothing else |
| Replies.CountingTouches | src/fs/semaphore.c:337-455 | wait, trywait and post touch only count and sleepers of their slot, getvalue nothing |
| Replies.CloseTouches | src/fs/semaphore.c:317-332 | a close takes one entry and touches nothing else, or frees the slot with the last entry of an unlinked one |
| Replies.MadeWithValue | src/fs/semaphore.c:104-120 | over any lawful run after it was made, while it lasts, a semaphore's count is the value asked for plus posts less takes |
| Replies.GetValueTells | src/fs/semaphore.c:439-455 | after any lawful run a member's getvalue is answered the value at the start plus posts less takes; a stranger gets -1, EINVAL and the value it sent |
| Slots.SlotLedger | src/fs/semaphore.c:94-103 | over every lawful run slots in use are those before plus semaphores made less those freed by destroy, close, exec and exit; a slot is free iff that is below ten |
| Slots.InitThenDestroy | src/fs/semaphore.c:190-229 | after an init and any lawful requests that leave it to its maker with nobody asleep, the maker's destroy is lawful, answered 0, and leaves one slot fewer in use |
| Slots.PairsForever | src/fs/semaphore.c:190-229 | any number of inits and destroys in turn are all answered 0 and leave as many slots in use |
| Slots.InitLostIff | src/fs/semaphore.c:114-120 | the slot taken by a sem_init stays in use over every lawful run that follows iff the pool was full at the init |
| Accounting.AccountedIffNoDrops | src/fs/main.c:62-64 | after every iteration the processes owed a reply are exactly the sleepers, iff no wait found the pool full; and then each sleeps in one list, once, as an opener there, and each list is as long as the count says |
| Accounting.EveryRequestAnsweredOnce | src/fs/semaphore2.c:31-36 | replies sent plus the one pending equal requests made, per process, over every run without a dropped waiter |
| Wakeups.AnsweredOnceIff | src/fs/semaphore2.c:31-36 | over every run, waiters lost or not, the replies to a process and the one pending equal its requests and the one pending before, iff no wake-up went to it while it was owed nothing |
| Accounting.InitialOrderly | src/fs/semaphore.c:69-87 | the server starts in a state from which all these theorems apply |
| Accounting.DropIsLost | src/fs/semaphore.c:357-364 | a waiter that found the pool full is owed a reply and is in no blocked list |
| Wakeups.DroppedAnsweredIff | src/fs/semaphore.c:357-364 | over every run after a drop, the dropped waiter gets a reply iff some post that finds a sleeper missing holds its number by accident |
| Wakeups.StrayAnswersTheLost | src/fs/semaphore.c:418-433 | right after a drop on a semaphore nobody waits for, such a post is answered to the lost process |
| Wakeups.ViewIsHolders | src/fs/main.c:62-64 | who holds a slot according to the requests and replies alone is what the automaton of the slot says, over every run in which no stray reply reaches a waiting process |
| Wakeups.MutualExclusionIff | src/fs/semaphore.c:337-437 | over every run in which the slot stays the same semaphore and only holders post it: holders plus positive count plus wasted wake-ups equal v plus accidental ones, so at most v processes at a time have been told that they hold it iff the accidents are no more than the waste and the count |
| Wakeups.MutualExclusion | src/fs/semaphore.c:337-437 | in particular if no stray reply reaches a waiting process |
| Wakeups.NobodySleepsInVain | src/fs/semaphore.c:337-437 | without dropped waiters the holders and the count make up v exactly, so a process sleeps only while v others hold the semaphore |
| Findings.StrayBreaksExclusion | src/fs/semaphore.c:418-433 | a run from boot, fair in every other respect, in which a dropped waiter and a stray reply on "s" tell a second process that it holds "m" |
| Lifecycle.ForkThenExit | src/fs/semaphore.c:264-303 | fork then exit restores every list, count, flag and name and the number of pool nodes in use, and leaves one extra reference per inherited slot |
| Server.SemServer.ForkThenExit | src/fs/semaphore.c:264-303 | on the pools: the exit gives back the very nodes the child took, so every list is the same chain of nodes and every busy flag is as before |
| Lifecycle.ExitLeavesNothingIff | src/fs/semaphore.c:288-303 | after exit the process is in no opener list iff none held it twice |
| Lifecycle.CloseReleasesIff | src/fs/semaphore.c:317-329 | a close releases the slot iff it is unlinked and the caller is its only entry, and takes one entry of the caller away |
| Lifecycle.OpenAfterUnlinkIsFresh | src/fs/semaphore.c:250-258 | after an unlink and any lawful requests that do not open the name, the next creating open gets a slot that was free; the old semaphore, while it lasts, is another slot, nameless and not touched |
| Lifecycle.FailureIsClean | src/fs/semaphore.c:99-124 | a call that returns -1 changes no live semaphore and no name, wakes and blocks nobody, and sets errno, O_EXCL opens excepted |
| Lifecycle.HandleIsStable | src/fs/semaphore.c:94-98 | while a member neither leaves nor sees a destroy, its slot holds the same semaphore and it stays a member |
| Lifecycle.Multiplicity | src/fs/semaphore.c:278-282 | entries of a process in a slot over any run: opens, inits and inherited forks that got a node, minus closes, execs and exits |
| Lifecycle.ForkJoins | src/fs/semaphore.c:276-283 | the child joins the parent's slots in slot order while pool nodes last |
| Findings.OpenShutsOutIff | src/fs/semaphore.c:144-181 | a successful open leaves its caller no member of the semaphore iff the pool was full and the caller was not in it already |
| Findings.InitAfterCloseAllIff | src/fs/misc.c:225 | after an exec or exit sem_init fails unless errno was clear, the process was in all ten slots and was the last entry of an unlinked one |
| Findings.DestroyedNameIsReused | src/fs/semaphore.c:202-229 | after a destroy, and whatever requests follow that do not unlink the name, an open of the name is given whatever is in the freed slot |
| Findings.PrivateSemaphoreIsOpened | src/fs/semaphore.c:190-200 | for instance the private semaphore of the next sem_init, with the value it was made with |
| Findings.OutIsLastHandle | src/fs/semaphore2.c:163-185 | after any run the second field of the message is the handle that the last request answered with one was answered with |
| Findings.WokenHandleIff | src/fs/semaphore2.c:163-185 | after any run the process a post wakes is told its own handle iff that is that handle |
| Findings.WokenHandleWrong | src/fs/semaphore2.c:31-36 | a sleeper woken by a process whose last request named another semaphore is told that one |
| Findings.ExitedSleeperEatsPost | src/fs/semaphore.c:305-335 | a process that exits asleep still absorbs the next post |
| Findings.ExitLeavesSleeperIff | src/fs/semaphore.c:305-335 | an exit leaves the process in no blocked list iff each semaphore it slept on was unlinked and had it as its only opener entry |
| Findings.TwentyOpenersLoseAWaiter | src/fs/semaphore.c:357-364 | twenty opens of one semaphore fill the pool, and the first wait after them is dropped |
| BufferServer.BufferIff | src/examples/prod_cons.c:28-77 | the program against the server from boot: created - consumed stays between 0 and 15 + finished consumers in every interleaving of n processes iff n <= 1 if the library stores handles or processes unlink and close when they end (as written, they do both), iff n <= 7 if neither |
| BufferServer.AsWrittenIff | src/examples/prod_cons.c:28-77 | in particular, for the code as it is written, iff n <= 1 |
| BufferServer.OpenFirstIff | src/examples/prod_cons.c:28-77 | over every run in which all have opened both semaphores, in any order, before any starts its loop, the ends of the loops included: iff n <= 10, or n <= 1 if the library stores handles |
| BufferServer.StoringBreaks | src/fs/semaphore2.c:31-36 | a consumer and a producer, among any number that have opened; the woken consumer is answered with another semaphore's handle, the library's `sem_wait` keeps it, and more is consumed than created |
| BufferServer.LeavingBreaks | src/examples/prod_cons.c:44-48 | two producers, the second of which opens when the first has unlinked both names and left: it gets a fresh pair, and sixteen elements are created and none consumed |
| BufferServer.EightBreak | src/fs/semaphore.c:158-163 | seven open, six consumers sleep, the open of the eighth finds the pool full, so that its waits fail and it creates sixteen elements |
| BufferServer.StepIsMove | src/examples/prod_cons.c:33-71 | a step of a process that is in both semaphores, by its request and the replies, is a step of the program on two free-standing semaphores with the room the pool has, and touches nothing else |
| ProdCons.BoundedBufferIff | src/examples/prod_cons.c:33-71 | on two free-standing semaphores with all n processes in both, and wherever the pool runs out: the bound holds in every interleaving, whatever waiters are lost and replies go astray, iff n <= 16 |
| ProdCons.BoundedBufferInPool | src/examples/prod_cons.c:33-71 | for any number of processes, if the pool has three nodes for each |
| ProdCons.SpreeBreaksTheBound | src/examples/prod_cons.c:62-71 | with seventeen or more, in a pool of two nodes for each (34 and up, more than the server's 20), a run from the opening in which 15 elements are created and 16 consumed |
| ProdCons.FinishedAreDone | src/examples/prod_cons.c:62-71 | the finished consumers of the bound are those at the end of their input, in every interleaving |
| ProdCons.BoundIsTight | src/examples/prod_cons.c:62-71 | a run with one finished consumer in which 16 elements are created and none consumed |
| Wire.LongRoundTripIff | src/examples/linux/protocolo_sem.c:24-39 | an int survives put_long and get_long iff it fits 32 bits, for a 4- or 8-byte long |
| Wire.RequestRoundTripIff | src/examples/linux/sem_serv.c:183-276 | a request decodes to itself, consuming exactly its bytes whatever follows, iff its name has at most 127 bytes; from 128 on this is about unlink requests, since the stub does not write such an open |
| Wire.CreatIsBitSix | src/examples/linux/sem_cli.c:54-61 | the test for O_CREAT is the sixth bit of the flags, whatever the others are |
| Wire.OpenCarriesIff | src/examples/linux/sem_cli.c:48-61 | the bytes of an open request: code, length, name, flags, a flag byte; mode and value follow iff O_CREAT is set |
| Wire.HandleLayout | src/examples/linux/sem_cli.c:97-99 | the bytes of the other requests with a handle, and of an init: code, then longs in network order |
| Wire.ReplyBytes | src/examples/linux/sem_serv.c:243-282 | the bytes of a reply: the extra value of init and getvalue, the result, errno |
| Wire.ReplyRoundTrip | src/examples/linux/sem_serv.c:278-282 | every reply but the wake-up decodes to itself and consumes exactly its bytes |
| Wire.Buffer.PutRequest | src/examples/linux/sem_cli.c:48-61 | the stub leaves the encoding of the request in the shared buffer |
| Wire.Buffer.TakeRequest | src/examples/linux/sem_serv.c:183-276 | the server's reads through the moving cursor compute the decoding of the buffer |
| Wire.Transmit | src/examples/linux/sem_cli.c:48-61 | what a stub puts in the buffer the server takes out, for names of at most 127 bytes |

## Left out

- The rest of src/fs/main.c and src/fs/misc.c (boot, RAM disk, files, signals, revive): not about semaphores; other uses of the global reply message between two semaphore requests are not modelled either.
- The library stubs and assembly stubs in src/libsem: they move fields in and out of messages. Only what `sem_wait` stores into the caller's handle is modelled, in `BufferServer`.
- `mode`, `permision`, `pshared`, SEM_TIMEDWAIT and unknown function codes: stored and never read, or stubs.
- An open with O_CREAT sent without mode and value (the library sends them only when O_CREAT is the only flag): the code would read missing arguments.
- The copy of the name from the caller in semaphore_entry, which cuts it at 254 characters; `sem_open` and `sem_unlink` are modelled for names of any length.
- The `copy` argument of ListElementBelongs: every caller passes NULL.
- Machine.Create: the count written to a free slot by a rejected value is kept as the unsigned value, not cast to int; no one reads it.
- Lifecycle.Multiplicity: runs in which the slot is destroyed are excluded, since a destroy drops all entries at once.
- BufferServer.BufferIff: nobody but the program's processes sends requests; a process whose open fails is gone, since it dereferences SEM_FAILED; a reply is heard by a process blocked in sem_wait and by nobody else; all n processes are there at boot, though they may open at any time.
- ProdCons.BoundedBufferIff: leaves open whether sixteen processes get into both semaphores; in the server's pool they do not (`BufferServer.OpenFirstIff`).
- ProdCons.SpreeBreaksTheBound: needs a larger pool than the server's, in which the run stays one of members.
- Wakeups.MutualExclusion: excludes runs in which a stray reply reaches a waiting process; `Wakeups.MutualExclusionIff` says what holds there.
- NameRows.InsertAgreesIff: a name of exactly 255 characters, which strncpy leaves without its NUL, is excluded.
- Wire.RequestRoundTripIff: names of 256 bytes or more are excluded; an open of a name of 128 bytes or more is encoded with its length as one byte, while the stub, whose length is a `char`, already copies out of bounds.
- Wire.Transmit: the sockets between the two sides are not modelled; the same bytes are read back.
- The one-byte wake-up reply of the Linux server: the client reads two longs, so there is no round trip.
- `console.c`, `pc_init.c`, `timeutils.c`, the connection library, `select` and the status array: input, sockets and clocks.
