# Verified models of four small concurrent systems

This project models the four programs of the repository in Dafny and proves what they are for:

* **the championship** (`hw2_pvp-championship`): 14 battle processes and 15 player processes that
  pass tokens over blocking pipes and FIFOs, and announce a champion;
* **the recommendation sort** (`hw4_simple-movies-recommendation-system`): a fork-join merge sort
  over a decorating library sort, once with threads and once with processes, fed by a shared counter;
* **the booking servers** (`hw1_csiebooking`): read and write servers that share one record file
  under POSIX record locks (IEEE Std 1003.1-2017, System Interfaces, `fcntl()`, `F_SETLK`);
* **the thread library** (`hw3_thread-library`): a user-level round-robin scheduler with signals and
  asynchronous reads, and the three thread functions it runs.

`dafny verify dfyconfig.toml` checks everything.

## The championship

Modules: `Combat`, `Bracket`, `Protocol` (the transition system), `Tokens`, `Places` (invariants),
`Confluence`, `Canonical`, `Rounds` (one complete run), `Championship` (main results), `Incarnations` (who receives
and who carries a token, over whole runs), `PlayerCode` (the branches of the C code on its structs),
`Graph` (the repository's own bracket).

A state holds the control state of every process, the queues of all pipes and FIFOs, and the counts of
signals that `wait` and the two-sided opening of a FIFO take. Every read, write and synchronisation is
a step; any process that can step may. The results hold for every well-formed bracket and all fit
players, and `Graph` shows that the repository's table is one. The proof is: steps of different
processes commute (`Confluence.Diamond`), so all complete runs have one length and one end; one
complete run is constructed battle by battle; hence every run ends there. What one round does is stated
twice: as the functions of `battle.c`, and as an exchange of blows from outside (`Combat.Exchange`).

Assumptions: hit points are positive, attack at least 1, the flag read from `player_status.txt` is 0,
and real ids are distinct (they are 0 to 7). `stat1.battle_ended_flag`, which `battle.c:91` reads
before it is written, is taken not to be 1. Hit points are unbounded integers. All processes exist
from the start, since none does anything visible before its first token. Writes do not block in the
model, and `Championship.PipesNeverFill` shows why they need not: no pipe ever holds more than one
token.

## The recommendation sort

Modules: `Titles` (strcmp and the secret suffix), `SortSpec` (the sorts as functions), `SortCode` and
`MergeCode` (the loops over pointer arrays), `ForkJoin` (the task tree on lists, under any schedule),
`ThreadJoin` and `ProcessJoin` (the same for the threads' pointer arrays and for the processes' shared
blocks), `Recommend` (a whole request), `Dispatch` (the worker threads), `Service` (the whole server).

`strcmp` compares by the first differing byte as unsigned char (ISO/IEC 9899:2011, section 7.24.4).
Leaves compare plain titles and merges compare decorated ones, so the merge sort agrees with the
library sort only if the suffix keeps the order of the titles. It does so exactly for `Compatible`
titles (`Titles.SecretKeepsOrder`): no title continues another one by something that `strcmp` puts
before the suffix. Titles of bytes above the tab are always compatible;
`Titles.TabTitlesIncompatible` is a pair that is not. `SortSpec.RefinementExact` turns this into the
exact condition for the whole sort.

Pointers are modelled as shared blocks or private strings, so that overwriting a block changes what
every other pointer to it reads. Scores are non-negative reals, which `lib.c:70` asserts; in
`Recommend` this follows from non-negative profiles. At least one movie matches.

The methods of `MergeCode` run two children in turn. What holds for every interleaving is stated on
transition systems: a step of `ThreadJoin` is a step of `ForkJoin` on the list that the pointers read,
and `ProcessJoin` keeps each process's private pointers apart from the shared blocks and scores, which
are out of step with each other while a process at the bottom of the tree sorts. One placement of the
library sort, one copied string with its score and one comparison of a merge are single steps.
`Service` interleaves the steps of the workers with those of the sorting threads of all requests in
progress; its outputs are what the finished task trees leave in the arrays.

## The booking servers

Modules: `Bookings` (the transition system), `BookingLocks` (counters and locks), `BookingHistory`
(serial equivalence), `Numbers` (`convert`), `BookingCode` (the handlers on the program's arrays).

Each system call on the record file is a step of its own, so handlers of different servers interleave
inside a login and between the re-read and the write of a command. A server may also end at any
moment. A finished session is logged with what its client saw and got; the log is the serial order.
`convert` reports an error by a number that a client can type as well; the contract of
`Numbers.Convert` says exactly when.

## The thread library

Modules: `Scheduling` (queues and scheduler entry), `Fairness` (bounded waiting), `SchedulerCode` (the
loops over the arrays), `Threads` (the thread functions), `Threading` (everything together).

A thread is named by its `fd_index`. Signals and poll results are chosen by an adversary. At least one
thread is created, `revents` is 0 or exactly `POLLIN`, and a poll that waits reports at least one
descriptor. A thread's run alone, with which `Threading` compares, ends at `thread_exit` and blocks at
a read without input. `collatz` is not claimed to stop, nor are `fibonacci` and `max_subarray` with argument 0.
The waiting bound is for stretches in which no thread leaves the waiting queue, and it is exact.

## Model

| member | source | states |
|---|---|---|
| Combat.RoundFacts | hw2_pvp-championship/battle.c:21-49 | a round keeps both identities, never raises hit points, hurts somebody, and ends the battle exactly when one of the two is down |
| Combat.WeakerFirst | hw2_pvp-championship/battle.c:21-49 | in either child order, the one with fewer hit points (on a tie, the smaller id) strikes first; the other loses exactly its power, doubled in its own arena, and strikes back if and only if it still stands |
| Combat.RoundExchange | hw2_pvp-championship/battle.c:97-98 | of fit tokens, a round is exactly the exchange of blows described without the code's functions |
| Combat.DuelDecided | hw2_pvp-championship/battle.c:91-104 | every decided sequence of such exchanges ends as the recursive fight does |
| Combat.FightDuel | hw2_pvp-championship/battle.c:91-104 | the recursive fight is such a sequence |
| Combat.FightFacts | hw2_pvp-championship/battle.c:91-104 | every battle ends, with exactly one combatant at or below zero |
| Combat.FightSymmetric | hw2_pvp-championship/battle.c:21-28 | with distinct real ids the outcome does not depend on which child is left: `compare` is decisive |
| Combat.HealFacts | hw2_pvp-championship/player.c:98-101 | healing gives back half of the lost hit points, rounded down, keeps the player, and clears the flag |
| Combat.BattleEnd | hw2_pvp-championship/battle.c:30-37 | sets both flags exactly if somebody is down, and says so |
| Combat.Battle | hw2_pvp-championship/battle.c:39-49 | the struct updates are the strike function, and hence one exchange of blows with the first struct striking first |
| Combat.PlayToEnd | hw2_pvp-championship/battle.c:91-104 | the playing loop makes a sequence of exchanges from the two given tokens to a decided battle, which is the result of the recursive fight, one combatant down |
| PlayerCode.ComeBack | hw2_pvp-championship/player.c:95-116 | the branches after a decided battle on the status fields: stop at the root, heal and go on, revive and give the token away, or (an agent) stop |
| PlayerCode.AfterWait | hw2_pvp-championship/battle.c:107-116 | the surviving child is the one relayed for, or announced at the root |
| Bracket.Entrant | hw2_pvp-championship/player.c:98-105 | whoever a node presents, through wins, healings and one revival, is fit and within its original hit points |
| Bracket.Outcome | hw2_pvp-championship/battle.c:108-112 | a battle of the bracket leaves a living winner and a fallen loser, both stamped with it |
| Bracket.OutcomePlayed | hw2_pvp-championship/battle.c:91-112 | winner and loser of a bracket battle are the two ends of a sequence of exchanges between the entrants of its children |
| Graph.GameWellFormed | hw2_pvp-championship/graph.c:20-34 | the repository's table is a well-formed bracket for any eight fit players with ids 0 to 7 |
| Graph.GameIsGraph | hw2_pvp-championship/graph.c:20-34 | the preorder numbering has the children, parents, attributes, loser slots and loser's parents of the table |
| Graph.SetBattle | hw2_pvp-championship/graph.c:4-18 | writes one entry of the global array and no other |
| Graph.InitGraph | hw2_pvp-championship/graph.c:20-34 | fills the array with the table's 14 rows |
| Tokens.RecvOk | hw2_pvp-championship/battle.c:93-127 | whatever a process reads, it goes on with healthy tokens of known players |
| Tokens.AnswerComes | hw2_pvp-championship/player.c:90-93 | a process that waits for an answer finds the token it sent, with no more hit points |
| Tokens.HealthyStep | hw2_pvp-championship/player.c:87-117 | no step of any process breaks the health and identity of the tokens in hand or in a channel |
| Tokens.LinksStep | hw2_pvp-championship/battle.c:116-127 | every pipe pair carries at most the one token its child waits for, after any step |
| Places.UniqueStep | hw2_pvp-championship/player.c:104-115 | no step copies a token: each real id stays in at most one place |
| Places.SingleLoserStep | hw2_pvp-championship/player.c:111-115 | each battle has at most one loser to hand over, after any step |
| Places.InvariantRuns | hw2_pvp-championship/battle.c:91-139 | the whole invariant holds after any run |
| Confluence.Ownership | hw2_pvp-championship/battle.c:63-82 | two processes never write one pipe, read one pipe or take one signal |
| Confluence.Diamond | hw2_pvp-championship/battle.c:91-139 | two enabled steps of different processes commute and do not disable each other |
| Confluence.Confluent | hw2_pvp-championship/battle.c:91-139 | any run can be completed to the end of any complete run, with the same total number of steps |
| Canonical.HandOver | hw2_pvp-championship/player.c:102-123 | a revived token reaches its agent through the FIFO, whose two openings wait for each other |
| Rounds.Rounds | hw2_pvp-championship/battle.c:91-104 | messages going up and down between two subtrees play the recursive fight |
| Rounds.Decide | hw2_pvp-championship/battle.c:105-128 | the loser's processes leave, its token moves to the agent's node, and the winner's subtree moves on |
| Rounds.Finish | hw2_pvp-championship/battle.c:130-139 | after the final all processes leave and the winner's token is announced |
| Championship.CompleteRun | hw2_pvp-championship/battle.c:91-139 | a complete run exists and announces the champion of the recursive evaluation |
| Championship.ChampionDetermined | hw2_pvp-championship/battle.c:90-139 | in every interleaving, no process can step exactly if all have exited and the root announced that champion: no deadlock, one result |
| Championship.RunsBounded | hw2_pvp-championship/battle.c:91-137 | all complete runs have the same length and final state, and no run is longer |
| Championship.RunsComplete | hw2_pvp-championship/battle.c:91-137 | every run can be continued to the end |
| Championship.CombatantsDistinct | hw2_pvp-championship/battle.c:93-100 | the two tokens of any battle, the root's included, have distinct real ids and are fit |
| Championship.PipesNeverFill | hw2_pvp-championship/battle.c:63-64 | a pipe pair holds at most one token, and so does a FIFO |
| Incarnations.FifoStep | hw2_pvp-championship/player.c:121-123 | what is handed over is in the FIFO or was received, and an agent that received its token never waits for one again |
| Incarnations.AgentReceivesOnce | hw2_pvp-championship/player.c:111-123 | in every run each agent is handed at most one token, and in every complete run exactly one |
| Incarnations.IncarnationsStep | hw2_pvp-championship/player.c:87-117 | a step passes a player's incarnation on, from process to FIFO to agent, unless the player departs with it |
| Incarnations.DepartsExits | hw2_pvp-championship/player.c:143-153 | a waiting player stops exactly on the answer of the final or of a battle lost as an agent |
| Incarnations.PlayersIncarnateOnce | hw2_pvp-championship/player.c:87-154 | in every run each real player has exactly one active incarnation until it departs and none afterwards; in every complete run it departs once |
| Championship.AnswersReturn | hw2_pvp-championship/player.c:90-105 | a player gets its own token back, and heals within its original hit points |
| Championship.RoundsExchanged | hw2_pvp-championship/battle.c:93-103 | in every run, what a battle writes back is what one exchange makes of the two tokens it read |
| Championship.PlayerGoesOn | hw2_pvp-championship/player.c:87-116 | in every run, a player with its answer plays on, stops after the final, is healed by half its loss after a victory, or after a defeat hands its token over with its original hit points (an agent stops) |
| Championship.HandedOverWhole | hw2_pvp-championship/player.c:103-115 | in every run, a token in a FIFO comes from the battle its agent takes over, is fit and has all hit points of its real player |
| Championship.DecidedOnce | hw2_pvp-championship/battle.c:104-112 | a battle that stopped playing has exactly one combatant down |
| Titles.LessTotal | hw4_simple-movies-recommendation-system/lib.c:79 | `strcmp` order is total and irreflexive on byte strings |
| Titles.LessExact | hw4_simple-movies-recommendation-system/lib.c:79 | the first difference decides: the smaller byte, or the end of the text |
| Titles.LessTransitive | hw4_simple-movies-recommendation-system/lib.c:79 | `strcmp` order is transitive |
| Titles.SecretKeepsOrder | hw4_simple-movies-recommendation-system/lib.c:34-51 | appending the secret keeps the order of two titles exactly if neither continues the other by something below the secret |
| Titles.PrintableCompatible | hw4_simple-movies-recommendation-system/lib.c:34-51 | titles of bytes above the tab meet that condition |
| Titles.TabTitlesIncompatible | hw4_simple-movies-recommendation-system/lib.c:34-51 | a concrete pair, a title and the same title with a tab, whose order the secret reverses |
| SortSpec.ArgMaxBest | hw4_simple-movies-recommendation-system/lib.c:68-84 | the running maximum ends at an item that nothing comes before |
| SortSpec.SelectSorts | hw4_simple-movies-recommendation-system/lib.c:10-30 | the selection sort gives an ordered rearrangement |
| SortSpec.MergeDecorated | hw4_simple-movies-recommendation-system/server.c:86-113 | merging decorated lists is decorating the merged plain lists, for compatible titles |
| SortSpec.PlainSortSorts | hw4_simple-movies-recommendation-system/server.c:58-122 | halving and merging on plain titles sorts, at any depth |
| SortSpec.OrderedUnique | hw4_simple-movies-recommendation-system/server.c:58-122 | two ordered lists of the same items are equal |
| SortSpec.MergeSortIsLibSort | hw4_simple-movies-recommendation-system/server.c:58-122 | the merge sort gives what one call of the library sort on the whole list gives, at any depth |
| SortSpec.MergeSortPermutes | hw4_simple-movies-recommendation-system/server.c:58-122 | with any titles, the merge sort is a rearrangement of the decorated items |
| SortSpec.RefinementExact | hw4_simple-movies-recommendation-system/server.c:58-122 | ... for all lists over a set of titles if and only if the titles are compatible |
| SortSpec.LeafSize | hw4_simple-movies-recommendation-system/server.c:61-71 | every library call gets the rounded-down or rounded-up share, so it is never empty |
| SortSpec.LeafCount | hw4_simple-movies-recommendation-system/server.c:33-34 | a tree of depth D has 2^D library calls and 2^D - 1 merging tasks |
| ForkJoin.StepKeeps | hw4_simple-movies-recommendation-system/server.c:69-80 | a step of any task changes nothing outside its range and not what its range will finally hold |
| ForkJoin.Undisturbed | hw4_simple-movies-recommendation-system/server.c:69-80 | a task does not notice what happens outside its range |
| ForkJoin.ForkJoinSorts | hw4_simple-movies-recommendation-system/server.c:58-122 | under every schedule the finished task tree leaves the merge sort of its range and nothing else |
| ForkJoin.StepCounts | hw4_simple-movies-recommendation-system/server.c:73-79 | every step uses up exactly one of a fixed number of steps |
| ForkJoin.StepExists | hw4_simple-movies-recommendation-system/server.c:78-79 | an unfinished task tree can always step: the joins never deadlock |
| SortCode.Strcmp | hw4_simple-movies-recommendation-system/lib.c:79 | the byte loop decides by the first difference, which is the recursive order |
| SortCode.FindArgMax | hw4_simple-movies-recommendation-system/lib.c:68-84 | the loop finds the best item of its range through the pointers |
| SortCode.SwapEntries | hw4_simple-movies-recommendation-system/lib.c:86-94 | exchanges two entries of both arrays and changes no other |
| SortCode.Sort | hw4_simple-movies-recommendation-system/lib.c:10-30 | leaves the decorated sorted list of its range in private strings, and every other entry as it was |
| MergeCode.MergeOut | hw4_simple-movies-recommendation-system/server.c:82-113 | the three merging loops put the merge of the two halves into the temporary arrays |
| MergeCode.WriteBack | hw4_simple-movies-recommendation-system/server.c:115-118 | the merged list replaces the range and nothing else |
| MergeCode.ThreadSort | hw4_simple-movies-recommendation-system/server.c:58-122 | the thread version, its child tasks run in turn, leaves the merge sort of its range and changes no other entry |
| MergeCode.CopyStrings | hw4_simple-movies-recommendation-system/server.c:212-215 | inner nodes get private copies of what the children left in the shared blocks |
| MergeCode.SortLeaf | hw4_simple-movies-recommendation-system/server.c:187-192 | sorting the copied pointers leaves the shared blocks as they were |
| MergeCode.StoreBack | hw4_simple-movies-recommendation-system/server.c:252-255 | overwriting shared strings one by one stores the merged list: no source string is overwritten before it is read |
| MergeCode.ProcessSort | hw4_simple-movies-recommendation-system/server.c:180-268 | the process version, its child processes run in turn, leaves the same titles and scores in the shared store |
| ThreadJoin.StepRefines | hw4_simple-movies-recommendation-system/server.c:58-122 | every step of a thread on its pointer arrays is a step of the task tree on the list they read |
| ThreadJoin.ThreadJoinSorts | hw4_simple-movies-recommendation-system/server.c:69-118 | under every schedule of the threads the pointers and scores of the range end up as the merge sort, and nothing else changes |
| ThreadJoin.StepCounts | hw4_simple-movies-recommendation-system/server.c:58-122 | every step of a thread uses up exactly one of a fixed number of steps |
| ThreadJoin.StepExists | hw4_simple-movies-recommendation-system/server.c:76-81 | an unfinished tree of threads can always step: the joins never deadlock |
| ProcessJoin.LeafRoundReads | hw4_simple-movies-recommendation-system/server.c:187-192 | a placement through private pointers moves shared scores only, and is a placement in the list the pointers read |
| ProcessJoin.Undisturbed | hw4_simple-movies-recommendation-system/server.c:198-216 | a process does not notice what others do to blocks and scores outside its range |
| ProcessJoin.StepKeeps | hw4_simple-movies-recommendation-system/server.c:180-268 | a step of any process stays in its range of both shared arrays and keeps what the range will finally hold |
| ProcessJoin.ProcessJoinSorts | hw4_simple-movies-recommendation-system/server.c:180-268 | under every schedule of the processes the shared store of the range ends up as the merge sort, and nothing else changes |
| ProcessJoin.StepCounts | hw4_simple-movies-recommendation-system/server.c:198-255 | every step uses up exactly one of a fixed number of steps |
| ProcessJoin.StepExists | hw4_simple-movies-recommendation-system/server.c:209-210 | an unfinished process tree can always step: the waits never deadlock |
| Recommend.Dot | hw4_simple-movies-recommendation-system/server.c:43-48 | the loop computes the sum of the nineteen products, which is not negative for profiles of weights |
| Recommend.ContainsExact | hw4_simple-movies-recommendation-system/server.c:131 | a title matches exactly if the keyword stands at some place of it |
| Recommend.ProductExact | hw4_simple-movies-recommendation-system/server.c:43-48 | the recursive product is the sum of the nineteen products |
| Recommend.SortedRecommended | hw4_simple-movies-recommendation-system/server.c:130-155 | the sorted list of the matches lists each movie whose title has the keyword at some place, or every movie for a star, once and decorated, and for compatible titles by descending score and ascending title |
| Recommend.StarListsAll | hw4_simple-movies-recommendation-system/server.c:131-132 | the keyword `*` lists the decorated titles of all movies |
| Recommend.RecommendThread | hw4_simple-movies-recommendation-system/server.c:124-158 | for at least one matching movie, the output is the recommendation for the matches: exactly the wanted movies, all of them for `*`, decorated and in order |
| Recommend.RecommendProcess | hw4_simple-movies-recommendation-system/server.c:293-324 | the process version, its children run in turn, prints what the thread version prints, with the same description of the output |
| Recommend.FilteredItems | hw4_simple-movies-recommendation-system/server.c:124-140 | the arrays that the filtering leaves point to the titles of the matches, with their scores |
| Recommend.ThreadsRecommend | hw4_simple-movies-recommendation-system/server.c:142-155 | from the filtered arrays on, under every schedule of the sorting threads, one library sort or a tree of them, the output is the recommendation |
| Recommend.ProcessesRecommend | hw4_simple-movies-recommendation-system/server.c:312-324 | under every schedule of the sorting processes the output is the same recommendation |
| Recommend.RecommendationUnique | hw4_simple-movies-recommendation-system/server.c:140-155 | a recommendation is the one ordered arrangement of the matches, decorated |
| Recommend.NoEmptyLibrarySort | hw4_simple-movies-recommendation-system/server.c:33-34 | from 32 matches on, the 32 library calls get floor(n/32) or ceil(n/32) items, at least one |
| Dispatch.InvariantStep | hw4_simple-movies-recommendation-system/server.c:160-176 | the mutex admits one worker, and every index handed out is served or in one worker's hands |
| Dispatch.AllServedOnce | hw4_simple-movies-recommendation-system/server.c:160-176 | when all workers have stopped, each request was recommended exactly once and `front` is requests + workers - 1 |
| Dispatch.StepExists | hw4_simple-movies-recommendation-system/server.c:163-174 | some worker can step until all have stopped |
| Dispatch.RunsEnd | hw4_simple-movies-recommendation-system/server.c:168-175 | no schedule runs longer than a fixed number of steps |
| Service.InvariantStep | hw4_simple-movies-recommendation-system/server.c:58-176 | no step of a worker or of a sorting thread breaks what the jobs will leave in their arrays and what the outputs hold |
| Service.RunAnswered | hw4_simple-movies-recommendation-system/server.c:160-176 | in every run exactly the served requests have an output, and it is theirs; without the sorting threads' steps it is a run of the workers alone |
| Service.EveryRequestAnswered | hw4_simple-movies-recommendation-system/server.c:58-176 | for any number of workers under any schedule of workers and sorting threads, every request is served once and its output is the recommendation for it: exactly the wanted movies, all of them for `*` |
| Service.RunsBounded | hw4_simple-movies-recommendation-system/server.c:58-176 | with m movies, n requests and w workers no schedule of all threads takes more than (11m + 126)(6n + 8w) steps |
| Service.RunsComplete | hw4_simple-movies-recommendation-system/server.c:58-176 | every run can be continued until all workers have stopped: no join and no lock blocks the server |
| BookingLocks.OwnStep | hw1_csiebooking/server.c:113-208 | every step of a server keeps its counters equal to its connections and its locks equal to its counters |
| BookingLocks.LocksCompatible | hw1_csiebooking/server.c:175-198 | the kernel's grants keep one exclusive holder per record, or sharers only |
| BookingLocks.Exclusion | hw1_csiebooking/server.c:172-208 | two connections to one record, on one server or two, are both on read servers |
| BookingLocks.RefusalExact | hw1_csiebooking/server.c:172-208 | counter and kernel together refuse exactly the attempts that would meet a forbidden connection |
| BookingLocks.FreeExact | hw1_csiebooking/server.c:172-208 | what is refused is what another process's lock forbids, or on a write server a slot of its own |
| BookingLocks.KernelAloneAdmits | hw1_csiebooking/server.c:197-198 | the kernel alone would admit a second writer of the same process, which the counter refuses |
| BookingHistory.SaveStable | hw1_csiebooking/server.c:363-405 | the write of an accepted command leaves every other client's view current |
| BookingHistory.OtherStable | hw1_csiebooking/server.c:210-217 | no step of another server changes a record that a client is looking at |
| BookingHistory.BookingsExclusive | hw1_csiebooking/server.c:172-208 | exclusion in every reachable state, over all servers |
| BookingHistory.CountersExact | hw1_csiebooking/server.c:113-133 | in every reachable state `arr[id]` is the number of connections with that id, and the lock is held exactly while it is positive |
| BookingHistory.LoginsExact | hw1_csiebooking/server.c:172-208 | in every reachable state a login is refused exactly if the record is occupied |
| BookingHistory.LoginsGranted | hw1_csiebooking/server.c:157-217 | in every reachable state a login attempt gets its record if and only if the number is one of 902001 to 902020 and no connection forbids it; then only its slot, counter and lock change, and otherwise only its slot |
| BookingHistory.SnapshotsStable | hw1_csiebooking/server.c:210-217 | what a client was shown at login is what the file holds as long as it is logged in |
| BookingHistory.BookingsSerial | hw1_csiebooking/server.c:338-408 | the file is the serial execution of the finished sessions, each seeing and getting what it would alone |
| Bookings.DecideExact | hw1_csiebooking/server.c:346-389 | a command is refused as malformed exactly for the error number, as below zero exactly if some new count is negative, as too many exactly if none is but the total exceeds fifteen, and accepted with the new counts otherwise |
| BookingHistory.SessionsAnswered | hw1_csiebooking/server.c:346-405 | every finished command saw what the sessions before it left, and got the answer that is due for it |
| BookingHistory.SerialRecords | hw1_csiebooking/server.c:367-401 | in a serial execution a record keeps its id, and is original or holds no negative count and at most 15 items |
| BookingHistory.SerialSums | hw1_csiebooking/server.c:367-401 | in a serial execution a count is the original one plus all accepted amounts |
| BookingHistory.RecordsSound | hw1_csiebooking/server.c:363-405 | both, in every reachable state of all the servers |
| Numbers.Convert | hw1_csiebooking/server.c:136-154 | the loop computes the number a string stands for; the error result means that it stands for none, or for -100000 itself |
| Numbers.NumberExact | hw1_csiebooking/server.c:136-154 | a string stands for a number exactly if it consists of digits, a minus at its head excepted |
| Numbers.NumeralConverts | hw1_csiebooking/server.c:136-154 | every number is the conversion of its numeral |
| Numbers.ErrorNumberTyped | hw1_csiebooking/server.c:348-355 | typing -100000 is answered as an error though it is a number |
| BookingCode.Host.SetLk | hw1_csiebooking/server.c:176-198 | a lock attempt succeeds exactly without a conflict, and changes only this process's lock on this record |
| BookingCode.BookingServer.Disconnect | hw1_csiebooking/server.c:113-133 | the slot is closed, the counter lowered, and the lock released with the last connection |
| BookingCode.BookingServer.Initialize | hw1_csiebooking/server.c:157-220 | `ret == 0` if and only if the number is one of 902001 to 902020 and the record is free, and then the client is logged in and shown the record; otherwise its slot is closed and nothing else changes |
| BookingCode.ReadParams | hw1_csiebooking/server.c:346-359 | the loop converts three words, or reports that one is no number |
| BookingCode.AddUp | hw1_csiebooking/server.c:367-401 | the loop gives the answer that is due for the record and the command, and leaves the new counts |
| BookingCode.BookingServer.Update | hw1_csiebooking/server.c:338-408 | a booking command is logged with the answer that is due, its record gets the new counts exactly if it is accepted, and its connection ends |
| BookingCode.BookingServer.Serve | hw1_csiebooking/server.c:306-409 | a message is a login attempt, a booking command on a write server, `Exit` on a read server, or ignored there, each with its whole effect |
| BookingCode.ServedExact | hw1_csiebooking/server.c:306-409 | the same about the specification of the handler, on which the runs of all servers are built |
| BookingCode.BookingServer.Hangup | hw1_csiebooking/server.c:298-304 | end of file logs the session and gives back the slot, the count and, with the last one, the lock |
| BookingCode.ServedMoves | hw1_csiebooking/server.c:289-409 | each handler is a sequence of steps of the transition system |
| BookingCode.MovesRun | hw1_csiebooking/server.c:255-412 | ... and hence a run of the whole system |
| Scheduling.MoveMembers | hw3_thread-library/scheduler.c:26-45 | exactly the reported waiting threads change queue |
| Scheduling.MoveValid | hw3_thread-library/scheduler.c:26-45 | moving keeps each thread in one queue once, and a slot armed exactly if its thread waits |
| Scheduling.FillMembers | hw3_thread-library/scheduler.c:47-51 | exactly the running thread leaves the ready queue |
| Scheduling.EnterValid | hw3_thread-library/scheduler.c:53-87 | every entry keeps the queues sound and dispatches within bounds, or returns with both queues empty |
| Scheduling.EnterMembers | hw3_thread-library/scheduler.c:61-87 | no thread appears, and only one that exits disappears |
| Scheduling.MoveArrivals | hw3_thread-library/scheduler.c:26-45 | the reported threads are appended to the ready queue in the order of their slots |
| Scheduling.EnterExact | hw3_thread-library/scheduler.c:61-75 | the arrivals are appended before the turn passes on by one place, or the last ready thread takes the place of the one that leaves |
| Scheduling.DrainExact | hw3_thread-library/scheduler.c:77-86 | when nothing is ready the arrivals of the waiting poll are, the first of them running, or the scheduler returns with nobody waiting |
| Scheduling.EnterAhead | hw3_thread-library/scheduler.c:26-75 | who still waits does so in the old order, a thread that asks to read behind all others |
| Fairness.BoundedWaiting | hw3_thread-library/scheduler.c:47-75 | without arrivals a ready thread runs within an explicit bound below twice the ready queue's size, whatever the causes of the entries |
| Fairness.WaitingTight | hw3_thread-library/scheduler.c:47-75 | for every position the bound is attained by some sequence of causes |
| SchedulerCode.AsleepNext | hw3_thread-library/scheduler.c:30-39 | removing the found thread by shifting is one step of the filter that keeps the others' order |
| SchedulerCode.Scheduler.Setup | hw3_thread-library/threadtools.h:57-75 | a new thread is appended to the ready queue, with an unarmed slot |
| SchedulerCode.Scheduler.Shift | hw3_thread-library/scheduler.c:35-37 | the shifting loop removes one entry |
| SchedulerCode.Scheduler.MoveQueue | hw3_thread-library/scheduler.c:26-45 | the nested loops append the reported waiting threads in slot order, keep the others' order, and disarm exactly the reported slots |
| SchedulerCode.Scheduler.FillRunning | hw3_thread-library/scheduler.c:47-51 | the swap with the last entry and the wrap of `rq_current` |
| SchedulerCode.Scheduler.LeaveRunning | hw3_thread-library/scheduler.c:64-75 | by the number of the reason: 1 passes the turn on, 2 appends the thread to the waiting queue and fills its place, 3 only fills its place |
| SchedulerCode.Scheduler.Schedule | hw3_thread-library/scheduler.c:53-87 | one entry into the scheduler does what the specification says, and goes on exactly if a thread is ready |
| SchedulerCode.QueuesFit | hw3_thread-library/scheduler.c:26-87 | the queues together never exceed the number of threads, so no array overflows |
| Threads.FibonacciSolo | hw3_thread-library/threads.c:6-28 | alone, F(1), F(2), ... are printed up to F(arg) and no further, with F(k) in y and F(k-1) in x after the k-th |
| Threads.CollatzSolo | hw3_thread-library/threads.c:30-51 | alone, the iterates of the argument are printed up to the first 1 and no further, each half of an even number before it, or three times an odd one and one more |
| Threads.MaxSubarraySolo | hw3_thread-library/threads.c:53-76 | alone, after each of the first `arg` inputs x is the greatest sum of a contiguous part, the empty one included, and then the thread exits |
| Threads.SoloPrefix | hw3_thread-library/threadtools.h:82-94 | more bursts and inputs only add to what a thread prints alone, and nothing after its exit |
| Threads.Tcb.RunFibonacci | hw3_thread-library/threads.c:9-27 | one burst on the tcb fields is the specified one |
| Threads.Tcb.RunCollatz | hw3_thread-library/threads.c:34-50 | one burst on the tcb fields is the specified one, and prints the Collatz successor of the number before |
| Threads.Tcb.RunMaxSubarray | hw3_thread-library/threads.c:57-75 | one burst on the tcb fields, up to the read and from it |
| Threading.StepInvariant | hw3_thread-library/scheduler.c:53-87 | a step of the system moves only the running thread on, and moves it as it would go alone |
| Threading.StepExists | hw3_thread-library/scheduler.c:53-87 | while a thread is ready the system can step, whatever number is read, whether a signal is pending, and whatever the first poll reports |
| Threading.TurnEnds | hw3_thread-library/scheduler.c:61-86 | in every reachable state: a thread that yields stays ready and keeps the turn exactly without a signal, unless it is alone; one that asks to read waits, unless it is reported while nothing else is ready; one that exits is in no queue |
| Threading.ThreadsConserved | hw3_thread-library/scheduler.c:53-87 | in every reachable state each thread is ready, waiting or finished, and the scheduler stops only when all have finished |
| Threading.ScheduleIndependent | hw3_thread-library/threadtools.h:48-94 | whatever signals and poll results come, a thread has printed a beginning of what it prints alone on the same inputs until it exits, and all of it if it has finished |
| Threading.FibonacciPrints | hw3_thread-library/threads.c:6-28 | under any schedule a fibonacci thread prints F(1), F(2), ..., at most arg lines, and has finished exactly with the arg-th |
| Threading.CollatzPrints | hw3_thread-library/threads.c:30-51 | under any schedule a collatz thread prints the Collatz successors of its argument one after the other, no 1 before its last line, and has finished exactly when that line is 1 |
| Threading.MaxSubarrayPrints | hw3_thread-library/threads.c:53-76 | under any schedule a max_subarray thread prints the best sums of its inputs, at most arg lines, and has finished exactly with the arg-th |

## Left out

- `fork`, `exec`, `dup2`, log files, process ids and the reading of `player_status.txt` (hw2): only the channels and their tokens are modelled.
- A race between two processes that create the same FIFO file (hw2): a FIFO exists when it is opened.
- Rounding of floating-point scores and the normalisation of profiles (hw4): scores are reals.
- A request without any match (hw4): it would call the library sort on an empty list, which reads `movies[-1]`.
- Reading the data set, the limits `MAX_LEN` and `MAX_MOVIES`, allocation failures and `usleep` (hw4).
- Combat.Battle: the struct pointers of the C function never coincide, which is a precondition here.
- MergeCode.ThreadSort: runs the two child tasks one after the other; `ThreadJoin.ThreadJoinSorts` states the result for every interleaving, on the transition system.
- MergeCode.ProcessSort: runs the two child processes one after the other; `ProcessJoin.ProcessJoinSorts` states the result for every interleaving, on the transition system.
- Recommend.RecommendProcess: calls ProcessSort; `Recommend.ProcessesRecommend` states the output for every interleaving.
- ForkJoin.ForkJoinSorts: the two library calls at the bottom of the tree may interleave, which allows more than the program does.
- Dispatch.AllServedOnce: the two lock operations and the increment are atomic steps.
- Service.EveryRequestAnswered: outputs are kept by the index of the request, where the program names a file by the request's id, so requests with one id would share a file; the filtering and the writing of a Recommend are one step each, since nobody else uses its arrays then.
- Sockets, `select`, telnet handling, prompts and the parsing of messages into lines and words (hw1): handlers get whole messages and their three words.
- Buffer sizes of `sscanf`, missing words, and overflow of `int` in `convert` and in sums (hw1): numbers are unbounded.
- Failures of `fcntl`, `read` and `write` other than a lock conflict (hw1).
- The end of a server process that leaves the main loop's data behind (hw1): it is a step that closes its connections and releases its locks.
- `setjmp` and `longjmp`, signal masks, `alarm` and `sleep` (hw3): a signal acts only at a yield, where the masks admit it.
- Poll events other than `POLLIN`, and poll errors (hw3).
- SchedulerCode.Scheduler: tcb pointers are the threads' creation indices; the freeing of a finished tcb is not modelled.
- Fairness while inputs keep arriving (hw3): alternating readers can delay a ready thread without bound.
- Termination of `collatz`, which is open, and of `fibonacci` and `max_subarray` with argument 0, which do not stop.
