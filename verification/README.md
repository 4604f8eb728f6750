# Verified model of the Raft, key/value, linearizability-checker and MapReduce labs

This project models four components of the repository and proves what they are for.

**Raft** (`Raft*.dfy`). A cluster of any size is a state machine with one step per critical
section of `rf.mu`. Messages are never taken off the network, so each may be lost, delayed,
reordered or delivered many times. A crash may strike at any moment, also between the two
`persist` calls of `AppendEntries`, and leaves only what was persisted. `RaftPeer` holds what
each critical section computes, `RaftServer` the peer as an object whose methods are proved to
compute just that, and `RaftCluster` the cluster. `RaftCore` is the protocol without messages and
goroutines; `RaftInvariant`, `RaftSteps` and `RaftReplication` tie every step of the cluster to
it. `RaftDecisions` says what each handler decides, in the terms of its inputs. The code differs from Figure 2 of "In Search of an Understandable Consensus Algorithm" and
the model keeps the differences: `votedFor` survives a new term, a voter with a better log does
not adopt the candidate's term, the role is persisted, there is a fourth role, a follower
truncates before it has replacements, and the commit bound is the length of the log.

**The linearizability checker** (`LinSearch`, `LinModel`, `Bitset`, `VisitedCache`, `EntryList`,
`HistoryList`, `LiveList`, `CheckSingle`, `Operations`, `KvModel`, `Locality`, `Partition`,
`CheckParallel`). The search runs on the heap as in the program: a doubly linked list with
dancing links, an undo stack, a bitset changed in place and a hash table of visited
configurations. `LinSearch` holds the theory of the search on values.

**The key/value service** (`KvServer`, `KvService`, `KvLinearizable`, `KvOnRaft`, `KvChecked`).
`KvService` runs clerks, retries and replicas over one growing committed log. `KvOnRaft` puts the
same clerks and handlers on top of the Raft cluster, with every step of every peer, and shows
that it refines the former, so that linearizability holds end to end. `KvChecked` closes the
circle: the checker never rejects a history of the service.

**MapReduce** (`KeyOrder`, `Mr*.dfy`). Master and workers as a state machine down to single
records appended to intermediate files and single lines of output, against the sequential program.

Results a reader would not expect:

- Election safety depends on scheduling. A goroutine of an old election round that runs in a later
  term asks for a vote of that term (`src/raft/raft.go:503-513`) and then compares the old round's
  count with the majority, even if it was refused (`src/raft/raft.go:560-568`). In every cluster of
  three servers or more this can make a server leader with no vote but its own, beside the leader
  that a majority elected (`RaftLateVote.TwoLeadersInOneTerm`). The theorems on runs therefore speak
  of timely runs: with three servers or more, the round whose count makes a candidate leader is one
  of its current term (`RaftCluster.OnTime`), a test that the code could make before it assumes
  office. Late requests are allowed, and nothing else is assumed about timing. Whatever the
  scheduling, no run has two leaders in one term exactly for clusters of at most two servers
  (`RaftLateVote.ElectionSafetyExactly`). With more, the two leaders can commit different commands
  at one index through the same followers, so that servers apply different commands; agreement on
  what is applied, too, needs no assumption exactly for at most two servers
  (`RaftSplit.AgreementExactly`).
- For an empty history `checkParallel` waits for an answer that never comes. With at least one
  partition, and only then, its loop never needs the timeout to be left
  (`CheckParallel.NeverStuckExactly`), and no interleaving is longer than two steps per partition
  and the timeout (`CheckParallel.LoopEnds`).
- When a call and a return have the same recorded time, the sort of the entries is free to put
  either first, and this can decide the verdict: a linearizable history may be rejected
  (`LinTies.TieDecides`). The verdict Ok is right in any case (`Operations.EntriesSound`), and the
  verdict is exact if calls are put first at such ties, in particular if there are none
  (`Operations.EntriesSameVerdict`).
- A task that is handed out twice can spoil the result. A second worker with a map task appends its
  output a second time (`src/mr/worker.go:109`, `MrReissue.ReissueDuplicates`). A second worker with
  a reduce task opens the output file and empties it (`src/mr/worker.go:160`), even after the job is
  done (`MrReissue.ReissueEmpties`). Equality with the sequential program is proved for runs in which
  the files of each task pass through one hand: a worker's first record goes to a task without
  files, its first read is of a task of which no other worker has read, and it opens no output that
  another worker writes or has written (`MrSystem.OneHand`). Under this condition tasks may be handed
  out again, for instance when a worker dies before it touches a file
  (`MrReissue.ReissueMayBeHarmless`). Runs without reissue and runs with one worker meet it
  (`MrHands.OneHandSuffices`), and without the condition all runs end right exactly when there is no
  second worker (`MrReissue.EndsRightExactly`).

## Model

| member | source | states |
|---|---|---|
| RaftServer.Persister.SaveRaftState | src/raft/persister.go:33-37 | Stable storage holds exactly the last saved state |
| RaftServer.Persister.Copy | src/raft/persister.go:24-31 | A copy is a new object with the same saved state |
| RaftServer.Raft.constructor | src/raft/raft.go:434-475 | A restarted peer has the persisted role, term, vote and log, nothing committed or applied, and progress reset from the length of its log (`RaftBallots.RestartKeepsPersistentState` says so of runs) |
| RaftServer.Raft.Persist | src/raft/raft.go:109-120 | The disk holds role, term, vote and log, and no field changes |
| RaftServer.Raft.GetState | src/raft/raft.go:92-102 | Term and leadership as the fields have them |
| RaftServer.Raft.AppendEntries | src/raft/raft.go:169-251 | The whole new peer state and reply are those of the handler that the safety proofs are about, for every message |
| RaftServer.Raft.ScanBack | src/raft/raft.go:203-208 | The scan finds the index that the rejection reports |
| RaftServer.Raft.MergeEntries | src/raft/raft.go:218-237 | The stale-message branch and the splice together compute the merged log of the proofs |
| RaftServer.Raft.RequestVote | src/raft/raft.go:283-321 | The whole new peer state and reply are those of the vote handler of the proofs |
| RaftServer.Raft.Start | src/raft/raft.go:372-400 | A leader appends one entry of its term and answers its index, any other peer changes nothing and answers -1 |
| RaftServer.Raft.StartElection | src/raft/raft.go:490-495 | A candidate of the next term that voted for itself, on disk too |
| RaftServer.Raft.EndVote | src/raft/raft.go:528-576 | Handling an answer, with a counter for the votes, does what the step of the cluster does with a set of voters |
| RaftServer.Raft.StartBeat | src/raft/raft.go:594-606 | What a heartbeat round captures under the lock |
| RaftServer.Raft.BuildAppend | src/raft/raft.go:616-627 | The request probes at nextIndex and carries the captured suffix of the log |
| RaftServer.Raft.EndAppend | src/raft/raft.go:633-694 | Handling a failed call or an answer, with a counter for the replicas, does what the step of the cluster does with a set of peers; retry, fast backup and commit rule included |
| RaftServer.Raft.Apply | src/raft/raft.go:705-730 | Everything committed and not yet applied is sent in order, each index once, with the command of the log |
| RaftTypes.QuorumsMeet | src/raft/raft.go:564-564 | Two majorities of one cluster share a server |
| RaftCore.LogMatching | src/raft/raft.go:190-238 | Logs made of entries of elected leaders that have the same term at an index agree up to it |
| RaftCore.OneWinner | src/raft/raft.go:560-569 | Votes of a majority in one term elect one candidate only |
| RaftCore.WinnerComplete | src/raft/raft.go:293-313 | A winner's log holds everything that could have been chosen in earlier terms, by the up-to-date test of its voters |
| RaftCore.CastVote | src/raft/raft.go:305-313 | Granting a vote keeps the invariant of the protocol |
| RaftCore.Accept | src/raft/raft.go:210-238 | Taking a log that agrees with the leader's and keeps what is acknowledged keeps the invariant of the protocol |
| RaftCore.Lead | src/raft/raft.go:385-396 | A leader's append keeps the invariant of the protocol |
| RaftCore.Crown | src/raft/raft.go:560-569 | An election keeps the invariant of the protocol, leader completeness among it |
| RaftReplication.FirstOfTermIs | src/raft/raft.go:203-208 | The scan stops right behind the last entry of an earlier term |
| RaftReplication.LastOfTermIs | src/raft/raft.go:673-679 | The leader's scan finds its last entry of the term, or falls back if it has none |
| RaftReplication.MergeMatches | src/raft/raft.go:218-237 | After an accepted message the log agrees with the leader's as far as the message goes, also through the stale-message branch |
| RaftReplication.MergeKeepsCommon | src/raft/raft.go:218-237 | An accepted message, however late, never removes what the log had in common with the leader's |
| RaftReplication.BackupRetreats | src/raft/raft.go:670-680 | Every answer to a rejected probe leads to an index from 1 to PrevLogIndex |
| RaftDecisions.FirstStart | src/raft/raft.go:447-463 | A first start: follower of term 0, no vote, the sentinel alone in the log, probes right behind it |
| RaftDecisions.UpToDateIs | src/raft/raft.go:305-306 | A last entry of a later term is up to date for any log, one of an earlier term for none, and length decides a tie |
| RaftDecisions.AheadIsTotal | src/raft/raft.go:305-306 | Of any two logs one is up to date for the other, the relation is transitive, and only logs of equal last term and length are so both ways |
| RaftDecisions.AheadOfPrefixes | src/raft/raft.go:305-306 | In a run every log is up to date for each of its nonempty prefixes |
| RaftDecisions.VoteDecision | src/raft/raft.go:283-321 | A vote is granted exactly if the term is not behind, the vote is free and the log up to date; what is answered, kept and persisted either way |
| RaftDecisions.SomeoneIsElectable | src/raft/raft.go:283-321 | In every state of a run every group of servers, so every majority, has a member that gets the votes of all others in any term that none has reached |
| RaftDecisions.VoteAnswerDecision | src/raft/raft.go:528-576 | What a candidate does with each kind of answer: refused, obsolete, a later term, counted, elected; and how a new leader starts |
| RaftDecisions.AppendDecision | src/raft/raft.go:169-251 | A message is accepted exactly if its term is not behind and the entry before it matches; the answered term, the role, the disk, and the log after each kind of rejection |
| RaftDecisions.RejectionReports | src/raft/raft.go:190-212 | A rejection in a run reports the length of a short log, or the conflicting term with the first index of that term |
| RaftDecisions.RequestCarries | src/raft/raft.go:616-627 | The request and the log before it make up the log as far as the round captured it |
| RaftDecisions.AppendAnswerDecision | src/raft/raft.go:633-694 | What a leader does with each kind of answer: obsolete, a later term, rejected, counted; which indices move and which do not |
| RaftDecisions.FailureDecision | src/raft/raft.go:633-648 | A failed call is tried again exactly by a goroutine that is not obsolete |
| RaftDecisions.CommitRule | src/raft/raft.go:683-690 | In a run a leader commits the captured log when, and only when, it ends in the leader's term and a majority has answered the round |
| RaftReplication.StepKeepsInv | src/raft/raft.go:169-730 | Every step of every peer, crashes included, keeps the invariant that ties cluster and protocol |
| RaftSafety.ElectionSafety | src/raft/raft.go:485-576 | At most one server is ever leader of a term, over all states of a run and across restarts |
| RaftBallots.OneBallotPerTerm | src/raft/raft.go:283-321 | In every run, timely or not, a server votes for one candidate per term, itself (`src/raft/raft.go:492`) or another, across restarts and although votedFor is never cleared |
| RaftBallots.OneVotePerTerm | src/raft/raft.go:305-313 | In every run all granted answers of one server for one term name the same candidate |
| RaftSafety.LogMatchingHolds | src/raft/raft.go:190-238 | Any two logs at any two times with the same term at an index agree up to it |
| RaftSafety.MessageMatching | src/raft/raft.go:616-627 | A message in flight agrees with every log that has one of its terms at the same index |
| RaftSafety.TermsNeverDecrease | src/raft/raft.go:190-238 | Terms never decrease along a log nor exceed the peer's term, and the first entry is always the sentinel |
| RaftSafety.LeaderCompleteness | src/raft/raft.go:590-697 | What any server has committed is in the log of every leader of a later term at any time, before or after, and in that of the leader of its own term from then on |
| RaftSafety.StateMachineSafety | src/raft/raft.go:705-725 | No two processes, at any times, send different commands for one index, and each sends indices 1, 2, 3 and so on |
| RaftSafety.CommitCovered | src/raft/raft.go:598-627 | LeaderCommit never exceeds PrevLogIndex plus the number of entries of its message |
| RaftSafety.AcceptedCommits | src/raft/raft.go:190-247 | A receiver that answers success holds the entries of the message, agrees with it at PrevLogIndex, and has committed as far as the leader announced or further before: the bound by the log length never cuts it short or lets it go beyond |
| RaftSafety.IndicesInRange | src/raft/raft.go:616-625 | Applied, committed and next indices stay inside the log, so that no index the code reads is out of range |
| RaftSafety.CommitMonotone | src/raft/raft.go:239-246 | Within a process lifetime the commit index never decreases, and committed and applied entries never change |
| RaftBallots.RestartKeepsPersistentState | src/raft/raft.go:109-148 | In every run a crash keeps role, term, vote and log, drops the rest and puts the probes at the end of the log; one between the two persists of AppendEntries keeps vote and log and leaves a follower of the message's term |
| RaftSafety.FastBackup | src/raft/raft.go:650-680 | A rejection in the leader's term moves nextIndex, and nothing else, into 1..PrevLogIndex: to XLen, to the leader's last entry of XTerm, or to XIndex if it has none; and the goroutine probes again |
| RaftProgress.RejectionsBounded | src/raft/raft.go:650-684 | While a leader keeps its term and a peer has not matched, that peer rejects fewer times than nextIndex was at the start |
| RaftSampleRun.CommandIsApplied | src/raft/raft.go:372-725 | The guarantees are not empty: for any command and any number of submissions a timely run elects a leader, replicates and commits them all and applies them on two servers |
| RaftLateVote.LateWinner | src/raft/raft.go:560-568 | For every number of servers from three on, a run in which a refused late request makes a server leader with no vote of the term but its own |
| RaftLateVote.TwoLeadersInOneTerm | src/raft/raft.go:503-568 | For every number of servers from three on, a run with two leaders in one term |
| RaftLateVote.ElectionSafetyExactly | src/raft/raft.go:560-568 | Timely runs have one leader per term; all runs of n servers do exactly when n is at most two |
| RaftSplit.SplitBrain | src/raft/raft.go:218-246 | For every number of servers from three on and any two commands, a run in which both are committed and applied at index 1 |
| RaftSplit.AgreementExactly | src/raft/raft.go:705-725 | Timely runs agree on what is applied at each index; all runs of n servers do exactly when n is at most two |
| RaftGrowingLog.LogGrows | src/raft/raft.go:705-725 | In every run there is one log that only grows and of which every server has applied a prefix |
| RaftGrowingLog.LogWasSubmitted | src/raft/raft.go:372-400 | Every command of that log was passed to Start before it got there |
| Bitset.NewBitset | src/porcupine/bitset.go:10-17 | An empty set with room for the given number of members |
| Bitset.Clone | src/porcupine/bitset.go:19-23 | A new array with the same words, so that later changes to the original do not reach it |
| Bitset.Set | src/porcupine/bitset.go:29-33 | The array holds the same set with one member more |
| Bitset.Clear | src/porcupine/bitset.go:35-39 | The array holds the same set with one member less |
| Bitset.Get | src/porcupine/bitset.go:41-44 | Membership |
| Bitset.Popcnt | src/porcupine/bitset.go:46-52 | The number of members |
| Bitset.Equals | src/porcupine/bitset.go:62-72 | Equality of sets, both directions |
| Bitset.HashIs | src/porcupine/bitset.go:54-60 | The hash without the number of members is the exclusive or of the words |
| Bitset.SameMembersSameWords | src/porcupine/bitset.go:54-72 | Equal sets of one size are equal words, so that they hash equally |
| Bitset.PopCountIsSize | src/porcupine/bitset.go:46-52 | Counting ones word by word counts the members |
| VisitedCache.Cache.Contains | src/porcupine/checker.go:140-147 | True exactly when the set was inserted with an equal state, whatever the hash function does |
| VisitedCache.Cache.Insert | src/porcupine/checker.go:196-197 | The pair and no other is added to what was visited |
| EntryList.Lift | src/porcupine/checker.go:154-162 | The list loses a call and its return, adjacent or last ones included, and both remember their neighbours |
| EntryList.Unlift | src/porcupine/checker.go:164-172 | The list is what it was before the lift |
| HistoryList.InsertBefore | src/porcupine/checker.go:65-76 | The node stands between its new neighbours in a doubly linked list |
| HistoryList.MakeLinkedEntries | src/porcupine/checker.go:116-133 | A doubly linked list of the entries in order, where every call knows its return |
| HistoryList.Length | src/porcupine/checker.go:78-85 | The number of nodes |
| LiveList.List.Lift | src/porcupine/checker.go:198-202 | The list is the history without the operations on the stack, which grows by one |
| LiveList.List.Unlift | src/porcupine/checker.go:230-236 | Undoing the last call restores the list of that moment exactly |
| LiveList.List.Gap | src/porcupine/checker.go:204-207 | Between a node and its successor lies no entry of an operation that is not on the stack |
| LinSearch.ValidIsPartial | src/porcupine/checker.go:213-229 | Orders the search can build are exactly the legal, time-respecting and time-closed ones |
| LinSearch.FullIsLinearization | src/porcupine/checker.go:239-247 | An order of all operations that the search can build is a linearization, and the converse |
| LinSearch.Lift | src/porcupine/checker.go:195-202 | Taking a call with a new configuration keeps the invariant of the search |
| LinSearch.Skip | src/porcupine/checker.go:203-208 | Passing a call that is illegal or leads to a visited configuration keeps the invariant |
| LinSearch.Unlift | src/porcupine/checker.go:230-236 | Backtracking keeps the invariant: the configuration left is fully explored |
| LinSearch.Covered | src/porcupine/checker.go:140-147 | Once all is explored, every order that could be built has a visited configuration with an equal state |
| LinSearch.GivesUp | src/porcupine/checker.go:210-212 | Reaching a return with an empty stack means that there is no linearization, in spite of the pruning |
| LinSearch.LongestAtEnd | src/porcupine/checker.go:213-229 | What is recorded for an operation when the search gives up is a longest partial linearization with it, or there is none |
| LinSearch.FewerLeft | src/porcupine/checker.go:195-202 | Every lift uses up one of finitely many configurations |
| CheckSingle.Search.constructor | src/porcupine/checker.go:175-184 | List, bitset, cache, stack and records start in a state that keeps the invariant |
| CheckSingle.Search.Take | src/porcupine/checker.go:195-202 | Cache, stack, state, bitset and list move together and fewer configurations are left |
| CheckSingle.Search.Record | src/porcupine/checker.go:214-229 | Every operation on the stack gets the current order if it had none or a shorter one |
| CheckSingle.Search.Visit | src/porcupine/checker.go:189-208 | A call at the cursor is taken or passed; either way the search makes progress |
| CheckSingle.Search.Backtrack | src/porcupine/checker.go:210-237 | A return at the cursor undoes the last call and keeps the invariant |
| CheckSingle.Search.Run | src/porcupine/checker.go:185-238 | The loop ends on every well-formed history, never reads a missing node, and says why it ended |
| CheckSingle.Check | src/porcupine/checker.go:174-248 | Unless killed, true exactly when some order of all operations is legal and respects real time; on false, with computePartial, optimal partial linearizations for every operation; true only if the flag was not set at any of the looks before the n operations it took |
| Operations.MakeEntries | src/porcupine/checker.go:43-56 | The call and the return of every operation once, sorted by time |
| Operations.EntriesSameVerdict | src/porcupine/checker.go:43-56 | The sorted entries are linearizable exactly when the recorded operations are, if calls come before returns of the same time, and so always if there are no such ties |
| Operations.EntriesSound | src/porcupine/checker.go:43-56 | However ties are sorted, linearizable entries come from linearizable operations |
| LinTies.TieDecides | src/porcupine/checker.go:39-56 | A linearizable history with a tie that one order of sorting accepts and the other rejects |
| KvModel.EqualityRespected | src/models/kv.go:35-54 | The equality of states is an equivalence that the step function respects |
| Locality.LinearizableByKey | src/porcupine/model.go:28-33 | A history is linearizable against the whole store exactly when it is for each key |
| Partition.IndicesAre | src/models/kv.go:18-34 | A per-key history keeps the order of the history and leaves out nothing with its key |
| Partition.Partition | src/models/kv.go:18-34 | One history for each key that occurs and no other, in the order of the keys |
| Partition.PartitionVerdict | src/models/kv.go:18-54 | The history is linearizable as a whole exactly when each part is against the single-key step |
| CheckParallel.StepKeepsInv | src/porcupine/checker.go:269-305 | Every interleaving of searches, answers and timeout keeps what the verdict needs |
| CheckParallel.VerdictCorrect | src/porcupine/checker.go:269-348 | Illegal only if a part is not linearizable, Ok only if all are, Unknown only on a timeout; without a timeout the verdict is exact; Illegal exactly when a violation was received, also if the time is over |
| CheckParallel.NoPartitions | src/porcupine/checker.go:289-305 | With no part the loop is left by a timeout only |
| CheckParallel.StopsExactly | src/porcupine/checker.go:287-305 | The searches are told to stop exactly when the time is over or a violation is all that is wanted, and the loop is left exactly then or after all answers |
| CheckParallel.NeverStuckExactly | src/porcupine/checker.go:287-305 | In every reachable state inside the loop something other than the timeout can happen, exactly when there is a part |
| CheckParallel.LoopEnds | src/porcupine/checker.go:287-305 | With a part, a run that cannot go on has left the loop, after at most two steps per part and one timeout; all searches have ended, and all answers were waited for if information is wanted |
| CheckParallel.Search | src/porcupine/checker.go:275-281 | The goroutine of a part answers true only for a linearizable part, with whatever ties; without ties it answers exactly, or false after it was killed |
| CheckParallel.SearchPart | src/porcupine/checker.go:275-281 | Whatever a goroutine's looks at the flag found, its answer is one that the interleaving model allows: the right one, or false once the flag is set |
| CheckParallel.OperationsVerdict | src/porcupine/checker.go:360-368 | The verdict on a key/value history is exact for the history as a whole |
| KvServer.DuplicateIsOld | src/kvraft/server.go:205-217 | A command is dropped exactly when its clerk already has one with the same or a larger number in the log |
| KvServer.ExactlyOnce | src/kvraft/server.go:200-247 | The map is the fold of the new commands only, for every sequence of applied commands |
| KvServer.LogIs | src/kvraft/server.go:221-229 | What the server keeps for each index: the command, with the value read if it is a new Get |
| KvServer.Server.ApplyMsg | src/kvraft/server.go:202-245 | One message changes map, log and latest numbers as the proofs assume |
| KvServer.Server.ApplyAll | src/kvraft/server.go:200-247 | The loop over all messages leaves the replica of that sequence |
| KvServer.Server.TryGet | src/kvraft/server.go:78-101 | A poll answers once the index is applied, OK exactly when the command stands there, with the value of that entry or, for a duplicate, of the first one |
| KvServer.Server.TryPutAppend | src/kvraft/server.go:123-135 | A poll answers once the index is applied, OK exactly when the command stands there |
| KvService.AnswerIs | src/kvraft/server.go:78-101 | Any OK answer, from any applied prefix and any position, is the value at the command's first position in the log |
| KvService.AnswerExactly | src/kvraft/server.go:80-98 | A handler whose index is applied answers OK exactly when its command stands there, new or duplicate |
| KvService.StepKeepsInv | src/kvraft/client.go:49-172 | Calls, retries, applications, answers and returns keep the invariant of the service |
| KvLinearizable.ServiceLinearizable | src/kvraft/server.go:64-247 | Over any growing log every history of clerk commands is linearizable, commands under way included |
| KvLinearizable.AnswersAgree | src/kvraft/server.go:78-101 | All OK answers to one Get carry the same value |
| KvOnRaft.ActionImplements | src/kvraft/server.go:64-138 | Every action of clerks, handlers and Raft peers is a step of the service over the growing log |
| KvOnRaft.SystemLinearizable | src/kvraft/server.go:64-247 | In every run of clerks, servers and Raft cluster, with loss, retries and crashes, the history is linearizable |
| KvOnRaft.SystemAnswersExactly | src/kvraft/server.go:78-135 | In a run over Raft a poll answers OK exactly when the command stands at the handler's index, and then leaves a reply |
| KvOnRaft.SystemAnswersAgree | src/kvraft/server.go:78-101 | All OK answers to one Get in such a run carry the same value |
| KvSampleRun.CommandReturns | src/kvraft/client.go:49-172 | The guarantees are not empty: for the first command of any clerk and any number of requests for it there is a run over Raft in which it is committed that often and returns from its last position |
| KvOnRaft.AppliedCommandsAreOps | src/kvraft/server.go:203-203 | The type assertion on an applied command never fails, and the command is one that a clerk called |
| KvChecked.RecordedLinearizable | src/kvraft/client.go:49-172 | Once all commands have returned, the recorded history itself is linearizable, and its times are as the checker needs them |
| KvChecked.CheckerAcceptsService | src/porcupine/checker.go:360-368 | The checker never calls a history of the service over Raft Illegal, and calls it Ok unless it times out |
| KeyOrder.BeforeIs | src/mr/worker.go:191-191 | The order of keys: at the first difference the smaller character, or the end, comes first |
| KeyOrder.Sort | src/mr/worker.go:94-94 | A permutation sorted by key |
| MrMaster.Master.constructor | src/mr/master.go:165-180 | All tasks are to do |
| MrMaster.Master.GetFile | src/mr/master.go:30-59 | The first task to do is handed out, marked and timed, with file name and numbers of tasks as the worker needs them; if there is none the reply says so and nothing changes |
| MrMaster.Master.SetState | src/mr/master.go:61-71 | One task changes its state |
| MrMaster.Master.TaskFinished | src/mr/master.go:73-91 | True exactly when all tasks of the kind are finished |
| MrMaster.Master.Done | src/mr/master.go:123-158 | True exactly when all tasks are finished; tasks under way for over ten seconds are to do again, reduces only after all maps |
| MrGroup.Group | src/mr/worker.go:95-123 | One record for every stretch of equal keys |
| MrGroup.GroupsKeepValues | src/mr/worker.go:95-123 | Grouping neither loses nor adds a value of any key |
| MrGroup.GroupsKeepOrder | src/mr/worker.go:95-123 | Grouping keeps the values of each key in the order of the sorted pairs |
| MrGroup.GroupsIncrease | src/mr/worker.go:94-123 | After sorting every key has one record, in the order of keys, with at least one value |
| MrGroup.MergeFile | src/mr/worker.go:171-182 | The decoding loops add the records of a file to the map |
| MrGroup.MergeKeepsValues | src/mr/worker.go:171-182 | Merging a file neither loses nor adds a value of any key |
| MrGroup.MergeKeepsOrder | src/mr/worker.go:171-182 | Merging appends the values of each key in the order of the file |
| MrGroup.WriteOutput | src/mr/worker.go:186-196 | One line for every merged key, in order |
| MrSystem.StepKeepsInv | src/mr/worker.go:51-216 | Every step of master and workers, reissues included, conserves the values of every key across workers, intermediate files and merged maps as long as the files of each task pass through one hand |
| MrRefines.Sequential | src/main/mrsequential.go:38-92 | One line for each key emitted, in order, with the reduce function applied to all its values |
| MrRefines.ReduceAfterMap | src/mr/worker.go:139-155 | In every run, reissues included, a reduce task starts only after all map tasks are finished |
| MrRefines.MapReduceRefines | src/mr/worker.go:161-196 | When the master is done, the output files hold one line for each line of the sequential program, with the same key and the reduce function applied to all values emitted for it, in the file that its key hashes to, and nothing else |
| MrRefines.SameLines | src/main/mrsequential.go:67-92 | If the reduce function ignores the order of values, the output files hold exactly the lines of the sequential program |
| MrHands.OneHandSuffices | src/mr/master.go:143-156 | The files of each task pass through one hand when nothing is reissued, and always when there is one worker |
| MrReissue.ReissueDuplicates | src/mr/worker.go:109-109 | A run in which a map task is handed out twice ends with a line that the sequential program does not write |
| MrReissue.ReissueEmpties | src/mr/worker.go:158-160 | A run in which a reduce task is handed out twice ends with an empty output, after all lines were there and the master was done |
| MrReissue.ReissueMayBeHarmless | src/mr/worker.go:148-160 | A run with a reissued task in which files pass through one hand, and which ends with the right line |
| MrReissue.EndsRightExactly | src/mr/master.go:143-156 | Runs in which the files of each task pass through one hand end right, in every state after the master is done; all runs with n workers do exactly when n is at most one |

## Left out

- Time: election timeouts, sleeps and the doubling of a timeout by a refused vote; a timeout is a step that may happen at any moment. Liveness is not claimed.
- `src/labrpc` and `src/labgob`: the network is a set of messages, and encoding is the identity on the persisted fields, on requests and on records of intermediate files (JSON replaces bytes that are no valid UTF-8).
- Width of integers: terms, indices, command numbers and counters are unbounded.
- Counters `grantedCnt` and `replCount`: in the cluster they are the sets of peers that were counted; the methods of `RaftServer.Raft` keep the numbers.
- The loop of `checkApply` in Raft: the cluster applies one entry per step, which allows more interleavings than holding the lock for all of them.
- RaftSafety.ElectionSafety: for timely runs, as the other theorems on runs that rest on it; which elections by an old round do no harm is not characterised further, since that depends on the votes that other servers collect in the same term.
- Clerks: distinct ids other than 0, since the zero value at index 0 of the server's log has id 0; the choice of server, `preLeaderId` and the goroutines that share one `done` flag appear as requests that may reach any server at any time and in any number.
- The shared `done` flag of a clerk: the model lets a clerk return any OK answer to its command; all of them agree.
- Handlers: a crash ends them, and one that is never polled again never answers.
- Snapshots and `maxraftstate`: declared in the source but not implemented; `RaftStateSize` and the snapshot methods of the persister are getters and setters only.
- CheckSingle.Check: expects what the source leaves to its callers, namely one call followed by one return for each id, ids 0..n-1, and an `Equal` that is an equivalence respected by `Step`; the flag `kill` is a function of the number of loop rounds.
- `renumber`, `convertEntries` and `checkEvents`: the event form of histories; they only relabel ids before the same search.
- The set of distinct partial linearizations that `checkParallel` collects, and `src/porcupine/visualization.go`: presentation of what `CheckSingle.Check` already guarantees.
- `fillDefault`, `NoPartition`, `ShallowEqual`: defaults without logic.
- MapReduce: `mapf`, `reducef` and `ihash` are arbitrary functions, files are sequences of records, plugins and sockets are not modelled; file names are nonempty and there is at least one reduce task, as the source needs (an empty name means no task to a worker, and hashing divides by the number of reduce tasks).
- MrRefines.MapReduceRefines: for runs in which the files of each task pass through one hand; a second hand does no harm only if what it appends is never read, what it reads was not taken away and what it empties is written again, which is not characterised further.
- Two workers that write one output at the same time: each has its own offset in the file, while the model appends; this is outside the condition of one hand.
- `src/shardkv` and `src/shardmaster`: empty handlers. Test harnesses, `src/mrapps`, `src/util` and daemons for packages that are not present.
