# Verified models of the Raft election, the bank ledger, the migration runner and the HTTP header code

This project models four parts of the repository in Dafny and proves what they promise:

* **Raft leader election** (`internal/raft`, `internal/raft_test`). A node is a pure step function (`RaftNode.Handle`)
  and, beside it, an object with the source's fields and methods that is proved to follow that function. Nodes are put
  together in two ways: an asynchronous network whose schedules are arbitrary sequences of ticks, deliveries, losses and
  copies (`RaftNetwork`), and the lockstep cluster whose `Tick` delivers in rounds (`RaftLockstep`, and the object
  `RaftCluster.TestCluster`). Go's map order and the message sorter are arbitrary choices, and every `panic` is an
  explicit outcome. A ghost history records who voted for whom, whose votes each candidate has counted, and who won.
* **The bank** (`internal/bank`). Tables are maps; an operation is a sequence of stages (checks, key insert, row locks,
  reads, inserts), and the stages of any number of operations interleave under row and key locks (`BankConcurrency`).
  The service and repository are also objects changed statement by statement, with rollback, proved to do what the
  stages do (`BankService`). Amounts are 64-bit integers that wrap around.
* **The migration runner** (`internal/bank_migrations`). Two loops over an ordered list, one transaction per migration,
  with the database failing at any of them (`Migrations`).
* **The HTTP header printer and parser** (`internal/httpserver`). What `Write` prints, read back by the loop of
  `handleConnection` (`HttpHeaders`, over the text operations of `HttpText`).

## Where the code is weaker than it looks

Each of these is kept as the code has it, shown by runs, and bounded by an exact condition.

* `votesReceived > len(peerIDs)/2` is a majority only for odd cluster sizes and for one or two nodes; a vote response is
  counted without comparing its term with the candidate's; and responses are counted, not voters. For which sizes no
  term ever has two leaders depends on the network (`RaftDelivery.DeliveryExactly`, for every size n):

  | | no vote reaches a candidate of a later term | votes may be late |
  |---|---|---|
  | nothing is copied | exactly for n odd or n at most 2 | exactly for n at most 1 |
  | messages may be copied | exactly for n at most 3 | exactly for n at most 1 |

  Exactly in these cases, too, no schedule reaches a panic. Every run of the lockstep cluster, of any size, is free of
  copies and late votes (`RaftLockstep.LockstepIsTimely`), so all its runs have one leader per term, and none panics,
  exactly for n odd or n at most 2 (`RaftSizes.LockstepExactly`); every even cluster from four nodes on has a single call
  of `Tick` with two leaders of one term (`RaftSizes.LockstepSplits`). The asynchronous loop of cmd/raft/main.go promises
  neither condition.
* `votedFor == 0` means "nobody", so a request from a node with id 0 is granted and forgotten. One vote per term holds
  exactly when no request carries that id (`RaftVotes.OneVoteExactly`).
* A transfer from an account to itself creates money (`BankLedger.SelfTransferMints`), because both balances are read
  before either is written; a negative transfer takes what the receiver does not have
  (`BankLedger.NegativeTransferOverdraws`), because only a zero amount is rejected; and sums may leave 64 bits
  (`BankLedger.DepositOverflows`). `BankLedger.BalancedExactly`, `BankLedger.NonNegativeExactly` and
  `BankLedger.TransferConservesExactly` say for which requests the ledger, the sign of balances and the totals are kept,
  in both directions, and `BankRuns.RunExactly` says it of whole concurrent runs.
* Headers are read back as they were printed exactly when names and values contain no line feed, names no colon, both
  are trimmed, and names that differ only in case do not disagree (`HttpHeaders.RoundTripExactly`). A value with a line
  feed is read as two headers (`HttpHeaders.LineFeedSplits`). A carriage return
  inside a value does no harm, although RFC 9112, section 5, does not allow it.

## Layout

| file | content |
|---|---|
| `Values.dfy`, `Sums.dfy` | shared types; finite sets, overlap of majorities, sums over sets |
| `RaftNode.dfy` | one node: pure steps, what every step keeps, the node object |
| `RaftLaws.dfy` | what a node does with each kind of message and with a tick |
| `RaftVotes.dfy` | one vote per term for one node under any input |
| `RaftNetwork.dfy` | asynchronous network, history invariant, election safety |
| `RaftFleet.dfy` | fresh clusters of every size and single steps of theirs |
| `RaftSizes.dfy` | for which sizes the threshold is safe, and the call that splits the others |
| `RaftDelivery.dfy` | for which sizes copied and late messages are safe, and the runs that split the others |
| `RaftTerms.dfy` | how fast terms can grow |
| `RaftLockstep.dfy` | rounds of `Tick`, termination, lockstep runs are timely |
| `RaftConvergence.dfy` | one call elects a lone candidate |
| `RaftStability.dfy` | heartbeats keep a leader in office |
| `RaftTenure.dfy` | a call always exists; the exact bound on timeouts |
| `RaftStale.dfy` | how a leader of an old term learns that it is one |
| `RaftCluster.dfy` | the cluster object, `WaitForLeader`, exact election time |
| `BankTables.dfy` | tables, requests, stages, answers |
| `BankConcurrency.dfy` | interleaving, locks, serializability |
| `BankLedger.dfy` | soundness, ledger sums, signs, conservation, idempotency keys |
| `BankRuns.dfy` | the ledger's promises for every concurrent run |
| `BankAnswers.dfy` | what every answer means: errors, responses, changes |
| `BankService.dfy` | service and repository as objects |
| `Migrations.dfy` | the migration runner |
| `HttpText.dfy`, `HttpHeaders.dfy` | header text, printing, reading, round trip |
| `HttpRequests.dfy`, `HttpPrinted.dfy` | what is read of requests; the lines of what is printed |

## Model

| member | source | states |
|---|---|---|
| `RaftNetwork.ElectionSafety` | internal/raft/node.go:171-232 | in every asynchronous schedule of a cluster of odd size or at most two nodes in which nothing is copied and no granted vote reaches a candidate of a later term, no two nodes ever lead the same term, at whatever moments |
| `RaftNetwork.NeverPanics` | internal/raft/node.go:269-271 | no such schedule reaches any panic; "split brain" is dead because every heartbeat comes from the one winner of its term |
| `RaftNetwork.RunInv` | internal/raft/node.go:215-232 | every such schedule keeps the history invariant: a candidate's count is the number of distinct nodes that voted for it in its term and whose votes reached it, itself included; each vote is under way at most once; leaders were made by majorities |
| `RaftNetwork.OneWinner` | internal/raft/node.go:225-231 | two winners of one term are the same node, because their voters overlap or because only one candidate was ever voted for |
| `RaftNetwork.NewVoter` | internal/raft/node.go:225-227 | a vote that is counted comes from a node not counted before, which voted for the candidate in its current term |
| `RaftNetwork.StepInv` | internal/raft/node.go:109-139 | one event at one node keeps the whole invariant and does not panic |
| `RaftNetwork.RunKeeps` | internal/raft/node.go:371-391 | in every schedule, copies included, nodes keep their configuration and terms never decrease |
| `RaftSizes.SafeExactly` | internal/raft/node.go:227 | clusters of n nodes are safe in all timely schedules if and only if n is odd or at most two |
| `RaftSizes.EvenSplits` | internal/raft/node.go:227 | for every even size from four on, a timely schedule without copies that makes two leaders of one term and then panics |
| `RaftSizes.LockstepExactly` | internal/raft_test/cluster.go:110-148 | all lockstep runs of all fresh clusters of n nodes have one leader per term if and only if n is odd or at most two, and exactly then none of them panics |
| `RaftSizes.LockstepSplits` | internal/raft_test/cluster.go:110-148 | for every even size from four on, one call of `Tick` in which two nodes stand, half of the others hear one first and half the other, both lead term 1 after the second round, and one panics when it hears the other |
| `RaftDelivery.DeliveryExactly` | internal/raft/node.go:215-232 | for every size n and each choice of allowing copies and late votes, no schedule of a fresh cluster of n nodes has two leaders in a term if and only if n is odd or at most 2 (neither), at most 3 (copies only), at most 1 (late votes, with or without copies); and exactly then no schedule panics |
| `RaftDelivery.CopySafety` | internal/raft/node.go:225-231 | up to three nodes, messages may be copied at will: without late votes there is one leader per term and no panic, because one vote of another node in the current term is a majority already |
| `RaftDelivery.LateVoteSplits` | internal/raft/node.go:220-231 | for every size from two on, a schedule without copies in which two nodes grant each other votes in alternate terms, all delayed, then both stand in one term and both lead it, and one panics |
| `RaftDelivery.RepeatedVoteSplits` | internal/raft/node.go:226 | for every size from four on, a schedule without late votes in which two candidates with one voter each both lead one term by copies of its vote, and one panics |
| `RaftVotes.OneVote` | internal/raft/node.go:176-212 | whatever a node receives, as long as no request carries the id 0, all votes it gives in a term, its own candidacy included, are for one node |
| `RaftVotes.ZeroVotesTwice` | internal/raft/node.go:192-204 | a request from id 0 is granted without being remembered, so a second one is granted in the same term |
| `RaftVotes.OneVoteExactly` | internal/raft/node.go:192 | one vote per term holds for all inputs if and only if no request may carry the id 0 |
| `RaftVotes.VotesForItself` | internal/raft/node.go:371-391 | under any input, candidates and leaders have voted for themselves and terms never decrease |
| `RaftTerms.TermGrowth` | internal/raft/node.go:313-323 | under any network, copies included, a node whose clock stands at T with timeout E has started at most T / E elections, and no term of a node or message exceeds the sum of these numbers over all nodes |
| `RaftLockstep.LockstepIsTimely` | internal/raft_test/cluster.go:94-148 | every run of `Tick` calls of a fresh cluster of any size, with any ticks, losses and orders, is a timely schedule: nothing is copied and no vote reaches a candidate of a later term |
| `RaftLockstep.LockstepSafety` | internal/raft_test/cluster.go:110-148 | so for odd sizes and at most two nodes it has one leader per term and never panics |
| `RaftLockstep.CallTimely` | internal/raft_test/cluster.go:110-148 | one call keeps the invariant and does not panic, in a quorate cluster, and in any cluster while there is one candidate only |
| `RaftLockstep.RankDrops` | internal/raft/node.go:171-300 | handling a message sends only messages of lower rank (vote request, vote response, heartbeat, heartbeat response) |
| `RaftLockstep.FourRounds` | internal/raft_test/cluster.go:117-147 | from any state, a call has at most four rounds of deliveries |
| `RaftLockstep.TickPhase` | internal/raft_test/cluster.go:113-115 | the order in which nodes tick does not matter: each moves as it would alone, and what is in flight is what they sent |
| `RaftConvergence.OneTickConvergence` | internal/raft_test/cluster.go:110-148 | after any lockstep run of a quorate cluster, if one node stands alone in a term above all others and nothing is lost, the call ends for every order with that node leading and every other node following in its term, having voted for it and heard it at this tick |
| `RaftConvergence.CallConverges` | internal/raft/node.go:171-360 | the same from any state of the invariant, for every cluster size as long as nobody else was ever voted for |
| `RaftStability.LeaderStability` | internal/raft/node.go:302-315 | with ticks at most d apart, timeouts of at least the heartbeat interval plus d and no loss between enabled nodes, leader and term never change, however long the run, whichever fixed followers are disabled, for every cluster size |
| `RaftTenure.StabilityExactly` | internal/raft/node.go:302-315 | for a heartbeat interval of at least 1 and d of at least 1, when the leader has just sent a heartbeat: every run of calls 1 to d apart without loss between enabled nodes ends with the same leader in the same term if and only if every enabled follower's timeout is at least the interval plus d; and the same if and only if holds for leader, term and followers together |
| `RaftTenure.Deposes` | internal/raft/node.go:313-323 | below that bound, a run within these limits reaches the moment the earliest timer runs out and does not end with that leader in that term |
| `RaftTenure.TimerRunsOut` | internal/raft/node.go:188-190 | a call at which an enabled follower's timer has run out takes the leader into a later term, unless it panics |
| `RaftTenure.SomeCall` | internal/raft_test/cluster.go:110-148 | from every quiescent state, whatever is disabled, a call of `Tick` runs to its end |
| `RaftStale.StaleLeaderLeaves` | internal/raft/node.go:239-261 | from any quiescent state, a leader of term t whose heartbeat is due leaves t for a later term in the same call, unless it panics, if nothing is lost between it and some node of a later term, whatever else is lost and in whatever order |
| `RaftStale.HeartbeatRefused` | internal/raft/node.go:249-259 | a heartbeat of term t that reaches a node of a later term brings a refusal in that later term under way to the sender |
| `RaftStability.ConvergedIsStable` | internal/raft/node.go:344-360 | the end of a converging call is a state from which stability starts, if the enabled followers have timeouts of at least the interval plus d |
| `RaftStability.ElectedStays` | internal/raft_test/cluster.go:110-148 | a leader elected in one call after any run of a quorate cluster stays leader of the same term for as long as calls are steady, if the followers left enabled have timeouts of at least the interval plus d |
| `RaftCluster.ExactElectionTime` | internal/raft_test/cluster.go:170-189 | in a fresh cluster of any size with one shortest timeout and no losses, waiting returns its owner at the tick equal to that timeout, elected by everybody, if the limit is above it (or the timeout is 0), and panics otherwise |
| `RaftCluster.TickIsSafe` | internal/raft_test/cluster.go:110-148 | after any lockstep run of a quorate cluster, a call of `Tick` under any disabled nodes and filter does not panic, prolongs the run, and the whole run has one leader per term |
| `RaftCluster.QuietCall` | internal/raft_test/cluster.go:113-119 | if nobody leads and no timer has run out, a call changes nothing |
| `RaftCluster.TickLoses` | internal/raft_test/cluster.go:122-144 | in a call, a message is lost exactly if one of its ends is disabled or the filter says so, and is delivered at the call's tick otherwise |
| `RaftCluster.NewTestCluster` | internal/raft_test/cluster.go:62-92 | panics unless there is one timeout per node; otherwise nodes 1 to n, each fresh with its own timeout and exactly the other ids as peers, nothing disabled, no filter, nothing in flight |
| `RaftCluster.TestCluster.CollectOutboxMessages` | internal/raft_test/cluster.go:94-108 | all outboxes are emptied and their messages returned, each as often as it was there; node states stay |
| `RaftCluster.TestCluster.DeliverAll` | internal/raft_test/cluster.go:120-145 | one round does to the cluster what the decided actions do to the network, message by message, a panic included |
| `RaftCluster.TestCluster.Tick` | internal/raft_test/cluster.go:110-148 | a call is a lockstep call with this cluster's losses, of at most four rounds, and leaves no message behind |
| `RaftCluster.TestCluster.GetLeader` | internal/raft_test/cluster.go:160-168 | the id of some leader, or 0 exactly if there is none; nothing changes |
| `RaftCluster.TestCluster.WaitForLeader` | internal/raft_test/cluster.go:170-189 | ticks 0, 1, 2, ... without a leader, then a call that leaves the returned leader or panics, or the panic at the limit |
| `RaftNode.StepDiscipline` | internal/raft/node.go:171-391 | for every state and event: identity kept, terms never decrease, a vote is never changed within its term, candidates and leaders vote for themselves, and every message sent is justified by the step and sent once |
| `RaftNode.StepCounting` | internal/raft/node.go:225-231 | how the count moves, and that a node takes the lead exactly when it stands without peers or counts a vote that passes the threshold |
| `RaftNode.PanicsExactly` | internal/raft/node.go:122-139 | a node panics exactly on an event that is no message, on an unknown type, and on a heartbeat of its own term while leading; the transition and role panics are dead |
| `RaftNode.TickSends` | internal/raft/node.go:302-341 | what a tick sends: requests in the next term if the timer ran out, heartbeats if it leads and the interval has passed |
| `RaftNode.ToAllOnce` | internal/raft/node.go:332-340 | a broadcast sends each peer exactly one message |
| `RaftLaws.LaterTermWins` | internal/raft/node.go:188-264 | any message of a later term, but a heartbeat answer to a follower, makes the node a follower of that term without a count; its vote is gone or the one just asked for, and only a heartbeat resets its timer |
| `RaftLaws.LaterResponseDeposes` | internal/raft/node.go:220-241 | a response of a later term makes a candidate or leader a follower of that term without vote or count; its times stay and nothing is sent |
| `RaftLaws.EarlierTermIsRefused` | internal/raft/node.go:176-185 | a request of an earlier term changes nothing and gets one refusal in the node's own term |
| `RaftLaws.VoteIsAnswered` | internal/raft/node.go:171-213 | a vote request gets exactly one answer, in the node's new term; it is granted, and remembered, exactly if the term is later, or the same with no vote or one for the sender; otherwise nothing changes |
| `RaftLaws.HeartbeatIsAnswered` | internal/raft/node.go:244-300 | a heartbeat panics exactly at a leader of its own term; otherwise it gets exactly one answer, positive exactly if its term is not an earlier one, and then the node follows with its timer reset, keeping its vote in the same term |
| `RaftLaws.ResponseIsIgnored` | internal/raft/node.go:215-242 | any other response changes nothing and sends nothing |
| `RaftLaws.VoteIsCounted` | internal/raft/node.go:225-231 | a counted vote adds one; exactly at the threshold the candidate leads its term and sends each peer, in order, one heartbeat |
| `RaftLaws.TickDoes` | internal/raft/node.go:302-342 | when a tick sends heartbeats, when it starts an election, what it sends to each peer in order, and that otherwise nothing changes |
| `RaftNode.Node.constructor` | internal/raft/node.go:68-79 | a follower of term 0 with no vote and an empty outbox |
| `RaftNode.Node.Step` | internal/raft/node.go:109-139 | the object's fields and outbox move as the step function says, or it panics for the same reason |
| `RaftNode.Node.StepRequestVoteRequest` | internal/raft/node.go:171-213 | refuses older terms and second candidates, otherwise grants and remembers, as the step function of which the one-vote rule is proved |
| `RaftNode.Node.StepRequestVoteResponse` | internal/raft/node.go:215-232 | steps down on a later term, counts a granted vote, leads and sends heartbeats at the threshold, as the step function |
| `RaftNode.Node.StepAppendEntriesResponse` | internal/raft/node.go:234-242 | steps down on a later term unless following, as the step function of which `LaterResponseDeposes` and `StaleLeaderLeaves` are proved |
| `RaftNode.Node.StepAppendEntriesRequest` | internal/raft/node.go:244-300 | refuses older terms, follows, resets the timer and answers, or panics on split brain, as the step function |
| `RaftNode.Node.StepTick` | internal/raft/node.go:302-342 | heartbeats when due, an election when the timer ran out, at once the lead without peers, as the step function |
| `RaftNode.Node.SendHeartbeats` | internal/raft/node.go:344-360 | one heartbeat per peer and the sending time set, or a panic unless leading |
| `RaftNode.Node.ToLeader` | internal/raft/node.go:362-369 | role and term set, or a panic from follower |
| `RaftNode.Node.ToCandidate` | internal/raft/node.go:371-381 | a vote for itself and a count of one in the new term, or a panic from leader |
| `RaftNode.Node.ToFollower` | internal/raft/node.go:383-391 | the vote is forgotten only if the term changes; the count is cleared |
| `BankConcurrency.Serializable` | internal/bank/service.go:364-454 | in every interleaving of any requests, with aborts anywhere, tables and all answers, errors included, are those of the answered requests run one after the other in the order of their answers |
| `BankConcurrency.StageStable` | internal/bank/repo.go:147-164 | a stage gives the same result against any tables that agree on what its locks protect |
| `BankConcurrency.RunStable` | internal/bank/repo.go:135-164 | all stages passed so far would be passed again, with the same values read, after any commit that respects the locks held |
| `BankConcurrency.CommitProtects` | internal/bank/repo.go:166-180 | a commit changes only what its own locks protect |
| `BankRuns.EveryRunIsSound` | internal/bank/service.go:378-399 | in every concurrent run from empty tables: references are sound, no answer is "cannot find balance", and no two successful requests of any kind share an idempotency key |
| `BankRuns.RunExactly` | internal/bank/service.go:186-454 | in every concurrent run from empty tables, every committed state is sound with each balance the sum of its rows and none negative, if and only if each accepted request fits the tables it is serialized after |
| `BankRuns.RunConserves` | internal/bank/service.go:210-217 | in every such run each currency holds exactly its deposits minus its withdrawals |
| `BankRuns.EveryPlainRunIsGood` | internal/bank/service.go:186-237 | it suffices that the requests that succeed are positive transfers between different accounts and deposits that together fit into 64 bits; nothing is asked of refused ones |
| `BankRuns.KeysInUse` | internal/bank/service.go:121-142 | after every run the keys in use are exactly those of the successful requests; refused and aborted ones leave theirs unused |
| `BankRuns.RunWithoutRetries` | internal/bank/service.go:187-198 | a run leaves the tables of its answered requests run in order without any that failed, such as retries |
| `BankRuns.CurrencyCheckLasts` | internal/bank/service.go:335-357 | the currency check made before the transaction is still true at every later stage of the transfer, whatever has committed since |
| `BankRuns.SerialAnswer` | internal/bank/service.go:364-454 | every logged answer is the one the serial run gives at its place |
| `BankRuns.SerialIsARun` | internal/bank/service.go:46-467 | every sequence of requests is the log of some run, so the locks rule out nothing that can be done one by one |
| `BankAnswers.EveryAnswerIsExplained` | internal/bank/service.go:239-247 | in every concurrent run from empty tables, each answer is true of the committed tables at the moments just before and after it: an error is called for by the tables and changes nothing; a success reports the old and new values and the tables differ exactly by what it did |
| `BankAnswers.ErrorsExactly` | internal/bank/service.go:329-399 | for every kind of request and every error, the error is answered if and only if the tables and the request call for it, in the order of the code's checks |
| `BankAnswers.AnswersAreTruthful` | internal/bank/service.go:460-465 | a success reports what the tables say: the balance before and after of the account paid, of both accounts of a transfer, or the id of an account that is new and has the requested name and currency |
| `BankAnswers.TransferAnswers` | internal/bank/service.go:402-409 | between different accounts, the four amounts of the response are the sender's and the receiver's balances before and after |
| `BankAnswers.SuccessChanges` | internal/bank/service.go:402-447 | exactly what each successful request changes in each table: one key, the balances moved, the rows added with kind, amount and parent, and nothing else |
| `BankLedger.SoundAfter` | internal/bank/service.go:104-141 | every request keeps references sound: one balance per account, an existing non-empty currency, rows of existing accounts, and transfer rows in pairs: each credit row has its own debit row of the opposite amount in the same currency, and each debit row exactly one credit row |
| `BankLedger.LookupsAreExact` | internal/bank/service.go:341-399 | the empty currency means exactly "no such account", and neither "cannot find balance" branch of a transfer is reachable |
| `BankLedger.BalancedExactly` | internal/bank/service.go:402-447 | an accepted request keeps every balance equal to the sum of its rows if and only if nothing overflows and a transfer has two different accounts |
| `BankLedger.NonNegativeExactly` | internal/bank/service.go:284-290 | an accepted request keeps all balances non-negative if and only if the new balances stay between zero and the largest 64-bit integer |
| `BankLedger.TransferConservesExactly` | internal/bank/service.go:402-421 | a transfer between non-negative balances keeps its currency's total if and only if it overflows nowhere and has two different accounts |
| `BankLedger.GoodExactly` | internal/bank/service.go:186-454 | from tables that keep all promises, a request leads to such tables if and only if it is refused or fits |
| `BankLedger.HistoryExactly` | internal/bank/service.go:186-454 | a history keeps all promises at every moment if and only if each accepted request fits when its turn comes |
| `BankLedger.GoodHistory` | internal/bank/service.go:210-217 | over every history of requests that fit, totals are deposits minus withdrawals |
| `BankLedger.PlainHistory` | internal/bank/service.go:186-454 | from empty tables, if the requests that succeed are positive transfers between different accounts and deposits that together fit into 64 bits, every single request fits when its turn comes |
| `BankLedger.KeyWorksOnce` | internal/bank/service.go:187-198 | after a key was used successfully, no later request of any kind succeeds with it, and such a request changes nothing |
| `BankLedger.FailuresLeaveNoTrace` | internal/bank/service.go:365-376 | the requests that succeed, run without the others, all succeed and give the same tables |
| `BankLedger.RetriesLeaveNoTrace` | internal/bank/service.go:261-272 | removing any failed requests, such as retries of a used key, gives the same tables |
| `BankLedger.KeysExactly` | internal/bank/repo.go:135-145 | after every history from empty tables the keys in use are exactly those of the requests that succeeded |
| `BankLedger.SelfTransferMints` | internal/bank/service.go:378-417 | after a deposit of 100, a transfer of 10 to the same account leaves 110 |
| `BankLedger.NegativeTransferOverdraws` | internal/bank/service.go:331-333 | after a deposit of 100, a transfer of -5 to an empty account leaves -5 there |
| `BankLedger.DepositOverflows` | internal/bank/service.go:212 | a deposit of 1 on top of the largest 64-bit balance leaves the smallest |
| `BankTables.SucceedsExactly` | internal/bank/service.go:176-454 | the stages get through exactly under a condition said without stages, and have then read the balances as they are |
| `BankTables.FailureLasts` | internal/bank/service.go:186-237 | the first failing stage decides the answer |
| `BankService.Service.CreateCurrency` | internal/bank/service.go:46-77 | answers and changes the tables as the request run alone does, of which `ErrorsExactly`, `AnswersAreTruthful` and `SuccessChanges` are proved |
| `BankService.Service.CreateAccount` | internal/bank/service.go:98-151 | the same, with the key, the account and its zero balance undone on failure |
| `BankService.Service.Deposit` | internal/bank/service.go:176-248 | the same, with key, balance and row undone on failure |
| `BankService.Service.Withdraw` | internal/bank/service.go:250-327 | the same; the balance after the withdrawal is checked, not the one before |
| `BankService.Service.Transfer` | internal/bank/service.go:329-467 | the same; both balances are read before either is written |
| `Migrations.AlwaysPrefix` | internal/bank_migrations/runner.go:56-173 | for every ordered list and every sequence of `Up` and `Down` calls with failures anywhere, the applied versions are a prefix of the list with the matching schema, and no reference dangles |
| `Migrations.CallMoves` | internal/bank_migrations/runner.go:71-172 | a call takes a prefix to the prefix where its target or the first fault stops it, and fails exactly in the second case; in particular it never tries to create a table too early or to drop one still referenced |
| `Migrations.UpAddsMissing` | internal/bank_migrations/runner.go:71-114 | a successful `Up` adds exactly the missing versions up to its target |
| `Migrations.DownLeavesBelow` | internal/bank_migrations/runner.go:132-172 | a successful `Down` leaves exactly the applied versions below its target |
| `Migrations.DownUndoesUp` | internal/bank_migrations/runner.go:132-172 | `Down` to a target just above the first k migrations undoes every `Up` made from there, finished or not |
| `Migrations.CallOnAnything` | internal/bank_migrations/runner.go:71-172 | on any database, prefix or not: `Up` overwrites no table, leaves no new dangling reference and records versions only within its limits and together with their tables; `Down` drops no table still referenced and removes only versions within its limits |
| `Migrations.BankMigrationsAreOrdered` | internal/bank_migrations/migrations.go:102-108 | the shipped list is one these results apply to |
| `Migrations.Runner.GetMaxAppliedVersion` | internal/bank_migrations/runner.go:26-38 | the largest applied version, or 0 |
| `Migrations.Runner.CreateTx` | internal/bank_migrations/runner.go:86-107 | table and version together or neither |
| `Migrations.Runner.DropTx` | internal/bank_migrations/runner.go:149-165 | table and version removed together or neither |
| `Migrations.Runner.Up` | internal/bank_migrations/runner.go:71-114 | on any database, prefix or not, table by table what the call described in the results above does, and success or failure with it |
| `Migrations.Runner.Down` | internal/bank_migrations/runner.go:132-172 | on any database, prefix or not, table by table what the call described in the results above does, and success or failure with it |
| `HttpHeaders.RoundTripExactly` | internal/httpserver/server.go:33-163 | for every status, header order, body and whatever follows, reading what `Write` prints gives the normalised headers, the one right Content-Length and the body, and stops at its end, if and only if names and values are clean and names differing only in case agree |
| `HttpHeaders.ReadingIsClean` | internal/httpserver/server.go:109-163 | whatever is sent, names that were read contain no colon, and names and values are trimmed and contain no line feed |
| `HttpHeaders.LineFeedSplits` | internal/httpserver/server.go:61-62 | a value with a line feed between two clean texts is read as two headers, whatever the texts |
| `HttpHeaders.ReadsPrinted` | internal/httpserver/server.go:109-163 | what is read of clean headers, one by one, also when names collide: the later line wins |
| `HttpRequests.RequestWithoutBody` | internal/httpserver/server.go:109-163 | for every verb and path without space or line feed, every rest of the line, any clean header lines without Content-Length and whatever follows: the handler gets that verb, that path, each normalised name with the value of its last line, no body, and all that follows is left unread |
| `HttpRequests.RequestWithBody` | internal/httpserver/server.go:116-142 | with a Content-Length, in any case, the body is exactly that many bytes and the rest is left; a negative one panics, a larger one than there are bytes is fatal, and one that is no number counts as 0 |
| `HttpRequests.BodyArrives` | internal/httpserver/server.go:124-139 | a body announced by its length is handed over as it is |
| `HttpRequests.OneWordPanics` | internal/httpserver/server.go:146-149 | a first line without a space panics unless it is blank |
| `HttpRequests.ColonlessIsSkipped` | internal/httpserver/server.go:151-156 | a later line without a colon makes no difference unless it is blank |
| `HttpRequests.UnfinishedIsFatal` | internal/httpserver/server.go:110-114 | a head without a line feed is fatal |
| `HttpPrinted.PrintsWell` | internal/httpserver/server.go:48-85 | for clean headers in any order, the text is a status line, one line for each header that is no Content-Length, one Content-Length line, a blank line and the body: so many lines in all, exactly one named Content-Length and holding the length, and for every other name as many lines as headers of that name |
| `HttpHeaders.OrderDoesNotMatter` | internal/httpserver/server.go:53-63 | for clean headers whose names, where they differ only in case, agree, what is read does not depend on the order of the map |
| `HttpHeaders.NormIsIdempotent` | internal/httpserver/server.go:33-42 | normalising twice is normalising once |
| `HttpHeaders.NormLooks` | internal/httpserver/server.go:39 | a normalised name has no small letter at the start or after a hyphen and no capital one elsewhere, and differs from the name only in case |
| `HttpHeaders.NormAlike` | internal/httpserver/server.go:33-42 | two names normalise alike exactly when they are equal ignoring case |
| `HttpHeaders.NormalizeHeaderName` | internal/httpserver/server.go:33-42 | splitting, capitalising and joining gives an upper-case letter at the start and after each hyphen, and lower case elsewhere |
| `HttpHeaders.ResponseWriter.Write` | internal/httpserver/server.go:48-85 | appends the text of which `PrintsWell` and the round trip are proved, for some order that visits every header once |
| `HttpHeaders.HandleConnection` | internal/httpserver/server.go:95-166 | the loop reads the request that `ReadRequest` gives, of which the results on requests and round trips are proved, or ends in a fatal log entry or a panic where that does |
| `HttpText.AtoiOfItoa` | internal/httpserver/server.go:66 | a printed 64-bit number is read back |
| `HttpText.DecimalDigits` | internal/httpserver/server.go:66 | numbers are printed in decimal |
| `HttpText.AtoiRejects` | internal/httpserver/server.go:119-123 | a text with anything but digits after an optional sign is no number |
| `HttpText.AtoiSigned` | internal/httpserver/server.go:119-123 | a sign is accepted, and a number beyond 64 bits is none |
| `HttpText.TrimsExactly` | internal/httpserver/server.go:158-159 | trimming takes off the white space around a trimmed text and nothing else |

## Left out

- The HTTP transport, JSON, environment and goroutines of cmd/raft: input and output; the asynchronous network stands for whatever they deliver.
- Logging and the state comparison in `Step`: no effect on a node.
- A role outside the three named ones, and message types other than as "unknown": roles are a closed type.
- The width of terms, counts and ticks: they are unbounded integers; `RaftTerms.TermGrowth` bounds the terms.
- Drop filters with a memory of their own: `RaftCluster.TestCluster` takes a function of message and tick; the lockstep results hold for arbitrary losses.
- `DisableNode`, `EnableNode`, `ClearOutbox` and the one-statement operations of the repository are in the model, but too plain for the table; `GetRole`, `GetRoleNodeCount`, `GetTerm`, `NodeCount`, the setters, `GetCurrencies`, `GetAccountInfo` and the other plain getters are not modelled.
- RaftConvergence.OneTickConvergence: odd sizes and at most two nodes after arbitrary runs, because runs of larger even clusters may already have split (`RaftSizes.LockstepSplits`); `RaftConvergence.CallConverges` covers every size with a single candidate.
- The database itself: assumed are locks held to the end of a transaction, reads of the last committed row, unique keys, and that an abort undoes everything; a deadlock is an abort.
- Timestamps of accounts, balances, rows and keys, and the 32-bit width of `decimals`.
- Ids: parameters of the requests; a repeated id is a unique violation, as in the database.
- api.go, dto.go, config.go and the providers of the bank; dbchangelog, jobqueue, nodetalk and the other commands: plumbing.
- Columns and indexes of the migrations: a migration is the table it creates and the tables it references; `applied_at` and `description` are not kept.
- Sockets, short reads, write errors and allocation failure in the HTTP server: a read gives all bytes asked for or fails.
- Header names and white space outside ASCII: a char stands for one byte, letter case and trimming are those of ASCII.
