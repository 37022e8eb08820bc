# Verified models of the distributed-systems labs

Dafny models of the parts of the repository that have working logic behind them, and proofs of what
they promise over whole runs: the versioned key/value service with its retrying clerk, the lock and the
client programs built on it, the shard rebalancer, the MapReduce coordinator and its bucketing, Raft vote
granting, and partitioning of the test network.

## How it is laid out

- **Key/value service.** `KvServer` is the compare-and-swap server as a class. `Clerk` holds the clerk's
  retry loops as methods. `KvSystem` puts any number of clerks, the server and the lossy network into one
  step system: a request may be dropped, run with its reply lost, run and be answered, or be given up while
  its handler is still going to run (a *stray* handler, served at any later time). Every theorem about runs
  quantifies over all sequences of such steps. `ClerkRuns` shows that whatever the loops do is such a run.
  `PutTruth` and `PutCounts` prove what the answers mean and how versions count Puts, `Linearizability` that
  runs are linearizable, `LateWrites` and `BrokenOrders` exactly which Puts can be written after they
  returned and break the order, `KvModel` and `ModelGuard` how the sequential per-key model relates to the
  whole store and exactly which Puts it can reject.
- **Clients.** `Lock`, `LockSafety` and `LockOrphan` (the lock from Get and Put alone), `AppendLog` and
  `AppendCheck` (the optimistic append log), `OnePut` (clients racing to put one key). Each is a per-client
  program over `KvSystem`; `LockLoops` and `ClientLoops` give the same programs as the source writes them,
  loops over clerk calls, prove that the loops make the same calls and reach the same points, and say which
  calls those are in terms of the answers alone. `AppendBooks` ties the counts to the answers over runs.
- **Shards.** `ShardLoads`, `Rebalance`, `RebalanceOptimality`, `RebalanceChoices`, `ShardConfig`,
  `ConfigRuns`.
- **MapReduce.** `Coordinator`, `CoordinatorRuns`, `CoordinatorAnswers`, `CoordinatorBuckets`, `Bucketing`,
  `Ordering`.
- **Raft.** `RaftPeer` (the handlers of one peer), `RaftVotes` (any number of peers over any network),
  `RaftGrants` (whom votes can be granted to), `RaftLeaders` (why the votes, not the role, carry the safety theorem).
- **Test network.** `NetPartition`.

`dafny verify dfyconfig.toml` checks everything.

## Modelling decisions

- A Put is *ahead* when it asks for a version that its key has not reached when it is invoked. A call is
  *careful* when it is not ahead or none of its attempts was given up with its handler still to run. Runs
  without strays are careful, and so is every Put that lock, append and racing clients send to their key
  (proved). The guard is exact and can be checked before the call, for two properties: a Put can be written
  after it returned if and only if it is ahead (`LateWriteIffAhead`), and it can end in a run that no
  sequential order explains if and only if it is ahead (`OrderBreaksIffAhead`). The smallest such run is
  `StaleOverwriteRuns`: a Put at version 1 of a missing key answers ErrNoKey and overwrites the key later.
- The sequential model of src/models1/kv.go:62 has no answer ErrNoKey for a Put, although the server gives
  it (src/kvsrv1/server.go:97). The proofs follow the code. A Put can make the model reject a careful run if
  and only if it asks for a positive version of a key that is not stored (`RejectedIffMissing`, the guard at
  src/kvsrv1/server.go:92-98); a first Put at version 1 is the smallest example (`FirstPutAtOneRejected`),
  and runs without Puts ahead of their keys are always accepted (`NotAheadRunsPassTheCheck`).
  `RunsAreLinearizable` covers all careful runs against a stricter store that answers as the server does, or
  ErrMaybe to a Put: it fixes Get's version and error too, which the model does not look at.
- The comment at src/kvsrv1/client.go:44-53 says a first-RPC ErrVersion means the Put was not performed; the
  proof covers ErrNoKey as well, on any attempt, and shows that ErrMaybe means at most once.
- A reduce hand-out carries a running counter, not a number of its own task (src/mr/coordinator.go:111-116).
  `BucketIffNoTimeout` proves exactly when the two agree: if and only if no request so far found a reduce
  task overdue (the test at src/mr/coordinator.go:137). `SlowRunWrongBucket` is a run with a wrong bucket.
- When the reply to the Put that creates the lock is lost, Acquire starts over with another token
  (src/kvsrv1/lock/lock.go:37-40) and the lock is taken for good. `NeverHeldIffOrphaned` says exactly when:
  in every reachable state some client can still come to hold the lock, unless its token belongs to no
  client or only to such a creating Put.
- The role Leader is not unique in a term, because promotion counts every reply of the same term
  (src/raft1/raft.go:236-239). `LeadersClashIffTwoPeers` proves that every cluster of two or more peers has a
  run with two leaders of one term, so vote safety is stated over votes.
- The nil checks on end names in `disconnect` (src/tester1/srv.go:66-68) never apply: every server is made
  with end names and shutting down keeps them, so the model has no such case.
- The rebalancer is proved for any number of shards up to 256, which is what the sentinel 257
  (src/shardkv1/shardcfg/shardcfg.go:88) supports, not just for NShards.
- A `log.Fatal`, a failed test assertion and an index out of range are outcomes (`Fatal`, `false`, `Failed`)
  rather than preconditions.
- Replies of a fixed script (`ScriptedClerk`) may end at any point, so the retry loops of the clients, which
  need not terminate, are methods that terminate for every script and stop in the middle when it ends.

## Model

| member | source | states |
|---|---|---|
| KvServer.KVServer.constructor | src/kvsrv1/server.go:58-64 | A new server stores nothing. |
| KvServer.KVServer.AddRecord | src/kvsrv1/server.go:26-33 | Creates the entry one version above the one asked for and touches no other key. |
| KvServer.KVServer.UpdateRecord | src/kvsrv1/server.go:35-51 | Raises the stored version by one for a present key; stops, changing nothing, for a missing one. |
| KvServer.KVServer.HandleGet | src/kvsrv1/server.go:66-80 | Answers the stored value and version, or ErrNoKey, and changes nothing. |
| KvServer.KVServer.HandlePut | src/kvsrv1/server.go:82-107 | Compare-and-swap: stores exactly on a version match, with the error of each case, and keeps stored versions at 1 or more. |
| Clerk.Clerk.Put | src/kvsrv1/client.go:61-82 | Against any fates of its attempts, strays included, and any requests of others in between: the store it leaves, and the last attempt's error with ErrVersion on a resend turned into ErrMaybe. |
| Clerk.Clerk.Get | src/kvsrv1/client.go:30-42 | Retries until a reply arrives, returns what the last attempt read, and leaves the store to the others. |
| Clerk.Clerk.Meanwhile | src/labrpc/labrpc.go:254-282 | Other clients' requests and handlers left running take the store through their successive effects. |
| Clerk.Clerk.Serve | src/kvsrv1/server.go:66-107 | One handler run answers and changes the store as the request asks. |
| Clerk.WrittenThenAhead | src/kvsrv1/client.go:70-81 | Once one attempt wrote, every later attempt of the call finds a higher version. |
| Clerk.AnswersTruthful | src/kvsrv1/client.go:70-81 | At most one attempt of a Put writes; OK exactly when the last one does; ErrNoKey, or ErrVersion on the only attempt, implies that none does. |
| ClerkRuns.LoopIsRun | src/kvsrv1/client.go:30-82 | From every reachable state, whatever the loop meets is a run of the whole system that leaves the same store and returns the same answer. |
| ClerkRuns.LoopAnswersTruthful | src/kvsrv1/client.go:70-81 | So a loop whose Put is not ahead of its key answers truthfully, strays included. |
| KvSystem.StepAppends | src/labrpc/labrpc.go:238-329 | Every step of clerks, server and network adds one event to the record and nothing else. |
| KvSystem.StepKeepsInv | src/labrpc/labrpc.go:238-311 | Each network, server or clerk step keeps the record consistent: handlers run only for attempts sent, replies are those given, losses precede resends. |
| KvSystem.RunKeepsInv | src/labrpc/labrpc.go:238-311 | The same over every run; the record only grows. |
| PutTruth.VersionsGrow | src/kvsrv1/server.go:35-51 | A key's version never decreases along a run. |
| PutTruth.OneWritePerVersion | src/kvsrv1/server.go:82-107 | Over a whole run at most one Put succeeds for each key and version. |
| PutTruth.EveryVersionWritten | src/kvsrv1/server.go:82-107 | Every version below the current one was written by some Put: versions have no gaps. |
| PutTruth.LastWriteReads | src/kvsrv1/server.go:66-107 | The stored value is the one written at the version just below the current one. |
| PutTruth.OneWritePerCall | src/kvsrv1/client.go:70-81 | However often it is resent, a Put is applied at most once. |
| PutTruth.FirstTry | src/kvsrv1/client.go:70-81 | A call that returned on its first attempt had exactly one handler run. |
| PutTruth.WritesBeforeReturn | src/labrpc/labrpc.go:254-294 | The write of a careful call falls before its return. |
| PutTruth.OkMeansOnce | src/kvsrv1/client.go:70-81 | OK: applied exactly once, at the attempt that was answered, between invocation and return. |
| PutTruth.ErrVersionMeansNever | src/kvsrv1/client.go:78-80 | ErrVersion: no attempt was ever applied. |
| PutTruth.ErrNoKeyMeansNever | src/kvsrv1/server.go:96-98 | ErrNoKey from a careful Put: no attempt is ever applied. |
| PutTruth.AnswerTruthful | src/kvsrv1/client.go:70-81 | In every consistent record OK means once, ErrVersion and ErrNoKey never, ErrMaybe at most once, each write between invocation and return. |
| PutTruth.PutAnswersAreTruthful | src/kvsrv1/client.go:61-82 | Over every run of any number of clerks, every answer of a careful Put is truthful in that sense. |
| PutTruth.RefusedNeverWritten | src/kvsrv1/client.go:77-81 | A Put about to be answered ErrVersion or ErrNoKey has not been applied. |
| Linearizability.PointAllows | src/kvsrv1/server.go:66-107 | At the moment chosen for it, a sequential store allows each call's answer. |
| Linearizability.OrderLegal | src/kvsrv1/server.go:66-107 | The calls ordered by those moments form a legal sequential history whose store is the server's at every moment. |
| Linearizability.PointOfReturned | src/kvsrv1/client.go:70-81 | A returned call takes effect strictly between invocation and return: at its applied attempt if it has one, otherwise at the attempt that was answered. |
| Linearizability.OrderRealTime | src/kvsrv1/client.go:30-82 | The order never goes against real time and holds each call once. |
| Linearizability.CarefulTraceLinearizable | src/kvsrv1/client.go:30-82 | That order, completed by some pending Puts, is a linearization of the record. |
| Linearizability.RunsAreLinearizable | src/kvsrv1/client.go:30-82 | Every careful run of any number of clerks over the lossy network is linearizable. |
| LateWrites.NotAheadNeverLate | src/labrpc/labrpc.go:259-294 | A Put not ahead of its key is never applied after it returned, in any continuation, stray handlers included. |
| LateWrites.AheadCanWriteLate | src/labrpc/labrpc.go:259-294 | From any state, a Put ahead of its key has a continuation in which it is applied after it returned. |
| LateWrites.LateWriteIffAhead | src/labrpc/labrpc.go:259-294 | With another idle client about, a Put can be applied after its return if and only if it asks for a version ahead of the key. |
| BrokenOrders.NoOrder | src/kvsrv1/server.go:82-107 | If all Puts of a key at version v had returned when a Put at a lower version was invoked that is answered OK, and a later Get reads version v + 1, no order explains the run. |
| BrokenOrders.AheadBreaksOrder | src/labrpc/labrpc.go:259-294 | From every state in which the Puts at that version have returned, a Put ahead of its key has a continuation without an order, no later Put being ahead. |
| BrokenOrders.NotAheadRunsAreLinearizable | src/kvsrv1/client.go:30-82 | Every run in which no Put is ahead of its key when invoked is linearizable, with any losses and strays. |
| BrokenOrders.OrderBreaksIffAhead | src/labrpc/labrpc.go:259-294 | In every state reached without Puts ahead, with another idle client: a Put can end in a run without an order, no later Put being ahead, if and only if it is ahead of its key. |
| BrokenOrders.StaleOverwriteRuns | src/kvsrv1/server.go:96-98 | The smallest such run: a Put answered ErrNoKey overwrites the key after another client created it. |
| BrokenOrders.StaleTraceNotLinearizable | src/labrpc/labrpc.go:259-294 | No order at all explains that run. |
| Ordering.SortStrings | src/models1/kv.go:34-38 | Lists the distinct keys strictly sorted, whatever order the map yields them in. |
| Ordering.SortedUnique | src/models1/kv.go:34-38 | A strictly sorted list is determined by its members, so the split does not depend on map order. |
| Ordering.BelowIffDiffers | src/models1/kv.go:34-38 | The order is the lexicographic one: the first place where two strings differ decides, and a proper prefix comes first. |
| KvModel.Partition | src/models1/kv.go:27-43 | One part per distinct key, keys sorted, each part exactly that key's operations in history order. |
| KvModel.PartsLoseNothing | src/models1/kv.go:27-43 | The parts together hold every operation of the history exactly as often as it occurs. |
| KvModel.Locality | src/models1/kv.go:27-67 | A multi-key history is accepted by the whole store exactly when every key's part is accepted step by step. |
| KvModel.PartsDecide | src/models1/kv.go:27-67 | The parts Partition returns decide acceptance of the whole history from the initial state. |
| KvModel.AcceptedIffJustified | src/models1/kv.go:44-67 | For every history: the model accepts each key's part if and only if, taking the operations in turn against one store, every Get returned the value stored, every matching Put answered OK or ErrMaybe and every other Put ErrVersion or ErrMaybe. |
| KvModel.LegalIffAccepted | src/models1/kv.go:57-64 | A legal sequential history is accepted key by key if and only if no Put in it was answered ErrNoKey. |
| KvModel.RunsPassTheCheck | src/models1/kv.go:44-67 | A careful run has a linearization that the per-key model accepts, in the sense of AcceptedIffJustified, if and only if no Put in it returned ErrNoKey. |
| ModelGuard.ToldIffMissing | src/kvsrv1/server.go:92-98 | From every reachable state, a Put can return ErrNoKey if and only if it asks for a positive version of a key not stored when it is invoked. |
| ModelGuard.NotAheadRunsPassTheCheck | src/models1/kv.go:44-67 | Every run in which no Put is ahead of its key when invoked has a linearization that the per-key model accepts. |
| ModelGuard.RejectedIffMissing | src/models1/kv.go:57-64 | In every state reached without Puts ahead: a Put can end in a careful run that the model rejects, no later Put being ahead, if and only if it asks for a positive version of a key not stored. |
| ModelGuard.FirstPutAtOneRejected | src/kvsrv1/server.go:92-98 | The smallest rejected run: one client, nothing lost, a first Put at version 1. |
| PutCounts.VersionIsWriteCount | src/kvsrv1/server.go:26-51 | A key's version equals the number of Puts applied to it. |
| PutCounts.OkAtMostVersion | src/kvtest1/kvtest.go:126-140 | The OK answers of any set of clients number at most the version. |
| PutCounts.VersionAtMostAnswers | src/kvtest1/kvtest.go:137-139 | When all Puts have returned, the version is at most OK answers plus ErrMaybe answers. |
| PutCounts.MaybeMeansLoss | src/kvsrv1/client.go:78-80 | ErrMaybe is answered only after a lost or given-up attempt. |
| PutCounts.CheckPutConcurrent | src/kvtest1/kvtest.go:126-140 | Sums the clients' counts and passes exactly when the version equals successes (reliable) or is at most successes plus maybes. |
| PutCounts.PutCountsAgree | src/kvtest1/kvtest.go:126-140 | For every careful run whose clients of a key are done: Nok <= version <= Nok + Nmaybe, with version = Nok when nothing was lost. |
| OnePut.NetKeepsInv | src/kvtest1/kvtest.go:208-227 | Network and server steps, strays included, keep what each racing client relies on. |
| OnePut.RaceKeepsInv | src/kvtest1/kvtest.go:208-227 | So does every run of racing clients. |
| OnePut.RaceCountsAgree | src/kvtest1/kvtest.go:208-284 | Over every race of n clients no client meets a condition that stops the test, and the counts they keep satisfy Nok <= version <= Nok + Nmaybe, with equality when nothing was lost. |
| OnePutLoop.PutOne | src/kvtest1/kvtest.go:208-227 | The loop makes exactly the calls of the step program and ends at its point, for any answers. |
| OnePutLoop.ReadBack | src/kvtest1/kvtest.go:214-224 | The Get after a Put stops the test exactly on an error or a wrong entry right after an own Put; otherwise the version read is kept and the Put's answer counted. |
| OnePutLoop.OneClientPut | src/kvtest1/kvtest.go:259-284 | The whole client on one key, for any answers and any number of rounds: Puts and Gets alternate, the first Put asks for version 0 and each later one for the version of the Get before it, carrying the client's entry for that version; the counts are the Puts answered OK and ErrMaybe that were read back. |
| OnePutLoop.ProgramObserved | src/kvtest1/kvtest.go:208-227 | The same of the step program, for every sequence of answers. |
| Lock.Writer | src/kvsrv1/lock/lock.go:32-84 | A write to the lock comes from the one client whose Put is in progress, at the version the lock has: a claim or a release, never a leftover. |
| Lock.NetKeepsInv | src/kvsrv1/lock/lock.go:32-84 | Every network and server step, strays included, keeps what each lock client relies on. |
| Lock.ReturnKeepsInv | src/kvsrv1/lock/lock.go:32-103 | So does every answer, including ErrMaybe and the re-read after it. |
| Lock.LockRunKeepsInv | src/kvsrv1/lock/lock.go:32-103 | So does every interleaving of lock clients. |
| LockSafety.MutualExclusion | src/kvsrv1/lock/lock.go:32-84 | At most one client is between a returned Acquire and the moment its Release has cleared the lock, in every interleaving with any losses, including clients that acquired through the re-read. |
| LockSafety.LockedIffOdd | src/kvsrv1/lock/lock.go:67-84 | In every reachable state the lock's value is non-empty exactly when its version is odd. |
| LockSafety.WritesAlternate | src/kvsrv1/lock/lock.go:32-84 | Successful writes alternate: a token at an even version, then "" by the same client. |
| LockSafety.ReleaseClears | src/kvsrv1/lock/lock.go:67-84 | When Release returns for a holder at version v, the one write that ever succeeds at v is that holder's "". |
| LockOrphan.OrphanStays | src/kvsrv1/lock/lock.go:37-43 | Once the stored token belongs to no client, or only to a creating Put that gives it up, value and version never change again and the token stays nobody's. |
| LockOrphan.NeverHeldIffOrphaned | src/kvsrv1/lock/lock.go:32-84 | In every reachable state no continuation has a holder if and only if the lock is orphaned in that sense. |
| LockOrphan.NotOrphanedCanHold | src/kvsrv1/lock/lock.go:32-65 | From every other state some continuation has a client that holds. |
| LockOrphan.OrphanReachable | src/kvsrv1/lock/lock.go:37-43 | One client and one lost reply are enough to orphan the lock. |
| LockOrphan.HolderCanRelease | src/kvsrv1/lock/lock.go:67-84 | In every reachable state whoever holds the lock has a continuation in which its Release returns. |
| LockLoops.LockWrapper.Acquire | src/kvsrv1/lock/lock.go:32-65 | The loop makes exactly the calls of the step program and returns only when the program holds the lock, for any answers. |
| LockLoops.LockWrapper.Confirm | src/kvsrv1/lock/lock.go:49-57 | After ErrMaybe the program holds exactly if the value read back is the token it wrote. |
| LockLoops.LockWrapper.ReadUntilSuccess | src/kvsrv1/lock/lock.go:86-103 | Reads until the first answer without an error and returns that one. |
| LockLoops.LockWrapper.Reput | src/kvsrv1/lock/lock.go:81-82 | Puts "" at the version just read; whatever the answer, the version is read again. |
| LockLoops.LockWrapper.CheckAndReput | src/kvsrv1/lock/lock.go:72-84 | Returns if and only if some read was answered without an error and with a version above the one first seen, with the calls of the program. |
| LockLoops.ReturnsIffSeen | src/kvsrv1/lock/lock.go:72-84 | The same of the step program, for every sequence of answers. |
| LockLoops.LockWrapper.Release | src/kvsrv1/lock/lock.go:67-70 | Returns if and only if some later read showed a version above that of the first Get, whatever that Get answered. |
| LockLoops.FailedReadsStay | src/kvsrv1/lock/lock.go:92-99 | Failed reads leave a rereading program where it is, one Get each. |
| AppendLog.WriteView | src/kvtest1/kvtest.go:336-340 | Each successful Put makes the stored list one entry longer and its version one higher. |
| AppendLog.NetKeepsInv | src/kvtest1/kvtest.go:327-352 | Network and server steps, strays included, keep what each append client relies on. |
| AppendLog.AppendRunKeepsInv | src/kvtest1/kvtest.go:327-352 | So does every run of append clients. |
| AppendCheck.ListOnlyGrows | src/kvtest1/kvtest.go:316-340 | In every reachable state the list has version - 1 entries and each step leaves it alone or adds one entry at its end. |
| AppendCheck.CheckAppends | src/kvtest1/kvtest.go:361-390 | Passes exactly when each client's numbers strictly increase, no entry is missing for the version, skipped numbers are covered by ErrMaybe answers, and no client got further than it counted. |
| AppendCheck.IncreasingStep | src/kvtest1/kvtest.go:368-377 | An entry breaks a client's order exactly where the loop stops the test. |
| AppendCheck.AppendsPassTheCheck | src/kvtest1/kvtest.go:327-390 | Over every run of any number of append clients, the stored list passes that check against the counts the clients report. |
| AppendBooks.ReportsAreAnswers | src/kvtest1/kvtest.go:327-352 | Over every run a client's nok is the number of its list Puts that returned OK, and nmay the number that returned ErrMaybe. |
| AppendLoop.AppendOne | src/kvtest1/kvtest.go:334-349 | The inner loop makes exactly the calls of the step program and ends at its point, for any answers. |
| AppendLoop.PutBack | src/kvtest1/kvtest.go:340-348 | Puts the longer list at the version read; OK adds to nok, ErrMaybe to nmay, and any other answer reads again. |
| AppendLoop.OneClientAppend | src/kvtest1/kvtest.go:327-352 | The whole client, for any answers and any number of rounds: Gets and Puts alternate, each Put carries the list just read with the client's next number at the version read, and nok and nmay count the OK and ErrMaybe answers to its Puts. |
| AppendLoop.ProgramObserved | src/kvtest1/kvtest.go:327-352 | The same of the step program, for every sequence of answers. |
| ShardLoads.MoveLowersPairs | src/shardkv1/shardcfg/shardcfg.go:141-153 | Moving a shard to a group at least two lighter lowers the number of pairs of shards sharing a group. |
| ShardConfig.Config.constructor | src/shardkv1/shardcfg/shardcfg.go:44-49 | A new configuration has number 0, no groups and all shards unassigned. |
| ShardConfig.SortGids | src/shardkv1/shardcfg/shardcfg.go:92-98 | Lists the gids in increasing order, whatever order the map yields them in. |
| ShardConfig.Config.Analyze | src/shardkv1/shardcfg/shardcfg.go:80-111 | The smallest gid among the most loaded and among the least loaded groups with their loads, for every map order. |
| ShardConfig.Config.CountShards | src/shardkv1/shardcfg/shardcfg.go:81-84 | Counts each gid's shards. |
| ShardConfig.Config.LeastLoaded | src/shardkv1/shardcfg/shardcfg.go:115-118 | The smallest gid among the least loaded groups. |
| ShardConfig.MostUnique | src/shardkv1/shardcfg/shardcfg.go:99-108 | Those groups are unique, so the analysis is a function of the assignment and the set of gids. |
| ShardConfig.Config.AssignShards | src/shardkv1/shardcfg/shardcfg.go:131-138 | Gives each unassigned shard in turn to the least loaded group. |
| ShardConfig.Config.MoveFirst | src/shardkv1/shardcfg/shardcfg.go:147-152 | Hands over the first shard of the giving group and no other. |
| ShardConfig.Config.SpreadShards | src/shardkv1/shardcfg/shardcfg.go:140-153 | The unbounded loop ends, and leaves the assignment that moving shards from most to least loaded defines. |
| ShardConfig.Config.Rebalance | src/shardkv1/shardcfg/shardcfg.go:122-154 | Terminates with an assignment that depends on the old one and the set of gids alone; number and groups stay untouched. |
| Rebalance.SpreadStep | src/shardkv1/shardcfg/shardcfg.go:141-153 | Each move of the loop is possible and lowers the pair count, the loop's measure. |
| Rebalance.RebalancedIsBalanced | src/shardkv1/shardcfg/shardcfg.go:122-154 | With groups, every shard ends with a member group and loads differ by at most one; without, all shards end at 0. |
| Rebalance.RebalancedOneWay | src/shardkv1/shardcfg/shardcfg.go:131-153 | No group both receives a shard and gives one away. |
| RebalanceChoices.AssignedInTurn | src/shardkv1/shardcfg/shardcfg.go:131-138 | Every shard keeps its group or goes to the smallest of the least loaded groups, as loads stand when its turn comes in shard order. |
| RebalanceChoices.SpreadByMoves | src/shardkv1/shardcfg/shardcfg.go:140-153 | The result is reached by moves, each of the first shard of the smallest most loaded group to the smallest least loaded one, two or more lighter, until no two groups are two apart. |
| RebalanceChoices.RebalancedKeepsHigher | src/shardkv1/shardcfg/shardcfg.go:146-152 | What a group loses to rebalancing are always its lowest-numbered shards. |
| RebalanceOptimality.OneWayMovesLeast | src/shardkv1/shardcfg/shardcfg.go:131-153 | A balanced one-way reassignment moves no more validly owned shards than any balanced one. |
| RebalanceOptimality.RebalanceMovesLeast | src/shardkv1/shardcfg/shardcfg.go:131-153 | For every starting assignment and non-empty group set, no balanced assignment changes the owner of fewer validly owned shards. |
| ShardConfig.Config.Clashes | src/shardkv1/shardcfg/shardcfg.go:164-172 | Finds a joining server that is already in some group, exactly when there is one. |
| ShardConfig.Config.Join | src/shardkv1/shardcfg/shardcfg.go:156-183 | Succeeds exactly when something joins, nobody joins again and no server ends in two groups, for every map order; then adds all newcomers and counts one change; otherwise a cleanly joined part stays and nothing is counted. |
| ShardConfig.Config.Leave | src/shardkv1/shardcfg/shardcfg.go:185-205 | Succeeds exactly when the list is non-empty, without repeats, of present groups; otherwise what was removed before the refusal stays removed and nothing is counted. |
| ShardConfig.Config.JoinBalance | src/shardkv1/shardcfg/shardcfg.go:207-213 | A successful join rebalances over the enlarged set; a failed one leaves assignment and number alone and the part that had joined. |
| ShardConfig.Config.LeaveBalance | src/shardkv1/shardcfg/shardcfg.go:215-221 | The same for leaving. |
| ShardConfig.Config.IsMember | src/shardkv1/shardcfg/shardcfg.go:229-236 | True exactly when the gid owns a shard. |
| ShardConfig.Config.CheckConfig | src/shardkv1/shardcfg/shardcfg.go:238-279 | Passes exactly when the groups are those expected, every shard has a member group and loads differ by at most one. |
| ShardConfig.Config.LoadRange | src/shardkv1/shardcfg/shardcfg.go:262-278 | The minimum and maximum found are within one exactly when the assignment is balanced. |
| ConfigRuns.Perform | src/shardkv1/shardcfg/shardcfg.go:207-221 | Joining and leaving on the object are the calls that the theorems on sequences speak of, with what a failed call leaves behind. |
| ConfigRuns.EveryGroupServes | src/shardkv1/shardcfg/shardcfg.go:229-236 | With at most as many groups as shards, every group of a balanced assignment owns a shard. |
| ConfigRuns.EveryConfigSound | src/shardkv1/shardcfg/shardcfg.go:156-279 | After any successful joins and leaves: Num counts them, groups share no server, the check's conditions hold, and with 1 to n groups IsMember agrees with membership in Groups. |
| ConfigRuns.EveryCallKeepsSound | src/shardkv1/shardcfg/shardcfg.go:156-279 | Over any joins and leaves, refused and fatal ones included: Num counts the successes, groups never share a server, and after each success the check's conditions hold and IsMember agrees with Groups. |
| ConfigRuns.SuccessRestores | src/shardkv1/shardcfg/shardcfg.go:207-221 | Whatever failed calls left behind, a success makes the configuration sound again. |
| Coordinator.Coordinator.constructor | src/mr/coordinator.go:201-237 | One idle map task per file with that file, then the reduce tasks, ids running on, all with the number of reduces. |
| Coordinator.Coordinator.CheckTimeout | src/mr/coordinator.go:133-141 | Exactly the tasks in progress for more than ten seconds become idle. |
| Coordinator.Coordinator.Scan | src/mr/coordinator.go:147-185 | The first idle task of the kind; else in progress if one is running; else all are completed. |
| Coordinator.FirstWithId | src/mr/coordinator.go:61-69 | The first task with the id, or none. |
| Coordinator.Coordinator.GetTask | src/mr/coordinator.go:71-130 | Gives the first idle map task; a reduce task only after all maps; Finished only when all is completed; the books change by that hand-out and the timeouts alone. |
| Coordinator.Coordinator.ReportTask | src/mr/coordinator.go:187-199 | Completes the reported task and no other; stops when there is none. |
| CoordinatorRuns.MapsBeforeReduces | src/mr/coordinator.go:88-118 | In every run no reduce task is handed out before every map task is completed. |
| CoordinatorRuns.FinishedMeansDone | src/mr/coordinator.go:79-86 | Finished is answered only when all tasks are completed. |
| CoordinatorRuns.CompletedForever | src/mr/coordinator.go:133-199 | A completed task stays completed and is never handed out again. |
| CoordinatorRuns.HandOutsAreSpaced | src/mr/coordinator.go:71-141 | Any two hand-outs of one task are more than ten seconds apart on a monotone clock. |
| CoordinatorAnswers.HandOutCarries | src/mr/coordinator.go:88-118 | Over every run a hand-out of map task i carries file i, a hand-out of a reduce task the number of maps, and both the number of reduces and the time given. |
| CoordinatorAnswers.AnswerDecided | src/mr/coordinator.go:71-185 | Over every run, exactly which answer a request gets: Finished when all tasks are completed, otherwise the first idle map, or once all maps are completed the first idle reduce, and Wait only if there is none to give. |
| CoordinatorBuckets.BucketIffNoRepeat | src/mr/coordinator.go:108-118 | With honest reports a reduce hand-out carries its own bucket if and only if no reduce task was handed out twice so far. |
| CoordinatorBuckets.RepeatIffTimeout | src/mr/coordinator.go:133-141 | With honest reports a reduce task is handed out twice if and only if some request found a reduce task overdue. |
| CoordinatorBuckets.TimeoutRepeats | src/mr/coordinator.go:108-141 | A request that finds a reduce task overdue itself hands a reduce task out again. |
| CoordinatorBuckets.BucketIffNoTimeout | src/mr/coordinator.go:108-141 | A reduce hand-out carries its own bucket if and only if no request so far, itself included, found a reduce task overdue. |
| CoordinatorBuckets.SlowRunWrongBucket | src/mr/coordinator.go:108-141 | A run with one reduce task whose second hand-out names a bucket that does not exist. |
| CoordinatorBuckets.NoTimeoutNoRepeat | src/mr/coordinator.go:133-141 | Without reduce timeouts no reduce task is handed out twice, whatever is reported. |
| CoordinatorBuckets.EveryBucketOnce | src/mr/coordinator.go:108-118 | Without reduce timeouts each bucket is given out at most once, under its own task, and all have been by the time Finished is answered. |
| Bucketing.FillBuckets | src/mr/worker.go:65-73 | Bucket b holds exactly the pairs whose key hashes to b modulo the number of buckets, in order. |
| Bucketing.BucketsInOrder | src/mr/worker.go:68-73 | The buckets of a longer input are those of its parts, one after the other. |
| Bucketing.BucketOfOne | src/mr/worker.go:69-72 | A single pair goes to the bucket its key hashes to and to no other. |
| Bucketing.RunEnd | src/main/mrsequential.go:70-73 | Finds the end of the maximal run of the current key. |
| Bucketing.GroupByKey | src/main/mrsequential.go:68-84 | One reduce call per maximal run of equal keys, with the run's values in order. |
| Bucketing.GroupingRoundTrip | src/main/mrsequential.go:68-84 | For every list the calls stand for exactly its pairs in their order, none is empty and neighbours differ in key. |
| Bucketing.GroupedOnce | src/main/mrsequential.go:59-84 | On sorted pairs each key present is reduced exactly once, with exactly the multiset of its values, and nothing else is. |
| Bucketing.BucketingPreservesMeaning | src/mr/worker.go:65-73 | For any hash, number of buckets, map outputs and tie order of the sorts, the bucketed program makes the same bag of reduce calls as the sequential one. |
| RaftPeer.Raft.constructor | src/raft1/raft.go:123-151 | A new peer is a follower of term 0 that has not voted and has a dummy log entry. |
| RaftPeer.Raft.CheckTerm | src/raft1/raft.go:75-83 | A higher term makes a follower that has not voted; true exactly when the term is not higher. |
| RaftPeer.Raft.RequestVote | src/raft1/raft.go:242-278 | Grants exactly to a request of a higher term whose last log term and index are not below the peer's own; a higher term makes a follower either way. |
| RaftPeer.Raft.AppendEntries | src/raft1/raft.go:170-190 | Accepts exactly a higher term, and then follows it. |
| RaftPeer.Raft.PreElection | src/raft1/raft.go:192-200 | Raises the term by one and votes for itself. |
| RaftPeer.Raft.ReceiveVoteReply | src/raft1/raft.go:211-240 | Ignores old replies, follows higher terms, and counts every other reply whether granted or not. |
| RaftVotes.StepKeepsInv | src/raft1/raft.go:192-278 | Every step keeps: one vote per voter and term, the current vote is the recorded one, granted answers are votes cast. |
| RaftVotes.QuorumsMeet | src/raft1/raft.go:235-239 | Two strict majorities share a peer. |
| RaftVotes.OneWinner | src/raft1/raft.go:242-278 | Two candidates with majorities of one term are the same peer. |
| RaftVotes.VoteSafety | src/raft1/raft.go:192-278 | In every run, from any logs, each peer votes for at most one candidate per term, its own candidacy included, granted answers are such votes, and two majorities of one term have one candidate. |
| RaftVotes.TermsNeverDecrease | src/raft1/raft.go:75-83 | Along every run terms never decrease and votes once cast stay cast. |
| RaftGrants.VotesRespectLogs | src/raft1/raft.go:254-266 | Over every run a vote for another peer was cast by one whose last log entry is not above the candidate's, in term and in index. |
| RaftGrants.WinsIffNotBehind | src/raft1/raft.go:242-278 | From any logs some run grants a peer the votes of all others if and only if no other peer's last entry is above its own, in term or in index. |
| RaftGrants.NewTermMeans | src/raft1/raft.go:75-83 | A peer enters a new term by standing for it, as a candidate with its own vote, or by hearing of it, as a follower. |
| RaftLeaders.RefusalsElect | src/raft1/raft.go:235-239 | In every cluster of two or more peers, whatever the logs, two peers that only ever refuse each other both end in role Leader of one term. |
| RaftLeaders.LeadersClashIffTwoPeers | src/raft1/raft.go:211-240 | Some run has two peers in role Leader of one term if and only if there are at least two peers. |
| NetPartition.ServerGrp.Connect | src/tester1/group.go:155-171 | Enables both directions to each listed server that is on the net, and nothing else. |
| NetPartition.ServerGrp.Disconnect | src/tester1/group.go:175-194 | Disables both directions to each listed server, and nothing else. |
| NetPartition.ServerGrp.SplitSide | src/tester1/group.go:304-307 | One pass joins its own side, cuts the other and leaves links among the rest alone. |
| NetPartition.ServerGrp.Partition | src/tester1/group.go:302-312 | After splitting into disjoint sides a link between listed servers is enabled exactly when both are on the same side, whatever was before. |
| NetPartition.ServerGrp.ConnectAll | src/tester1/group.go:134-138 | Reconnecting one by one ends with every server on the net and every link enabled. |

## Left out

- Wrap-around of the 64-bit Tversion: versions are unbounded naturals, so stored versions are at least 1 and the counts hold without an overflow bound.
- RandValue(8): tokens are taken to be fresh and non-empty; the generator is not modelled.
- Lock progress and fairness: that a client can still come to hold the lock is proved exactly (LockOrphan); that it eventually does is not claimed.
- LockLoops.LockWrapper.Acquire: the network is a fixed script of answers here; interleaving with other clients is in the step programs of Lock.
- OnePut.RaceCountsAgree: one key; the choice among random keys (src/kvtest1/kvtest.go:272-275) is left out. PutCountsAgree speaks of any clients on any number of keys, key by key.
- ConfigRuns.EveryConfigSound: only successful changes; EveryCallKeepsSound covers calls that fail.
- src/kvraft1, src/shardkv1 apart from the configuration: stubs without behaviour.
- Raft log replication, commit, persistence, snapshots and restarts: stubs or unfinished; peers do not restart in the model.
- Heartbeat liveness: same-term heartbeats are rejected (src/raft1/raft.go:176-181).
- File input and output, doReduce, the Worker loop and Coordinator.Done: unfinished or constant. Grouping is that of src/main/mrsequential.go.
- The FNV hash: any function to the naturals; the mask that makes it non-negative is what the range stands for.
- JSON encoding of lists and entries: any pair of functions that round-trips. labgob, dispatch by reflection, channels and goroutines are not part of this model.
- Time: sleeps, delays and election timeouts are nondeterministic choices; only the coordinator reads a clock, given as a parameter.
- Copy, String and FromString of the configuration, and starting or shutting down servers: would only add easy members.
