# Verified models of the cluster, Kafka, file-cache and collection cores

This project models the parts of the library that keep state over long runs, and proves what
must hold on every run:

* **Leader election** (`ClusterNode.dfy`, `Election.dfy`, `ElectionRaces.dfy`): nodes bump a term, vote once per
  term, collect a quorum of votes, broadcast, collect a quorum of acknowledgements and sign
  themselves leader. The messages ever sent are a growing set, so loss, delay, duplication and
  reordering are all covered.
* **Leadership events and job trackers** (`JobTracker.dfy`, `EventChannel.dfy`): the Sign/Unsign
  events of a node are a bracketing language that drives a tracker's tickers; sending them is a
  step of its own.
* **Redis lease election** (`RedisLease.dfy`): SETNX with expiry, compare-and-extend renewal, the
  sync job and the watchdog, with an explicit clock.
* **Kafka v2 offset tracking** (`KafkaOffsets.dfy`, `RingQueue.dfy`, `Retry.dfy`): messages finish
  out of order while a committer pops the finished prefix of a ring queue.
* **File-handle cache** (`FsCache.dfy`): reference-counted files shared by requests and a cleaner.
* **Caches and queues** (`Chains.dfy`, `LinkedHashMap.dfy`, `LruCache.dfy`, `LfuCache.dfy`,
  `PriorityQueue.dfy`, `DelayQueue.dfy`): pointer and array structures against sequences,
  maps and multisets.
* **Codecs and numerals** (`Numerals.dfy`, `Base62.dfy`, `Args.dfy`, `Cookies.dfy`).

Concurrent code is a step function over values: every critical section, handler and unlocked
read or write is one step, and a theorem about runs ranges over every list of steps. Next to
it, objects whose methods perform such steps are classes, and loops are loops, each proved to
do what its specification function says. `dafny verify dfyconfig.toml` checks the whole project.

## Where the code differs from what it is meant to do

Each of these is kept as the code has it and shown by a concrete input or run; beside it stands
the condition under which the intended property does hold.

* **Terms can fall.** The three stores of the term, two in `fightingWithRetry`
  (`cluster/cluster.go:980`, `cluster/cluster.go:1002`) and one in `signLeader`
  (`cluster/cluster.go:1288`), each come after a separate read, and the lock that `signLeader`
  holds does not keep the other two out. So a store can overwrite a higher term set in between:
  `ElectionRaces.TermsCanFall` builds such a run for the bump, `ElectionRaces.SignCanLowerTerm`
  for `signLeader` with every bump in one go; `Election.TermFallsIffStaleStore` says that nothing
  else lowers a term; `Election.AtomicStoresAreFresh` shows that it cannot happen if each read and
  its store are one step. Uniqueness of the winner of a term does not depend on this.
* **The ack fence can break**, through such a store by a node of the quorum: in
  `ElectionRaces.FenceCanBreak` a node becomes leader of term 1 after a quorum acknowledged
  term 2. `Election.AckQuorumFences` proves the fence while no member of that quorum stores a
  lower term, `Election.BrokenFence` that otherwise every node common to both quorums has stored
  one, and `Election.QuorumStaysIff` that those stores are exactly what takes the quorum back.
* **A name and a term from different replies.** The AskLeader scan may pair them
  (`cluster/cluster.go:950-960`, `ClusterNode.ScanMixesReplies`); it does not exactly when some
  successful reply of the greatest term names a leader (`ClusterNode.ScanIsGenuineIff`).
* **Events can overtake each other.** They are sent after the lock is released
  (`cluster/cluster.go:1288-1293`), so a tracker may be left running a ticker without a leader
  (`EventChannel.OvertakenSendLeaks`). They arrive in order if and only if no send overtakes an
  unfinished earlier transition (`EventChannel.OrderIff`).
* **A tracker closed in the middle of a start callback** keeps the new ticker for ever
  (`cluster/scheduler.go:135-147`, `JobTracker.CloseDuringStartLeaks`). Nothing runs after a Close
  if and only if no start callback was between its status swap and its arming when the Close
  cancelled (`JobTracker.CloseStopsIff`).
* **Redis: reading and signing are separate.** A lease that expires in between gives two
  leaders (`RedisLease.TwoLeaders`). `RedisLease.LeadersOwnIffInTime` says exactly when all
  leaders own the key, `RedisLease.LeadersOwnThroughoutIff` exactly which runs keep it so, and
  `RedisLease.LeaseBlocksAreSafe` that they do if reading, signing and the first renewal form one
  block and ticks come in time.
* **Redis: a watchdog can serve another node** (`RedisLease.WatchdogRenewsForOther`), exactly
  when the sync job follows another node while the watchdog runs (`RedisLease.HomeIff`); ticking
  in time excludes that (`RedisLease.WatchdogsRenewTheirOwn`).
* **Retry delays overflow** for caps above 2^62 nanoseconds (`Retry.CapWorksIff`).
* **Deadlines are ordered as decimal strings**, which is numeric order only for equally many
  digits (`DelayQueues.DecimalOrder`, `DelayQueues.ShorterCanSortLater`).
* **LFU with capacity 0** dereferences a missing bucket on every `Put`
  (`LfuCaches.LFUCache.Put`).

## Model

| member | source | states |
|---|---|---|
| `ClusterNode.Quorum` | cluster/cluster.go:656-662 | a quorum is the least number that is more than half of the nodes, and never more than all of them |
| `ClusterNode.QuorumsIntersect` | cluster/cluster.go:656-662 | any two quorums of one membership share a node |
| `ClusterNode.CountVotes` | cluster/cluster.go:1034-1041 | the counting loop returns the number of distinct nodes that support the candidate, itself included |
| `ClusterNode.ScanFindsGreatestTerm` | cluster/cluster.go:950-960 | the scan finds the greatest term of a successful reply, and only a leader some such reply names |
| `ClusterNode.ScanIsGenuineIff` | cluster/cluster.go:950-960 | the scanned leader and term come from one reply if and only if some successful reply of the greatest term names a leader |
| `ClusterNode.ScanReplies` | cluster/cluster.go:950-960 | the loop computes the scan |
| `ClusterNode.ScanMixesReplies` | cluster/cluster.go:950-960 | the scanned leader name and term need not come from one reply |
| `ClusterNode.Cluster.SignLeader` | cluster/cluster.go:1251-1295 | refuses a lower term; otherwise closes the old leadership, sets role, leader and term and emits the events, and nothing else changes |
| `ClusterNode.Cluster.ReleaseLeader` | cluster/cluster.go:1324-1344 | the node follows nobody, and the loss is announced if there was a leader |
| `ClusterNode.Cluster.ReleaseWithNodeName` | cluster/cluster.go:1297-1322 | releases only a leader of that name held in the leader role |
| `ClusterNode.Cluster.GetVoteNodeName` | cluster/cluster.go:1346-1356 | a vote, once written for a term, is what is returned ever after |
| `ClusterNode.Cluster.VoteNode` | cluster/cluster.go:1358-1368 | succeeds exactly if the node's vote of the term is now for the candidate |
| `ClusterNode.Cluster.AskLeader` | cluster/grpc_server.go:45-67 | succeeds exactly for terms not above its own; never answers a lower term; names a leader only with its own term |
| `ClusterNode.Cluster.AskVote` | cluster/grpc_server.go:69-87 | the vote is recorded even when refused; the reply names the vote now recorded; a grant releases the leader |
| `ClusterNode.Cluster.BroadcastLeader` | cluster/grpc_server.go:89-118 | acknowledges exactly a known leader of a term not below its own, and then follows it at that term |
| `ClusterNode.AskVoteLaws` | cluster/grpc_server.go:69-87 | a ready node keeps role, leader and events through requests of terms not above its own and refuses them; higher terms always succeed and leave no leader; who grants a term grants every higher one; the reply names the recorded vote |
| `ClusterNode.ReleaseLaws` | cluster/cluster.go:1297-1344 | a release always leaves a follower without a leader and announces exactly the loss of one; a step-down does so only for that leader in the leader role |
| `Election.StepKeepsInv` | cluster/cluster.go:881-1074 | every protocol step keeps: votes match replies, winners have a quorum of votes, broadcasts name their sender, who has won, and acknowledgements answer real broadcasts |
| `Election.RunGrows` | cluster/cluster.go:1346-1368 | on every run votes are write-once and messages are never forgotten |
| `Election.OneWinnerPerTerm` | cluster/cluster.go:1023-1045 | on every run at most one node passes the vote gate of a term, whenever the two passages happen |
| `Election.OneLeaderPerTerm` | cluster/grpc_server.go:89-118 | all broadcasts of a term are the same message, so nodes whose leader was set by the handler at that term agree |
| `Election.RoleFollowsLeader` | cluster/cluster.go:1251-1344 | on every run a node has the leader role exactly while the leader it holds is itself |
| `Election.AskVoteOnRuns` | cluster/grpc_server.go:69-87 | on every run a ready node refuses old terms unchanged, and a higher term is granted and leaves no leader; the reply names the vote recorded |
| `Election.AskLeaderOnRuns` | cluster/grpc_server.go:45-67 | on every run AskLeader is answered with success exactly for terms not above the node's, with its own term, and with its leader exactly if it is ready |
| `Election.LeadershipOnRuns` | cluster/cluster.go:1251-1344 | on every run a release leaves no leader, a step-down acts exactly on a leading node, and a finished sign leaves the leader, term and role of its call |
| `Election.SignsBeginOnRuns` | cluster/cluster.go:1251-1264 | on every run a signLeader call of any caller passes its check exactly if the node's term is not above its own, and is then under way for that leader and term |
| `Election.AdoptionRound` | cluster/cluster.go:948-972 | an idle node whose replies name a leader can take it at the greatest term exactly if its own term is not above |
| `Election.UpdateRound` | cluster/cluster.go:974-982 | an idle node with a quorum of replies can raise its term to the greatest term of a successful reply |
| `Election.TermFallsIffStaleStore` | cluster/cluster.go:978-1288 | a step lowers some node's term if and only if it is a delayed store, of any of the three kinds, of an overtaken term |
| `Election.TermsNeverFall` | cluster/cluster.go:978-1288 | without stale stores no node's term decreases between any two moments of a run |
| `Election.AtomicStoresAreFresh` | cluster/cluster.go:978-1288 | if each read or check of the term, that of signLeader included, and its store are adjacent there are no stale stores |
| `Election.QuorumStaysIff` | cluster/cluster.go:978-1288 | nodes that have reached a term stay there if and only if none of them stores a lower one, by a bump, an update or signLeader, whatever other nodes do and did before |
| `Election.HolderFences` | cluster/grpc_server.go:89-118 | one node that has reached a term and stores no lower one keeps every later, lower candidate from being signed with its acknowledgement |
| `Election.AckQuorumFences` | cluster/cluster.go:1045-1058 | after a quorum acknowledged a term, no candidate of a lower term that broadcasts later is signed through the ack gate, also where the shared node is the candidate itself, unless a member of that quorum stores a lower term |
| `Election.BrokenFence` | cluster/cluster.go:1045-1058 | if such a candidate is signed, the two quorums share a node and each shared node has stored a lower term in between |
| `Election.AtomicRunsAreFenced` | cluster/cluster.go:978-1288 | if each read and its store are adjacent, the fence holds on every run |
| `ElectionRaces.TermsCanFall` | cluster/cluster.go:1001-1002 | a run of any cluster of two or three nodes in which a node's term falls below that of the leader it follows |
| `ElectionRaces.FenceCanBreak` | cluster/cluster.go:1001-1058 | a run of any three-node cluster in which a node is signed leader of term 1 after a quorum acknowledged term 2 |
| `ElectionRaces.SignCanLowerTerm` | cluster/cluster.go:1251-1295 | a run of any cluster of two or three nodes, with every bump in one go, in which signLeader stores a term below the node's |
| `JobTracker.TransitionsKeepBrackets` | cluster/cluster.go:1251-1344 | each locked transition keeps the events bracketed with matching kinds and the open bracket equal to the current leadership |
| `JobTracker.RunEventsBracketed` | cluster/cluster.go:1251-1344 | on every run of the cluster every node's events, in the order of its locked transitions, are well bracketed |
| `JobTracker.TrackerFollowsEvents` | cluster/scheduler.go:134-208 | fed any stretch of bracketed events, with callbacks and Close calls interleaved, a tracker runs, until a Close, exactly the ticker of a latest Sign once it is armed and none otherwise; after a Close never more than one |
| `JobTracker.CloseStopsIff` | cluster/scheduler.go:134-208 | after the last Close no ticker ever runs if and only if no start callback was between its status swap and its arming when that Close cancelled |
| `JobTracker.CloseDuringStartLeaks` | cluster/scheduler.go:135-147 | the run in which a Close in the middle of a start callback leaves a ticker running in a closed tracker |
| `JobTracker.MismatchedUnsignLeaks` | cluster/scheduler.go:151-194 | an Unsign of the other kind leaves two tickers running, so matching kinds are needed |
| `EventChannel.OrderIff` | cluster/cluster.go:1288-1293 | on every interleaving of transitions and sends, events arrive in transition order if and only if no send overtakes an unfinished earlier transition |
| `EventChannel.TransitionsDecide` | cluster/cluster.go:1251-1344 | who is signed is followed, a release follows nobody, a step-down is a release exactly for a leading node |
| `EventChannel.OrderedSendsDriveTracker` | cluster/cluster.go:1370-1440 | without overtaking, a tracker fed any stretch of the channel, registered late or not, runs exactly the ticker of the latest event it has received |
| `EventChannel.OvertakenSendLeaks` | cluster/cluster.go:1288-1343 | a run in which a release overtakes a sign and the tracker keeps a ticker although the node has no leader |
| `JobTracker.DefaultJobTracker.OnStartedLeading` | cluster/scheduler.go:134-149 | starts one master ticker only when stopped |
| `JobTracker.DefaultJobTracker.OnStoppedLeading` | cluster/scheduler.go:151-162 | cancels the latest master ticker only when running |
| `JobTracker.DefaultJobTracker.OnStartedFollowing` | cluster/scheduler.go:177-194 | starts one worker ticker only when stopped |
| `JobTracker.DefaultJobTracker.OnStoppedFollowing` | cluster/scheduler.go:164-175 | cancels the latest worker ticker only when running |
| `JobTracker.DefaultJobTracker.Close` | cluster/scheduler.go:196-208 | closes for good and cancels both latest tickers |
| `RedisLease.OwnershipNeverOverlaps` | cluster/cluster_redis.go:248-265 | on every interleaving, ownership intervals of different acquisitions are disjoint, and every moment of ownership lies in the owner's interval |
| `RedisLease.InTimeLeadersAreUnique` | cluster/cluster_redis.go:313-347 | if every leader's own latest grant has not run out, every leader owns the live key and there is at most one |
| `RedisLease.LeadersOwnIffInTime` | cluster/cluster_redis.go:267-347 | on every run, all leaders own the live key if and only if the server has granted or extended each one's lease less than a period ago |
| `RedisLease.OwnsIffGranted` | cluster/cluster_redis.go:48-53 | a node owns the key at a time if and only if a SETNX or renewal for its name took effect less than a period before |
| `RedisLease.OwnGrantsDecide` | cluster/cluster_redis.go:313-347 | without renewals by foreign watchdogs each leader's own commands decide |
| `RedisLease.LeadersAreWatched` | cluster/cluster_redis.go:267-347 | on every run a node leads exactly while it is its own leader, and only with its watchdog running |
| `RedisLease.RoundsDecide` | cluster/cluster_redis.go:313-347 | on every run a round of a running watchdog either leaves it running with the followed leader owning the live key, or stops it and leaves no leader and no leading |
| `RedisLease.SyncDecides` | cluster/cluster_redis.go:267-303 | on every run the node follows what its sync job has read: nobody without a key, else the owner, and leads exactly if that is itself |
| `RedisLease.HomeIff` | cluster/cluster_redis.go:267-347 | every running watchdog serves its own node throughout a run if and only if the sync job never follows another node while the watchdog runs |
| `RedisLease.WatchdogsRenewTheirOwn` | cluster/cluster_redis.go:267-347 | nodes whose watchdog runs tick within an interval shorter than the lease and sign only while owning the key: no foreign renewal ever, and every leader owns the live key within its own grant |
| `RedisLease.LeaseBlocksAreSafe` | cluster/cluster_redis.go:267-347 | if read-own-name, sign and first tick are adjacent and running watchdogs tick within an interval shorter than the lease, every leader owns the live key, two nodes never lead at once, and no watchdog serves another node |
| `RedisLease.LeadersOwnThroughoutIff` | cluster/cluster_redis.go:267-347 | every leader owns the live key at every moment of a run if and only if nodes sign themselves only while owning it and no leader's lease runs out |
| `RedisLease.DisciplinedRunsAreSafe` | cluster/cluster_redis.go:267-347 | signing only while owning the key and renewing within an interval shorter than the lease: a leader owns the live key at every moment, never two leaders |
| `RedisLease.TwoLeaders` | cluster/cluster_redis.go:267-303 | a run with two leaders, through expiry between reading and signing |
| `RedisLease.WatchdogRenewsForOther` | cluster/cluster_redis.go:313-347 | a run in which a former leader's watchdog extends another node's lease |
| `RedisLease.RedisServer.SetNX` | cluster/cluster_redis.go:251-263 | creates the key exactly if none is live, with the given period |
| `RedisLease.RedisServer.RenewScript` | cluster/cluster_redis.go:48-53 | extends the live key only for the name it holds |
| `RedisLease.RedisMember.Fight` | cluster/cluster_redis.go:248-265 | up to four attempts with pauses in between, of which errored ones may have taken effect; a win means owning the key |
| `RedisLease.FirstAnswerDecides` | cluster/cluster_redis.go:248-265 | errors are retried: the first of four attempts without an error decides, at the moment the pauses before it have led to |
| `RedisLease.RedisMember.SyncLeader` | cluster/cluster_redis.go:267-303 | a round is a read step followed by acting on it or giving up on an unknown node; an election follows exactly if no key is live |
| `RedisLease.RedisMember.WatchDogRound` | cluster/cluster_redis.go:313-375 | a round is a watchdog step: renew under the held leader name, or release and stop |
| `KafkaOffsets.MarkNeverPassesUnfinished` | kafka/v2/consumer.go:648-691 | on every interleaving of claims, workers, retries, commits and rebalances, in single and batch mode, also when other group members advance the offset in between, no message below the marked offset is unfinished |
| `KafkaOffsets.RunKeepsInv` | kafka/v2/consumer.go:204-259 | on every run each queue, also a deleted one, holds consecutive stretches of the log above a finished prefix |
| `KafkaOffsets.PopAdvancesFloor` | kafka/v2/consumer.go:658-669 | every pop of a run moves forward over finished messages only |
| `KafkaOffsets.CommitMarks` | kafka/v2/consumer.go:658-686 | on every run a commit that popped something and ends in a session leaves the mark at least at its queue's floor and at the old mark, at one of the two; otherwise the mark stays |
| `KafkaOffsets.CommitTakesDonePrefix` | kafka/v2/consumer.go:648-691 | from every reachable state an uninterrupted commit removes exactly the maximal finished prefix of its queue and marks the end of it, and does not end earlier |
| `KafkaOffsets.ClaimStarts` | kafka/v2/consumer.go:204-207 | a claim reads on from the committed offset in a set session; what lies between is finished elsewhere |
| `KafkaOffsets.CleanupLeaves` | kafka/v2/consumer.go:190-201 | a rebalance ends claim, queue and session, and the next claim can start |
| `KafkaOffsets.OneOwnerBoundedCalls` | kafka/v2/consumer.go:482-631 | on every run an item has at most one owner, at most max(1, retry count) handler calls, and dead-letter calls only after exactly that many failures, at most max(1, count) |
| `KafkaOffsets.NothingIsLost` | kafka/v2/consumer.go:204-259 | on every run in which no claim ends and no timer is stopped, every item that is not over is held exactly once |
| `KafkaOffsets.HandOvers` | kafka/v2/consumer.go:452-508 | a taken item goes from the channel to a worker, a fired timer's and a sent one to the channel |
| `KafkaOffsets.LettingGo` | kafka/v2/consumer.go:482-508 | an abandoned item is over and unfinished; a stopped timer only forgets its item |
| `KafkaOffsets.WorkItem.ProcessMessage` | kafka/v2/consumer.go:482-526 | the item goes through one handler step and the dead-letter steps of the calls made; when it is done, retried, and after which delay |
| `KafkaOffsets.WorkItem.ProcessBatch` | kafka/v2/consumer.go:559-600 | the batch goes through the handler and dead-letter steps of all calls made; when it is done, and that its calls are bounded |
| `KafkaOffsets.WorkItem.HandleDeadLetter` | kafka/v2/consumer.go:528-557 | the dead-letter steps of the calls made, ended by success, by exhaustion or by closing |
| `RingQueue.SafeRingQueue.Enqueue` | pkg/basic/safe_ring_queue.go:49-60 | appends exactly if there is room, else changes nothing |
| `RingQueue.SafeRingQueue.Dequeue` | pkg/basic/safe_ring_queue.go:62-74 | removes and returns the oldest element, or reports emptiness |
| `RingQueue.SafeRingQueue.Peek` | pkg/basic/safe_ring_queue.go:76-83 | returns the oldest element |
| `RingQueue.DonePrefix` | kafka/v2/consumer.go:658-669 | the length of the maximal finished prefix |
| `RingQueue.PopDone` | kafka/v2/consumer.go:658-669 | the commit loop removes exactly the maximal finished prefix and returns its last offset |
| `Retry.RetryDelayWithBase` | kafka/retry.go:63-81 | the loop, with 64-bit wrap-around; for caps up to 2^62 the delay is min(base * 2^(attempt-1), cap) |
| `Retry.DelayIsCappedPower` | kafka/retry.go:63-81 | min(base * 2^(attempt-1), cap) for every attempt and base, for caps up to 2^62 |
| `Retry.CapWorksIff` | kafka/retry.go:63-81 | a cap is respected for all bases and attempts if and only if it is at most 2^62 |
| `Retry.Run` | kafka/retry.go:17-56 | number of calls, outcome, and delays of the retry loop, with cancellation at every point |
| `FsCache.StepKeepsInv` | web/app/fs.go:831-891 | every step of a request or the cleaner keeps reference counts, cache entries and responsibility for files consistent |
| `FsCache.ReleasedFilesAreUnreachable` | web/app/fs.go:734-741 | on every interleaving the count is the number of holders; a file is released at most once, then without holder and out of reach |
| `FsCache.NoUseAfterRelease` | web/app/fs.go:971-983 | once released, a file is never held again at any later moment |
| `FsCache.NoHandleLeaks` | web/app/fs.go:743-782 | all handles of a released big file are closed, and no two requests read through one handle |
| `FsCache.RequestsGetTheirFile` | web/app/fs.go:824-887 | on every interleaving, every file that a request holds, reads or closes, and every cached file, was opened for the path and the cache asked for; without write permission the file for the compressed cache may itself be uncompressed |
| `FsCache.LookupFinds` | web/app/fs.go:831-836 | a lookup of a cached slot holds the cached file at once and opens none; otherwise it has missed that slot |
| `FsCache.NoSecondOpen` | web/app/fs.go:838-869 | a request that has its file never opens one afterwards, on any continuation |
| `FsCache.OpenOpens` | web/app/fs.go:838-846 | a request that missed opens a file for what it asked for and is the only one to carry it |
| `FsCache.CacheChanges` | web/app/fs.go:868-885 | an opened file is cached unless its slot is by then, and the request holds the cached one; the cleaner removes exactly the stale entries |
| `FsCache.HandlesAreReused` | web/app/fs.go:410-427 | on every run a big-file reader takes the latest pooled handle before opening one, and gives it back when it closes well |
| `FsCache.ReadersStart` | web/app/fs.go:743-796 | what handle reading starts with for small files, big files without pooled handles, and failed opens |
| `FsCache.RequestsEnd` | web/app/fs.go:734-741 | however a request leaves its file, it gives up exactly its own hold |
| `FsCache.SplitPending` | web/app/fs.go:434-444 | files still read stay pending, exactly the others are collected, each as often as it was listed |
| `FsCache.SweepEntries` | web/app/fs.go:989-1005 | removes exactly the stale entries and sorts their files by whether they are read, listing none twice |
| `FsCache.CleanCache` | web/app/fs.go:429-449 | the locked part of a pass performs exactly the cleaner's step and lists no file twice |
| `FsCache.ReleaseFiles` | web/app/fs.go:451-453 | the unlocked part releases every collected file exactly once and no other |
| `Chains.Unlink` | pkg/basic/linked_hash_map.go:68-85 | relinking takes one node out of a doubly linked chain and leaves a chain |
| `Chains.Bypass` | pkg/cache/lru.go:107-118 | the cache's relinking takes out a node that is not the head, and leaves the chain alone for a new node |
| `Chains.PushFront` | pkg/basic/linked_hash_map.go:138-160 | a node outside the chain becomes its head |
| `Chains.WithoutAt` | pkg/basic/linked_hash_map.go:68-85 | removing a key cuts its one entry out of the sequence |
| `LinkedHashMaps.LinkedHashMap.Put` | pkg/basic/linked_hash_map.go:40-58 | appends a new key at the end or replaces the value in place |
| `LinkedHashMaps.LinkedHashMap.Get` | pkg/basic/linked_hash_map.go:60-66 | the value of the key's entry, if any |
| `LinkedHashMaps.LinkedHashMap.Remove` | pkg/basic/linked_hash_map.go:68-85 | the entries without the key, in order; the chain stays well linked and equal to the map |
| `LinkedHashMaps.LinkedHashMap.RemoveFirst` | pkg/basic/linked_hash_map.go:87-94 | drops the first entry |
| `LinkedHashMaps.LinkedHashMap.RemoveLast` | pkg/basic/linked_hash_map.go:96-103 | drops the last entry |
| `LinkedHashMaps.LinkedHashMap.MoveToHead` | pkg/basic/linked_hash_map.go:130-160 | the key's entry comes first, the others keep their order |
| `LinkedHashMaps.LinkedHashMap.Size` | pkg/basic/linked_hash_map.go:105-107 | the number of entries |
| `LinkedHashMaps.LinkedHashMap.Keys` | pkg/basic/linked_hash_map.go:114-120 | the walk ends and yields each key once, in order |
| `LinkedHashMaps.LinkedHashMap.Values` | pkg/basic/linked_hash_map.go:122-128 | the walk ends and yields the values in order |
| `LinkedHashMaps.PutThenGet` | pkg/basic/linked_hash_map.go:40-66 | after a Put the key has the value and every other key its own; a new key comes last, else the order stays |
| `LinkedHashMaps.RemoveThenGet` | pkg/basic/linked_hash_map.go:60-85 | after a Remove the key is gone and every other key has its value |
| `LinkedHashMaps.FrontThenGet` | pkg/basic/linked_hash_map.go:130-160 | MoveToHead puts the key first and keeps all values and the other keys' order |
| `LruCaches.LRUCache.GetValue` | pkg/cache/lru.go:50-63 | the value, if resident, and its entry becomes the most recent |
| `LruCaches.LRUCache.PutValue` | pkg/cache/lru.go:65-88 | the entry becomes the most recent, the least recent goes if there are too many, the size stays within capacity |
| `LruCaches.LRUCache.MoveToHead` | pkg/cache/lru.go:102-130 | the node, from the chain or new, heads the chain and the others keep their order |
| `LruCaches.LRUCache.RemoveTail` | pkg/cache/lru.go:90-100 | exactly the least recent entry goes, from chain and map |
| `LruCaches.LruInclusion` | pkg/cache/lru.go:50-130 | after any operations the list of the smaller cache is the larger one's restricted to its keys, and it is as full as it can be |
| `LruCaches.ResidentInLarger` | pkg/cache/lru.go:50-130 | a key resident in the smaller cache is resident in the larger with the same value |
| `LruCaches.RecencyOrder` | pkg/cache/lru.go:50-130 | after any operations the keys stand in falling order of the last operation that named them, each with the value of its last Put |
| `LruCaches.PutDropsOldest` | pkg/cache/lru.go:65-100 | a Put of a new key into a full cache drops exactly the resident key whose last use is longest ago |
| `LfuCaches.IncreasedPartitioned` | pkg/cache/lfu.go:76-91 | `increase` keeps the buckets a partition of the keys by use count, each in order of last use, and records one more use |
| `LfuCaches.IncreasedMin` | pkg/cache/lfu.go:76-91 | `increase` keeps `minUsed` the least count with a non-empty bucket |
| `LfuCaches.LastIsVictim` | pkg/cache/lfu.go:52-56 | the last key of the `minUsed` bucket has the least use count and, among those, the least recent use |
| `LfuCaches.EvictedPartitioned` | pkg/cache/lfu.go:52-56 | eviction keeps the partition, though an empty bucket may stay |
| `LfuCaches.BucketLists.Remove` | pkg/cache/lfu.go:78-80 | one bucket list loses the key; no other list, which may share no node with it, changes |
| `LfuCaches.BucketLists.RemoveLast` | pkg/cache/lfu.go:53 | one bucket list loses its last key, which is returned; no other list changes |
| `LfuCaches.BucketLists.Front` | pkg/cache/lfu.go:85-90 | the key heads one bucket list, made if missing; no other list changes |
| `LfuCaches.LFUCache.Increase` | pkg/cache/lfu.go:76-91 | the changes of the bucket lists amount to `increase` on the tables |
| `LfuCaches.LFUCache.Get` | pkg/cache/lfu.go:64-74 | the value, and one more use of a resident key |
| `LfuCaches.LFUCache.Put` | pkg/cache/lfu.go:46-62 | stores the value and counts the use; a full cache first loses the key of least (count, last use); fails exactly for capacity 0 |
| `PriorityQueues.SwapUp` | pkg/basic/object_priority_queue.go:61-71 | one round of `up` moves the single gap in the heap order to the parent |
| `PriorityQueues.SwapDown` | pkg/basic/object_priority_queue.go:46-59 | one round of `down` ends with heap order or moves the gap to the chosen child |
| `PriorityQueues.RootIsBest` | pkg/basic/object_priority_queue.go:107-113 | no element of a heap is better than the root |
| `PriorityQueues.ObjectPriorityQueue.Offer` | pkg/basic/object_priority_queue.go:35-44 | keeps the heap and adds exactly the element |
| `PriorityQueues.ObjectPriorityQueue.Up` | pkg/basic/object_priority_queue.go:61-71 | restores the heap and keeps the elements |
| `PriorityQueues.ObjectPriorityQueue.Down` | pkg/basic/object_priority_queue.go:46-59 | ends, restores the heap and keeps the elements |
| `PriorityQueues.ObjectPriorityQueue.Poll` | pkg/basic/object_priority_queue.go:87-105 | removes exactly one element, extreme by `String` order, through the shrink copy too |
| `PriorityQueues.ObjectPriorityQueue.Peek` | pkg/basic/object_priority_queue.go:107-113 | an element no other is better than, or none |
| `PriorityQueues.Drain` | pkg/basic/object_priority_queue.go:87-105 | polling until empty yields a sorted permutation of the contents |
| `PriorityQueues.SortedByText` | pkg/basic/object_priority_queue.go:73-79 | a max queue is sorted by falling strings, any other by rising ones |
| `DelayQueues.DecimalOrder` | pkg/basic/delay_queue.go:32-34 | string order of two decimals, exactly: the shorter number against the leading digits of the longer |
| `DelayQueues.DecimalIs` | pkg/basic/delay_queue.go:32-34 | the decimal string of a number stands for it and has no leading zeros |
| `DelayQueues.SameWidthOrder` | pkg/basic/delay_queue.go:32-34 | with equally many digits string order is numeric order |
| `DelayQueues.ShorterCanSortLater` | pkg/basic/delay_queue.go:32-34 | with different numbers of digits it need not be |
| `DelayQueues.DelayQueue.Add` | pkg/basic/delay_queue.go:54-64 | adds exactly the item and, for deadlines of one width, keeps the timer no later than the earliest deadline |
| `DelayQueues.DelayQueue.TryTake` | pkg/basic/delay_queue.go:75-99 | takes only what is due within a microsecond, one of least deadline; takes nothing only if nothing is due |
| `DelayQueues.DelayQueue.TakeWithStop` | pkg/basic/delay_queue.go:72-113 | over the whole wait, with items arriving meanwhile: nothing is lost, what is returned has least deadline and is at most a microsecond early |
| `Numerals.NumeralOrder` | pkg/tools/uuid.go:48-53 | fixed-width numerals with growing digit characters are injective and compare bytewise as their numbers do |
| `Base62.WidthSuffices` | pkg/tools/uuid.go:26-27 | 62^22 exceeds 2^128 |
| `Base62.DigitIs` | pkg/tools/uuid.go:26-26 | the digits run through the decimal digits, then the upper-case, then the lower-case letters |
| `Base62.GenerateId` | pkg/tools/uuid.go:42-56 | the loop writes the 22-digit numeral and leaves nothing of a 128-bit value |
| `Base62.IdsSortLikeValues` | pkg/tools/uuid.go:42-56 | ids with one prefix are distinct for distinct values and sort like them |
| `Args.DelAllArgs` | web/protocol/args.go:255-268 | keeps exactly the entries with another key, in order, while the whole backing array stays a permutation and the part beyond the slice is untouched |
| `Args.SetArgBytes` | web/protocol/args.go:197-212 | the first entry of the key is replaced, or one is appended |
| `Args.AllocArg` | web/protocol/args.go:164-178 | one more entry, whose slot keeps what it held, or an empty one behind a larger copy |
| `Args.PeekArgBytes` | web/protocol/args.go:231-239 | the value of the first entry with the key |
| `Args.PeekAfterDelete` | web/protocol/args.go:231-268 | after a delete the key is absent and every other key reads as before |
| `Args.PeekAfterSet` | web/protocol/args.go:197-239 | after a set the key reads as set and every other key as before |
| `Args.SetThenDeleteOrSet` | web/protocol/args.go:197-268 | a set is undone by a delete of its key and overwritten by a later set |
| `Cookies.CookiesRoundTrip` | web/protocol/cookie.go:254-331 | parsing a printed list gives the list back if and only if every cookie is clean: separators, outer spaces, quotes and empty parts all decided |
| `Cookies.PieceRoundTrip` | web/protocol/cookie.go:299-331 | the same, exactly, for one cookie |
| `Cookies.ParsedNoSemi` | web/protocol/cookie.go:286-331 | no parsed cookie contains a semicolon, whatever the header |
| `Cookies.DecodedIs` | web/protocol/cookie.go:564-577 | decoding leaves a string alone if and only if it has no outer spaces and no quotes to strip |
| `Cookies.DecodedExactly` | web/protocol/cookie.go:564-577 | decoding strips all outer spaces and then, if asked for, one pair of enclosing quotes, and nothing else |
| `Cookies.AppendRequestCookieBytes` | web/protocol/cookie.go:254-267 | the loop appends the printed list |
| `Cookies.DecodeCookieArg` | web/protocol/cookie.go:564-577 | the trimming loops compute the decoding |
| `Cookies.CookieScanner.Next` | web/protocol/cookie.go:299-331 | takes the first piece off the header and decodes it; stops exactly on an empty rest |
| `Cookies.ParseRequestCookies` | web/protocol/cookie.go:286-297 | in the backing array, behind the entries already there, come the cookies of all pieces but the blank ones |
| `Cookies.PrintThenParse` | web/protocol/cookie.go:254-297 | the two loops are inverse exactly on lists of clean cookies |

## Left out

- Changing membership (`loadNodes`, `watchReplicas`, DNS discovery): quorums are computed from the local node set, so the quorum results are for a fixed one.
- Process crashes, `Start` after `Close`, and `Close` itself in the cluster: votes and terms live in memory only.
- The leader role of nodes signed through the AskLeader adoption: it is a step of the model, but nothing is claimed about it.
- `modeSingle` and its extra SignFollower event.
- The 32-bit truncation of terms in messages, and the interleaving of other steps inside one AskVote or AskLeader handler: each is one step. What signLeader sets after its term check (role, leader, term) is set in one step.
- Heartbeats: their only effect on the election state, releasing a leader, is the `Release` step.
- KafkaOffsets.MarkNeverPassesUnfinished: is about one partition at a time, without replay offsets and up to Close's drain, which pops unfinished items on purpose; it relies on Sarama ending all claims of a session before Cleanup.
- Ring-queue capacity inside `KafkaOffsets`: a full queue only delays the claim, and the bounded queue is `RingQueue`.
- `kafka/v1`, and producers.
- RedisLease.DisciplinedRunsAreSafe: is for a positive lease period; with any other, renewal is an error (`cluster/cluster_redis.go:354-357`).
- RedisLease.RedisMember.Fight: what other nodes do while it sleeps is left to the steps of runs; the method itself lets only time pass.
- The steps inside one watchdog round (reading the leader's name, the script, the release), which is one step here; so is the reset of the watchdog's running flag, which the code does a little later (`cluster/cluster_redis.go:319`), so that a sign in between would start no new watchdog.
- Redis node registration and discovery.
- FsCache.StepKeepsInv: the step functions of requests are on values, since requests interleave; only the cleaner's loops are written as loops.
- Byte ranges, compression, directory indexes and the small-file reader pool of `web/app/fs.go`.
- The gap between the read lock and the write lock in LRU `Get`, which is one step here.
- Deadlines before 1970, whose decimal strings have a sign, have no order result; the delay queue is still proved to lose nothing.
- Args.DelAllArgs: an entry is one value, so byte buffers inside entries are not modelled beyond never being lost or repeated.
- `pkg/basic/linked_list.go`, `pkg/nio`, response cookies, query-string arguments, HTTP headers, metrics, logging, database and HTTP clients.
- Timers, back-off sleeps, network connections, TLS and the internals of Sarama and of the Redis client.
