# Redis 6.2 in Dafny

A model of the parts of Redis 6.2.14 whose correctness is hardest to see by reading, with proofs.
`dafny verify dfyconfig.toml` checks the whole project.

## What is modelled

**Cluster epochs, elections and slots** (`cluster.c`). `ClusterView` gives what one node knows and what every
packet, timer tick and command does to it. `ClusterProtocol` puts the nodes and the packets in flight together:
packets may be lost, delayed and reordered. A run is any sequence of steps from an initial state.
`ClusterElection` and `ClusterSafety` prove that at most one replica wins an epoch and that epochs are dominated
and never go back. `ClusterStaleVote` builds the run that shows why one condition is needed: the count of votes is
reset before the new election epoch is set, and a vote that arrives in between is counted for the next election.
`ClusterCollision` bounds the number of epoch collisions by the number of greater node IDs. `ClusterSlots` proves
that slot claims converge. `ClusterFate` and `ClusterSurvival` settle when a packet stops the server: exactly
when, and that it never happens while replicas know their masters and own no slots. `ClusterFailover` and
`ClusterClaims` say what a failover and its announcements mean, from the timer of the winner to the replaced
master that comes back, and how an outdated table is put right. `ClusterServer` is the state in memory, with slot
bitmaps and counters that every method keeps in agreement with the slot table.

**The append only file** (`aof.c`). `AofLog` and `AofLoader` cover the printer and the loader that tolerates a
file cut at any byte; `AofTransactions` says what a log of commands and transactions means. `AofBuffer` is the
append buffer under short writes and write errors. `AofRewriteSpec` is the rewrite protocol between the server and
its child over pipes, as a state machine; `AofRewrite` has the buffer blocks and the event handlers.

**ACL rules** (`acl.c`). `AclSpec` says what each rule does to a user, `AclRules` what the printed rules do, and
`Acl` is the user object with the greedy rule printer, proved to be undone by the rule parser. `AclPermissions`
and `AclAccess` read off the text of the rules what a user may run and touch.

**CRC-64** (`crc64.c`, `crcspeed.c`). The slice-by-8 routines for both byte orders equal the bit-by-bit reference,
which `Crc64Poly` proves to be the remainder of a division of polynomials.

**Blocked clients** (`blocked.c`) and **linked lists** (`adlist.c`). Waiting lists, ready keys and counters, the
serving loops with their termination, and the pointer list itself.

**Bit operations** (`bitops.c`). BITFIELD, BITPOS, BITCOUNT and BITOP with their word-wise fast paths;
`BitFieldReplies` states every reply of BITFIELD in bits and arithmetic.

## What turned out false

- Election safety fails without a condition on the delivery of votes: `ClusterStaleVote.StaleVoteElectsTwo`. The
  condition a run can be checked for is that no vote is counted by a node that has not asked since its last reset;
  `ClusterSafety.CountIsExact` says that the count is the number of voters exactly then.
- Not every slot update returns. A replica that was given a slot by ADDSLOTS stops at the assertion of
  `clusterSetMaster` when its master loses its last slot (`ClusterFate.SlotOfReplicaAborts`, exactly when:
  `ClusterFate.AssertionFires`), and a replica without a known master stops at the first claim to a free slot
  (`ClusterFate.MissingMasterStops`, `ClusterFate.MissingMasterRead`). `ClusterFate.ProcessReady` and
  `ClusterSurvival.NobodyStops` give the condition that rules both out.
- A wakeup can be lost when a value is overwritten: `dbOverwrite` signals nothing, so a client that waits for a list
  under a key where a list replaces another value goes on waiting (`Blocked.OverwriteLosesWakeup`).
  `Blocked.Scheduler.Overwrite` says exactly when nobody is left waiting.
- A log that is cut inside a command of an open transaction is truncated behind the MULTI, not before it, so that
  commands appended later are queued and lost by the next load: `AofLoader.StrandedTransaction`. In all other cases
  recovery is sound: `AofLoader.RecoveredLogContinues`.
- BITFIELD SET with saturation is wrong for values far below the range of a signed field:
  `BitFieldSpec.LowestSetsGreatest`; `BitFieldSpec.SetSaturates` gives the exact condition. On unsigned fields it is
  wrong exactly for negative values: `BitFieldSpec.SetSaturatesUnsigned`.
- An UPDATE in which a master reports itself is dropped by every receiver, because the header of the packet has raised
  the known epoch already: `ClusterClaims.SelfUpdateIsIgnored`. `ClusterClaims.CorrectedMasterYields` is the case in
  which a correction works.
- `acl.c` promises that `reset` gives a user as after its creation. It never does: the flag that payloads are checked is
  set afterwards and not before, and this is the only difference (`AclAccess.ResetIsNotNew`).
- Where a comment and the code of `bitops.c` disagree on the code returned for a wrapped underflow, the model follows
  the code.

## Model

| member | source | states |
|---|---|---|
| `ClusterSafety.AtMostOneWinner` | framework/redis/redis-6.2/src/cluster.c:3209-3302 | Election safety over every run: with an agreed set of slot-owning masters for the epoch and no vote delivered between a reset and the next request, all replicas that pass the quorum test of one epoch are the same replica. |
| `ClusterSafety.OneWinnerPerEpoch` | framework/redis/redis-6.2/src/cluster.c:3287-3302 | The same with the electorate given by the votes actually granted: two winners of one epoch whose known cluster sizes cover the voters are equal. |
| `ClusterSafety.ElectionSafety` | framework/redis/redis-6.2/src/cluster.c:3273-3302 | Two winners of one epoch whose counts hold no stale vote are equal, in every run, because majorities meet and nobody votes twice. |
| `ClusterSafety.CountIsExact` | framework/redis/redis-6.2/src/cluster.c:2178-2190 | `failover_auth_count` equals the number of distinct voters that granted this election if and only if no vote was counted before the request was sent. |
| `ClusterSafety.OneVotePerEpoch` | framework/redis/redis-6.2/src/cluster.c:2911-2992 | Along every run no node grants two candidates a vote in one epoch. |
| `ClusterSafety.GrantsNeedMaster` | framework/redis/redis-6.2/src/cluster.c:2897-2992 | Only a master that owns slots votes, and the vote is recorded for exactly the epoch that was requested. |
| `ClusterSafety.EpochDominance` | framework/redis/redis-6.2/src/cluster.c:1831-1843 | In every reachable state no known config epoch, last vote or election epoch exceeds the node's current epoch, and no packet in flight carries an epoch above its own or its sender's current epoch. |
| `ClusterSafety.EpochsNeverGoBack` | framework/redis/redis-6.2/src/cluster.c:1831-1843 | Along every run no current epoch decreases, and the epoch a node knows of another never decreases as long as it is not told to forget that node. |
| `ClusterSafety.StepEpochs` | framework/redis/redis-6.2/src/cluster.c:1755-2244 | Every step of the protocol (delivery, loss, send, timer, bump, local change, forgetting a node) keeps epoch dominance. |
| `ClusterSafety.NextElection` | framework/redis/redis-6.2/src/cluster.c:1755-2244 | Every step keeps the election invariant: requests were made, a voter votes once per epoch, votes in flight are covered by grants, counts are what was received, winners had a quorum. |
| `ClusterSafety.RunElection` | framework/redis/redis-6.2/src/cluster.c:1755-2244 | The election invariant holds at every point of every run. |
| `ClusterStaleVote.StaleVoteElectsTwo` | framework/redis/redis-6.2/src/cluster.c:3209-3283 | A concrete run in which one vote delivered between the reset of the count and the next request makes two different replicas win the same epoch: the condition of election safety cannot be dropped. |
| `ClusterEffects.ProcessRoutine` | framework/redis/redis-6.2/src/cluster.c:1755-2244 | A packet that is neither a vote nor a request changes no election field, moves no epoch back, and everything sent in answer is neither a vote nor a request. |
| `ClusterEffects.VoteEffects` | framework/redis/redis-6.2/src/cluster.c:2897-2998 | A vote is sent exactly when the conditions hold; then the voter had not voted in the epoch, all three epochs become the requested one, and one ack carries it. |
| `ClusterEffects.CountEffects` | framework/redis/redis-6.2/src/cluster.c:2178-2190 | An ack adds one to the count or changes nothing, and sends nothing. |
| `ClusterEffects.RequestEffects` | framework/redis/redis-6.2/src/cluster.c:3273-3283 | Asking for votes takes a fresh epoch that every request carries, and does not reset the count. |
| `ClusterEffects.TickEffects` | framework/redis/redis-6.2/src/cluster.c:3137-3306 | Outside a request the failover timer sends no vote and no request and keeps epochs dominated. |
| `ClusterEffects.ForgetEffects` | framework/redis/redis-6.2/src/cluster.c:998-1025 | Forgetting a node keeps the view well formed and dominated, changes no election, and what is known of other nodes stays. |
| `ClusterEffects.BumpEffects` | framework/redis/redis-6.2/src/cluster.c:1170-1185 | A bump strictly raises this node's config epoch and keeps it dominated. |
| `ClusterCollision.CollisionsEnd` | framework/redis/redis-6.2/src/cluster.c:1170-1185 | In every run in which only the collision handler sets config epochs, a node with k greater node IDs changes its own epoch at most k times, however packets are delayed. |
| `ClusterCollision.StepOwn` | framework/redis/redis-6.2/src/cluster.c:2122-2129 | In one step a node's own epoch changes only because a PING or PONG of a master with a greater ID shows the same epoch. |
| `ClusterCollision.FreshPing` | framework/redis/redis-6.2/src/cluster.c:2122-2129 | A fresh PING between two masters makes the receiver bump if and only if the epochs are equal and the sender's ID is greater. |
| `ClusterCollision.QuietIffDistinct` | framework/redis/redis-6.2/src/cluster.c:1170-1185 | Two masters have distinct epochs if and only if no fresh PING between them makes one bump. |
| `ClusterCollision.MastersKnown` | framework/redis/redis-6.2/src/cluster.c:1170-1185 | In every run of masters nobody is ever thought to have a greater epoch than it has. |
| `ClusterCollision.SettledIffDistinct` | framework/redis/redis-6.2/src/cluster.c:1170-1185 | At every moment of every run of masters: distinct epochs if and only if no fresh PING makes one bump. |
| `EpochHistory.FewValues` | framework/redis/redis-6.2/src/cluster.c:1170-1185 | The k greatest nodes have at most k different epochs between them at all moments together. |
| `EpochHistory.FewBumps` | framework/redis/redis-6.2/src/cluster.c:1170-1185 | A node with k greater ones changes its epoch at most k times in any history where epochs are only left upwards and only when a greater node once had them. |
| `ClusterSlots.ClaimTable` | framework/redis/redis-6.2/src/cluster.c:1638-1708 | A master that is heard and survived gets exactly the claimed slots that are free or owned with a smaller epoch and not being imported; every other slot stays. |
| `ClusterSlots.CleanClaimChangesNothing` | framework/redis/redis-6.2/src/cluster.c:2061-2076 | The `dirty_slots` shortcut skips the update only when it would change nothing at all. |
| `ClusterSlots.RebindRaisesEpoch` | framework/redis/redis-6.2/src/cluster.c:1638-1708 | Whatever packet of another node is processed and survived, a slot passes from one owner to another only if the new owner is known with a strictly greater config epoch. |
| `ClusterSlots.UpdateRaises` | framework/redis/redis-6.2/src/cluster.c:2209-2230 | The same for an UPDATE packet on its own, when it is survived. |
| `ClusterSlots.ReplicaTable` | framework/redis/redis-6.2/src/cluster.c:2016-2051 | A node that announces a master loses its slots and gains none. |
| `ClusterSlots.ClaimsConverge` | framework/redis/redis-6.2/src/cluster.c:1638-1708 | From an unassigned table with nothing importing, on a master or a replica that knows its master, claims of masters with fixed slots and distinct epochs, in any order and repetition, leave every claimed slot with the claimant of greatest epoch and every other slot unassigned; every one of them is survived. |
| `ClusterSlots.OrderIsIrrelevant` | framework/redis/redis-6.2/src/cluster.c:1638-1708 | Two deliveries of the same packets in different orders and multiplicities end in the same slot table, and all are survived. |
| `ClusterFate.AssertionFires` | framework/redis/redis-6.2/src/cluster.c:1723-1729 | The assertion of `clusterSetMaster` that this node owns no slot fails if and only if a replica keeps a slot of its own while the claim takes all slots of its master (and redirection and migration are not ruled out). |
| `ClusterFate.MissingMasterRead` | framework/redis/redis-6.2/src/cluster.c:1697-1723 | The missing master of a replica is read through if and only if a claim names a free slot that is not being imported. |
| `ClusterFate.SlotOfReplicaAborts` | framework/redis/redis-6.2/src/cluster.c:1723-1729 | A concrete replica that owns slot 7 and a concrete packet that stops it at the assertion. |
| `ClusterFate.MissingMasterStops` | framework/redis/redis-6.2/src/cluster.c:1660-1723 | A concrete replica without a known master and a concrete packet that stops it. |
| `ClusterFate.UpdateSlotsReady` | framework/redis/redis-6.2/src/cluster.c:1638-1744 | A replica that knows its master and owns no slot survives every slot update and stays so. |
| `ClusterFate.ProcessReady` | framework/redis/redis-6.2/src/cluster.c:1755-2244 | The same for every packet of another node. |
| `ClusterSurvival.NobodyStops` | framework/redis/redis-6.2/src/cluster.c:1755-2244 | In every run that starts with ready nodes, and in which operators leave nodes ready, every packet in flight is survived by its receiver whenever it arrives. |
| `ClusterSurvival.RunSound` | framework/redis/redis-6.2/src/cluster.c:1755-2244 | All nodes are ready at every point of such a run, through promotions, bumps and forgotten nodes. |
| `ClusterSurvival.TickReady` | framework/redis/redis-6.2/src/cluster.c:3137-3306 | The failover timer keeps a node ready. |
| `ClusterServer.DelAgrees` | framework/redis/redis-6.2/src/cluster.c:3901-3908 | Where the table names an owner its bit is set, so the assertion of `clusterDelSlot` holds, and clearing both keeps table, bitmaps and counters in agreement. |
| `ClusterServer.AddAgrees` | framework/redis/redis-6.2/src/cluster.c:3891-3896 | Binding a free slot keeps table, bitmaps and counters in agreement. |
| `ClusterServer.Server.constructor` | framework/redis/redis-6.2/src/cluster.c:479-560 | A new node: only itself, no slots, all epochs zero, size 1, agreement holds. |
| `ClusterServer.Server.AbsValid` | framework/redis/redis-6.2/src/cluster.c:3812-3885 | The bitmaps kept in memory are exactly the slots the table gives each node. |
| `ClusterServer.Server.DelSlot` | framework/redis/redis-6.2/src/cluster.c:3901-3908 | Unbinds the slot, reports whether it had an owner, keeps the agreement and everything else. |
| `ClusterServer.Server.AddSlot` | framework/redis/redis-6.2/src/cluster.c:3891-3896 | Binds a free slot; a bound one is refused and nothing changes. |
| `ClusterServer.Server.DelNodeSlots` | framework/redis/redis-6.2/src/cluster.c:3912-3922 | Exactly the slots of the node become unassigned and their number is returned. |
| `ClusterServer.Server.DelNode` | framework/redis/redis-6.2/src/cluster.c:998-1025 | The node disappears, its slots become unassigned, imports from it and migrations to it end, its replicas have no known master. |
| `ClusterServer.Server.SetNodeAsMaster` | framework/redis/redis-6.2/src/cluster.c:1611-1625 | A replica becomes a master without one, a master stays as it is. |
| `ClusterServer.Server.SetMaster` | framework/redis/redis-6.2/src/cluster.c:4118-4134 | This node becomes a replica of another, and a former master closes its importing and migrating slots; requires what the two assertions of the original require. |
| `ClusterServer.Server.TakeSlots` | framework/redis/redis-6.2/src/cluster.c:1667-1708 | The scan binds exactly the slots that may be taken and counts those claimed and those lost by the current master. |
| `ClusterServer.Server.UpdateSlotsConfigWith` | framework/redis/redis-6.2/src/cluster.c:1638-1744 | From every state of agreement the slot update ends in agreement. It reports exactly when it reads through a missing master or fails the assertion of `clusterSetMaster`; otherwise it gives the new table, and the switch to the new owner when the current master lost its last slot. |
| `ClusterServer.Server.Header` | framework/redis/redis-6.2/src/cluster.c:2437-2507 | A packet carries the slots and epoch of the node or of its master and the current epoch. |
| `ClusterServer.Server.SendTo` | framework/redis/redis-6.2/src/cluster.c:2419-2433 | Exactly one packet for every receiver. |
| `ClusterServer.Server.Correct` | framework/redis/redis-6.2/src/cluster.c:2096-2120 | One UPDATE about the owner of the first outdated slot, or none. |
| `ClusterServer.Server.TakeHeader` | framework/redis/redis-6.2/src/cluster.c:1831-1843 | Current epoch and the sender's config epoch become at least what the header shows. |
| `ClusterServer.Server.Demote` | framework/redis/redis-6.2/src/cluster.c:2027-2037 | A master turned replica loses its slots. |
| `ClusterServer.Server.SwitchRole` | framework/redis/redis-6.2/src/cluster.c:2016-2051 | The announced role, with the slots of a demoted master unbound and its new master recorded when it is known. |
| `ClusterServer.Server.HandleCollision` | framework/redis/redis-6.2/src/cluster.c:1170-1185 | The smaller ID of two colliding masters takes a fresh epoch; otherwise nothing changes. |
| `ClusterServer.Server.IsDirty` | framework/redis/redis-6.2/src/cluster.c:2061-2070 | Compares the claim with the bitmap of the sender or its master. |
| `ClusterServer.Server.TakeClaims` | framework/redis/redis-6.2/src/cluster.c:2072-2076 | A dirty claim of a master updates the table, and how that ends is reported. |
| `ClusterServer.Server.ProcessConfig` | framework/redis/redis-6.2/src/cluster.c:2016-2129 | The PING and PONG handler as a whole: roles, claims, correction, collision; nothing follows a claim that stops the server. |
| `ClusterServer.Server.ClaimIsCurrent` | framework/redis/redis-6.2/src/cluster.c:2969-2989 | No claimed slot has an owner with a greater epoch than the request shows. |
| `ClusterServer.Server.MayVote` | framework/redis/redis-6.2/src/cluster.c:2897-2989 | All the conditions for a vote, together and in both directions. |
| `ClusterServer.Server.Vote` | framework/redis/redis-6.2/src/cluster.c:2897-2998 | The vote, its record and the ack, or nothing. |
| `ClusterServer.Server.CountVote` | framework/redis/redis-6.2/src/cluster.c:2178-2190 | The count grows by one exactly when a slot-owning master votes for an epoch not before the requested one. |
| `ClusterServer.Server.ProcessUpdate` | framework/redis/redis-6.2/src/cluster.c:2209-2230 | An UPDATE with a newer epoch makes its node a master with that epoch and moves slots; otherwise nothing changes. How it ends is reported. |
| `ClusterServer.Server.ProcessFail` | framework/redis/redis-6.2/src/cluster.c:2133-2155 | The named node is marked failing unless it is this node or already marked. |
| `ClusterServer.Server.Dispatch` | framework/redis/redis-6.2/src/cluster.c:2016-2230 | Each packet type goes to its handler and to no other. |
| `ClusterServer.Server.ProcessPacket` | framework/redis/redis-6.2/src/cluster.c:1755-2244 | From every state in which table, bitmaps and counters agree, whatever the packet and its sender, they agree afterwards; the packet is survived exactly when the value-level model says so, and then state and answers are those of the model. |
| `ClusterServer.Server.MaxEpoch` | framework/redis/redis-6.2/src/cluster.c:1061-1074 | The greatest of the current epoch and all config epochs. |
| `ClusterServer.Server.BumpWithoutConsensus` | framework/redis/redis-6.2/src/cluster.c:1105-1122 | A fresh epoch when this node has none or not the greatest, and whether it took one. |
| `ClusterServer.Server.UpdateSize` | framework/redis/redis-6.2/src/cluster.c:3980-4000 | `size` is the number of masters that own a slot. |
| `ClusterServer.Server.TakeOver` | framework/redis/redis-6.2/src/cluster.c:3099-3115 | All slots of the old master pass to this node. |
| `ClusterServer.Server.ReplaceYourMaster` | framework/redis/redis-6.2/src/cluster.c:3099-3127 | Promotion: this node is a master with all the slots of its master, the manual failover is over. |
| `ClusterServer.Server.MayFailover` | framework/redis/redis-6.2/src/cluster.c:3155-3205 | The conditions for a replica to fail over, in both directions. |
| `ClusterServer.Server.HandleSlaveFailover` | framework/redis/redis-6.2/src/cluster.c:3137-3306 | The failover timer as a whole, with the packets it sends. |
| `ClusterServer.Server.ContinueElection` | framework/redis/redis-6.2/src/cluster.c:3239-3302 | After the retry test: put off, let expire, ask for votes or win. |
| `ClusterServer.Server.StartOver` | framework/redis/redis-6.2/src/cluster.c:3209-3238 | Count and sent flag reset, a new time, and a PONG to every replica of the same master. |
| `ClusterServer.Server.LocalReplicas` | framework/redis/redis-6.2/src/cluster.c:2683-2702 | The receivers of the local broadcast: other replicas of this node or of its master. |
| `ClusterServer.Server.RequestVotes` | framework/redis/redis-6.2/src/cluster.c:3273-3283 | A fresh epoch, the election set to it, and a request to every other node. |
| `ClusterServer.Server.WinElection` | framework/redis/redis-6.2/src/cluster.c:3287-3302 | Config epoch raised to the election epoch, promotion, PONG to everybody. |
| `AofRewriteSpec.NothingIsLost` | framework/redis/redis-6.2/src/aof.c:95-196 | In every run and after every move, what the child has read, what is in the pipe and what waits in the blocks are together, in order, exactly the bytes fed since the fork. |
| `AofRewriteSpec.RewriteSucceeds` | framework/redis/redis-6.2/src/aof.c:1851-2010 | A successful rewrite leaves the dump followed by every command fed since, once each and in order; it replays to the current data set, the buffer is empty and the next command selects its database. |
| `AofRewriteSpec.RewriteFails` | framework/redis/redis-6.2/src/aof.c:1851-2010 | A rewrite that fails in the child or the server, or is killed, leaves the live file, its buffer and the selected database untouched, and the live log still replays to the current data. |
| `AofRewriteSpec.RewrittenFileLoads` | framework/redis/redis-6.2/src/aof.c:753-971 | The loader accepts the rewritten file and executes the dump and then the fed commands. |
| `AofRewriteSpec.NextInv` | framework/redis/redis-6.2/src/aof.c:1584-1701 | Every move of the parent, the pipe and the child (feed, send, read, stop and ack, drain, exit, flush, fork, kill, done) keeps conservation, the stop agreement and the correctness of the live log. |
| `AofRewriteSpec.RunInv` | framework/redis/redis-6.2/src/aof.c:1584-1701 | The invariant holds at every point of every interleaving. |
| `AofRewriteSpec.LoadRebuildsData` | framework/redis/redis-6.2/src/aof.c:753-971 | Replaying what the loader executes of the rewritten file gives the current data set, for logs without transactions and for whole transactions when MULTI and EXEC change no data by themselves. |
| `AofRewriteSpec.FeedKeepsCurrent` | framework/redis/redis-6.2/src/aof.c:613-679 | Appending what `feedAppendOnlyFile` writes keeps a log replaying to the data set in the database last selected. |
| `AofRewriteSpec.InstallGives` | framework/redis/redis-6.2/src/aof.c:1861-1941 | At success the child's file plus the remaining blocks is the encoding of dump and fed commands. |
| `AofRewrite.Block.Fill` | framework/redis/redis-6.2/src/aof.c:132-141 | Copies as much as fits and keeps the bytes already there. |
| `AofRewrite.Block.Drop` | framework/redis/redis-6.2/src/aof.c:112-119 | Moves the bytes after the first n to the front. |
| `AofRewrite.Buffer.Reset` | framework/redis/redis-6.2/src/aof.c:70-76 | No blocks. |
| `AofRewrite.Buffer.Append` | framework/redis/redis-6.2/src/aof.c:125-171 | The text of all blocks grows by exactly the appended bytes, over block boundaries, and a sender is installed. |
| `AofRewrite.Buffer.Send` | framework/redis/redis-6.2/src/aof.c:112-119 | Takes exactly the first n bytes off. |
| `AofRewrite.Buffer.ChildWriteDiffData` | framework/redis/redis-6.2/src/aof.c:95-122 | Whatever the writes return, sent bytes followed by the rest are the old text; nothing is sent after the stop; with a pipe that takes bytes all is sent and the sender removed. |
| `AofRewrite.Buffer.WriteTo` | framework/redis/redis-6.2/src/aof.c:176-196 | All blocks in order, or an error after a prefix; complete writes always succeed. |
| `AofRewrite.Buffer.Size` | framework/redis/redis-6.2/src/aof.c:79-90 | The length of the text. |
| `AofRewrite.Server.constructor` | framework/redis/redis-6.2/src/aof.c:62-76 | A server with an empty log and nothing pending. |
| `AofRewrite.Server.Feed` | framework/redis/redis-6.2/src/aof.c:613-679 | The same bytes go to the append buffer when the log is on and to the rewrite buffer when a child runs, with a SELECT first when the database changes. |
| `AofRewrite.MovesAreHandlers` | framework/redis/redis-6.2/src/aof.c:1439-2010 | On the server's fields every move of the rewrite protocol is the move that the methods of the server make. |
| `AofRewrite.Server.SendDiff` | framework/redis/redis-6.2/src/aof.c:95-122 | Sends a prefix of the pending bytes, nothing after the stop; on the server's fields this is the send move of the protocol. |
| `AofRewrite.Server.Install` | framework/redis/redis-6.2/src/aof.c:1861-1960 | Appends exactly the pending bytes to the child's file and installs it, or leaves everything alone. |
| `AofRewrite.Server.Fork` | framework/redis/redis-6.2/src/aof.c:1763-1804 | The rewrite buffer is empty, the next command will select its database, the live log is untouched. |
| `AofRewrite.Server.ChildPipeReadable` | framework/redis/redis-6.2/src/aof.c:1680-1701 | A `!` stops the sending and is acknowledged; anything else changes nothing. |
| `AofRewrite.Server.RewriteDone` | framework/redis/redis-6.2/src/aof.c:1851-2010 | Installs the child's file plus exactly the pending bytes, or leaves file, buffer, state and selected database alone; installs when every call works. |
| `AofRewrite.Server.KillChild` | framework/redis/redis-6.2/src/aof.c:215-232 | The child is gone and nothing is pending. |
| `AofRewrite.Receiver.ReadDiff` | framework/redis/redis-6.2/src/aof.c:1439-1449 | The child's copy grows by exactly the contents of the pipe, however the reads are split. |
| `AofRewrite.FeedText` | framework/redis/redis-6.2/src/aof.c:613-679 | The text of a command after its SELECT. |
| `AofLog.TruncatedLogRecovers` | framework/redis/redis-6.2/src/aof.c:753-971 | Every log cut at any byte: the loader executes exactly the whole commands, an unfinished MULTI contributes nothing, and no error exit is taken; with the exact truncation offset. |
| `AofLog.PlainLogRecovers` | framework/redis/redis-6.2/src/aof.c:753-971 | Without transactions the commands executed are exactly the whole ones and the file is cut at the end of the last of them. |
| `AofLog.ReadCommand` | framework/redis/redis-6.2/src/aof.c:552-575 | Print then parse: every printed command is read back, whatever follows it. |
| `AofLog.CutCommand` | framework/redis/redis-6.2/src/aof.c:822-868 | A command cut anywhere is a short read, never a format error. |
| `AofLog.ReadNumber` | framework/redis/redis-6.2/src/aof.c:830-850 | A printed length is read back by `strtol` and `atoi` whatever follows it on the line. |
| `AofLog.WholeExists` | framework/redis/redis-6.2/src/aof.c:753-971 | Every cut has its number of whole commands. |
| `AofLoader.WholeLog` | framework/redis/redis-6.2/src/aof.c:753-971 | An uncut log executes all its commands. |
| `AofLoader.SurvivorIsALog` | framework/redis/redis-6.2/src/aof.c:907-957 | What truncation leaves is the encoding of a prefix of the commands. |
| `AofLoader.RecoveredLogContinues` | framework/redis/redis-6.2/src/aof.c:879-957 | After recovery and further appends, the next load executes what the first one did followed by all new commands, whenever the cut was not inside a command of an open transaction. |
| `AofLoader.StrandedTransaction` | framework/redis/redis-6.2/src/aof.c:879-957 | In exactly the remaining case a command appended after recovery is not executed by the next load, because the MULTI stays in the file. |
| `AofLoader.CutInsideTransaction` | framework/redis/redis-6.2/src/aof.c:879-957 | That case exists: MULTI and half of a SET. |
| `AofLoader.DecimalText` | framework/redis/redis-6.2/src/aof.c:552-575 | The decimal digits of a length. |
| `AofLoader.CatGenericCommand` | framework/redis/redis-6.2/src/aof.c:552-575 | Appends exactly the encoding of the command. |
| `AofLoader.Fgets` | framework/redis/redis-6.2/src/aof.c:822-841 | The end of the line read into a 128-byte buffer. |
| `AofLoader.ReadArguments` | framework/redis/redis-6.2/src/aof.c:839-868 | The arguments of one command, or which way reading them fails. |
| `AofLoader.LoadAppendOnlyFile` | framework/redis/redis-6.2/src/aof.c:753-971 | The loading loop computes the recursive specification: commands executed, outcome and truncation offset. |
| `AofBuffer.AppendOnly.constructor` | framework/redis/redis-6.2/src/aof.c:258-313 | The opened file, an empty buffer. |
| `AofBuffer.AppendOnly.Feed` | framework/redis/redis-6.2/src/aof.c:613-679 | The buffer grows by the text. |
| `AofBuffer.AppendOnly.Write` | framework/redis/redis-6.2/src/aof.c:322-339 | Short and interrupted writes are retried; the file grows by exactly the bytes reported. |
| `AofBuffer.AppendOnly.Flush` | framework/redis/redis-6.2/src/aof.c:360-517 | Unless the server exits (only under the ALWAYS policy) file plus buffer is everything fed and the recorded size is the file length, over short writes, errors and failing or working truncation. |
| `AofBuffer.AppendOnly.TryFsync` | framework/redis/redis-6.2/src/aof.c:519-550 | Under ALWAYS everything written is synced or the server exits. |
| `AclSpec.ApplyOk` | framework/redis/redis-6.2/src/acl.c:825-1014 | Every rule keeps every user well formed: bits and subcommand lists consistent, lists without repetition, flags consistent. |
| `AclSpec.RunOk` | framework/redis/redis-6.2/src/acl.c:825-1014 | Every sequence of rules, refused ones included, gives a well-formed user. |
| `AclSpec.ReachableOk` | framework/redis/redis-6.2/src/acl.c:825-1014 | Every user that rules can build is well formed. |
| `AclSpec.CategoriesAreDistinct` | framework/redis/redis-6.2/src/acl.c:60-86 | The category names are pairwise different, ignoring case, and none is `all`. |
| `AclRules.ApplyCommand` | framework/redis/redis-6.2/src/acl.c:946-993 | The rule printed for a command sets exactly its bit and clears its subcommands. |
| `AclRules.ApplySub` | framework/redis/redis-6.2/src/acl.c:955-985 | The rule printed for a subcommand adds it to the list of its command. |
| `AclRules.ApplyCategory` | framework/redis/redis-6.2/src/acl.c:994-999 | The rule printed for a category sets exactly the bits of its commands. |
| `AclRules.ApplyAll` | framework/redis/redis-6.2/src/acl.c:856-867 | `+@all` and `-@all` set the whole bitmap and drop all subcommands. |
| `AclRules.SamePermissions` | framework/redis/redis-6.2/src/acl.c:1179-1211 | Equal bitmaps and lists give equal permissions for every command that fits the bitmap, whatever the ALLCOMMANDS flags say. |
| `AclRules.OverflowPermissions` | framework/redis/redis-6.2/src/acl.c:1179-1211 | For a command number past the bitmap, permissions agree if and only if the flags do. |
| `AclRules.FixBit` | framework/redis/redis-6.2/src/acl.c:560-569 | A single-command rule repairs one bit and leaves the rest. |
| `AclRules.FixSub` | framework/redis/redis-6.2/src/acl.c:571-582 | A subcommand rule repairs one entry and leaves the rest. |
| `AclRules.EndOfRebuild` | framework/redis/redis-6.2/src/acl.c:593-601 | After all commands are repaired, bitmap and lists are equal. |
| `Acl.CommandIndex` | framework/redis/redis-6.2/src/acl.c:675-681 | The command with the name, ignoring case. |
| `Acl.CategoryIndex` | framework/redis/redis-6.2/src/acl.c:214-221 | The category with the name, ignoring case. |
| `Acl.SearchKey` | framework/redis/redis-6.2/src/acl.c:874-945 | The first match in a list. |
| `Acl.User.constructor` | framework/redis/redis-6.2/src/acl.c:472-473 | A user with every field zero. |
| `Acl.User.Create` | framework/redis/redis-6.2/src/acl.c:244-265 | A new user: nothing allowed, default channels. |
| `Acl.User.SetCommandBit` | framework/redis/redis-6.2/src/acl.c:397-406 | Sets one bit; clearing one drops the ALLCOMMANDS flag. |
| `Acl.User.ResetSubsFor` | framework/redis/redis-6.2/src/acl.c:685-692 | The subcommands of one command are gone. |
| `Acl.User.SetCategoryBits` | framework/redis/redis-6.2/src/acl.c:414-429 | Sets the bits of exactly the commands of the category and drops their subcommands, or reports an unknown category. |
| `Acl.User.AddAllowedSub` | framework/redis/redis-6.2/src/acl.c:712-739 | Adds a subcommand once. |
| `Acl.User.Keywords` | framework/redis/redis-6.2/src/acl.c:828-873 | Each keyword rule. |
| `Acl.User.Commands` | framework/redis/redis-6.2/src/acl.c:946-999 | Rules about commands and categories, with every error. |
| `Acl.User.Allow` | framework/redis/redis-6.2/src/acl.c:946-985 | `+command` and `+command` with a subcommand, with every error. |
| `Acl.User.Passwords` | framework/redis/redis-6.2/src/acl.c:874-911 | Adding and removing passwords and hashes, with every error. |
| `Acl.User.Patterns` | framework/redis/redis-6.2/src/acl.c:912-945 | Key and channel patterns, with every error. |
| `Acl.User.Reset` | framework/redis/redis-6.2/src/acl.c:1000-1008 | `reset` as the sequence of rules it stands for. |
| `Acl.User.SetUser` | framework/redis/redis-6.2/src/acl.c:825-1014 | The whole of `ACLSetUser`: a refused rule changes nothing and reports its error, an accepted one gives the specified user. |
| `Acl.User.CountCategory` | framework/redis/redis-6.2/src/acl.c:435-455 | How many commands of a category are on and off. |
| `Acl.User.BestCategory` | framework/redis/redis-6.2/src/acl.c:511-539 | The first category that is useful and that no other beats, or none. |
| `Acl.User.DescribeCategories` | framework/redis/redis-6.2/src/acl.c:500-555 | The greedy loop ends, and the rules so far applied to any user give exactly the fake user. |
| `Acl.User.DescribeCommands` | framework/redis/redis-6.2/src/acl.c:557-584 | The final pass: the rules rebuild bitmap and subcommand lists. |
| `Acl.User.SameBits` | framework/redis/redis-6.2/src/acl.c:593-595 | Whether two bitmaps are equal. |
| `Acl.User.DescribeCommandRules` | framework/redis/redis-6.2/src/acl.c:464-603 | The printed rules applied to any user rebuild this user's bitmap and subcommands exactly; the mismatch panic is never reached. |
| `Acl.User.CheckCommand` | framework/redis/redis-6.2/src/acl.c:1179-1211 | The command part of the permission check. |
| `Acl.User.DescribeFlags` | framework/redis/redis-6.2/src/acl.c:614-625 | The flag words rebuild the flags. |
| `Acl.User.DescribePasswords` | framework/redis/redis-6.2/src/acl.c:627-636 | The password hashes are rebuilt in order. |
| `Acl.User.DescribeKeys` | framework/redis/redis-6.2/src/acl.c:638-649 | Key patterns are rebuilt in order. |
| `Acl.User.DescribeChannels` | framework/redis/redis-6.2/src/acl.c:651-663 | Channel patterns are rebuilt in order, whatever the default for channels. |
| `Acl.User.DescribeAccess` | framework/redis/redis-6.2/src/acl.c:611-663 | Everything but the commands is rebuilt from a new user. |
| `Acl.User.Describe` | framework/redis/redis-6.2/src/acl.c:611-670 | Round trip: the description applied to a new user rebuilds flags, passwords, patterns, bitmap and subcommands, and the same permissions for every command and arguments. |
| `Crc64Spec.StepsLinear` | framework/redis/redis-6.2/src/crcspeed.c:33-50 | Any number of register steps is linear over GF(2). |
| `Crc64Spec.AbsorbByTable` | framework/redis/redis-6.2/src/crcspeed.c:116-120 | One table lookup is eight register steps on one byte. |
| `Crc64Spec.SliceByEight` | framework/redis/redis-6.2/src/crcspeed.c:122-135 | Eight table lookups combined are 64 register steps. |
| `Crc64Spec.AbsorbAtOnce` | framework/redis/redis-6.2/src/crcspeed.c:122-135 | Up to eight bytes may be added to the register at once. |
| `Crc64Spec.Rev8ByMasks` | framework/redis/redis-6.2/src/crcspeed.c:71-83 | The portable body of `rev8` reverses the bytes. |
| `Crc64Spec.Rev8Twice` | framework/redis/redis-6.2/src/crcspeed.c:71-83 | Byte reversal undoes itself. |
| `Crc64Spec.ReferenceIsAbsorbAll` | framework/redis/redis-6.2/src/crc64.c:88-111 | The bit-by-bit routine, most significant bit first with its final reflection, is the reflected register started from the reflected value. |
| `Crc64Spec.BitStepsReversed` | framework/redis/redis-6.2/src/crc64.c:88-111 | Feeding bits one at a time is adding them all first and stepping. |
| `Crc64.CrcReflect` | framework/redis/redis-6.2/src/crc64.c:69-78 | The low bits in the opposite order. |
| `Crc64.BitByBit` | framework/redis/redis-6.2/src/crc64.c:88-111 | The loop computes the bit-by-bit reference. |
| `Crc64.Native` | framework/redis/redis-6.2/src/crc64.c:121-123 | For every buffer, length and alignment and both byte orders, the fast routine from register 0 gives the bit-by-bit result, and from any register the reference started at its reflection. |
| `Crc64.Init` | framework/redis/redis-6.2/src/crc64.c:116-118 | Builds the tables of the machine's byte order. |
| `Crc64.InitLittle` | framework/redis/redis-6.2/src/crcspeed.c:33-50 | Table k holds every byte followed by k zero bytes. |
| `Crc64.FillFirst` | framework/redis/redis-6.2/src/crcspeed.c:36-40 | The checksums of single bytes. |
| `Crc64.FillColumn` | framework/redis/redis-6.2/src/crcspeed.c:43-48 | One column of the other tables. |
| `Crc64.InitBig` | framework/redis/redis-6.2/src/crcspeed.c:87-95 | The same tables with the bytes of every entry reversed. |
| `Crc64.Little` | framework/redis/redis-6.2/src/crcspeed.c:112-144 | Slice-by-8 equals byte-by-byte absorption for every buffer, register and alignment. |
| `Crc64.Big` | framework/redis/redis-6.2/src/crcspeed.c:183-213 | The big-endian routine returns the same value as the little-endian one from any register. |
| `BlockedSpec.ListedOnce` | framework/redis/redis-6.2/src/blocked.c:647-690 | A client is on a key's waiting list exactly once if the key is in its own table, and not at all otherwise. |
| `BlockedSpec.AddKeepsMirror` | framework/redis/redis-6.2/src/blocked.c:647-690 | Adding a waiter keeps the two indexes mirrored. |
| `BlockedSpec.RemoveKeepsMirror` | framework/redis/redis-6.2/src/blocked.c:694-728 | Taking a client out of all lists keeps them mirrored. |
| `BlockedSpec.RotateKeepsMirror` | framework/redis/redis-6.2/src/blocked.c:279-284 | Rotating a list keeps them mirrored. |
| `BlockedSpec.RemovedClients` | framework/redis/redis-6.2/src/blocked.c:694-728 | Taking a client out leaves every other client in its place. |
| `BlockedServe.FirstComeFirstServed` | framework/redis/redis-6.2/src/blocked.c:267-328 | Plain pops serve exactly the first min(elements, waiting list clients) of the queue, in order. |
| `BlockedServe.ServedGetReplies` | framework/redis/redis-6.2/src/blocked.c:267-328 | Every client served gets its reply, in the order of service. |
| `BlockedServe.NobodyIsForgotten` | framework/redis/redis-6.2/src/blocked.c:267-328 | After the loop the list is empty or nobody in the queue waits for a list. |
| `BlockedServe.ServeConserves` | framework/redis/redis-6.2/src/blocked.c:267-328 | Elements left in all lists plus elements replied are the elements there were; a move that fails puts its element back. |
| `BlockedServe.ServeOneConserves` | framework/redis/redis-6.2/src/t_list.c:882-933 | Serving one client, pop or move, takes at most the element it is sent out of the lists. |
| `Blocked.SignalIsHeard` | framework/redis/redis-6.2/src/blocked.c:747-765 | The quick returns of `signalKeyAsReady` are taken only when nobody waits for such a value. |
| `Blocked.NobodyHungry` | framework/redis/redis-6.2/src/blocked.c:565-618 | With every needed key queued and the queue empty, no client waits for a list that has elements. |
| `Blocked.CountedAdd` | framework/redis/redis-6.2/src/blocked.c:89-106 | Blocking a client keeps the counters equal to the numbers of blocked clients. |
| `Blocked.CountedRemove` | framework/redis/redis-6.2/src/blocked.c:179-213 | Unblocking one does too. |
| `Blocked.Scheduler.BlockForKeys` | framework/redis/redis-6.2/src/blocked.c:647-690 | The client is appended to the list of each of its keys once, even if a key is named twice; indexes, counters and the wakeup invariant hold, whether or not keys that are not awaited for a list exist. |
| `Blocked.Scheduler.BlockClient` | framework/redis/redis-6.2/src/blocked.c:89-106 | The counters grow with the client. |
| `Blocked.Scheduler.Enlist` | framework/redis/redis-6.2/src/blocked.c:659-688 | The loop over the keys. |
| `Blocked.Scheduler.UnblockClient` | framework/redis/redis-6.2/src/blocked.c:179-213 | The client leaves every list, others keep their order, counters follow, and it is queued for reprocessing. |
| `Blocked.Scheduler.UnlinkAll` | framework/redis/redis-6.2/src/blocked.c:694-728 | Every node of the client is unlinked and empty lists are dropped. |
| `Blocked.Scheduler.SignalKeyAsReady` | framework/redis/redis-6.2/src/blocked.c:747-783 | A key with a waiter of the matching type always ends up queued, once, and only a key somebody waits for is queued. |
| `Blocked.Scheduler.ServeClientsBlockedOnListKey` | framework/redis/redis-6.2/src/blocked.c:267-328 | Does exactly what the value-level service does to queue, lists, replies and clients, and either unblocks somebody or queues nothing new. |
| `Blocked.Scheduler.ServeQueue` | framework/redis/redis-6.2/src/blocked.c:275-319 | The loop over the waiting clients. |
| `Blocked.Scheduler.RotateWaiters` | framework/redis/redis-6.2/src/blocked.c:279-284 | A client of another kind goes to the end of the queue. |
| `Blocked.Scheduler.HandleKey` | framework/redis/redis-6.2/src/blocked.c:576-615 | One ready key: conservation, and either fewer blocked clients or nothing new queued. |
| `Blocked.Scheduler.HandleClientsBlockedOnKeys` | framework/redis/redis-6.2/src/blocked.c:565-618 | Ends, with nothing queued and nobody waiting for a list that has elements, and conserves every element even when moves chain across keys. |
| `Blocked.Scheduler.AddOther` | framework/redis/redis-6.2/src/db.c:193-200 | A new key of another type is signalled for its type and wakes nobody who waits for a list. |
| `Blocked.Scheduler.Delete` | framework/redis/redis-6.2/src/db.c:315-337 | Deleting a key keeps every index and leaves nobody waiting who should be served. |
| `Blocked.Scheduler.Overwrite` | framework/redis/redis-6.2/src/db.c:225-246 | Replacing a value signals nobody, and all the invariants hold afterwards if and only if the new value is no list, the key is queued already, or no client waits for a list on it. |
| `Blocked.OverwriteAwake` | framework/redis/redis-6.2/src/db.c:225-246 | The same for the wakeup invariant by itself, for every waiting table and database. |
| `Blocked.OverwriteLosesWakeup` | framework/redis/redis-6.2/src/db.c:225-246 | The other case happens: a client waits for a list, a string is stored under its key and a list over the string; the client waits on a list with an element and nothing is queued. |
| `Blocked.Scheduler.constructor` | framework/redis/redis-6.2/src/server.c:2694-2696 | Nobody blocked, all counters zero, nothing queued. |
| `Blocked.Scheduler.ServeClient` | framework/redis/redis-6.2/src/t_list.c:882-933 | One client served: lists, reply, client unblocked, and a destination that was missing is signalled. |
| `Blocked.Scheduler.Push` | framework/redis/redis-6.2/src/t_list.c:226-260 | A push makes a list, signals it when it is new, and refuses a key of another type. |
| `AdList.List.constructor` | framework/redis/redis-6.2/src/adlist.c:42-54 | The empty list. |
| `AdList.List.Empty` | framework/redis/redis-6.2/src/adlist.c:57-72 | Every value is freed once, in order, and the list is empty. |
| `AdList.List.AddNodeHead` | framework/redis/redis-6.2/src/adlist.c:89-107 | One new node in front, all others as they were. |
| `AdList.List.AddNodeTail` | framework/redis/redis-6.2/src/adlist.c:115-133 | One new node at the end, all others as they were. |
| `AdList.List.InsertNode` | framework/redis/redis-6.2/src/adlist.c:135-162 | One new node before or after the given one. |
| `AdList.List.DelNode` | framework/redis/redis-6.2/src/adlist.c:168-181 | Exactly that node leaves; it keeps its own links, on which iteration relies. |
| `AdList.List.Dup` | framework/redis/redis-6.2/src/adlist.c:251-280 | A fresh list of copies in order, or nothing if a copy fails. |
| `AdList.List.SearchKey` | framework/redis/redis-6.2/src/adlist.c:291-309 | The first node that matches, or none exactly when nothing does. |
| `AdList.List.Index` | framework/redis/redis-6.2/src/adlist.c:316-328 | Counted from the head, or from the tail when negative, or none. |
| `AdList.List.RotateTailToHead` | framework/redis/redis-6.2/src/adlist.c:331-343 | The last node moves to the front. |
| `AdList.List.RotateHeadToTail` | framework/redis/redis-6.2/src/adlist.c:346-358 | The first node moves to the end. |
| `AdList.List.Join` | framework/redis/redis-6.2/src/adlist.c:362-378 | All nodes of the other list, themselves, at the end of this one; the other is empty. |
| `AdList.Iter.constructor` | framework/redis/redis-6.2/src/adlist.c:206-214 | Starts at either end. |
| `AdList.Iter.Next` | framework/redis/redis-6.2/src/adlist.c:230-241 | The current node, and the cursor moves before the node can be deleted. |
| `AdList.Sweep` | framework/redis/redis-6.2/src/adlist.c:216-241 | An iteration from the head that deletes any of the nodes it is handed still visits each original node exactly once and keeps exactly the others. |
| `AdList.SweepBack` | framework/redis/redis-6.2/src/adlist.c:216-241 | The same from the tail. |
| `AdList.JoinStretches` | framework/redis/redis-6.2/src/adlist.c:362-378 | Two chains whose ends point at each other are one chain. |
| `BitFieldSpec.GetPut` | framework/redis/redis-6.2/src/bitops.c:209-241 | Get after set is the value modulo the width, at any offset. |
| `BitFieldSpec.GetPutApart` | framework/redis/redis-6.2/src/bitops.c:209-241 | A field that does not overlap is not changed. |
| `BitFieldSpec.PutLow` | framework/redis/redis-6.2/src/bitops.c:209-222 | Only the low bits of a value matter when it is stored. |
| `BitFieldSpec.UnsignedOverflow` | framework/redis/redis-6.2/src/bitops.c:288-323 | INCRBY on u1 to u63: overflow is reported exactly when the sum leaves the range, with the right wrapped or saturated value. |
| `BitFieldSpec.SignedOverflow` | framework/redis/redis-6.2/src/bitops.c:325-378 | INCRBY on i1 to i64: the same, with the two's complement of the sum as wrapped value. |
| `BitFieldSpec.WrappedSum` | framework/redis/redis-6.2/src/bitops.c:358-378 | The sign extension of the wrapped sum is its two's complement in the width of the field. |
| `BitFieldSpec.SetSaturates` | framework/redis/redis-6.2/src/bitops.c:325-356 | SET with saturation on a signed field is right if and only if the field has 64 bits or the value is not more than 2^63 below the upper end of the range. |
| `BitFieldSpec.SetSaturatesUnsigned` | framework/redis/redis-6.2/src/bitops.c:288-312 | SET with saturation on an unsigned field is right if and only if the argument is not negative. |
| `BitFieldSpec.MinusOneSetsGreatest` | framework/redis/redis-6.2/src/bitops.c:288-312 | -1 saturates an unsigned byte to 255. |
| `BitFieldSpec.LowestSetsGreatest` | framework/redis/redis-6.2/src/bitops.c:325-356 | It is not right for the lowest 64-bit integer, which saturates a signed byte to 127. |
| `BitField.StoredIsShown` | framework/redis/redis-6.2/src/bitops.c:1041-1115 | What is stored is shown modulo the width, signed or not. |
| `BitField.AddShowsReply` | framework/redis/redis-6.2/src/bitops.c:1041-1115 | After INCRBY the field shows the reply; the reply is null exactly on a FAIL overflow and then nothing was written. |
| `BitField.SetCheckFinds` | framework/redis/redis-6.2/src/bitops.c:288-378 | The check that SET makes finds overflow exactly when the argument is outside the range of the field, signed or not, under every overflow type. |
| `BitField.SetFails` | framework/redis/redis-6.2/src/bitops.c:1059-1115 | SET under FAIL answers null and changes nothing exactly when the argument is outside the range; otherwise the field shows the argument and the reply is the old value. |
| `BitField.SetWraps` | framework/redis/redis-6.2/src/bitops.c:1059-1115 | SET under WRAP answers the old value, and the field shows the argument modulo the width, for every 64-bit argument. |
| `BitField.ExecElsewhere` | framework/redis/redis-6.2/src/bitops.c:1041-1116 | No operation changes a field that does not overlap its own. |
| `BitField.WindowIsEnough` | framework/redis/redis-6.2/src/bitops.c:1117-1149 | Nine bytes hold every field of up to 64 bits. |
| `BitField.SetUnsignedBitfield` | framework/redis/redis-6.2/src/bitops.c:209-222 | The loop stores the low bits at the offset and changes no other bit. |
| `BitField.GetUnsignedBitfield` | framework/redis/redis-6.2/src/bitops.c:229-241 | The loop reads the field. |
| `BitField.GetSignedBitfield` | framework/redis/redis-6.2/src/bitops.c:243-263 | The loop and the sign extension give the two's complement value. |
| `BitField.Scan` | framework/redis/redis-6.2/src/bitops.c:941-1012 | Whether anything writes, and the last bit written. |
| `BitField.ExecuteOne` | framework/redis/redis-6.2/src/bitops.c:1041-1150 | One operation on the buffer is one step of the fold; writes stay inside. |
| `BitField.FetchWindow` | framework/redis/redis-6.2/src/bitops.c:1117-1149 | GET through the nine-byte copy, past the end too. |
| `BitField.Execute` | framework/redis/redis-6.2/src/bitops.c:935-1158 | The command is the fold over an endless zero-extended bit string, with all replies; a read-only command changes nothing and a writing one grows the string to exactly the last byte that may be written. |
| `BitPos.Bitpos` | framework/redis/redis-6.2/src/bitops.c:101-186 | The first matching bit, or -1 for an absent one and the length for an absent zero, for every string and alignment; the panic is not reached. |
| `BitPos.LoadWord` | framework/redis/redis-6.2/src/bitops.c:144-159 | The last word, first byte on top and zero past the end. |
| `PopCount.Popcount` | framework/redis/redis-6.2/src/bitops.c:40-92 | The number of ones, for every string and alignment. |
| `PopCount.Swar7Counts` | framework/redis/redis-6.2/src/bitops.c:54-87 | The 28-byte parallel sum is the number of ones in the 28 bytes. |
| `PopCount.SevenFit` | framework/redis/redis-6.2/src/bitops.c:80-86 | The partial sums of seven words, added up, do not reach 2^32. |
| `PopCount.SumLanes` | framework/redis/redis-6.2/src/bitops.c:80-86 | Each byte of the partial sums holds at most eight per word, so nothing overflows before the multiplication. |
| `SwarCount.SwarCounts` | framework/redis/redis-6.2/src/bitops.c:66-86 | The three masking steps leave in each byte its own count. |
| `SwarCount.SumsFit` | framework/redis/redis-6.2/src/bitops.c:66-86 | For a 32-bit word no difference is negative and no sum of the three steps reaches 2^32. |
| `SwarCount.TopByte` | framework/redis/redis-6.2/src/bitops.c:80-86 | The multiplication adds the four bytes up in the top one. |
| `BitOp.FoldCounts` | framework/redis/redis-6.2/src/bitops.c:735-757 | For each bit AND is all sources, OR at least one, XOR an odd number, NOT none, over the zero-padded sources. |
| `BitOp.StaysSettled` | framework/redis/redis-6.2/src/bitops.c:738-756 | The early exit loses nothing. |
| `BitOp.CombineWord` | framework/redis/redis-6.2/src/bitops.c:681-731 | One word operation is eight byte operations. |
| `BitOp.FastPath` | framework/redis/redis-6.2/src/bitops.c:665-732 | The blocks of four words leave the byte-wise result in every byte they finish. |
| `BitOp.OneByte` | framework/redis/redis-6.2/src/bitops.c:735-757 | One byte of the result, with the early exit. |
| `BitOp.Lengths` | framework/redis/redis-6.2/src/bitops.c:625-657 | The longest source and a common lower bound, missing keys as empty, and the wrong-type error. |
| `BitOp.Compute` | framework/redis/redis-6.2/src/bitops.c:660-758 | With or without the fast path the result is the byte-wise fold over the sources padded to the longest. |
| `BitOp.Bitop` | framework/redis/redis-6.2/src/bitops.c:594-781 | The command: every error, deletion when all sources are empty, otherwise the byte-wise fold. |
| `ClusterFailover.TimerPromotes` | framework/redis/redis-6.2/src/cluster.c:3137-3302 | The failover timer makes a node a master if and only if it is a replica of a failing (or handing over) master with slots and has votes of more than half of the masters, asked for and in time. |
| `ClusterFailover.WinnerTakesSlots` | framework/redis/redis-6.2/src/cluster.c:3099-3134 | The winner owns what it owned and every slot of its master, no other slot moves, it is a master without a master with at least the election epoch, and every known node gets a PONG that claims exactly these slots with this epoch. |
| `ClusterFailover.WinnerSlots` | framework/redis/redis-6.2/src/cluster.c:3109-3115 | The same as sets: the union for the winner, nothing for the old master, no change for others. |
| `ClusterFailover.TimerAsks` | framework/redis/redis-6.2/src/cluster.c:3209-3284 | A stale attempt starts again without votes and tells the siblings; a candidate whose time has come asks every node once, in a new epoch; otherwise nothing of the election changes. |
| `ClusterFailover.TimerAnnounces` | framework/redis/redis-6.2/src/cluster.c:2437-2507 | Every packet of the timer shows the truth about the node afterwards: current epoch, master, and exactly the slots and the epoch of itself or its master. |
| `ClusterFailover.BuildAnnounces` | framework/redis/redis-6.2/src/cluster.c:2437-2507 | The same of any header. |
| `ClusterFailover.PingIsAnswered` | framework/redis/redis-6.2/src/cluster.c:1864-1918 | A PING is answered with a PONG that tells the truth, also to an unknown node. |
| `ClusterFailover.RequestIsAnswered` | framework/redis/redis-6.2/src/cluster.c:2897-2999 | A vote is given if and only if this node is a master with a slot that has neither seen a later epoch nor voted in this one, and the request is from a replica of a failing master, outside twice the node timeout since the last vote for that master, with no claimed slot known with a greater epoch; then epoch and time are recorded and one acknowledgement is sent. |
| `ClusterFailover.AckIsCounted` | framework/redis/redis-6.2/src/cluster.c:2178-2190 | A vote counts if and only if it is from a master with a slot and not for an earlier epoch than the one asked for. |
| `ClusterClaims.ClaimIsHeard` | framework/redis/redis-6.2/src/cluster.c:2075-2078 | Hearing a master: it takes exactly the claimed slots that are free or known with a smaller epoch and are not imported, it is known as a master, and this node becomes its replica if and only if that took the last slot of this node or of its master (and, without replica migration, nothing else was claimed). |
| `ClusterClaims.UpdateMoves` | framework/redis/redis-6.2/src/cluster.c:1638-1744 | The same of the slot update itself, with the imports that a dethroned master gives up. |
| `ClusterClaims.ReplicaIsHeard` | framework/redis/redis-6.2/src/cluster.c:2016-2049 | Hearing a replica: a former master loses exactly its slots and is known as a replica of the announced master if that is known. |
| `ClusterClaims.UpdateIsHeard` | framework/redis/redis-6.2/src/cluster.c:2209-2238 | An UPDATE about another node has the effect of a claim of that node if it is known with a smaller epoch, one about this node makes it a master with that epoch, and one that is no news changes nothing. |
| `ClusterClaims.SelfUpdateIsIgnored` | framework/redis/redis-6.2/src/cluster.c:1831-1843 | An UPDATE in which a master reports itself changes nothing: its header has raised the known epoch already. |
| `ClusterClaims.OutdatedIsCorrected` | framework/redis/redis-6.2/src/cluster.c:2096-2120 | A master that claims a slot known with a greater epoch is sent exactly one UPDATE, about the owner of the first such slot, with its epoch and all its slots; no other claim is answered by one. |
| `ClusterClaims.ReplicaIsCorrected` | framework/redis/redis-6.2/src/cluster.c:2062-2120 | The same for the slots a replica shows, if its master is known and these are not the slots known of it. |
| `ClusterClaims.WinnerIsHeard` | framework/redis/redis-6.2/src/cluster.c:3099-3134 | From the timer of the winner to the table of any receiver: every slot of the replaced master that is free or known with a smaller epoch belongs to the winner. |
| `ClusterClaims.OldMasterFollows` | framework/redis/redis-6.2/src/cluster.c:1722-1732 | The replaced master that hears the winner gives up all its slots and becomes its replica. |
| `ClusterClaims.CorrectedMasterYields` | framework/redis/redis-6.2/src/cluster.c:2096-2238 | Claim, UPDATE and its processing together: a master with an outdated table ends with the slot bound as the other node has it. |
| `ClusterClaims.ClaimStops` | framework/redis/redis-6.2/src/cluster.c:1710-1732 | A claim stops the server exactly if it takes every slot of the master of a replica that keeps one of its own, or reaches a free slot at a replica without a known master. |
| `ClusterClaims.OthersStop` | framework/redis/redis-6.2/src/cluster.c:2209-2238 | Of the other packets only an UPDATE that is news about another node does, in the same cases. |
| `ClusterClaims.ReplicaStopsNobody` | framework/redis/redis-6.2/src/cluster.c:2016-2078 | The notice of a replica stops nobody. |
| `ClusterClaims.FailIsHeard` | framework/redis/redis-6.2/src/cluster.c:2133-2155 | FAIL marks the named node, never the receiver, and nothing else. |
| `ClusterClaims.ForgottenIsGone` | framework/redis/redis-6.2/src/cluster.c:998-1029 | A forgotten node is unknown, owns nothing and is nobody's master; the others keep what they have. |
| `ClusterClaims.BumpPutsAhead` | framework/redis/redis-6.2/src/cluster.c:1105-1126 | BUMPEPOCH leaves this node with an epoch nobody known exceeds, and does nothing if and only if that is so already. |
| `AofTransactions.CutLogMeans` | framework/redis/redis-6.2/src/aof.c:753-936 | A log of single commands and transactions, cut at any byte: the loader executes exactly what the whole entries stand for, in order and without the brackets; nothing of a cut transaction is executed. |
| `AofTransactions.WholeLogMeans` | framework/redis/redis-6.2/src/aof.c:753-936 | Uncut, the load is complete and executes everything. |
| `AofTransactions.TransactionLoads` | framework/redis/redis-6.2/src/aof.c:881-892 | MULTI, any commands and EXEC load as these commands. |
| `AofTransactions.CutTransaction` | framework/redis/redis-6.2/src/aof.c:907-964 | A file that ends inside its last transaction is cut before the MULTI, or before the command that is incomplete. |
| `AofTransactions.StrictLoad` | framework/redis/redis-6.2/src/aof.c:936-964 | Without `aof-load-truncated` every file loads in the same way, except that one which would be truncated is refused. |
| `AofTransactions.UnknownCommandStops` | framework/redis/redis-6.2/src/aof.c:870-876 | A command the server does not know stops the load, whatever follows. |
| `AofTransactions.NoLog` | framework/redis/redis-6.2/src/aof.c:786-829 | A file that does not start with a command is refused, or is an RDB preamble. |
| `AofTransactions.SignedNumber` | framework/redis/redis-6.2/src/aof.c:830-850 | A length with a sign after blanks is read with its sign. |
| `AofTransactions.Printed` | framework/redis/redis-6.2/src/aof.c:552-575 | The bytes written for one command. |
| `AofRewriteSpec.RewriteCanEnd` | framework/redis/redis-6.2/src/aof.c:1546-1665 | From every state in which a child dumps, the moves of both sides lead to the new file in place of the old one. |
| `AofRewriteSpec.StopKeepsTheLog` | framework/redis/redis-6.2/src/aof.c:236-257 | Turning the log off keeps what is flushed, which is every command if the flush was complete, and gives up a rewrite. |
| `AofBuffer.WritesWhatFits` | framework/redis/redis-6.2/src/aof.c:322-339 | Interruptions and short writes do not matter: all is written if the calls take it before the first error. |
| `AclPermissions.RulesDecide` | framework/redis/redis-6.2/src/acl.c:1179-1207 | For every list of rules given to a new user: a command of the table may be run with these arguments if and only if it needs no permission, or the last rule about the whole command allows it, or a later rule allows its subcommand; read off the text of the rules. |
| `AclPermissions.RuleDecides` | framework/redis/redis-6.2/src/acl.c:840-1014 | One rule on any well-formed user: `+name`, `+@all` and a category allow the command with any arguments, `-name`, `-@all`, `reset` and a category deny it, `+name` with a subcommand adds exactly that one, and every other rule changes nothing; categories do not reach module commands. |
| `AclPermissions.SetCategoryFollows` | framework/redis/redis-6.2/src/acl.c:414-427 | A category rule is the rule of each of its commands that is not a module's. |
| `AclAccess.PasswordsAfter` | framework/redis/redis-6.2/src/acl.c:868-911 | Which passwords are accepted after any rule. |
| `AclAccess.NoPassAfter` | framework/redis/redis-6.2/src/acl.c:868-892 | Whether any password is accepted after any rule. |
| `AclAccess.EnabledAfter` | framework/redis/redis-6.2/src/acl.c:828-833 | Whether the user may log in after any rule. |
| `AclAccess.SanitizeAfter` | framework/redis/redis-6.2/src/acl.c:834-839 | Whether payloads are checked after any rule. |
| `AclAccess.KeysAfter` | framework/redis/redis-6.2/src/acl.c:840-928 | Which key patterns are allowed after any rule. |
| `AclAccess.ChannelsAfter` | framework/redis/redis-6.2/src/acl.c:845-944 | Which channels are allowed after any rule. |
| `AclAccess.RefusedIff` | framework/redis/redis-6.2/src/acl.c:809-1014 | Exactly which rules are refused, and with which error. |
| `AclAccess.ResetIsNotNew` | framework/redis/redis-6.2/src/acl.c:798-800 | The promise that `reset` gives a user as after its creation fails for every user in exactly one flag. |
| `AclAccess.NewUser` | framework/redis/redis-6.2/src/acl.c:244-262 | A new user cannot log in, has no password and no keys, and the channels of the default. |
| `Crc64Poly.ReferenceIsRemainder` | framework/redis/redis-6.2/src/crc64.c:88-112 | The checksum of any bytes is the remainder of the message polynomial, moved up by 64 and with the first register added, divided by the generator with the listed exponents. |
| `Crc64Poly.RemainderIsUnique` | framework/redis/redis-6.2/src/crc64.c:88-112 | There is only one such remainder. |
| `Crc64Poly.Generator` | framework/redis/redis-6.2/src/crc64.c:33 | The constant has exactly the coefficients of the generator. |
| `BlockedServe.ServeHappened` | framework/redis/redis-6.2/src/t_list.c:882-933 | On sequences: a popped element was at the end asked for and the rest keeps its order; a moved one is at the end asked for of the destination, also within one list; a failed move leaves the database as it was. |
| `BlockedServe.ServeTells` | framework/redis/redis-6.2/src/blocked.c:275-319 | All replies of a round are what happened to the lists, one after the other. |
| `BlockedServe.PopsInOrder` | framework/redis/redis-6.2/src/blocked.c:275-319 | Clients that pop from the same end get the elements in the order of the list from there, and the rest keeps its order. |
| `Blocked.PushedEnds` | framework/redis/redis-6.2/src/t_list.c:250-253 | Elements pushed to the tail follow the list in order; pushed to the head they precede it, the last first. |
| `BitFieldReplies.FetchOfStored` | framework/redis/redis-6.2/src/bitops.c:1117-1149 | A GET answers the number in range whose two's complement has the stored bits at its offset, the most significant first, with zeros past the end. |
| `BitFieldReplies.FetchAnswers` | framework/redis/redis-6.2/src/bitops.c:1117-1149 | The same at any point of a command, without changing the string. |
| `BitFieldReplies.FieldIsShown` | framework/redis/redis-6.2/src/bitops.c:209-263 | There is only one such number. |
| `BitFieldReplies.AddAnswers` | framework/redis/redis-6.2/src/bitops.c:1041-1115 | INCRBY answers the sum if it is in range, and otherwise the equivalent number in range, the nearer end, or nothing; the field holds the answer. |
| `BitFieldReplies.SaturatedSetAnswers` | framework/redis/redis-6.2/src/bitops.c:1059-1115 | SET with saturation answers the old number and stores the argument, the nearer end, or, exactly for arguments too far below or negative on unsigned fields, the upper end. |
| `BitFieldReplies.RepliesInTurn` | framework/redis/redis-6.2/src/bitops.c:1041-1150 | One reply for each operation, for the string as the operations before left it. |
| `BitFieldReplies.SetThenGet` | framework/redis/redis-6.2/src/bitops.c:1041-1150 | A GET answers what a SET of its field stored earlier in the command, if nothing between writes there. |
| `BitFieldReplies.LastBitIs` | framework/redis/redis-6.2/src/bitops.c:941-1012 | The last bit the command may write is that of one of its writing operations, and no other writes beyond it. |
| `BitOp.AnswerBits` | framework/redis/redis-6.2/src/bitops.c:594-781 | The stored string is as long as the longest source, and each bit is decided by how many sources have it: all, some, an odd number, or none. |
| `BitOp.AnswerRefused` | framework/redis/redis-6.2/src/bitops.c:594-650 | Exactly when nothing is stored, and what is answered. |
| `PopCount.TotalCounts` | framework/redis/redis-6.2/src/bitops.c:40-96 | BITCOUNT is the number of positions that hold a one. |

## Left out

Cluster:

- Handshakes, MEET, gossip, failure detection and its reports, replica migration, MFSTART, pub/sub and module packets.
  Changes they make to roles, failure flags and unknown nodes are covered by the `Local` step, which may not touch
  epochs or elections.
- Crash and restart, CLUSTER RESET and CLUSTER FAILOVER TAKEOVER, which break or bypass the votes.
- Wrap-around of 64-bit epochs: epochs are natural numbers.
- Duplicated packets: the links are TCP connections.
- A node that a packet stops takes no further steps: the runs of `ClusterProtocol` deliver only packets that are
  survived.
- ClusterSafety.EpochsNeverGoBack: after CLUSTER FORGET the epoch of a node may go back, because the node may be met
  again with epoch 0.
- Clocks, ranks and random delays are inputs of each step.
- The keys of slots that are lost (`delKeysInSlot`), the lists of replicas kept per node and the MIGRATE_TO flag.
- ClusterSafety.AtMostOneWinner: holds under the two conditions on the run; the counterexample shows that the one on
  votes is needed.
- ClusterSlots.ClaimsConverge: for masters with fixed slots and pairwise distinct epochs, as promised by the cluster
  specification once collisions are resolved.

Append only file:

- RDB preambles and module data: `Load` stops where a preamble would be read.
- AofRewrite.Server.Feed: takes the command as it is written to the log; the translation of EXPIRE, SETEX and SET EX
  to PEXPIREAT is left out.
- In the rewrite protocol a command is one log entry; MULTI and EXEC around several of them are not grouped there.
- What commands do to the data is an abstract function; the dump of the child is any list of commands that rebuilds
  the data at the fork.
- AofBuffer.AppendOnly.Write: a script that ends stands for an error, so that interruptions do not repeat for ever.
- AofRewrite.Receiver.ReadDiff: assumes that a read returns nothing only when the pipe is empty.
- AofLog.TruncatedLogRecovers: for commands the server knows and sizes its integers hold, with `aof-load-truncated`
  on.

ACL:

- Password hashing is an arbitrary function that gives 64 hexadecimal digits; AUTH, key and channel glob matching, the
  ACL log and files are not modelled.
- Rules are lists of words, not one text with spaces: the names of subcommands are not checked for spaces by the
  original. Embedded zero bytes in rules are not modelled.
- Command tables with numbers of 1023 or more: the bitmap has 1024 bits with the last one reserved, and for greater
  numbers the original indexes its subcommand table out of bounds.
- Acl.User.CheckCommand: a command number of 1024 or more is excluded only where the original would index the
  subcommand table with it.
- Loading and unloading modules between two rules: the command table is fixed.

CRC-64:

- The 16-bit routines and their table.

Blocked clients and lists:

- Blocked.Scheduler.HandleKey: serves lists only.
- Blocked.Scheduler.HandleClientsBlockedOnKeys: serves lists only; sorted sets, streams and modules keep their clients
  waiting.
- Serving sorted sets, streams and modules, WAIT, paused clients and timeouts. Clients of these kinds wait in the same
  queues and are passed over.
- The commands that replace a value; `Scheduler.Overwrite` is the `dbOverwrite` they share.
- AdList.Sweep: the set of nodes to delete is chosen before the iteration.
- `listRelease` and the allocator.

Bit operations:

- Parsing of arguments of BITFIELD, BITCOUNT and BITPOS ranges, GETBIT and SETBIT.
- The literal table of ones per byte: `PopCount.Ones` stands for it.
- Words are read with their first byte lowest in `redisPopcount`; the count does not depend on it.
- Words of 32 bits in `redisBitpos` and BITOP: the model has the 64-bit `unsigned long`.
- BitFieldSpec.SignedOverflow: the existing value is in the range of its field, which every stored field is.
