# Redis 4 with the ADDB column store: a verified model

This project models the parts of the server whose correctness depends on more than one
function, and proves what they promise over every run, every input or every schedule.

* **Cluster** (`src/cluster.c`). What one node knows (`Cluster`), the same node updated in
  place with its doubly stored slot table (`Bitmap`, `SlotTable`, `ClusterServer`,
  `ServerRuns`), and the
  whole cluster as a step system with packets in flight, delayed, reordered, duplicated or
  lost (`ClusterSystem`). Over all runs: at most one slave wins an epoch (`Election`,
  `ElectionSafety`, `ElectionStale`), by votes of masters that hold its master failed
  (`Votes`), config epoch collisions stop (`Collision`,
  `CollisionRuns`), every current epoch dominates what the node has recorded (`Epochs`,
  `EpochsBehind`), slot claims converge (`SlotClaims`), and each step moves exactly the slots
  and changes exactly the records it should (`SlotMoves`, `NodeLaws`).
* **ADDB store** (`src/addb_table.c`, `src/addb_relational.c`, `src/circular_queue.c`,
  `src/evict.c`, `src/bio.c`, `src/stl.c`). Rows split into row groups and column vectors
  (`Columns`), the text form of a vector and its streaming iterator (`VectorCodec`,
  `RocksScan`), the ring buffer (`Ring`), and the interleaving of FPWRITE, FPSCAN, eviction,
  background persistence and clearing (`Tiering`, `TieringSafety`, `TieringRuns`,
  `TieringScan`, `TieredStore`): the tiers are invisible to readers, who get what was sent
  (`TieringLaws`).
* **Append-only file** (`src/aof.c`). The encoder and loader (`AofLog`, `AofLoad`), the flush
  state machine and the two-process rewrite with its pipe and stop/ack exchange
  (`AofRewrite`), the server's buffers updated in place (`AofServer`), and how far each step
  gets (`AofLaws`).
* **CRCs and keys** (`src/crc64.c`, `src/crc16.c`). All 512 table entries against the bit
  serial definitions (`CrcTables`, `Crc`), DUMP payloads (`Dump`), ADDB keys and hash slots
  (`Tokens`, `Decimal`, `KeyCodec`), and the bytes themselves (`CodecLaws`).
* **Partition filters** (`src/addb_relational.c`). The postfix parser (`Filter`) and the
  evaluator used for pruning (`Pruning`), and what each statement means (`FilterLaws`).
* **Bit operations** (`src/bitops.c`). BITFIELD (`Bitfield`, `BitfieldOps`), the seven-word
  population count (`Popcount`), the first set or clear bit (`Bitpos`), BITOP (`BitOp`).

`Basics` holds what several modules share. `dafny verify dfyconfig.toml` checks everything.

## Where the code does less than its documentation

Each of these comes with the condition that decides when the property holds and a concrete
input or run that breaks it.

* **Votes.** The vote counter is reset when an election is scheduled, but the epoch that ACKs
  are compared with changes only when votes are requested. An ACK of the lapsed election that
  arrives in between is counted. The counter is the number of votes of the running election
  exactly when no such ACK came (`ElectionSafety.CounterIsExactIff`); without them one epoch has
  one winner (`ElectionStale.QuietRunsElectOne`); with one of them two slaves can win the same
  epoch (`ElectionStale.StaleAckElectsTwo`, fifteen steps of a five-node cluster). For the
  election itself that condition is sufficient and not necessary: a stale ACK need not decide one.
* **Queue growth** keeps all entries exactly when `rear` is 0 (`Ring.GrowthKeepsOrderIff`,
  `Ring.WrappedGrowthLoses`). The store is modelled with queues that lose entries in this way,
  and what is proved of scans holds all the same.
* **A won failover** may take over slots at a config epoch that is not above the one recorded
  for the old master, when that one was learned after the votes were requested. This is the
  only step that can lower the epoch of a slot's owner (`Epochs.StepRises`; the run
  `EpochsBehind.BehindHappens`).
* **ADDSLOTS** does not check that the node is a master; only there does it keep the view sound
  (`ServerRuns.AddSlotSoundIff`). The slot tables stay consistent at a replica too, but one that
  holds slots fails an assertion of `clusterSetMaster` when it must follow another master: on
  REPLICATE, and on a claim that takes the last slot of its master and not all of its own
  (`ServerRuns.Aborts`; the commands of `ServerRuns.SlotAtReplicaAborts`).
* **Stored vectors.** A vector survives its text form exactly when no element but the last
  holds `:`, the last one holds no `]`, and none holds a NUL (`VectorCodec.CodecIsExactIff`,
  `VectorCodec.ColonIsLost`). So a scan is exact exactly when the evicted row groups it reads
  are such (`TieringScan.TieringInvisibleIff`; the run `TieringScan.ColonIsNoticed`).
* **FPWRITE without values** on a partition whose last row group is full aborts the server
  (`TieringSafety.CrashIff`, `TieringScan.EmptyWriteAborts`).
* **Pruning.** A leaf that compares a string with an order operator is never true for a
  partition, so it prunes partitions that have matching rows; a leaf is sound exactly when its
  operand has the operator's type (`Pruning.LeafIsSoundIff`). The negation of a leaf is sound
  for a partition exactly when the partition's key decides the leaf (`Pruning.NotIsSoundIff`,
  `Pruning.NotPrunes`).
* **Filter statements** are copied into 128 bytes without a check. A statement is parsed back
  exactly when it fits with its terminator (`Filter.ParseInvertsText`,
  `Pruning.MatchingPartitionKept`); nine alternatives do not (`Filter.LongStatementOverruns`).
* **Data keys** are parsed back exactly when the partition is not empty, holds neither `}` nor
  NUL, and the key fits the parser's buffer (`KeyCodec.ParseIsExactIff`,
  `KeyCodec.EmptyPartitionIsLost`).
* **The rewrite** is exact exactly when the child's last read takes all that is in the pipe
  (`AofRewrite.RewriteIsExactIff`, `AofRewrite.ShortLastReadLoses`).
* **BITFIELD SET** of a signed number under SAT follows its policy exactly when the number is
  not below 2^(bits-1) - 2^63; below it the distance to the maximum overflows its 64 bits and
  the maximum is stored (`BitfieldOps.SetIsExactIff`, `BitfieldOps.SaturatesUpwards`).

## Model

| member | source | states |
|---|---|---|
| ElectionSafety.OneWinnerPerEpoch | src/cluster.c:2596-2696 | in every run with a fixed set of voters and no ACK duplicated, two winners of one epoch whose counters took no stale ACK are the same slave |
| ElectionSafety.CounterIsExactIff | src/cluster.c:1999-2011 | in every run the votes counted were given to this node for its election's epoch, and the counter equals their number if and only if no stale ACK came since the last reset |
| ElectionSafety.StepInv | src/cluster.c:1607-2046 | every step of the cluster keeps the election invariant: one vote per master and epoch, an ACK stands for a vote its receiver asked for, no vote is counted twice |
| Election.OneWinner | src/cluster.c:2987-2995 | two majorities of the voters share a master, and a master votes once per epoch, so the winner is unique |
| Election.GrantInv | src/cluster.c:2605-2695 | granting a vote under the checks of the source keeps one vote per master and epoch |
| Election.CollectInv | src/cluster.c:2004-2008 | counting an ACK whose epoch is not behind the election's keeps the counter equal to the distinct votes plus the stale ACKs |
| ElectionStale.QuietRunsElectOne | src/cluster.c:2903-2931 | in every run that delivers no ACK between a counter's reset and the next request, an epoch has at most one winner |
| ElectionStale.StaleAckElectsTwo | src/cluster.c:2907-2968 | a run from a legal start, with every other condition met, in which slaves 4 and 5 both win epoch 5 |
| Votes.VoteIff | src/cluster.c:2596-2696 | for every step of the cluster, the epoch a node last voted in changes if and only if it is a master with slots and gets a request of a slave whose master it knows, with an epoch that is not behind and that it has not voted in, that master held failed or the request forced, twice the timeout past the last vote about that master, and no claimed slot owned at a greater epoch |
| Votes.VoteRecorded | src/cluster.c:2596-2696 | the record of votes grows with exactly these |
| Votes.VoteLeaves | src/cluster.c:2690-2694 | the voter remembers the epoch and the time for that master, and an ACK of that epoch is on its way |
| Votes.WinnersMasterWasFailed | src/cluster.c:2635-2652 | in every run a winner without stale ACKs was voted for by a majority of the voters, each vote deserved when given; unless it forced the election of that epoch, each voter then held the winner's master failed |
| CollisionRuns.MovesBound | src/cluster.c:1055-1070 | in every run where collisions are the only source of config epochs, a master below r others by name moves at most 2^r - 1 times, whatever the order, delay and duplication of packets |
| CollisionRuns.AllMovesBound | src/cluster.c:1943-1950 | all n masters together move at most 2^n - n - 1 times |
| CollisionRuns.HeardCollisionResolves | src/cluster.c:1668-1679 | a heartbeat of a colliding master with a greater name moves the receiver to an epoch above everything it has seen |
| Epochs.StepGood | src/cluster.c:1668-1679 | every step keeps: current epoch at least every recorded config epoch, at every node and in every packet, and sound slot tables and roles |
| Epochs.RunGood | src/cluster.c:990-1007 | the same over every run, including bumps, assigned epochs, failovers and UPDATEs |
| Epochs.WonIff | src/cluster.c:2847-2995 | the timer wins exactly when the node is a slave whose master serves slots and is failed or the failover is manual, the data is fresh or the failover manual, the election is due and not timed out, votes were requested, and a majority of the recorded size was counted |
| Epochs.FailoverRises | src/cluster.c:2977-2995 | the failover timer keeps the epoch of every slot's owner from falling if and only if it does not win, by the checks of `WonIff`, a slot at an epoch not above its old owner's |
| Epochs.StepRises | src/cluster.c:1546-1562 | for every step and slot: the recorded epoch of the slot's owner does not fall, and rises strictly when the owner changes, if and only if the node does not win a failover that takes the slot behind its old owner |
| EpochsBehind.BehindHappens | src/cluster.c:2968-2988 | a run of nine steps from a legal start: slave 4 is granted epoch 4, its master moves to epoch 5 and is heard, slave 4 wins and its slot's owner has a smaller epoch |
| Epochs.OwnerEpochNeverFalls | src/cluster.c:2024-2045 | the same over every run that keeps the slot assigned, won failovers included as long as none takes the slot behind its old owner |
| Epochs.DemotedOwnsNothing | src/cluster.c:1577-1590 | a node reconfigured as a replica by a claim has no slots left, as `clusterSetMaster` asserts, if and only if the claim took all it had; in a sound view it always has none |
| SlotClaims.TableOfHeard | src/cluster.c:1508-1568 | after any packets in any order, each slot belongs to the greatest-epoch claimant among those heard |
| SlotClaims.GreatestClaimWins | src/cluster.c:1546-1562 | once every claimant was heard, each slot belongs to its greatest-epoch claimant, or to none if unclaimed |
| SlotClaims.SlotClaimsConverge | src/cluster.c:2024-2045 | two observers of the same claims, in any order and with any repetition, end with the same table |
| SlotMoves.ClaimMoves | src/cluster.c:1528-1568 | a claim moves a slot to the claimant exactly when it is claimed, not being imported, and free or owned at a smaller epoch |
| SlotMoves.DemotionIff | src/cluster.c:1577-1590 | the node becomes a replica of the claimant exactly when a slot of the master it stood for moved and none is left to that master; a master then imports nothing more; no other record changes |
| SlotMoves.StepMoves | src/cluster.c:1668-2046 | for every step, node and slot, the owner after it, from the view and the packet before it: freed, claimed, told of, taken over, or unchanged |
| SlotMoves.ImportedStays | src/cluster.c:1536-1540 | no step moves a slot being imported, but for its owner announcing that it is a slave and a failover of its owner won by the node |
| SlotMoves.ImportedNeverMoves | src/cluster.c:1536-1540 | the same over every run |
| NodeLaws.RolesAfterHeartbeat | src/cluster.c:1837-1871 | a heartbeat settles the role and the master of its sender and leaves all other records but the receiver's alone |
| NodeLaws.HeaderEpochs | src/cluster.c:1668-1679 | every packet of a known sender raises the current epoch, and the sender's config epoch, exactly to those it carries |
| NodeLaws.CollisionIff | src/cluster.c:1943-1950 | a heartbeat changes the receiver's own epoch exactly when it stays a master and the sender, a master with a greater name, has that epoch in the packet and in the table; to one above the current epoch |
| NodeLaws.UpdateRecords | src/cluster.c:2024-2045 | an UPDATE with a newer epoch about a known node records that epoch and the node as a master; any other changes nothing |
| NodeLaws.AckCountsIff | src/cluster.c:1999-2011 | a packet adds one to the vote counter exactly when it is an ACK of a known master with slots whose epoch is not behind the election's |
| NodeLaws.SlaveSpeaksForMaster | src/cluster.c:2192-2214 | a slave's packets carry the epoch and exactly the slots of its master |
| NodeLaws.UpdateTells | src/cluster.c:2521-2531 | an UPDATE carries the epoch and the slots its sender records for the owner of a slot |
| NodeLaws.SchedulesIff | src/cluster.c:2903-2931 | an election is scheduled exactly when the slave may run one and the last one is over for twice its timeout; when it is due, and what is reset |
| NodeLaws.RequestsIff | src/cluster.c:2944-2975 | votes are requested exactly when the election is due, later by a second for each rank lost, not timed out and not begun; for a new epoch |
| NodeLaws.IdleKeeps | src/cluster.c:2936-2953 | otherwise, short of a victory, at most the due time moves |
| NodeLaws.WinLeaves | src/cluster.c:2796-2824 | a victory makes the node a master without a master of its own and recounts the masters with slots |
| NodeLaws.RecountCounts | src/cluster.c:3648-3689 | the size is the number of masters with slots, left alone at first on a master of a failed cluster |
| NodeLaws.BumpIff | src/cluster.c:990-1007 | the epoch is bumped exactly unless it is the greatest in sight and not zero; it then is greater than all others recorded |
| NodeLaws.AssignIff | src/cluster.c:4544-4580 | SET-CONFIG-EPOCH works exactly at a node that knows no other and has epoch 0 |
| NodeLaws.MarkSettles | src/cluster.c:1951-1975 | a FAIL report settles the mark of the node it is about and nothing else |
| NodeLaws.ForgetsAll | src/cluster.c:883-910 | a forgotten node leaves no record, slot, import or slave; the rest stays |
| NodeLaws.ForgetsIff | src/cluster.c:4399-4417 | FORGET is refused exactly for unknown nodes, the node itself and its own master |
| NodeLaws.ReplicatesIff | src/cluster.c:4418-4454 | REPLICATE works exactly for another master, at a replica or at a master without slots and keys |
| NodeLaws.ResetsTo | src/cluster.c:508-554 | a reset leaves a master alone without slots and imports; a soft one keeps name, epochs and last vote, a hard one none of them |
| NodeLaws.AssignsOne | src/cluster.c:4133-4162 | ADDSLOTS takes exactly the slot if it is free, DELSLOTS frees it, either ends its import |
| NodeLaws.ServerIsNode | src/cluster.c:1607-2046 | what a server does on a packet is what its node does in the cluster |
| NodeLaws.TimerIsNode | src/cluster.c:2834-3000 | the same for the failover timer |
| NodeLaws.CommandIsNode | src/cluster.c:4544-4580 | the same for the other commands |
| Bitmap.TestSet | src/cluster.c:3499-3520 | setting or clearing a bit changes that bit and no other |
| Bitmap.CountIsSize | src/cluster.c:3539-3570 | the counted bits are the size of the set of positions that test true |
| Bitmap.SameBits | src/cluster.c:1888-1889 | comparing two bitmaps byte by byte compares the sets of slots |
| SlotTable.CountIsOwned | src/cluster.c:3539-3570 | in a consistent table `numslots` is the number of slots owned |
| SlotTable.BitmapsDisjoint | src/cluster.c:3580-3598 | no slot is in two bitmaps |
| SlotTable.DelConsistent | src/cluster.c:3590-3598 | deleting an assigned slot finds its bit set, so the assertion holds, and keeps consistency |
| SlotTable.AddConsistent | src/cluster.c:3580-3586 | adding an unassigned slot finds its bit clear and keeps consistency |
| ClusterServer.Server.SetSlotBit | src/cluster.c:3539-3560 | sets one bit, returns the old one, counts it only when it was clear |
| ClusterServer.Server.ClearSlotBit | src/cluster.c:3564-3570 | clears one bit, returns the old one, uncounts it only when it was set |
| ClusterServer.Server.AddSlot | src/cluster.c:3580-3586 | assigns the slot if it was free, else leaves everything; keeps both tables consistent |
| ClusterServer.Server.DelSlot | src/cluster.c:3590-3598 | frees the slot if it was assigned; the assertion on the bit never fails |
| ClusterServer.Server.DelNodeSlots | src/cluster.c:3601-3611 | frees exactly the slots of the node and returns their number |
| ClusterServer.Server.SetNodeAsMaster | src/cluster.c:1481-1500 | refines the role change of the protocol model, tables consistent |
| ClusterServer.Server.SetMaster | src/cluster.c:3802-3818 | refines becoming a replica; the assertion fails exactly when the node has a slot |
| ClusterServer.Server.RebindClaimed | src/cluster.c:1528-1568 | the loop over all slots moves exactly the slots the claim wins (`SlotMoves.ClaimMoves`) and reports whether our master lost one |
| ClusterServer.Server.UpdateSlotsConfigWith | src/cluster.c:1508-1595 | refines a claim, including the switch to the new master; the assertion there fails exactly when the claim demotes the node and leaves it a slot |
| ClusterServer.Server.SwitchRole | src/cluster.c:1837-1871 | refines the role switch announced by a heartbeat |
| ClusterServer.Server.ProcessHeader | src/cluster.c:1668-1679 | raises the two recorded epochs and nothing else |
| ClusterServer.Server.HandleConfigEpochCollision | src/cluster.c:1055-1070 | refines the collision step |
| ClusterServer.Server.ProcessHeartbeat | src/cluster.c:1837-1950 | refines PING and PONG: role, slots, collision, or the failed assertion |
| ClusterServer.Server.ProcessUpdate | src/cluster.c:2024-2045 | refines UPDATE, including the early exits and the failed assertion |
| ClusterServer.Server.ClaimIsCurrent | src/cluster.c:2668-2688 | true exactly when no claimed slot has an owner with a greater epoch |
| ClusterServer.Server.SendFailoverAuthIfNeeded | src/cluster.c:2596-2696 | grants exactly when the model may vote, which `Votes.VoteIff` spells out, and then records the vote |
| ClusterServer.Server.ProcessAck | src/cluster.c:1999-2011 | counts the ACK exactly when its sender serves slots and its epoch is not behind |
| ClusterServer.Server.TakeSlots | src/cluster.c:2806-2812 | hands every slot of the old master to this node |
| ClusterServer.Server.ReplaceYourMaster | src/cluster.c:2796-2824 | refines the takeover by the winner, the recounted cluster size included |
| ClusterServer.Server.HandleSlaveFailover | src/cluster.c:2834-3000 | refines the failover timer, outcome included |
| ClusterServer.Server.CountServing | src/cluster.c:3672-3689 | counts the masters that serve at least one slot |
| ClusterServer.Server.UpdateSize | src/cluster.c:3648-3689 | records that count as the cluster size, unless a master of a failed cluster waits its first two seconds |
| ClusterServer.Server.GetMaxEpoch | src/cluster.c:946-960 | the greatest epoch known, attained and not exceeded |
| ClusterServer.Server.BumpConfigEpoch | src/cluster.c:990-1007 | refines the bump without consensus and says when it happens |
| ClusterServer.Server.DelNode | src/cluster.c:883-910 | forgets a node with its slots, imports and replicas; tables stay consistent and, unless it was the node's own master, the view stays sound |
| ClusterServer.Server.Reset | src/cluster.c:508-554 | leaves one master alone without slots, its view sound; a hard reset also clears epochs and the name |
| ClusterServer.Server.Join | src/cluster.c:863-870 | a node enters the table without slots; both tables stay consistent |
| ClusterServer.Server.AssignSlot | src/cluster.c:4133-4162 | ADDSLOTS and DELSLOTS of one slot, refused when busy or unassigned; the assertion on the result holds |
| ClusterServer.Server.Replicate | src/cluster.c:4418-4454 | CLUSTER REPLICATE with everything it refuses; the assertion of `clusterSetMaster` fails exactly when it is accepted at a node with slots |
| ServerRuns.OperateTidy | src/cluster.c:1607-2046 | every packet, timer and command, node deletion and reset included, that fails no assertion keeps the roles and owners in order, and the view sound unless it adds a slot at a replica |
| ServerRuns.AbortsAtReplica | src/cluster.c:3802-3804 | an operation fails the assertion of `clusterSetMaster` only at a replica that has slots |
| ServerRuns.RunSound | src/cluster.c:1607-2046 | over every list of operations that adds slots at masters only, no assertion fails and the view stays sound |
| ServerRuns.AddSlotSoundIff | src/cluster.c:4149-4162 | adding a free slot keeps the view sound if and only if the node is a master |
| ServerRuns.SlotAtReplicaAborts | src/cluster.c:4149-4162 | from a new node on: join, REPLICATE, ADDSLOTS leave a view that is not sound, and another REPLICATE aborts |
| ServerRuns.ServeForget | src/cluster.c:4399-4417 | CLUSTER FORGET, which refuses unknown nodes, itself and its own master |
| ServerRuns.ServePacket | src/cluster.c:1666-2046 | on the object: unknown senders ignored, then the header, then the body, as the protocol model does, or exactly the failed assertion it predicts |
| ServerRuns.Serve | src/cluster.c:1607-2046 | each operation does to the object what it does to its view, or fails an assertion exactly when the view says so; both slot tables stay equal |
| ServerRuns.ServeAll | src/cluster.c:3539-3611 | over every list of operations the slot tables stay consistent, the list is served to its end if and only if no operation aborts, and the object then is what the views come to |
| ServerRuns.ServeFromStart | src/cluster.c:407-446 | the same from a new node on; with slots added at masters only it never aborts and the view is sound |
| Ring.GrowthKeepsOrderIff | src/circular_queue.c:36-57 | the entries after a growing enqueue are the old ones and the new one in order if and only if `rear` is 0 |
| Ring.GrowthDoubles | src/circular_queue.c:36-57 | a full ring doubles, up to its greatest size |
| Ring.WrappedGrowthLoses | src/circular_queue.c:36-57 | a ring of three that was used once, then filled, and then grows: of 2, 3, 4 it keeps 2 and 4 and counts 3 |
| Ring.Queue.Grow | src/circular_queue.c:41-57 | doubles the capacity up to the maximum and keeps the entries from `rear` to the old end |
| Ring.Queue.Enqueue | src/circular_queue.c:25-66 | appends the entry; on a full ring what growth makes of the contents; a null entry changes nothing; the ring is then the value the store's model pushes to |
| Ring.Queue.Dequeue | src/circular_queue.c:68-87 | removes the first entry; None exactly when empty; the ring is then the value the store's model shifts to |
| VectorCodec.ReadPlain | src/stl.c:209-235 | element k of a stored plain vector is read back as it was |
| VectorCodec.ReadIsPlain | src/stl.c:771-788 | whatever the iterator returns holds neither its delimiter nor NUL |
| VectorCodec.CodecIsExactIff | src/stl.c:729-788 | every element is read back if and only if the vector is plain |
| VectorCodec.ColonIsLost | src/stl.c:729-748 | a value with a colon that is not last is not read back |
| Columns.VecAt | src/addb_relational.h:40-48 | the value of row r and column c is in the vector and at the index a scan looks at |
| Columns.VecLength | src/addb_relational.h:40-48 | how many values each column vector holds |
| Columns.InsertFromStores | src/addb_table.c:121-156 | inserting values one by one keeps every vector equal to its share of the flat list |
| Columns.InsertAll | src/addb_table.c:119-156 | the loop of FPWRITE inserts all values after the rows already there |
| Columns.SelectConcat | src/addb_relational.c:840-858 | the rows of one group after another are the rows of both |
| Columns.CachedScan | src/addb_relational.c:860-957 | the cached scan of a group in memory replies the requested columns of every row in order, and counts its replies |
| RocksScan.ReadNext | src/addb_relational.c:1094-1150 | fetches a vector only when the cached one is another, and the iterator then stands at the row |
| RocksScan.CachedScan | src/addb_relational.c:1079-1166 | the streaming scan replies what reading each element of each stored vector gives |
| RocksScan.ScanIsExactIff | src/addb_relational.c:1079-1166 | that reply equals the rows if and only if the requested columns are plain |
| TieringSafety.ChooseFacts | src/addb_table.c:71-117 | the group chosen is the last one or a new one, is never a flushed or persisted one, and its row count is right |
| TieringSafety.CrashIff | src/addb_table.c:84-117 | FPWRITE aborts if and only if it has no values and the last group is full |
| TieringSafety.WriteInv | src/addb_table.c:36-176 | FPWRITE keeps the store invariant, and the values go to the end of the partition |
| TieringScan.EmptyWriteAborts | src/addb_table.c:84-117 | one row that fills the group, then a write of nothing, aborts |
| TieringRuns.TierInv | src/evict.c:614-633 | taking a batch for eviction keeps the invariant; what is dequeued is always in memory only |
| TieringRuns.PersistInv | src/addb_relational.c:682-725 | writing a batch to RocksDB keeps the invariant |
| TieringRuns.MarkInv | src/addb_relational.c:727-732 | marking a group persisted keeps the invariant; the group is still in the dictionary |
| TieringRuns.ClearInv | src/circular_queue.c:89-113 | clearing keeps the invariant, and the assertion that the entry left memory holds |
| TieringScan.StepInv | src/bio.c:217-229 | every step of the store keeps the invariant and finds the assertions of the source true |
| TieringScan.RunInv | src/bio.c:146-229 | the same over every interleaving, also when a wrapped queue grows and drops entries |
| TieringScan.TieringInvisibleIff | src/addb_relational.c:840-957 | after every interleaving, also with queues that dropped entries, FPSCAN returns exactly the normalised values of all rows ever written, in order, for the requested columns, if and only if every evicted group read is plain; the number of replies is always the data count computed from the metadata |
| TieringScan.TieringInvisible | src/addb_relational.c:840-957 | in particular when no value written holds a delimiter |
| TieringScan.ColonIsNoticed | src/stl.c:729-748 | write, tier, persist, mark and clear two rows, one of which holds a colon: the scan is not what was written |
| TieringScan.EvictedStays | src/addb_table.c:94-105 | a group that is flushed or persisted is never appended to and never goes back |
| TieringLaws.NormaliseShows | src/addb_table.c:136-141 | a value is stored as nothing when it is empty or starts with a space or NUL, as "null" when it is that followed by NUL, and else as it is |
| TieringLaws.SentIsScanned | src/addb_table.c:136-244 | after every run whose evicted groups are plain, reply k of row r is the value sent for that row and column, as it is stored, and there are as many replies as rows times columns |
| TieringLaws.PlainIsScanned | src/addb_table.c:136-244 | in particular a value without NUL, colon and bracket is replied as it was sent, and as nothing when it is empty or starts with a space |
| TieringLaws.OpensIff | src/addb_table.c:71-114 | a write opens a new row group exactly when the last one is full, being evicted or evicted |
| TieringLaws.EnrollsIff | src/addb_table.c:160-170 | a row group enters the eviction queue, at its end, exactly when it is created |
| TieringLaws.BatchIsLeast | src/evict.c:614-633 | a batch takes the fewest groups, oldest first, that hold the rows asked for, or all |
| TieredStore.Store.ChooseGroup | src/addb_table.c:71-114 | picks the row group as the model does, updating the metadata in place |
| TieredStore.Store.Fill | src/addb_relational.c:584-633 | inserts the values, creating the group when missing |
| TieredStore.Store.FpWrite | src/addb_table.c:36-176 | refines the write, its arity error and its abort; what it stores of each value is `TieringLaws.NormaliseShows` |
| TieredStore.Store.PopOne | src/circular_queue.c:262-276 | moves the first evictable group to the free queue and marks it flushed |
| TieredStore.Store.BatchTiering | src/evict.c:614-633 | takes groups until the batch size is covered and queues one job |
| TieredStore.Store.PersistBatch | src/addb_relational.c:682-725 | writes every vector of every group of the job |
| TieredStore.Store.MarkOne | src/addb_relational.c:727-732 | marks the next group of the job persisted |
| TieredStore.Store.ClearOne | src/evict.c:708-727 | drops the first entry of the free queue exactly when it is persisted |
| TieredStore.Store.FpScan | src/addb_table.c:205-244 | refines the scan over all groups, in memory or stored |
| AofLog.CatCommand | src/aof.c:450-473 | appends the encoding of the command |
| AofLog.ReadArgsLoop | src/aof.c:711-732 | the argument loop reads what the decoder reads, errors included |
| AofLog.NextCommand | src/aof.c:696-732 | reads one command or says why not |
| AofLog.LoadAppendOnlyFile | src/aof.c:630-798 | the loading loop executes, in order, what the decoder yields and stops where it stops |
| AofLoad.PrefixLoads | src/aof.c:682-755 | loading any byte prefix of a log executes exactly its longest sequence of whole commands and sets the truncation offset to their length |
| AofLoad.WholeInIsLongest | src/aof.c:777-798 | that sequence is the longest one that fits |
| AofLoad.LoadInvertsEncode | src/aof.c:450-473 | loading a whole log gives back its commands, for all binary arguments |
| AofLaws.CorruptTail | src/aof.c:694-725 | commands followed by text that is no command and no beginning of one: they are executed, the end is told from a mere cut, and the offset is where that text starts |
| AofLaws.LineEnds | src/aof.c:685-694 | a line ends with its newline, with the file, or when the buffer is full |
| AofLaws.LongLine | src/aof.c:685-694 | what has no newline in time is cut after 127 characters |
| AofLaws.LogBytes | src/aof.c:450-472 | the text of a SET with an empty value, and of the SELECT in front of a command |
| AofLoad.ReplaysWhereItRan | src/aof.c:515-525 | with the SELECTs the feeder inserts, every command is replayed in the database it ran in |
| AofRewrite.StepInv | src/aof.c:95-194 | every step of the two processes conserves the bytes fed: file, buffers, blocks, pipe and diff |
| AofRewrite.RunInv | src/aof.c:1254-1275 | the same for every schedule |
| AofRewrite.FlushLosesNothing | src/aof.c:288-426 | for every sequence of feeds and full, short or failed writes, file and buffer are the whole stream, and the recorded size is the file's length |
| AofRewrite.StreamGrows | src/aof.c:565-573 | between rewrites the stream is what it was followed by the bytes fed |
| AofRewrite.RewriteIsExactIff | src/aof.c:1438-1555 | the file a successful rewrite leaves is the snapshot and every byte fed since the fork, in order, if and only if the child's last read took all that was in the pipe; for logs that are on, waiting or off |
| AofRewrite.ShortLastReadLoses | src/aof.c:1215-1223 | from any start, a schedule whose last read leaves a byte in the pipe loses that byte |
| AofRewrite.RewriteLosesNothing | src/aof.c:1185-1223 | for every schedule whose last reads empty the pipe it is |
| AofLaws.FlushGrows | src/aof.c:330-426 | a flush moves to the file exactly the bytes written, when the write was full, or short and not truncated, and none otherwise |
| AofLaws.FullFlushIsWhole | src/aof.c:288-426 | after every run one full write leaves the whole stream in the file and nothing in the buffer; between rewrites that is what it was and every byte fed since |
| AofLaws.LogStays | src/aof.c:565-573 | no step but a flush and a finished rewrite touches the file, and only feeding adds to the buffer |
| AofLaws.FailedRewriteLeaves | src/aof.c:1561-1585 | a rewrite that fails leaves the log as it was |
| AofLaws.FinishedRewriteSwitches | src/aof.c:1455-1556 | a finished one leaves its file with the pending bytes, and turns on exactly a log that is not off |
| AofLaws.PipeMoves | src/aof.c:95-122 | sending and reading move as many bytes as they say |
| AofServer.Server.Append | src/aof.c:125-169 | appends to the block list; used plus free is the block size in every block |
| AofServer.Server.Feed | src/aof.c:565-573 | feeds the buffer when the log is on and the blocks when a child rewrites |
| AofServer.Server.WriteDiffData | src/aof.c:95-122 | moves bytes from the front of the blocks to the pipe in order, exactly as many as the results of `write` allow, and none once the child asked to stop |
| AofServer.CompleteWritesDrain | src/aof.c:95-122 | one complete write per block empties all blocks |
| AofServer.Server.BufferWrite | src/aof.c:174-194 | writes all pending bytes, or fails exactly when the write of some block that holds anything falls short |
| AofServer.Server.Flush | src/aof.c:288-426 | refines the flush step in place, of which `AofLaws.FlushGrows` says how far it gets |
| AofServer.ReadDiff | src/aof.c:1053-1063 | moves bytes from the pipe to the diff in order, as many as the reads offer or the pipe holds, and leaves the pipe empty exactly when the ending read found it so |
| Crc.Tab64IsShift8 | src/crc64.c:42-171 | each of the 256 entries is eight division steps of its index |
| Crc.Shift8Linear | src/crc64.c:173-181 | the division steps distribute over exclusive or |
| Crc.LookupIsStep | src/crc64.c:173-181 | one table step is one byte of the bit serial division |
| Crc.ComputeCrc64 | src/crc64.c:173-181 | the loop computes the bit serial CRC |
| Crc.Crc64Injective | src/crc64.c:173-181 | for a fixed string the CRC is injective in the starting value |
| Crc.Tab16IsShift | src/crc16.c:47-80 | each of the 256 entries is eight division steps of its index |
| Crc.Lookup16IsStep | src/crc16.c:82-88 | one table step is one byte of the bit serial division |
| Crc.ComputeCrc16 | src/crc16.c:82-88 | the loop computes the bit serial CRC |
| Dump.CreateVerifies | src/cluster.c:4618-4645 | every payload built is accepted |
| Dump.DividesIff | src/cluster.c:4651-4668 | the stored CRC is right exactly when the whole payload has CRC zero |
| Dump.Crc64Separates | src/crc64.c:173-181 | strings that differ only within eight consecutive bytes have different CRCs |
| Dump.BurstRejected | src/cluster.c:4651-4668 | a payload differing from an accepted one only within eight consecutive bytes is rejected |
| Dump.OneByteRejected | src/cluster.c:4651-4668 | in particular in exactly one byte |
| Dump.VerifyPayload | src/cluster.c:4651-4668 | the checks in order decide acceptance: length, version, CRC |
| CodecLaws.PassesIff | src/cluster.c:4651-4668 | a payload passes if and only if it has ten bytes, its version, low byte first, is not above 8, and its CRC with the stored one is zero |
| CodecLaws.CheckValue64 | src/crc64.c:11 | the CRC-64 of "123456789" is the documented 0xe9c6d914c4b8d9ca |
| CodecLaws.CheckValue16 | src/crc16.c:44 | the CRC-16 of "123456789" is the documented 0x31C3 |
| KeyCodec.ParseInverts | src/addb_relational.c:16-70 | parsing a generated data key with a plain partition recovers table, partition and row group |
| KeyCodec.ParseIsExactIff | src/addb_relational.c:16-70 | it recovers them if and only if the partition is plain and the key fits the parser's buffer |
| KeyCodec.ToMetaKeyOfDataKey | src/addb_relational.c:141-159 | the metadata key of a generated data key, and its row group |
| KeyCodec.EmptyPartitionIsLost | src/addb_relational.c:16-70 | no key parses to an empty partition |
| KeyCodec.RocksKeyInjective | src/addb_relational.c:474-484 | RocksDB keys are equal only for equal table, partition, row group, vector and column |
| KeyCodec.HashTag | src/cluster.c:640-655 | the two searches find the text between the first brace and the next closing one, if it is not empty, else the whole key |
| KeyCodec.KeyHashSlot | src/cluster.c:640-659 | the slot is the CRC-16 of that text modulo 16384 |
| KeyCodec.SameSlot | src/cluster.c:640-659 | the data key, its metadata key and all its RocksDB keys have one slot |
| CodecLaws.BracesAreHashed | src/cluster.c:640-659 | the text between the first brace and the first closing one behind it is hashed when it is not empty |
| CodecLaws.OthersAreHashedWhole | src/cluster.c:640-659 | without a brace, without a closing one, or with nothing between, the whole key is |
| CodecLaws.SlotIsMod | src/cluster.c:640-659 | the slot is the CRC-16 modulo 16384 |
| CodecLaws.CheckSlot | src/cluster.c:640-659 | "123456789" is in slot 12739 |
| CodecLaws.PrefixIsSkipped | src/addb_relational.c:33-41 | behind a leading "I:" or "i:" of a data key one more field is skipped |
| CodecLaws.KeyTexts | src/addb_relational.c:435-484 | the data, metadata and RocksDB key of one row group, written out |
| CodecLaws.VectorText | src/stl.c:209-235 | the text of a vector of two values, written out |
| CodecLaws.BitOrders | src/bitops.c:209-242 | slots count from the low end of a byte, bits of a string from the high end |
| Filter.String2lOfText | src/addb_relational.c:1282-1366 | the decimal text of every 64-bit integer is read back |
| Filter.ReadCanonical | src/addb_relational.c:1282-1366 | the text of a canonical operand is read as that operand |
| Filter.ParseLoop | src/addb_relational.c:1242-1278 | the token loop over the stack computes the parse, after the unchecked copy into 128 bytes |
| Filter.ParsePushes | src/addb_relational.c:1282-1366 | parsing the postfix tokens of a tree on top of any stack pushes exactly that tree |
| Filter.ParseInvertsText | src/addb_relational.c:1242-1278 | parsing the text of a well-formed tree gives the tree, with or without the last colon clients send, if and only if the text fits the 128-byte copy; otherwise it overruns it |
| Filter.LongStatementOverruns | src/addb_relational.c:1243-1246 | nine EqualTo leaves under Or are 131 bytes and overrun the copy |
| Pruning.EvalLeafLoop | src/addb_relational.c:1432-1535 | the loop over the partition's values decides a leaf, as `FilterLaws.ComparisonsMean` and the laws after it spell out |
| Pruning.BoolRunPushes | src/addb_relational.c:1537-1603 | evaluating the tree equals running its postfix tokens on a stack of booleans |
| Pruning.PruningSound | src/addb_relational.c:1585-1603 | for filters without Not whose operands have their operators' types, a partition with a matching row is kept |
| Pruning.LeafIsSoundIff | src/addb_relational.c:1432-1535 | a leaf never prunes a matching row if and only if its operand has the operator's type |
| Pruning.NotIsSoundIff | src/addb_relational.c:1566-1571 | for a key that some row has, the negation of a leaf prunes no matching row if and only if the key decides the leaf |
| Pruning.NotPrunes | src/addb_relational.c:1566-1571 | every partition whose key lacks the filtered column is pruned with its matching rows |
| Pruning.PruningSafe | src/addb_relational.c:1585-1603 | with leaves under an even number of Nots of their operators' types and the others decided by the key, a partition with a matching row is kept |
| Pruning.PruningExact | src/addb_relational.c:1537-1603 | when every leaf is decided by the partition, keeping is exactly matching, Not included |
| Pruning.ParsePartitionsInverts | src/addb_relational.c:1368-1405 | parsing a partition string gives back its columns and values |
| Pruning.OnePassNext | src/addb_table.c:348-384 | filtering the survivors by one more statement is one pass with the conjunction |
| Pruning.FilterKeys | src/addb_table.c:348-384 | the loop over the `$`-separated statements is one order-preserving filter by all of them, or what the first statement that does not parse comes to |
| Pruning.MatchingPartitionKept | src/addb_table.c:348-384 | the text of any statements parses to them if and only if each fits the parser's copy, and a partition string whose key some row has that satisfies them all is among the survivors |
| FilterLaws.ComparisonsMean | src/addb_relational.c:1490-1523 | read from its text, a comparison with the number b keeps the partition whose key gives the column the number a exactly when a == b, a < b, a <= b, a > b or a >= b |
| FilterLaws.StringsMean | src/addb_relational.c:1490-1514 | on strings, EqualTo is equality and order comparisons never hold |
| FilterLaws.PatternsMean | src/addb_relational.c:1498-1510 | StringContains, StringEndsWith and StringStartsWith are what glob matching makes of the pattern and the value |
| FilterLaws.NullsMean | src/addb_relational.c:1462-1470 | IsNull keeps exactly partitions without the column, IsNotNull all |
| FilterLaws.LogicMeans | src/addb_relational.c:1566-1571 | "And" and "Or" behind two statements keep what both, or either, keeps |
| FilterLaws.NotMeans | src/addb_relational.c:1572-1573 | "Not" behind a statement keeps the readable keys it does not keep |
| FilterLaws.TwoTreesInvalid | src/addb_relational.c:1263-1271 | two conditions that nothing joins are no statement |
| FilterLaws.MissingConditionInvalid | src/addb_relational.c:1339-1342 | an operator that lacks a condition is no statement |
| FilterLaws.UnknownOperatorInvalid | src/addb_relational.c:1314-1320 | an operator that does not exist is no statement |
| FilterLaws.String2lIff | src/addb_relational.c:1296-1303 | an operand is read as a number if and only if it is the decimal text of a 64-bit integer |
| FilterLaws.DateIsNumber | src/addb_relational.c:1205-1230 | a date of the years 1000 to 9999 is read as the number its digits spell |
| Bitfield.SetUnsigned | src/bitops.c:209-222 | the field becomes the value modulo 2^bits, every other bit is unchanged |
| Bitfield.GetUnsigned | src/bitops.c:229-241 | the number the field spells |
| Bitfield.FieldOfBits | src/bitops.c:209-241 | a field whose bits are a number's bits spells that number modulo its width |
| BitfieldOps.WrappedIsCongruent | src/bitops.c:288-375 | the wrapped result fits and is congruent to the exact one modulo 2^bits |
| BitfieldOps.CheckIsResult | src/bitops.c:288-375 | both overflow checks, widths 1 to 63: reported exactly when the sum does not fit, with the right wrapped or clamped limit, or none under FAIL |
| BitfieldOps.IncrBy | src/bitops.c:1022-1081 | the field becomes the old value plus the increment, wrapped, clamped or unchanged; no bit outside it changes |
| BitfieldOps.CheckOfSet | src/bitops.c:288-375 | the check without an increment, its 64-bit differences included, gives what SET stores |
| BitfieldOps.SetIsExactIff | src/bitops.c:329-335 | SET follows its overflow policy if and only if it is not a signed saturation of a number below 2^(bits-1) - 2^63 |
| BitfieldOps.SaturatesUpwards | src/bitops.c:332-341 | -2^63 saturated to a signed byte is stored as 127 |
| BitfieldOps.SetField | src/bitops.c:1022-1081 | SET stores that result, replies the old value and changes no bit outside the field |
| BitfieldOps.GetPadded | src/bitops.c:1083-1114 | GET through the nine-byte copy reads the string as if zero padded |
| Popcount.TableIsOnes | src/bitops.c:44 | each of the 256 entries is the number of set bits of its index |
| Popcount.PopLanes | src/bitops.c:66-86 | the masked sums of a word are the sums of its bytes: nothing is counted into a neighbour |
| Popcount.GatherBytes | src/bitops.c:80-86 | the multiplication leaves the sum of the four byte counts in the top byte, without carry |
| Popcount.SevenWords | src/bitops.c:55-86 | seven words give exactly their set bits |
| Popcount.CountSeven | src/bitops.c:54-87 | one turn of the main loop counts the 28 bytes it passes |
| Popcount.PopCount | src/bitops.c:40-92 | for every string and alignment, the number of set bits |
| Popcount.CountOnesIsSize | src/bitops.c:40-92 | which is the size of the set of positions whose bit is set |
| Bitpos.LoadedBit | src/bitops.c:151-180 | bit k of the loaded big-endian word is bit k of the zero-padded string |
| Bitpos.SkipAhead | src/bitops.c:118-142 | skipped bytes and words hold no bit sought; what is left holds one in its first word or is shorter than a word |
| Bitpos.LoadWord | src/bitops.c:151-159 | the load pads with zeros past the end |
| Bitpos.ScanWord | src/bitops.c:172-184 | finds the first match; the panic after the loop is never reached |
| Bitpos.FindBit | src/bitops.c:101-186 | for every string and alignment, the least matching position, the first padding bit when seeking 0 among ones, and -1 exactly when seeking an absent 1 |
| BitOp.FoldBit | src/bitops.c:732-744 | a bit of the fold depends only on how many sources have that bit |
| BitOp.CombinedMeans | src/bitops.c:656-745 | AND, OR, XOR and NOT of the zero-padded sources, bit by bit |
| BitOp.MixOne | src/bitops.c:681-684 | one word operation is the byte operation on each of its bytes, in place |
| BitOp.MixAll | src/bitops.c:680-686 | one turn of the unrolled loop is the fold over all sources on 32 bytes |
| BitOp.FastPath | src/bitops.c:669-728 | the fast path computes the fold on the bytes it covers |
| BitOp.FoldOne | src/bitops.c:733-743 | one turn of the tail loop |
| BitOp.LookUp | src/bitops.c:627-654 | sources with missing keys empty, the longest and shortest length, or a type error |
| BitOp.BitOperation | src/bitops.c:616-763 | for any number and lengths of sources, the bytewise fold zero padded to the longest; the target is deleted when all are empty; the two error replies |

## Left out

- Handshake nodes, gossip, FAIL and PFAIL bookkeeping, manual failover timing, replica migration, MIGRATE, Pub/Sub and address discovery: a FAIL report is a command that marks a node, and the manual failover state is an input of the failover timer.
- TAKEOVER and SETSLOT: they override the protocol. Joining, FORGET, RESET, REPLICATE, ADDSLOTS and DELSLOTS are operations of one server (`ServerRuns`), not steps of the cluster (`ClusterSystem`).
- Restarts: `lastVoteEpoch` is never lost.
- Node records: values in a map keyed by name, without pointer identity, links or the list of a master's slaves; names are numbers ordered as `memcmp` orders them; epochs do not wrap.
- Dirty keys of lost slots, migrating slots and the deletion of keys on reset.
- ElectionSafety.OneWinnerPerEpoch: requires that ACKs are not duplicated, that counted ACKs come from one fixed set of voters, and that a winner's cluster size is that set's; `StaleAckElectsTwo` meets all of these.
- ClusterServer.Server.ProcessHeartbeat: this and the other packet handlers of the class require known masters and slot owners (`View.Tidy(false)`), which `ServerRuns.ServeAll` keeps over every list of operations; a failed assertion ends the list.
- The cluster state OK or FAIL: that it is FAIL in the first two seconds is an input of the recount.
- TieredStore.Store.BatchTiering: this and the other background steps of the class require the invariant that `TieringScan.RunInv` shows every interleaving to keep.
- SlotClaims.SlotClaimsConverge: one claim per node, pairwise distinct config epochs, an empty table and no importing slots.
- Ring.Queue.Enqueue: requires room to grow, where the source asserts it.
- The eviction and free queues in `Tiering` and `TieredStore` are the values `Ring.Queue` is proved to implement, not objects of that class; at 2^31 - 2 entries, where the source stops, they go on growing.
- RocksDB is a map written atomically per batch; memory accounting, `bio_pending` counters and key expiry are not modelled; only batch tiering is.
- Columns.CachedScan: requires requested columns within the partition's width, and a fixed width per partition; MAX_COLUMN_NUMBER and the width of `int` are not modelled.
- The fsync policy that exits the process on a failed write, the fsync calls themselves, the RDB preamble, MULTI blocks, and the rewriting of EXPIRE and SET into other commands.
- AofLoad.PrefixLoads: argument counts below 2^31 and argument lengths below 2^63, the ranges of `int` and `long` the loader reads them with.
- AofServer.Server.Flush: proved against the step of `AofRewrite`, for policies other than the one that exits.
- KeyCodec.ParseIsExactIff: table ids and groups that are not negative and fit an `int`; integer-array partitions are not modelled.
- Pruning.MatchingPartitionKept: at the level of partition strings; the pattern argument of METAKEYS and the parsing of the metadata key around the partition are not modelled.
- Glob matching is a parameter of `Pruning`; dates are read as numbers by the same function in filters and partitions; partition strings are taken to fit the 128 bytes that `parsePartitions` asserts.
- BitfieldOps.CheckIsResult: widths 1 to 63; at 64 the source shifts by the width. An `int64_t` difference that overflows is taken to wrap.
- Growing the string before a BITFIELD write or SETBIT, the argument parsing of the bit commands, and the range arguments of BITCOUNT and BITPOS.
- Popcount.PopCount: the address only decides where the aligned part begins; 32-bit words are little endian.
- Lists, hashes, sorted sets, replication, scripting, modules, sockets and the event loop.
