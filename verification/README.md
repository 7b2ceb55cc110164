# Sharded accounts that migrate: trie, partitioners, synchronization, conservation

Formal models, with proofs, of the parts of a sharded blockchain emulator in which accounts
move between shards while transactions go on: the Patricia trie, the graph partitioners that
decide where accounts belong, the MVSS and MVSS-Delta synchronization of a migrating account,
the transaction pools, the announcement of moved accounts, and the execution of blocks.
`dafny verify dfyconfig.toml` checks the whole project.

| file | what it models |
|---|---|
| `PatriciaTree.dfy` | trees of leaves, extensions and branches as values: lookup, the form that operations keep, and its uniqueness |
| `Trie.dfy` | the trie of node objects: `Put` overwrites nodes in place, `Delete` collapses and merges them; a ghost tree says what the objects hold |
| `Graph.dfy`, `Metis.dfy` | the transaction graph with its index, adjacency lists and weights; the edge count in front of METIS |
| `Clpa.dfy`, `Lbf.dfy`, `PageRank.dfy` | the three partitioners written in the repository |
| `MigCtx.dfy` | the context of a migrating account: old and new transactions, interleaving, phases |
| `DeltaSync.dfy` | inbound deltas, acks, and the exchange by deltas against the exchange by full states |
| `Stage3.dfy`, `Stage3Steps.dfy` | source, target and a network that delays, reorders and repeats, as a state machine; the methods of contexts, pools and target take its steps |
| `Outbound.dfy` | the outbound batches of deltas and their timers |
| `Promotion.dfy` | new transactions on the target, and old ones on the source, moved to the head of the queue, and the nonce checks they meet |
| `Transactions.dfy`, `TxPool.dfy` | transactions and announcements as values; packing and locking |
| `Announce.dfy` | what a source shard does with the transactions of accounts that have moved |
| `Conservation.dfy`, `ChainRuns.dfy` | the value of all accounts over all runs, of single entries and of blocks |
| `BlockEntries.dfy`, `Ledger.dfy`, `BlockExecution.dfy` | the entries of a block run one by one; who pays, who is paid and what is sent, added up from them; a block executed as a whole |
| `Selections.dfy`, `Wrappers.dfy` | the elements of a list that meet a condition, in order; `Option` |

Classes stand for what the program updates in place; their methods follow the branches of the
code and are proved against functions and predicates on values, about which the lemmas speak.
Map iteration, random picks, scores, clocks and the order of messages are arbitrary.

## Where the code does not do what it is meant to

These are proved too, each with its exact condition or with an input that shows it.

- CLPA: the two ways of computing `MinEdges2Shard` differ when every counter is above
  0x7fffffff, and self-loops make the incremental counters fall behind (`Clpa.RunRecomputed`).
- `DetectInterleave` guards itself with a positive id: when id 0 is picked it succeeds again
  (`MigCtx.DetectTwice`, `MigCtx.ZeroIsPicked`). When a new transaction shares its logical time
  with an old one its answer can depend on the order of map iteration
  (`MigCtx.EqualTimesLeaveAChoice`), and only then (`MigCtx.OneOutcome`).
- A paused transaction that the migrating account only receives is not held back, because the
  pool looks up the context of the sender (`Stage3.ReceiverNotHeldBack`).
- Deltas differ from full states for an empty nonce segment with a changed balance, when the
  balance the account left with is no longer on record, and whenever the value of the first new
  transaction is not all that the block does to the balance: for further transfers in the block,
  for one back to the account, and for one the source cannot pay (`DeltaSync.DeltaRefinesFull`).
- A delta that arrives before the mig2 block while the account's old nonce on the target equals
  its start is applied and then overwritten (`DeltaSync.EarlyDelta`).
- The handler of deltas does not itself limit the acks to one: it acks again exactly after a
  second delta that extends the account and the chain (`DeltaSync.AckedAgain`). What limits them
  is the source, which sends one state per context (`DeltaSync.OneMigrationOneAck`).
- `SetBranch` replaces the wrong child of an occupied nibble, or none, unless the child happens to
  sit in the slot with the nibble's number (`Trie.SlotReplaced`); its callers never do that.
- `handleAnns` loses transfers of a leaving account to itself from its side pool
  (`Announce.SourceShard.Depart`), and the packing loop without locks sets relays aside for their
  sender, with whom they are then shipped (`Announce.RelayFollowsSender`).
- An account that leaves again while a balance change is on its way to it, or an announcement of
  its last owner on its way to its new target, can lose that balance or its home, and exactly then
  (`Conservation.LeavesSafely`). The counters of the client wait for balance changes, but nothing
  waits for announcements to third shards, so with three shards or more the second case can come
  up (`Conservation.ThirdShardUntold`); the target then finds no recorded balance to subtract and
  stops. The run theorems are about runs in which accounts leave when the way is clear.

## Model

| member | source | states |
|---|---|---|
| `PatriciaTree.CanonicalUnique` | trie/trie_node.go:52-170 | two trees in the form that Put and Delete keep, with the same lookups, are equal but for the nodes and the storage order of branches |
| `PatriciaTree.PlugUpdated` | trie/trie.go:117-251 | rewriting the subtree at the end of a path changes the whole tree's lookups at the one key put and nowhere else |
| `PatriciaTree.PlugCanonical` | trie/trie.go:117-251 | it also keeps the form: no branch with fewer than two children, no empty extension, extensions point to branches |
| `PatriciaTree.BranchRemoved` | trie/trie_node.go:112-190 | dropping a child of a branch that keeps two removes its key and keeps the form |
| `PatriciaTree.SoleChildRemoved` | trie/trie_node.go:127-165 | a branch left with one child, joined with it, holds the other keys in the required form |
| `PatriciaTree.ExtRemoved` | trie/trie_node.go:52-74 | merging an extension with what its child has become removes the key and keeps the form |
| `Trie.FromBytes` | trie/trie_nibbles.go:40-46 | a byte key becomes its nibbles, high half first |
| `Trie.NibblesInjective` | trie/trie_nibbles.go:40-46 | different byte keys have different nibbles |
| `Trie.PrefixMatchedLen` | trie/trie_nibbles.go:96-108 | the length of the longest common prefix |
| `Trie.Node.SetBranch` | trie/trie_branch.go:17-43 | below a vacant nibble a child is added and the entries above shift; the bijection onto the branches survives exactly when those are stored last; below an occupied one the slot with the nibble's number is replaced, which is right exactly when the child sits there, and it can be out of range |
| `Trie.InsertIndexed` | trie/trie_branch.go:24-34 | the shifted entries and the spliced branches index the children exactly when the entries above the nibble were the last ones stored |
| `Trie.SlotReplaced` | trie/trie_branch.go:21-22 | replacing the slot with the number of the nibble replaces the nibble's child exactly when it sits there, or nothing is replaced |
| `Trie.Node.Split` | trie/trie.go:130-181 | a node overwritten in place holds the fork of two paths, behind the shared prefix if there is one |
| `Trie.Node.PutAtLeaf` | trie/trie.go:118-182 | Put at a leaf: the new tree differs in the one key, and keeps the form |
| `Trie.Node.PutAtBranch` | trie/trie.go:184-201 | Put below a vacant nibble of a branch, likewise |
| `Trie.Node.PutAtExtension` | trie/trie.go:207-243 | Put that parts from an extension, likewise |
| `Trie.Node.Delete` | trie/trie_node.go:47-193 | removes exactly the key, collapsing branches and merging extensions in place, and keeps the form |
| `Trie.Node.Absorb` | trie/trie_node.go:134-162 | a branch with one child left takes that child's place in one path |
| `Trie.Node.Merge` | trie/trie_node.go:58-74 | an extension goes on to what its child has become, in one path |
| `Trie.Trie.Get` | trie/trie.go:50-99 | finds exactly what the map of the trie says, for keys of any length |
| `Trie.Trie.Put` | trie/trie.go:108-253 | the map gains the key with its value and nothing else changes; every node stays in the required form |
| `Trie.Trie.Delete` | trie/trie.go:255-263 | the map loses the key, or the key is reported missing and the trie is unchanged |
| `Trie.Replay` | trie/trie.go:108-263 | after any history of puts and deletes the trie stands for the map that the history describes |
| `Trie.CanonicalForm` | trie/trie.go:108-263 | two tries that stand for the same map are the same tree |
| `Trie.PutThenDelete` | trie/trie.go:108-263 | putting a fresh key and deleting it restores the tree |
| `Graph.Graph.AddVertex` | algorithm/graph.go:25-34 | the index stays inverse to the list of vertices; a new vertex is appended with an empty row |
| `Graph.Graph.AddEdge` | algorithm/graph.go:37-55 | lists and weights stay those of the edges added: an entry of a row is how often the vertex occurs in the list |
| `Graph.RowsCounted` | algorithm/graph.go:49-54 | linking two numbered vertices keeps every weight equal to the multiplicity in the adjacency list |
| `Metis.SightsCount` | algorithm/partition_METIS.go:65-72 | with two-way edges the row entries are twice the distinct undirected edges and once each looped vertex |
| `Metis.TotalCountsSights` | algorithm/partition_METIS.go:66-68 | the sizes of the rows add up to the ordered pairs of neighbours |
| `Metis.CountEdges` | algorithm/partition_METIS.go:61-72 | the first panic is never reached; the second exactly for an odd number of looped vertices; otherwise the count is that of the distinct undirected edges |
| `Clpa.MinAgrees` | algorithm/partition_CLPA.go:65-131 | the minimum started from the first counter and the one started from 0x7fffffff agree exactly when some counter is at most that |
| `Clpa.EdgesMetTwice` | algorithm/partition_CLPA.go:72-96 | entering counts plus half of the inner counts are the edges that touch the shard |
| `Clpa.TotalEntering` | algorithm/partition_CLPA.go:88-92 | the entering counts add up to the ends of crossing edges |
| `Clpa.MoveChanges` | algorithm/partition_CLPA.go:106-124 | what the neighbours of a moved vertex change is the change of the true counters, but for its self-loops, whose effect is stated exactly |
| `Clpa.ClpaState.AddVertex` | algorithm/partition_CLPA.go:23-32 | a vertex starts in the shard of its address; the populations stay exact exactly when it is new |
| `Clpa.ClpaState.AddEdge` | algorithm/partition_CLPA.go:35-46 | a two-way edge; its new ends start in the shards of their addresses, all others keep theirs |
| `Clpa.ClpaState.ComputeEdges2Shard` | algorithm/partition_CLPA.go:62-103 | whatever the visiting order, the counters are the edges touching each shard, the crossing edges, and the capped minimum |
| `Clpa.ClpaState.ComputeEdges2Shard1` | algorithm/partition_CLPA.go:106-132 | the counters change by the neighbours' contributions, and the minimum is taken over them |
| `Clpa.ClpaState.BestShard` | algorithm/partition_CLPA.go:171-184 | the label is the first best-scoring shard among the neighbours', or the own one if no score exceeds the floor; scores may be NaN or infinite |
| `Clpa.ClpaState.Relabel` | algorithm/partition_CLPA.go:171-197 | one vertex moves to its best label exactly if that is another shard and its own shard has more than one vertex, else nothing changes |
| `Clpa.ClpaState.CLPA_Partition` | algorithm/partition_CLPA.go:160-208 | the whole run with the visits it makes: every round below the bound visits every vertex in the order of the list; a visit is a move, to the best label, exactly if the vertex has moved fewer than 1000 times, the label is another shard and its own has more than one vertex; populations exact throughout, counters off only by self-loops |
| `Clpa.OneLabel` | algorithm/partition_CLPA.go:171-184 | there is one best label |
| `Clpa.RunRecomputed` | algorithm/partition_CLPA.go:62-132 | after any move the counters are those of a recomputation exactly when no vertex moved so far has a self-loop and the minimum fits an int32 |
| `Clpa.IncrementalIsRecomputed` | algorithm/partition_CLPA.go:106-132 | without self-loops and with at most 2^31 - 1 edges they are so after every move of every run |
| `Clpa.StaysOccupied` | algorithm/partition_CLPA.go:185-194 | an occupied shard is never emptied |
| `Clpa.FinalShards` | algorithm/partition_CLPA.go:186-191 | the result map gives each moved vertex its final shard; all others keep theirs |
| `Clpa.MovedOnce` | algorithm/partition_CLPA.go:187-190 | the address list names exactly the moved vertices, each once |
| `Clpa.MovedInOrder` | algorithm/partition_CLPA.go:187-190 | and in the order of their first moves |
| `Lbf.LbfState.ComputeAvgWeight` | algorithm/partition_LBF.go:43-49 | the average is all list entries, two for a two-way and one for a one-way edge, over the shards |
| `Lbf.LbfState.LBF_Partition` | algorithm/partition_LBF.go:59-92 | for any picks: each vertex one shard, loads below average plus largest degree and at least the average unless vertices run out, the last shard within the average, results exactly the vertices away from their default shard |
| `Lbf.LastLoad` | algorithm/partition_LBF.go:83-90 | the last shard's load is at most the average, from the loads of the others |
| `Lbf.AllLoad` | algorithm/partition_LBF.go:43-49 | the loads of all shards add up to all list entries |
| `PageRank.MeetingsAreMutual` | algorithm/tx2graph.go:27-47 | the weights of the transaction graph are symmetric |
| `PageRank.MeetingsCounted` | algorithm/tx2graph.go:27-34 | a weight is the number of transfers in either direction |
| `PageRank.Tx2Graph` | algorithm/tx2graph.go:8-47 | each weight is the number of transactions between the two addresses, self-transfers counted twice; addresses in order of first occurrence |
| `PageRank.MentionedOnce` | algorithm/tx2graph.go:35-43 | no address is listed twice |
| `PageRank.MentionedInOrder` | algorithm/tx2graph.go:35-43 | the addresses come in the order of their first occurrences, a sender before its recipient |
| `PageRank.SumPoints` | algorithm/algorithm.go:101-111 | the weighted average of the neighbours' scores, in any visiting order; neighbours without weight are not looked up |
| `PageRank.AverageIs` | algorithm/algorithm.go:101-111 | the average times all weights is the sum of weight times score |
| `PageRank.AverageIsScore` | algorithm/algorithm.go:101-111 | an average of scores from 0 to 1 is from 0 to 1 |
| `PageRank.ShardSizes` | algorithm/algorithm.go:77-80 | the number of accounts of each shard |
| `PageRank.RefineAccount` | algorithm/algorithm.go:85-96 | one account's scores refined in place, each shard seeing the ones before |
| `PageRank.Pagerank` | algorithm/algorithm.go:68-99 | the scores after all iterations of the in-place refinement |
| `PageRank.InPlace` | algorithm/algorithm.go:84-97 | one iteration as equations: each score is the share of the own shard plus lambda times the average over the neighbours, of the new scores of accounts earlier in the list and the old scores of all others |
| `PageRank.StartsAtZero` | algorithm/algorithm.go:70-75 | all scores start from zero |
| `PageRank.ScoresStay` | algorithm/algorithm.go:84-97 | every score stays from 0 to 1; after one iteration each account's own-shard score is at least (1 - lambda) over the shard's size, hence positive |
| `PageRank.Allocate` | algorithm/allocation.go:3-14 | each account with a positive score gets the first shard of its highest score, any other none |
| `PageRank.GraphIsReady` | pbft/client.go:584-588 | the graph of the transactions meets what the scoring needs: every address has a neighbour |
| `PageRank.Reallocate` | pbft/client.go:582-597 | every account of the transactions gets the first shard of its highest score; the two results list exactly the changes, in the order of the addresses |
| `MigCtx.SortedOnce` | account/mvss_ctx.go:119-129 | with distinct times the sorted list does not depend on the order in which the map is read |
| `MigCtx.PatternIsInterleaved` | account/mvss_ctx.go:130-134 | old, new, old in the list means a new transaction whose neighbours in logical time are old |
| `MigCtx.FirstPattern` | account/mvss_ctx.go:130-140 | the first such place is the earliest interleaved transaction, and the olds listed after it are exactly the later ones |
| `MigCtx.OneOutcome` | account/mvss_ctx.go:119-145 | when no new transaction shares its logical time with an old one, every reading order leads to the same pick and the same paused ones |
| `MigCtx.EqualTimesLeaveAChoice` | account/mvss_ctx.go:119-129 | when a new one does share its time with an old, the reading order can decide |
| `MigCtx.Sort` | account/mvss_ctx.go:123-129 | the exchange sort sorts the items in place and keeps them all |
| `MigCtx.MigAccountCtx.RegisterOrder` | account/mvss_ctx.go:79-94 | records logical and arrival time |
| `MigCtx.MigAccountCtx.DetectInterleave` | account/mvss_ctx.go:104-147 | succeeds exactly when some new transaction is interleaved and none was picked before; picks the earliest; pauses exactly the later olds |
| `MigCtx.MigAccountCtx.PausedAreSuffixOlds` | account/mvss_ctx.go:248-260 | the paused ones are the suffix-olds; with the prefix they are all registered olds |
| `MigCtx.MigAccountCtx.PrefixOldAllCommitted` | account/mvss_ctx.go:162-181 | true exactly when every old before the picked one is committed |
| `MigCtx.MigAccountCtx.PrefixOldReady` | account/mvss_ctx.go:184-207 | true exactly when every old before the picked one is committed or out of the pool |
| `MigCtx.MigAccountCtx.ResumeAfterSyncAck` | account/mvss_ctx.go:263-270 | nothing is paused and no synchronization needed any more |
| `MigCtx.MigAccountCtx.EndBlock` | pbft/mvss_sync.go:709-714 | the state is sent exactly when the prefix is done in the paused phase, and then the phase moves on |
| `MigCtx.Live` | account/mvss_ctx.go:108-143 | in any history with positive ids the detection succeeds at most once and at most one state is sent, at the end of some block |
| `MigCtx.DetectTwice` | account/mvss_ctx.go:109-111 | a second detection right after the first succeeds exactly when the picked id is not positive |
| `MigCtx.ZeroIsPicked` | account/mvss_ctx.go:109-111 | a register in which id 0 is picked |
| `DeltaSync.TargetShard.EnqueuePending` | pbft/mvss_delta.go:139-153 | keeps an early delta, behind the others, exactly if its segment is not kept already |
| `DeltaSync.TargetShard.ApplyDeltaInbound` | pbft/mvss_delta.go:285-360 | repeated, kept, applied or refused, as the account's nonce, the digest chain and the balance decide; an applied delta promotes the account's news in the pool |
| `DeltaSync.InboundRule` | pbft/mvss_delta.go:285-360 | when a sound delta is taken, and what then changes: nothing but the context for a repeated one, the kept deltas for one ahead of the nonce, balance, nonce, chain and phase for one that starts at it |
| `DeltaSync.TargetShard.HandleDelta` | pbft/mvss_delta.go:249-264 | deltas of other accounts and acks change nothing; a refused delta aborts; one without a context is kept |
| `DeltaSync.TargetShard.FlushPending` | pbft/mvss_delta.go:268-282 | the kept deltas are received again in order, each applied one promoting the news |
| `DeltaSync.OneAfterTheOther` | pbft/mvss_delta.go:268-282 | kept deltas take effect in their order, and so do the transactions of a block |
| `DeltaSync.TargetShard.SendDeltaAck` | pbft/mvss_delta.go:363-421 | when an ack is sent, and each of its fields: account, shard, segment up to the account's nonce, the digest held before, the value of the first new transaction; and the context after it |
| `DeltaSync.TargetShard.ExecuteTx` | chain/blockchain.go:464-533 | a transfer of the account with the current nonce, or one to it, as balance, nonce and the ack that falls due |
| `DeltaSync.TargetShard.CommitBlock` | pbft/mvss_sync.go:653-707 | mig2, transfers, flush of early deltas, and the ack that is due, which tells of the account as the block has left it |
| `DeltaSync.AckIsOwn` | pbft/mvss_delta.go:400-418 | every ack at the end of a block is for the account, from the shard, up to the nonce the block has left, and its digest is the context's |
| `DeltaSync.TargetShard.ApplyAccountDelta` | chain/blockchain.go:800-843 | refuses a negative balance, else adds balance and nonce |
| `DeltaSync.SourceShard.SendStateIni` | pbft/mvss_sync.go:580-636 | the delta since the account was left, field by field, sent once and sound by its own checks; without a recorded balance it reports none as changed; a nonce that went back aborts |
| `DeltaSync.SourceShard.OnDeltaAck` | pbft/mvss_delta.go:424-450 | an ack is applied exactly if it is sound and leaves no negative balance; balance and nonce then grow by what it tells |
| `DeltaSync.SourceShard.HandleAck` | pbft/mvss_delta.go:225-246 | an ack counts only for its own account and from the shard the account moved to; taken, it resumes what was paused and promotes it in the source pool, any other such ack aborts; the account changes only with a taken one |
| `DeltaSync.SourceShard.Abort` | pbft/mvss_delta.go:452-461 | an abort resets the context and is remembered |
| `DeltaSync.RunIsTiled` | pbft/mvss_delta.go:307-359 | for any deliveries and transfers: applied segments and used nonces tile the nonces from the start to the current one, and the balance is their sum |
| `DeltaSync.AppliedOnce` | pbft/mvss_delta.go:307-359 | applied segments are not empty and share no nonce |
| `DeltaSync.AcksPerSegment` | pbft/mvss_delta.go:363-421 | no more acks are sent than different segments were delivered |
| `DeltaSync.OneSegmentOneAck` | pbft/mvss_delta.go:363-421 | copies of one segment, in any number and order, cause at most one ack |
| `DeltaSync.OneMigrationOneAck` | pbft/mvss_sync.go:710-714 | end to end: whatever the source context lives through, its target, receiving copies of what was sent, sends at most one ack |
| `DeltaSync.OpenIsAcking` | pbft/mvss_sync.go:694-702 | a block can end with an ack exactly when the target has applied a state and the migration is not aborted |
| `DeltaSync.AckedAgain` | pbft/mvss_delta.go:334-353 | after its ack a target is ready for another exactly when a delta has since extended its account and digest chain and nothing aborted the migration |
| `DeltaSync.TwoSegmentsTwoAcks` | pbft/mvss_delta.go:350-354 | so the one segment is needed: a second chained one, which no source context sends, makes a second ack |
| `DeltaSync.EarlyDelta` | pbft/mvss_delta.go:307-336 | a delta before the block with mig2 survives that block exactly when the old nonce on the target is below the segment and the balance is not negative |
| `DeltaSync.DeltaRefinesFull` | pbft/mvss_sync.go:580-650 | for any block on the target, deltas leave both shards as full states do exactly when the delta hands the state over and the first new transaction, which the source can pay, is all the block does to the balance once a new one has run; the source applies only acks for its account, and the target's is one |
| `DeltaSync.TargetShard.ApplySyncInbound` | pbft/mvss_sync.go:420-436 | the target takes the full state of the source, goes on to the applied phase and promotes the account's news |
| `DeltaSync.TargetShard.SendSyncAck` | pbft/mvss_sync.go:756-780 | the full state goes back exactly once a new transaction was executed on the applied state, and the context moves on exactly then |
| `DeltaSync.FullExchangeAgrees` | pbft/mvss_sync.go:420-436 | full states leave the target with the state of the source and the effect of the block, and the source with the same once a new transaction has run |
| `DeltaSync.BothShardsAgree` | pbft/mvss_sync.go:571-578 | in the ordinary case source and target end with the same balance and nonce |
| `DeltaSync.OneNewRefines` | pbft/mvss_delta.go:387-400 | with one new transaction in the block: exactly when the state is handed over, the source can pay the transfer, and it does not return to the account |
| `Stage3.InvStays` | pbft/mvss_sync.go:668-719 | every step of source, target and net keeps the invariant |
| `Stage3.StateAfterPrefix` | pbft/mvss_sync.go:709-714 | the state is sent only after every registered prefix-old has left the source pool |
| `Stage3.NewAfterState` | core/txpool.go:216-222 | no new transaction of the account is packed on the waiting target before the state was sent and came |
| `Stage3.SuffixAfterAck` | core/txpool.go:223-227 | a paused transaction that the account sends is packed on the source only after state, new transaction, ack sent and ack back, in this order |
| `Stage3.ReceiverNotHeldBack` | core/txpool.go:223-227 | a paused transaction that the account only receives is packed without any of that: a run that shows it |
| `Stage3.PickIsAllowed` | account/mvss_ctx.go:130-145 | what DetectInterleave picks and pauses is what the state machine's step allows |
| `Stage3Steps.Redirects` | account/mvss_ctx.go:79-94 | registering a redirected new transaction is a step of the state machine |
| `Stage3Steps.Detects` | account/mvss_ctx.go:104-147 | a successful detection on the context is a step of the state machine, an unsuccessful one changes nothing |
| `Stage3Steps.MarksCommitted` | account/mvss_ctx.go:210-222 | so is marking a transaction that has left the pool as committed |
| `Stage3Steps.EndsBlock` | pbft/mvss_sync.go:709-714 | the end of a source block sends the state in a step of the machine, or changes nothing |
| `Stage3Steps.TakesAck` | account/mvss_ctx.go:263-270 | so is the resumption after the ack |
| `Stage3Steps.PackedAtSource` | core/txpool.go:223-227 | what the pool packs on the source the state machine may pack there |
| `Stage3Steps.PackedAtTarget` | core/txpool.go:216-222 | and what it packs on the target |
| `Stage3Steps.DeltaArrives` | pbft/mvss_delta.go:285-360 | a delta that does not abort the migration is a state received, applied or not |
| `Stage3Steps.StateArrives` | pbft/mvss_sync.go:420-436 | a full state is a state received and applied |
| `Stage3Steps.BlockEnds` | pbft/mvss_sync.go:653-707 | a block of the target, with the ack at its end if one is due, is a run of the state machine |
| `Outbound.OutboundQueues.Enqueue` | pbft/mvss_delta.go:40-72 | a delta joins the target's batch unless its segment is waiting; the first one starts the clock and arms the timer |
| `Outbound.OutboundQueues.Flush` | pbft/mvss_delta.go:82-106 | a waiting batch is sent, unless it is not forced and the window has not passed |
| `Outbound.OutboundQueues.FlushAllAtBlockEnd` | pbft/mvss_delta.go:109-120 | every target is flushed, at once without a window |
| `Outbound.OfferRule` | pbft/mvss_delta.go:40-72 | a delta joins exactly if it is no ack and no waiting one has its address, start and end; when the window starts and the timer is armed |
| `Outbound.FlushRule` | pbft/mvss_delta.go:82-106 | exactly when the whole queue is sent as one batch |
| `Outbound.RunKeepsOrder` | pbft/mvss_delta.go:40-106 | sent batches followed by the waiting one are the accepted deltas in order |
| `Outbound.BatchesDoNotRepeat` | pbft/mvss_delta.go:45-50 | no batch names a segment of an account twice |
| `Outbound.TimerIsArmed` | pbft/mvss_delta.go:59-79 | with a window a batch waits exactly while its timer is armed for one window after its start |
| `Outbound.NothingWaitsAfterBlock` | pbft/mvss_delta.go:109-120 | without a window nothing waits after a block |
| `Outbound.WaitIsBounded` | pbft/mvss_delta.go:59-71 | if timers fire in time no delta waits longer than the window |
| `Promotion.TargetPool.PromoteMigNewTxsToHead` | pbft/mvss_sync.go:454-491 | the account's news, and nothing else, move to the head in order, numbered from the nonce on the chain; the rest follows in order; the context learns the next nonce if there are any |
| `Promotion.PromotionPermutes` | pbft/mvss_sync.go:469-483 | but for nonces the promoted queue is a permutation |
| `Promotion.SourcePool.PromoteSuffixOldAfterAck` | pbft/mvss_sync.go:494-569 | once a new transaction was picked the account's old suffix moves from queue and side pool to the head of the queue in order, numbered from the nonce of the account; the rest stays in order |
| `Promotion.PromotedAre` | account/mvss_ctx.go:225-260 | which transactions are the news of an account, and which are its paused or later olds, by their fields |
| `Promotion.SuffixPromotionPermutes` | pbft/mvss_sync.go:533-565 | but for nonces queue and side pool together hold what they held |
| `Promotion.ConsecutiveRun` | chain/blockchain.go:453-495 | consecutive nonces are all used exactly when every transaction runs from its sender's side |
| `Promotion.PromotedRun` | chain/blockchain.go:453-495 | any first part of promoted transactions, in a block with others, passes every nonce check and moves the nonce by its number exactly when all run from the sender's side |
| `Promotion.PromotedNewsRun` | chain/blockchain.go:457-495 | the promoted news of a target do so when each is redirected or no relay |
| `Promotion.PromotedSuffixRuns` | chain/blockchain.go:457-495 | and the promoted suffix of a source when it holds no relay |
| `Promotion.UntaggedRelayStopsTheRun` | chain/blockchain.go:458-483 | behind a relay without a tag the next promoted transaction is skipped |
| `TxPool.Pool.FetchTxs2Pack` | core/txpool.go:167-393 | up to the first place at which leftCount are packed, the block takes exactly what the strategy lets it take, side pools what is to be set aside for each account, marked, and the rest stays, all in queue order; behind that place everything stays; which of the packed are marked in source contexts |
| `TxPool.PackRule` | core/txpool.go:193-378 | per strategy, from the fields alone: what may be packed, what is set aside for its sender, what for its recipient, and that all else stays |
| `TxPool.PackedUnlessFull` | core/txpool.go:187-393 | a transaction that may be packed stays only if leftCount earlier ones were packed |
| `TxPool.LockMarks` | core/txpool.go:259-290 | the marks and times of what packing sets aside |
| `TxPool.Pool.LockTX` | core/txpool.go:404-498 | the in-place compaction keeps exactly what no rule locks and sets the rest aside for sender or recipient, marked, all in queue order |
| `TxPool.LockRule` | core/txpool.go:409-486 | per strategy, from the fields alone: what is locked for its sender, what for its recipient, in which pools |
| `TxPool.LockedMarks` | core/txpool.go:415-483 | the marks and times of what locking sets aside |
| `TxPool.PackingKeepsAll` | core/txpool.go:167-393 | packing loses and doubles nothing |
| `TxPool.LockingKeepsAll` | core/txpool.go:404-498 | locking loses and doubles nothing |
| `TxPool.LockingIsDone` | core/txpool.go:404-498 | a locked queue holds nothing more to lock |
| `TxPool.PackedIsNotHeld` | core/txpool.go:215-228 | nothing is packed that waits for the state or is paused |
| `TxPool.PackedIsUnlocked` | core/txpool.go:308-376 | with full locking nothing packed touches a locked account; with fine-tuned locking no packed sender is leaving |
| `Announce.SourceShard.Release` | pbft/handleanns.go:120-148 | of what waits for a leaving account as recipient, exactly the transfers of senders neither departing nor locked go to the queue, as successes, the others to their sender's pool, marked; the rest stays; all in order; exactly its self-transfers are lost |
| `Announce.ReleaseRule` | pbft/handleanns.go:132-144 | which transactions are freed, handed over and kept, by their fields |
| `Announce.ReleaseMarks` | pbft/handleanns.go:125-139 | the marks and times of a release |
| `Announce.SourceShard.Unlock` | pbft/handleanns.go:103-182 | an announced account is locked no more, and what waits for it is released |
| `Announce.SourceShard.Depart` | pbft/handleanns.go:40-194 | the accounts of the shard leave it in order, each releasing what waits for it; who is locked afterwards; nothing is lost exactly when their pools hold no self-transfer |
| `Announce.DepartsFirst` | pbft/handleanns.go:40-101 | an account of the shard departs with its first announcement |
| `Announce.EntersLast` | pbft/handleanns.go:40-101 | the last announcement decides where the account is |
| `Announce.SourceShard.CollectSides` | pbft/handleanns.go:202-242 | the side pools of leaving accounts are emptied for shipping |
| `Announce.SourceShard.CollectQueue` | pbft/handleanns.go:261-286 | the queue is closed up in place, in order, around exactly what goes with a leaving account, which is added to that account's shipment in order |
| `Announce.QueueRule` | pbft/handleanns.go:261-286 | which transactions stay in the queue and which go with an account, by their fields |
| `Announce.SourceShard.CollectLate` | pbft/handleanns.go:297-305 | what came after the announcement is shipped too |
| `Announce.SourceShard.Ship` | pbft/handleanns.go:196-305 | side pools, queue and what came late, shipped with each leaving account in this order |
| `Announce.SourceShard.HandleAnns` | pbft/handleanns.go:18-305 | all transactions are accounted for: the queue, the side pools, who is locked, and what is shipped with each account, all exactly and in order; what is shipped with an account follows it exactly when what came late for it does and, under fine-tuned locking, what its side pool held does |
| `Announce.NoneLeftBehind` | pbft/handleanns.go:261-286 | nothing that should have gone stays in the queue |
| `Announce.PackingPlaces` | core/txpool.go:252-353 | under the lock strategies packing keeps the side pools well placed |
| `Announce.LockingPlaces` | core/txpool.go:404-498 | and so does locking; under fine-tuned locking it keeps a pool settled exactly if it was |
| `Announce.PackingSettles` | core/txpool.go:359-376 | under fine-tuned locking a pool stays settled through packing exactly when nothing is set aside in it that does not follow its account |
| `Announce.RelayFollowsSender` | core/txpool.go:359-376 | under fine-tuned locking relays are set aside for their sender as well: right exactly when the sender is the recipient |
| `Conservation.TxKeeps` | chain/blockchain.go:453-533 | a transfer or relay keeps the value where its sender, or recipient, is live |
| `Conservation.Mig1Keeps` | pbft/pbftsingle.go:61-68 | leaving keeps the value exactly when nothing was recorded for the account before |
| `Conservation.Mig2Keeps` | chain/blockchain.go:416-444 | arriving keeps the value exactly when the account was not live there, or empty |
| `Conservation.AnnKeeps` | pbft/handleanns.go:396-431 | an announcement turns the gain since leaving into a change on its way |
| `Conservation.NsKeeps` | chain/blockchain.go:603-613 | a change reaches the account exactly when it is live on the shard, or is nothing |
| `Conservation.InvStep` | chain/blockchain.go:414-615 | every entry on every shard keeps each account in one phase of its migration |
| `Conservation.ValueIsConserved` | chain/blockchain.go:414-615 | over every run, in which accounts leave when the way is clear, the worth of all shards and messages stays the same |
| `Conservation.LeavesSafely` | pbft/handleanns.go:382-431 | a settled account may leave exactly when the way is clear: then the total stays and the account is live somewhere over every run that follows, else some run breaks this |
| `Conservation.ThirdShardUntold` | pbft/pbft.go:1492-1514 | a run to a world where it is not clear, though the last migration is over: a third shard has not been told of it, and the account moves there |
| `Conservation.TotalIsAuthoritative` | pbft/handleanns.go:396-431 | that worth is the sum of the authoritative balances, phase by phase, and of the relays on their way |
| `Conservation.BalancesAreConserved` | chain/blockchain.go:414-615 | so the authoritative balances with the relays on their way are what they were at first |
| `BlockExecution.ShardChain.ExecuteMig2s` | chain/blockchain.go:416-445 | arriving accounts are written with the balance they moved with |
| `BlockExecution.ShardChain.ExecuteTxs` | chain/blockchain.go:453-535 | each account pays the values of the transfers it sends that are no relays, and is paid the values of those to it if it is located here; locations stay; as run one by one |
| `BlockExecution.ShardChain.RecordBalances` | chain/blockchain.go:544-554 | the balances with which accounts leave |
| `BlockExecution.ShardChain.MoveAnnounced` | chain/blockchain.go:559-568 | announced accounts get their new location |
| `BlockExecution.ShardChain.ApplyChanges` | chain/blockchain.go:603-613 | changes are added to the balances |
| `BlockExecution.ShardChain.CollectRelays` | pbft/pbftsingle.go:158-165 | the transfers, not yet relays, whose recipients are not of this shard |
| `BlockExecution.ShardChain.SendChanges` | pbft/handleanns.go:382-433 | for each account that has gone, what it gained since it left, if anything |
| `BlockExecution.ShardChain.SendMig2s` | pbft/pbft.go:1311-1341 | each leaving account is sent with its recorded balance |
| `BlockExecution.ShardChain.Announce` | pbft/pbft.go:1450-1514 | each arrived account is announced to all other shards |
| `BlockEntries.BlockRuns` | chain/blockchain.go:414-615 | the entries of a block run in the order mig2, transfers, mig1, announcements, changes |
| `BlockExecution.ShardChain.CommitBlock` | pbft/pbftsingle.go:54-312 | after a block every account has the balance it arrived with or had, minus what it spent, plus what it gained where it lives here, plus its changes; where it lives, what is on record for it, and how often each message is sent, all from the entries; the same as the entries run one by one |
| `Ledger.TransfersBooked` | chain/blockchain.go:453-535 | run one by one, transfers change balances by what is spent and gained |
| `Ledger.BlockBooked` | chain/blockchain.go:414-615 | run in the order of a block, all entries leave balances, locations and records as booked |
| `Ledger.MessageCounted` | pbft/pbftsingle.go:54-312 | and each message is sent as often as the entries ask for it |
| `ChainRuns.PackedIsHoldable` | core/txpool.go:199-214 | what the pool packs without MVSS is sent by, or relayed to, accounts of the shard |
| `ChainRuns.EntriesRun` | chain/blockchain.go:414-615 | entries that fit one after the other, each for a message of the net, are a run of actions |
| `ChainRuns.CommitOn` | pbft/pbftsingle.go:54-312 | a shard that commits a block takes the world of all shards one block further |
| `ChainRuns.BlockKeeps` | pbft/pbftsingle.go:54-312 | a block keeps the total and every account in some phase, in whatever order messages lie |
| `ChainRuns.ChainsConserve` | chain/blockchain.go:414-615 | over every run of blocks on all shards the authoritative balances with the relays on their way stay what they were |

## Left out

- Trie.Trie.Put: keys of one length per trie; for a key that ends inside an extension the program indexes past the key, and values at branches, which such keys would need, do not occur.
- Trie.Node.PutAtLeaf: likewise, keys of the length of the leaf's.
- Trie.Node.SetBranch: `RemoveBranch` and the value of a branch are not part of this model; nothing calls the first, and keys of one length do not use the second.
- Trie.Replay: encoding, hashing, printing and building a trie from data are not part of this model; key slices are values, so aliasing between them is not captured.
- Clpa.ClpaState.CLPA_Partition: the score is any function of the state, with the order of float64; integers do not overflow.
- Lbf.LbfState.LBF_Partition: the average is an exact real number, at least one shard.
- PageRank.Pagerank: real numbers instead of float64, and every account of the graph must have a shard, as the client ensures.
- Metis.CountEdges: the file and the external program it is for.
- MigCtx.MigAccountCtx.DetectInterleave: the probe ids and the early pause they trigger.
- DeltaSync.TargetShard.ApplyDeltaInbound: one account, digests as an injective constructor, no message without a balance; int64 and uint64 do not overflow.
- DeltaSync.DeltaRefinesFull: one block on the target between delta and ack; a delta refused for a negative balance is covered by `DeltaSync.OneNewRefines` only.
- Stage3.SuffixAfterAck: runs without aborts, one migration, transaction ids used once; the target context starts waiting, which the program does when the source had pending transactions and probing is on.
- Outbound.OutboundQueues.Enqueue: one step, although the program arms the timer after it has released its lock.
- Promotion.PromotedRun: the numbering of old transactions when a context is built, which follows the same pattern.
- TxPool.Pool.FetchTxs2Pack: `RelayLock` off, and a single reading of the clock for all transactions of a call; transactions are values, so an update through another reference is not captured.
- Announce.SourceShard.HandleAnns: the strategies other than MVSS, one at a time; no MVSS context keeps a transaction on the source; proofs of membership and the message to the client are left out.
- Conservation.ValueIsConserved: accounts are not locked, relays and migrations are delivered once, and a shard's sending is one step with its commit; a missing recorded balance counts as zero where the program stops.
- ChainRuns.ChainsConserve: a block announces an account once, and an account that has just arrived does not leave in the same block.
- BlockExecution.ShardChain.CommitBlock: `Migrate` marks, which only full locking reads, and missing accounts, on which the program panics.
- The consensus phases of PBFT, storage, networking, logs, probing and failure switches, key generation and data set parsing.
- The buffer for full states that arrive before their context: one slot per account, applied when the context is there.
