# A verified model of a replicated volume service

The repository is a storage service written in C++. Volumes are replicated by groups of volume servers; a config
service decides which servers make a group; a ZooKeeper-like service coordinates who leads. This project models the
code that these three rest on and proves what it promises, and where a promise does not hold it proves exactly when
it does.

Every handler that changes a member's state is written twice: as a method of a class with the source's fields, and
as a function from the old state to the new one that the method is proved equal to. The transition systems below are
built from those same functions, so that a theorem about all runs is about what the methods do.

| file | what it models |
|---|---|
| `Journal.dfy` | a replica's in-memory journal |
| `BlobKeys.dfy`, `MetaDb.dfy` | the metadata database: 16-byte little-endian keys, batch update, range scan with an iterator |
| `Replica.dfy` | a replica's write path: number, journal, apply, undo; pulling and applying batches |
| `WriteQuorum.dfy` | the shared context of one replicated write and its promise |
| `Member.dfy`, `Election.dfy` | a group member's handlers, peer tracking, vote counting, taking office |
| `Cluster.dfy` | a leader and its peers in one leader context; messages are lost, duplicated and reordered freely |
| `ClientWrite.dfy` | the same runs: what a client is answered, how writes are numbered, and exactly when a leader gets stuck |
| `PeerReport.dfy` | the same runs: what a leader records of its peers, whatever the order of reports, and whom it sends to after a failure |
| `CodedElection.dfy` | the election with the answers the code gives: who wins, and when a successful write is lost |
| `SecondContext.dfy` | a leader over the journal that an earlier leader left |
| `LockProtocol.dfy` | electors and leaders over the LOCK node and the term; requests, server actions and replies are separate steps, members crash and restart |
| `Elector.dfy` | the same runs: when a member sets out to be elector, asks for votes, or waits |
| `Mandate.dfy` | the same runs: what a member takes office with |
| `LeaderEvent.dfy` | the leader of `Cluster.dfy` and the one of `LockProtocol.dfy` are told the same and become the same |
| `Office.dfy` | the same runs with the members' votes: what holds of whoever leads |
| `CodedVotes.dfy` | the same runs with the answers that members give: what they report, and the checks on taking office |
| `Sync.dfy` | the same runs: a sync needs a leader's consent, and votes wait for the old leader's end |
| `ElectionRun.dfy`, `ThreeMembers.dfy` | one undisturbed election from watch event to office, and the first one among three members |
| `LateReply.dfy`, `LateWrite.dfy` | a run of the protocol, event by event, in which a leader steps down and keeps the LOCK; and the write it then has under way |
| `LostWrite.dfy` | a run of the protocol around a lost write |
| `StaleAppointment.dfy` | a run of the protocol in which an old appointment comes first |
| `ZkTree.dfy` | recursive delete, create with ancestors, and the asynchronous create along a key, over a tree of nodes |
| `ZkAnswer.dfy` | what a create and a delete are answered, by the tree alone |
| `Placement.dfy` | forming rings, assigning volumes to rings, and hosting them |
| `VolumeRequest.dfy` | which requests for a volume are granted |
| `Timer.dfy` | the alarm queue |
| `Common.dfy` | shared types |

Runs are sequences of events; an event that cannot happen changes nothing, so every theorem about `Run` or `Reached`
holds for every sequence whatever.

## What the proofs show about the code

- When the write that a client's message started reports success, that message, numbered, is in the journals of
  `quorum` members, the leader's among them, and stays there, even if the leader steps down
  (`Cluster.SuccessfulWriteDurable`).
- Two members never lead at once, nobody leads while an elector works, and an elector only ever removes its own LOCK,
  although the removal names no owner (`LockProtocol.ExclusiveCoordination`).
- Whoever leads, through any crashes, joins, sync reports and write failures, tracks each other member exactly once and is
  functional exactly when quorum-1 of them are (`Offices.LeadersInOffice`).
- A follower's journal is a slice of the leader's, not always a prefix: an empty journal accepts any first id
  (`Cluster.LateStarter`, `Cluster.PrefixIffSameStart`).
- A failed local write uses up a commit id. On a nonempty journal the leader then refuses every later write in its
  context (`Cluster.NextWriteAcceptedIff`, `Cluster.WedgedForEver`). Nothing else has that effect
  (`ClientWrites.WedgedIff`): as long as its database works, a leader's journal is exactly the messages of the writes
  that found it functional, in order, numbered from 0 on (`ClientWrites.JournalIsWhatWasTaken`).
- A peer whose reply to a write fails is sent no more until it asks to be added again, unless it has registered anew
  since the write went out (`PeerReports.FailedReplyDemotes`, `PeerReports.NotSentToAfterFailure`). Reports of progress
  may arrive in any order (`PeerReports.OrderDoesNotMatter`).
- A member that takes office always has the votes of a quorum, so it is functional at once: the branch of the code that
  makes it wait for one is never taken (`Mandates.OfficeByQuorum`).
- With a quorum other than 2 there are replies after which no callback has settled a write's promise
  (`WriteQuorum.OpenAfterAllReplies`).
- A comment calls the winner of an election the member with the latest state; `values.begin()` of an ordered map is
  the bucket with the lowest commit id. That is the safe choice if members report what they have applied
  (`Elections.ElectedCoversAcknowledged`). They do not: a member's `commitId_` is set by its constructor and nowhere
  else (`CodedVotes.CommitNeverSet`), so there is one bucket and the first member of the list to answer is elected
  (`Elections.FirstToAnswerIsElected`). The next election comes only after the leader's session has ended
  (`Syncs.NoVotesBeforeLeaderEnds`). A successful write is then safe if and only if every member that may answer, and
  makes a quorum with those after it in the list, has the write and has not restarted
  (`CodedElections.SucceededWriteSafeIff`); a restarted leader near the front of the list makes every write unsafe
  (`CodedElections.RestartedLeaderUnsafe`); and there is a run in which a write is lost (`LostWrites.LossIsReached`).
- A new leader's first writes are refused until their ids have passed the journal it found; then it gives an id that
  other members may hold for another record (`SecondContexts.FirstAcceptedIff`, `SecondContexts.SameIdTwoRecords`).
- An appointment is held to the term that its receiver has learned, not to the newest: an older one can take the LOCK
  ahead of a newer one (`StaleAppointments.AppointmentAcceptedIff`, `StaleAppointments.StaleAppointmentLeads`).
- Bounded reads follow the byte order of the keys, so they are exact if and only if that agrees with the numeric order
  on the offsets stored (`MetaDb.BoundedReadsExactIff`); unbounded reads always are.
- Pulled batches arrive newest first, against the journal's contiguity rule, so a batch of any length adds at most one
  record (`Replicas.BatchAddsExactlyNext`), and a pull of two or more reports failure (`Replicas.BatchSucceedsIff`).
- A leader leaves its state while it keeps the LOCK when a sync begun earlier ends
  (`LockProtocol.LeaderStepsDownExactly`). The sync must have had a leader's consent (`Syncs.SyncEndsOnlyAdmitted`),
  and there is a run with such a sync (`LateReplies.StepDownReached`). The check that closes `changePeerState_` can then
  fail (`Members.ClosingCheckHoldsIff`, `LateWrites.ClosingCheckFails`).
- The asynchronous create along a key gives its value to the ancestors as well, the blocking one leaves them empty; and
  the asynchronous one creates the well-formed part of a malformed key before it fails
  (`ZkTree.ZooKafkaClient.CreateIncludingAncestors`).
- If ring creations completed out of order, a volume could be assigned to a ring that is not there
  (`Placement.EveryIdFindsARingIff`, `Placement.RingMayBeMissing`).
- Overlapping requests for one volume name are both accepted (`Placement.NamesStayDistinctIff`,
  `Placement.OverlappingRequestsShareName`).

## Model

| member | source | states |
|---|---|---|
| Journals.Journal.AddEntry | src/infra/Journal.cpp:6-13 | a record is taken exactly if the journal is empty or the id is the next one; otherwise nothing changes; contiguity is kept |
| Journals.Journal.RemoveLastEntry | src/infra/Journal.cpp:15-18 | exactly the last record goes |
| Journals.Journal.RetrieveEntries | src/infra/Journal.cpp:20-35 | the reverse loop yields `Retrieved`, whatever the byte limit |
| Journals.RetrievedExactly | src/infra/Journal.cpp:25-33 | on a contiguous journal the answer is exactly the ids in both [from, to] and the journal's range, each once, newest first, with the record's content |
| Journals.SameIdSameRecord | src/infra/Journal.cpp:8-11 | a contiguous journal has at most one record per id |
| BlobKeys.WordRoundTrip | src/volumeserver/VolumeMetaDb.cpp:15-25 | 64-bit integers and 8-byte words correspond one to one |
| BlobKeys.KeyRoundTrip | src/volumeserver/VolumeMetaDb.cpp:13-43 | decoding an encoded key gives the blob and offset back, and every 16 bytes are the key of what they decode to |
| BlobKeys.KeyInjective | src/volumeserver/VolumeMetaDb.cpp:21-25 | different (blob, offset) pairs have different keys |
| BlobKeys.BlobKeysAdjacent | src/volumeserver/VolumeMetaDb.cpp:38-40 | a blob's keys are ordered by their offsets' bytes and no other blob's key lies between two of them |
| BlobKeys.SameBlockOrder | src/volumeserver/VolumeMetaDb.cpp:38-42 | within a block of 256 offsets byte order is numeric order |
| BlobKeys.OrderFailsAcrossBlocks | src/volumeserver/VolumeMetaDb.cpp:38-42 | across blocks it need not be: 256 comes before 1 |
| BlobKeys.MinusOneIsGreatest | src/volumeserver/VolumeMetaDb.cpp:38-42 | no offset's bytes come after those of -1 |
| MetaDb.UpdatedLookup | src/volumeserver/VolumeMetaDb.cpp:84-95 | an update sets exactly the offsets it lists, in its own blob only, and the last pair for an offset wins |
| MetaDb.VolumeMetaDb.ApplyUpdate | src/volumeserver/VolumeMetaDb.cpp:70-101 | the loop's batch is applied as a whole or, with a write failure reported, not at all |
| MetaDb.DbIterator.Seek | src/volumeserver/VolumeMetaDb.cpp:111 | the iterator stands at the first key at or after the target |
| MetaDb.DbIterator.Next | src/volumeserver/VolumeMetaDb.cpp:111 | the iterator moves to the next key in byte order |
| MetaDb.ScanStep | src/volumeserver/VolumeMetaDb.cpp:112-120 | one turn of the scan collects the key under the iterator and nothing is skipped or repeated |
| MetaDb.ScanDone | src/volumeserver/VolumeMetaDb.cpp:111-116 | where the loop stops, what it has collected is the answer |
| MetaDb.VolumeMetaDb.GetBlobMeta | src/volumeserver/VolumeMetaDb.cpp:103-123 | the scan answers every offset of the blob that byte order reaches before one beyond the end, each once with its chunk, in byte order |
| MetaDb.AnswerUnique | src/volumeserver/VolumeMetaDb.cpp:103-123 | a table and a query have one answer |
| MetaDb.FullReadExact | src/volumeserver/VolumeMetaDb.cpp:110-116 | a read from 0 with end -1 returns exactly the blob's live entries, each once, for all offsets |
| MetaDb.BoundedReadExact | src/volumeserver/VolumeMetaDb.cpp:110-116 | a bounded read is exact and ascending when byte order agrees with numeric order on the stored and queried offsets |
| MetaDb.BoundedReadsExactIff | src/volumeserver/VolumeMetaDb.cpp:110-116 | reads bounded by stored offsets are all exact if and only if the two orders agree on the stored offsets |
| MetaDb.BlockReadExact | src/volumeserver/VolumeMetaDb.cpp:110-116 | bounded reads are exact and ascending within any one block of 256 offsets, 0..255 among them |
| MetaDb.BoundedReadMissesOffset | src/volumeserver/VolumeMetaDb.cpp:110-116 | a store in which the read of [1, 256] misses offset 256 |
| Replicas.VolumeReplica.constructor | src/volumeserver/VolumeServer.cpp:44-68 | a replica starts as a fresh member with an empty journal and database |
| Replicas.VolumeReplica.HandleMetadataWrite | src/volumeserver/VolumeServer.tcc:8-23 | journal, then apply; a rejected or failed write leaves journal and database as they were |
| Replicas.VolumeReplica.UpdateBlobMeta | src/infra/PBMember.tcc:10-48 | refused unless the leader is functional; otherwise numbered, which a failed local write does not undo, written locally and handed to the writable peers |
| Replicas.VolumeReplica.HandlePullJournalEntriesMsg | src/volumeserver/VolumeServer.cpp:97-109 | only a leader answers, with the retrieved entries |
| Replicas.VolumeReplica.ApplyOpBatch | src/volumeserver/VolumeServer.cpp:167-181 | each record of a batch goes through the write handler, whether or not an earlier one failed; success only if all were accepted |
| Replicas.WriteKeepsConsistent | src/volumeserver/VolumeServer.tcc:12-22 | a write of any outcome keeps the database the replay of a contiguous journal, and journals only grow |
| Replicas.DatabaseIsReplay | src/volumeserver/VolumeServer.tcc:12-22 | after any mix of accepted, rejected and failed writes the database is the in-order replay of the journal |
| Replicas.EqualJournalsEqualAnswers | src/volumeserver/VolumeMetaDb.cpp:84-123 | replicas with equal journals, however they got there, answer every read identically |
| Replicas.BatchKeepsConsistent | src/volumeserver/VolumeServer.cpp:167-181 | a pulled batch with any database failures keeps the replay invariant |
| Replicas.BatchAddsExactlyNext | src/volumeserver/VolumeServer.cpp:167-181 | a newest-first batch adds exactly the record after the journal's last one, if it has it, and no other |
| Replicas.BatchSucceedsIff | src/volumeserver/VolumeServer.cpp:167-181 | a newest-first batch succeeds exactly if it is empty or a single record that extends the journal and that the database takes |
| Replicas.BatchOnEmptyTakesNewest | src/volumeserver/VolumeServer.cpp:167-181 | an empty journal takes the newest record of a batch and no other |
| Replicas.PulledBatchNewestFirst | src/infra/Journal.cpp:25-33 | what a leader sends is such a batch |
| WriteQuorum.WriteCtx.OnPeerReply | src/infra/PBMember.cpp:639-669 | the callback counts the reply and settles the promise as `OnReply` says |
| WriteQuorum.SettledOnce | src/infra/PBMember.cpp:652-668 | a settled promise never changes |
| WriteQuorum.Settlement | src/infra/PBMember.cpp:647-669 | for any order of replies: fulfilled exactly if quorum-1 peers, at least one, succeeded; failed exactly if all have replied, the last with a failure, and it is not fulfilled |
| WriteQuorum.OpenAfterAllReplies | src/infra/PBMember.cpp:647-669 | after all replies the promise is open exactly if there was no peer or the last reply was a success that left the count short |
| WriteQuorum.QuorumTwoAlwaysSettles | src/infra/PBResourceMgr.tcc:106-111 | with the deployed quorum of 2 and at least one peer, the last reply always leaves it settled |
| WriteQuorum.QuorumThreeMayHang | src/infra/PBMember.cpp:647-669 | with quorum 3, after a failure and then a success no callback has settled it |
| Members.PBMember.constructor | src/infra/PBMember.cpp:55-79 | a member starts waiting to join, with term and commit id invalid |
| Members.PBMember.ParseChildren | src/infra/PBMember.cpp:470-484 | the loop keeps, per sequence number, the last member named |
| Members.ParsedExactly | src/infra/PBMember.cpp:470-484 | the parsed group has exactly the sequence numbers of its member nodes, each with a member named for it |
| Members.OneCandidate | src/infra/PBMember.cpp:486-493 | members that see the same children agree on the one candidate for elector, and there is one if there are members |
| Members.PBMember.HandleGroupWatchEvent | src/infra/PBMember.cpp:110-161 | a waiting member asks for the LOCK exactly if there is none, it has the lowest number and its back-off is over; a waiting elector collects votes at a quorum of members |
| Members.PBMember.OnTermIncreased | src/infra/PBMember.cpp:128-133 | the new version of the group key becomes the term |
| Members.PBMember.OnChildrenRead | src/infra/PBMember.cpp:134-142 | the elector waits for, or at once has, a quorum of members |
| Members.LowestKey | src/infra/PBMember.cpp:249-255 | the first key of an ordered map is its least |
| Members.PBMember.HandleElectionResponse | src/infra/PBMember.cpp:238-278 | the lowest bucket wins if it has a quorum; otherwise the elector waits |
| Members.PBMember.OnElectorLockRemoved | src/infra/PBMember.cpp:254-267 | the elector returns to waiting, whatever its state, and appoints with every winner marked functional |
| Members.PBMember.HandleBecomeLeaderMsg | src/infra/PBMember.cpp:180-186 | only the term is looked at before asking for the leader's LOCK |
| Members.PBMember.OnLeaderLockAcquired | src/infra/PBMember.cpp:189-231 | the loop sets up the peers of a new leader context with ids at -1 |
| Members.PBMember.HandleGroupInfoUpdateMsg | src/infra/PBMember.cpp:297-325 | a follower that is not listed and not syncing starts to sync and takes over a higher term |
| Members.PBMember.HandleAddToGroupMsg | src/infra/PBMember.cpp:280-295 | refused for an old term or by a member that does not lead; otherwise the report is applied |
| Members.PBMember.ChangePeerState | src/infra/PBMember.cpp:524-605 | lookup, the three-way transition, recount and leader state, on the fields |
| Members.PBMember.GetWritablePeers | src/infra/PBMember.cpp:511-521 | exactly the functional and syncing peers, in order |
| Members.PBMember.OnWriteReply | src/infra/PBMember.cpp:639-669 | a failed reply demotes the peer as of the version it was sent under |
| Members.ReportBelievedExactly | src/infra/PBMember.cpp:539-565 | progress is believed exactly if (version, progress) is lexicographically above the record; a failure exactly if the peer is in use and not newer; any other state never |
| Members.ReportKeepsOffice | src/infra/PBMember.cpp:524-605 | one report keeps the leader functional exactly if quorum-1 peers are, the peer list complete, peers in follower states, versions rising |
| Members.ReportsKeepOffice | src/infra/PBMember.cpp:524-605 | so does any sequence of joins, sync reports and write failures |
| Members.ClosingCheckHoldsIff | src/infra/PBMember.cpp:581-604 | the closing check holds after a report about a known peer exactly if the member leads or the report leaves fewer than quorum-1 peers functional |
| Members.StaleFailureIgnored | src/infra/PBMember.cpp:639-664 | a failure recorded under an older version never changes a peer that has re-registered, whatever came between |
| Elections.CollectReplies | src/infra/PBMember.cpp:427-441 | the loop groups the replies by reported commit id |
| Elections.TallyExactly | src/infra/PBMember.cpp:431-439 | each bucket holds exactly the answers with its commit id, one per member |
| Elections.ElectedAppointmentWellFormed | src/infra/PBMember.cpp:249-267 | the appointment is for the first of at least `quorum` different members, all marked functional |
| Elections.PeersForNamesOthers | src/infra/PBMember.cpp:196-218 | the peer list names each other member once and nobody else |
| Elections.PeersForCount | src/infra/PBMember.cpp:205-217 | the functional peers are the other members the appointment lists |
| Elections.TakeOfficeInOffice | src/infra/PBMember.cpp:189-226 | on taking office the leader is functional exactly if quorum-1 peers are, and the peer list is complete |
| Elections.OneQuorumBucket | src/infra/PBMember.cpp:431-439 | with a majority quorum at most one bucket reaches it |
| Elections.ElectedCoversAcknowledged | src/infra/PBMember.cpp:249-255 | if reports cover what members have applied and the lowest bucket wins, no write that a quorum holds is above the elected id |
| Elections.FirstToAnswerIsElected | src/infra/PBMember.cpp:249-267 | with equal reports somebody is appointed exactly if a quorum answered, namely the first member in the order of the list to have answered |
| Cluster.PeerFollows | src/volumeserver/VolumeServer.cpp:286-296 | a peer that takes, refuses or fails on a record of the leader's journal still holds a slice of it |
| Cluster.StepKeeps | src/infra/PBMember.tcc:25-39 | every client write, delivery, reply, join and sync step keeps the whole invariant and only appends to journals |
| Cluster.StartOk | src/infra/PBMember.cpp:189-226 | a leader that takes office among empty replicas satisfies it |
| Cluster.OfficeThroughout | src/infra/PBMember.cpp:199-226 | through every run the peer list is complete, the member leads exactly until a late reply makes it step down, and while it leads it is functional exactly if quorum-1 peers are |
| Cluster.LogAgreement | src/infra/Journal.cpp:6-13 | in every run each journal is a contiguous slice of the leader's, each database its journal's replay, and equal ids mean equal records |
| Cluster.PrefixIffSameStart | src/infra/Journal.cpp:8 | a follower's journal is a prefix of the leader's, and its database the leader's of that moment, exactly if both began with the same id |
| Cluster.AcceptedWrite | src/infra/PBMember.tcc:25-35 | an accepted write takes the next id, goes to the leader's journal, is sent to every writable peer, and opens a context under that id that waits for each of them |
| Cluster.LateStarter | src/infra/Journal.cpp:8 | a peer that misses the first write and gets the second holds the second alone |
| Cluster.SuccessMeansHeld | src/infra/PBMember.cpp:651-655 | a fulfilled promise means `quorum` different members hold the leader's record with that id |
| Cluster.QuorumDurability | src/infra/PBMember.cpp:607-676 | a reported success means the leader's record with that id is in `quorum` journals, and stays there, applied, whatever follows |
| Cluster.SuccessfulWriteDurable | src/infra/PBMember.tcc:25-39 | from call to replicas: if the write started by a client's message succeeds, this message, numbered with a fresh id and otherwise unchanged, is in `quorum` journals, the leader's among them, and stays there, applied, whatever follows |
| Cluster.NextWriteAcceptedIff | src/infra/PBMember.tcc:25-29 | with a quorum and a working database a write is accepted exactly if the leader's last id is in its journal |
| Cluster.FailedWriteWedges | src/infra/PBMember.tcc:25-29 | a database failure on a nonempty journal breaks that |
| Cluster.WedgedForEver | src/infra/PBMember.tcc:25-29 | and no later event mends it: no record is added and no write replicated in this leader context |
| ClientWrites.AnswerIff | src/infra/PBMember.tcc:15-48 | which of its answers a client gets, each if and only if: whether the member leads, quorum-1 peers are functional, the leader is stuck, the database fails |
| ClientWrites.RefusedUnnoticed | src/infra/PBMember.tcc:15-24 | a write refused for want of a lead or of quorum-1 functional peers leaves no trace: no id used up, nothing journalled or sent |
| ClientWrites.IdsCountWrites | src/infra/PBMember.tcc:19-26 | in every run the ids used up are as many as the writes that found the leader functional |
| ClientWrites.WedgedIff | src/infra/PBMember.tcc:25-29 | in every run the leader is stuck if and only if a local database write has failed on a journal that was not empty |
| ClientWrites.JournalIsWhatWasTaken | src/infra/PBMember.tcc:25-29 | while the database works, in every run the leader's journal is the messages of the writes that found it functional, in order, numbered from 0, and a functional leader accepts the next under the next number |
| PeerReports.ReportRecorded | src/infra/PBMember.cpp:524-605 | a report changes what is recorded of the peer it names, if it is believed, and nothing of anybody else |
| PeerReports.JoinAnswerIff | src/infra/PBMember.cpp:280-295 | refused for an old term, refused by a member that does not lead, otherwise granted and the report recorded, each if and only if |
| PeerReports.HighestReportStands | src/infra/PBMember.cpp:548-565 | after any reports of progress in any order the record of a peer is the highest, by version and then by progress, of what was recorded and what was reported |
| PeerReports.OrderDoesNotMatter | src/infra/PBMember.cpp:548-565 | the same reports in another order leave the same record |
| PeerReports.FailedReplyDemotes | src/infra/PBMember.cpp:646-669 | in every run a failed reply takes its peer out of use exactly if it is in use and has not registered anew since the write was sent; no other peer is touched; a leader stays functional exactly if quorum-1 peers are; a success changes nothing the leader knows or is |
| PeerReports.LeftAloneUntilItJoins | src/infra/PBMember.cpp:511-521 | a peer out of use is sent no write, whatever happens, until it asks to be added |
| PeerReports.NotSentToAfterFailure | src/infra/PBMember.cpp:618-625 | in every run that holds after the failed reply of a peer that has not registered anew |
| PeerReports.SentToAfterJoin | src/infra/PBMember.cpp:280-295 | in every run a peer that asks a leader to be added, under a term and a version that are not old, is in use and is sent the next write accepted |
| LeaderEvents.SameLeader | src/infra/PBMember.cpp:280-295 | joins, sync requests, replies to writes and late replies do the same to the leader in both transition systems |
| LeaderEvents.LeaderRecords | src/infra/PBMember.cpp:524-565 | in every run of the protocol a leader records exactly what joins, sync requests and failed writes tell it, each of the peer that it is about |
| PeerReports.RefusesWithoutQuorum | src/infra/PBMember.cpp:595-598 | a leader that a failed reply leaves without quorum-1 functional peers answers the next write with no quorum and changes nothing |
| Cluster.ElectedHoldsSucceeded | src/infra/PBMember.cpp:238-276 | if members reported their last journalled id and their journals began together, a majority would elect only a holder of every successful write |
| LockProtocol.RemoveLockKeeps | src/infra/PBMember.cpp:393-399 | a removal that the server applies hits the remover's own LOCK |
| LockProtocol.StepKeeps | src/infra/PBMember.cpp:110-161 | every handler, server action, crash and restart keeps the invariant that the LOCK goes with its owner's work |
| LockProtocol.ExclusiveCoordination | src/infra/PBMember.cpp:116-161 | in every run: one leader at most, no leader beside an elector whose removal is not applied, one such elector at most, removals only of the remover's own LOCK |
| LockProtocol.ElectionChecksHold | src/infra/PBMember.cpp:124-141 | in every run an elector's replies find it in the state that the source checks for, with the LOCK its own, one step at a time |
| LockProtocol.LeaderStepsDownExactly | src/volumeserver/VolumeServer.cpp:87-91 | a running leader keeps the LOCK, and leaves the leader states exactly by the late end of a sync or of a removal |
| Electors.WatchAnswerIff | src/infra/PBMember.cpp:110-161 | on the children as listed: a waiting member asks for the LOCK if and only if nobody has it, the back-off is over and the member is named under the lowest number; a waiting elector asks for votes if and only if a quorum of numbers is there; otherwise nothing is changed or asked |
| Electors.ReadAnswerIff | src/infra/PBMember.cpp:134-142 | an elector that has read the children asks for votes if and only if they name a quorum, and waits otherwise |
| Electors.ElectionAnswerIff | src/infra/PBMember.cpp:238-276 | there is a winner if and only if the bucket with the lowest commit id has a quorum; otherwise the elector waits and asks nothing |
| Electors.ElectorsWereCandidates | src/infra/PBMember.cpp:117-121 | in every run whoever asks for the LOCK as elector or works with it set out on a watch event that showed no LOCK and its own name lowest, its back-off over, and has been electing since |
| Electors.VotesNeedQuorumInSight | src/infra/PBMember.cpp:137-156 | in every run whoever collects votes began to on children that named a quorum, and has collected since |
| Electors.ElectorsAreAnswered | src/infra/PBMember.cpp:163-178 | in every run every running member answers an elector that collects votes: nobody knows a newer term |
| Electors.AnsweredIff | src/infra/PBMember.cpp:327-332 | a request is answered if and only if its term is not below the one the member knows |
| Electors.ElectionIsRepeated | src/infra/PBMember.cpp:151-156 | without a winner the elector keeps LOCK and term, and the next sight of a quorum puts everything back to collecting votes |
| Syncs.SyncEndsOnlyAdmitted | src/volumeserver/VolumeServer.cpp:70-95 | in every run a sync ends only if a member that then led has let the follower join, and the follower has not crashed since |
| Syncs.SyncStartsIff | src/infra/PBMember.cpp:297-325 | a sync begins, under the leader and the newer term heard of, if and only if the term heard of is not old, the member is a follower that does not sync yet, and it is not among the functional members; otherwise nothing changes |
| Syncs.NoVotesBeforeLeaderEnds | src/infra/PBMember.cpp:116-141 | after a member has led, votes are collected again only if its session has ended in between |
| LateReplies.StepDownReached | src/volumeserver/VolumeServer.cpp:74-91 | a run from the start in which a follower's sync, let begin by the leader, outlives that leader; the follower is elected and leads with the LOCK; and the end of its sync leaves it the LOCK without the lead |
| LateReplies.RunIsReal | src/infra/PBMember.cpp:163-178 | the votes counted in that run's two elections are what its members answer |
| LateWrites.ClosingCheckFails | src/infra/PBMember.cpp:656-664 | that leader sends a write to two functional peers, its sync ends, and the failed reply of one finds the closing check false |
| StaleAppointments.AppointmentAcceptedIff | src/infra/PBMember.cpp:180-186 | an appointment leads to a request for the LOCK exactly if its term is not below the term the receiver has learned, whatever elections came later |
| StaleAppointments.StaleAppointmentLeads | src/infra/PBMember.cpp:180-236 | a run in which the appointment of the first election takes the LOCK after the second has made its own |
| StaleAppointments.RunIsReal | src/infra/PBMember.cpp:163-178 | the votes counted in that run are what its members answer |
| ElectionRuns.VotesAreAsked | src/infra/PBMember.cpp:116-142 | undisturbed, a candidate's watch event leads to its LOCK, the next term and the election requests, and to nothing else |
| ElectionRuns.WinnerIsAppointed | src/infra/PBMember.cpp:249-267 | a quorum of votes in one bucket leads to the removal of the LOCK and the appointment of the first of them |
| ElectionRuns.WinnerTakesOffice | src/infra/PBMember.cpp:180-226 | an appointment that finds no LOCK and no newer term makes its receiver the leader |
| LockProtocol.TermsIncrease | src/infra/PBMember.cpp:124-133 | every election's term is above all earlier ones; terms never exceed the group key's version nor fall; votes are collected under the newest |
| LockProtocol.StepKeepsTerms | src/infra/PBMember.cpp:313-332 | no step lowers a running member's term or the version |
| Offices.WinnersAreCandidates | src/infra/PBMember.cpp:431-439 | a winning bucket of real answers lists members of the group, each once |
| Offices.SentFits | src/infra/PBMember.cpp:254-267 | the appointment an elector sends names its receiver first and marks different members functional |
| Offices.StepFits | src/infra/PBMember.cpp:180-236 | every handler, server action, crash and restart keeps appointments well formed and every leader in office |
| Offices.LeadersInOffice | src/infra/PBMember.cpp:189-226 | in every run: appointments name their receiver first; the list a member takes office with is well formed for it; at most one member leads, lists each other member exactly once and is functional exactly if quorum-1 of them are |
| Mandates.OfficeByQuorum | src/infra/PBMember.cpp:189-226 | in every run who takes office has a quorum of votes, its own first, is functional at once, numbers writes from 0, and records each other member as it voted, or as waiting if it did not |
| CodedVotes.CommitNeverSet | src/infra/PBMember.cpp:73-74 | in every run every member's commit id is the invalid one it was constructed with |
| CodedVotes.GivenAsCoded | src/infra/PBMember.cpp:163-178 | answers that members give at any moments of a run come under their own ids and all report that commit id |
| CodedVotes.RealElection | src/infra/PBMember.cpp:427-441 | so whatever answers come, somebody is elected exactly if a quorum answered, and it is the first of them in the order of the list |
| CodedVotes.AppointmentChecksHold | src/infra/PBMember.cpp:189-191 | in every run with members' answers the check on taking office holds: the appointed member is first in its list, with its own commit id |
| Elections.AlwaysElectsIff | src/infra/PBMember.cpp:427-441 | with equal reports, whichever quorum of the members that may answer does, it elects one of a given set, if and only if the set has each member that may answer and makes a quorum with those after it in the list that may |
| CodedElections.ElectedHoldsIff | src/infra/PBMember.cpp:249-267 | the elected member holds a write exactly if the first member to have answered has its id |
| CodedElections.SucceededWriteSafeIff | src/infra/PBMember.cpp:249-267 | after the leader's session has ended, with any members restarted: every next election is won by a member that still holds a successful write, if and only if each electable member has its id in its journal and has not restarted |
| CodedElections.RestartedLeaderUnsafe | src/infra/PBMember.cpp:249-267 | a leader that has restarted and can be the first of a quorum makes every write unsafe |
| CodedElections.ElectionLosesWrite | src/infra/PBMember.cpp:249-267 | three members and quorum 2: a write succeeds, the leader ends, and the answers of the other two elect the one with an empty journal |
| LostWrites.LossIsReached | src/infra/PBMember.cpp:110-278 | a run of the protocol, its votes being what members answer, in which that leader takes office and ends, those answers are given, and the member with the empty journal leads |
| SecondContexts.FirstAcceptedIff | src/infra/PBMember.tcc:25-29 | over a journal that ends at k a new leader's writes are refused up to and without the one with id k+1, which is accepted |
| SecondContexts.ContextsDisagree | src/infra/PBMember.tcc:25-29 | that write takes an id under which another member may hold a different record |
| SecondContexts.SameIdTwoRecords | src/infra/PBMember.cpp:49-53 | a run with two leaders after which a successful write of the first and a write of the second have one id in two journals |
| ZkTree.FindSlash | src/infra/zk/zkadapter.cc:560-561 | the first slash at or after a position |
| ZkTree.ZkServer.GetChildren | src/infra/zk/zkadapter.cc:752-763 | the names of exactly the children, each once |
| ZkTree.ZooKeeperAdapter.GetNodeChildren | src/infra/zk/zkadapter.cc:725-786 | exactly the children's absolute paths, each once; fails for a missing node or a malformed path |
| ZkTree.ZooKeeperAdapter.DeleteNode | src/infra/zk/zkadapter.cc:638-679 | terminates; removes exactly the node and its descendants, or nothing with the right answer: false if absent, failure for a wrong version, for children without `recursive`, and for the root |
| ZkTree.OthersKeepChildren | src/infra/zk/zkadapter.cc:652-679 | a delete leaves every other node's data and children alone, but for the node itself in its parent |
| ZkTree.ZooKeeperAdapter.CreateNode | src/infra/zk/zkadapter.cc:519-584 | terminates; false exactly if the node existed; otherwise the node with its value and its missing ancestors, empty, are there and existing nodes untouched; fails for a missing parent without `createAncestors` |
| ZkTree.CreateThenDelete | src/infra/zk/zkadapter.cc:519-679 | deleting the topmost node a create added, recursively, undoes the create |
| ZkAnswers.ValidPathIff | src/infra/zk/zkadapter.cc:193-217 | the paths accepted are exactly the root and nonempty names without a slash put after an accepted path |
| ZkAnswers.DeleteAnswerIff | src/infra/zk/zkadapter.cc:638-679 | each answer of a delete if and only if: the path's form, the node, its version against the one named, its children |
| ZkAnswers.CreateAnswerIff | src/infra/zk/zkadapter.cc:519-584 | each answer of a create of a name under a path if and only if: the node, its parent, `createAncestors` |
| ZkAnswers.CreatedIsThere | src/infra/zk/zkadapter.cc:519-679 | a second create finds the node; a delete goes through under no version or the first, and no other |
| ZkTree.ZooKafkaClient.Then | src/infra/ZooKafkaClient.cpp:327-338 | one link of the chain: earlier failures pass through, but for a duplicate key, and result codes become statuses |
| ZkAnswers.CreatedStatusIff | src/infra/ZooKafkaClient.cpp:23-39 | each status of one create if and only if: the path's form, the node, its parent |
| ZkTree.ZooKafkaClient.CreateIncludingAncestors | src/infra/ZooKafkaClient.cpp:311-341 | duplicate key exactly if the full path existed, invalid exactly if the key is malformed; every missing well-formed node along the key is there with the value, existing ones untouched |
| ZkTree.WholeKeyOfValid | src/infra/ZooKafkaClient.cpp:317-325 | for a well-formed key those nodes are all its prefixes and itself |
| Placement.SphereConfigMgr.AddService | src/configservice/ConfigService.cpp:50-73 | a service joins the pending ones, or completes a ring of exactly `replicaFactor`; the source's check that there are never more holds |
| Placement.SphereConfigMgr.AddResource | src/configservice/ConfigService.cpp:75-107 | refused without rings or for a name in the table; otherwise the next id and the ring by remainder |
| Placement.RingsInArrivalOrder | src/configservice/ConfigService.cpp:50-73 | in every run the members of the rings in id order followed by the pending services are the arrivals in order; rings have `replicaFactor` members; their number is the quotient |
| Placement.FreshIds | src/configservice/ConfigService.cpp:85-102 | every accepted volume has an id of its own |
| Placement.EveryIdFindsARingIff | src/configservice/ConfigService.cpp:87 | the remainder names a ring in the table for every id if and only if the ring ids have no gap |
| Placement.InOrderNoGap | src/configservice/ConfigService.cpp:133-149 | rings completing in order leave no gap |
| Placement.VolumeFindsItsRing | src/configservice/ConfigService.cpp:85-87 | then every accepted volume goes to a ring that exists, with `replicaFactor` members |
| Placement.RingMayBeMissing | src/configservice/ConfigService.cpp:87 | a run with rings completing out of order in which it does not |
| Placement.EvenSpread | src/configservice/ConfigService.cpp:86-87 | with the rings complete before the first volume, n volumes over r rings leave each with n/r, or one more on the first n mod r |
| Placement.NamesStayDistinctIff | src/configservice/ConfigService.cpp:194-201 | accepting a name keeps current names distinct if and only if no creation of that name is outstanding |
| Placement.OverlappingRequestsShareName | src/configservice/ConfigService.cpp:83-104 | a run from the start in which two overlapping requests leave two volumes of one name in the table |
| Placement.SerializedNamesDistinct | src/configservice/ConfigService.cpp:194-201 | so in serialized runs names are distinct |
| VolumeRequests.RequestAnswerIff | src/configservice/ConfigService.cpp:75-107 | a request is refused without rings, and for a name some volume in the table has, and otherwise granted, each if and only if |
| VolumeRequests.FreeNameGrantedIff | src/configservice/ConfigService.cpp:83-104 | in serialized runs a request is granted if and only if there is a ring and no current volume has the name |
| VolumeRequests.FailedCreationFreesName | src/configservice/ConfigService.cpp:89-104 | a granted name is free again when its creation has failed and taken when it has completed |
| Placement.ResourceMgr.RingAt | src/infra/PBResourceMgr.tcc:105 | the lookup that inserts changes no ring's members |
| Placement.ResourceMgr.AddResourceReplicaIfOwned | src/infra/PBResourceMgr.tcc:101-119 | a replica with the ring's members and quorum 2 exactly if the server is one of them |
| Placement.ResourceMgr.HandleResourceConfigTableUpdate | src/infra/PBResourceMgr.tcc:121-149 | an update for a hosted volume leaves the table alone |
| Placement.ResourceMgr.PullResourceConfigTable | src/infra/PBResourceMgr.tcc:51-99 | the loops leave the pulled rings and exactly the owned volumes |
| Placement.HostsExactlyTheRing | src/infra/PBResourceMgr.tcc:101-149 | servers with one ring table that have seen a volume, in any order and number of sightings, host it exactly if they belong to its ring, with the ring's members and quorum 2, and agree on them |
| Placement.FirstSightDecides | src/infra/PBResourceMgr.tcc:121-149 | what a server keeps of a hosted volume stays as the first sight of it left it, whatever it sees afterwards |
| Placement.HostedInItsTurn | src/infra/PBResourceMgr.tcc:101-119 | from arrival to hosting: a volume is hosted by exactly the services whose arrival formed its ring, `replicaFactor` of them |
| Timers.LowerBound | src/infra/zk/event.h:412-413 | everything before the position is earlier, the event there is not |
| Timers.Timer.ScheduleAt | src/infra/zk/event.h:410-420 | a fresh id; the event goes in before those of equal time, and the queue stays in order |
| Timers.Timer.CancelAlarm | src/infra/zk/event.h:441-454 | true exactly if the event was pending, which then is gone, the others in place |
| Timers.Timer.TakeDue | src/infra/zk/event.h:462-486 | the worker takes the head exactly if it is due |
| Timers.InsertedOrdered | src/infra/zk/event.h:412-416 | insertion keeps the order: earlier alarms first, newest first among equal ones |
| Timers.HeadDecides | src/infra/zk/event.h:471-476 | if the head is not due nothing is; if it is, nothing pending goes before it |
| Timers.CancelUndoesSchedule | src/infra/zk/event.h:410-454 | cancelling an alarm just scheduled restores the queue |
| Timers.QueueDetermined | src/infra/zk/event.h:410-454 | the pending events alone determine the queue, whatever schedules and cancels led to them |
| Timers.EachOnce | src/infra/zk/event.h:410-492 | in every interleaving each scheduled event is exactly once pending, held by the worker, fired or cancelled, and none is taken before its time |
| Timers.CancelledNeverFires | src/infra/zk/event.h:441-454 | after a cancel that answers true the event never fires |

## Left out

- Transport: Kafka, ZooKeeper and Thrift connections, threads, futures and event bases are atomic steps and messages in flight; a record's buffer is the message it serialises.
- RocksDB: a batch write is all or nothing, a failure leaves the table as it was, and iteration is in byte order; restarts from disk are not modelled.
- Integer widths: commit ids, terms, versions, ring, volume and timer ids are unbounded; only the database keys have their 64 bits.
- Clocks: the election back-off is a boolean input, the timer's clock readings are arbitrary inputs, and nothing depends on time passing.
- Convergence of the pull loop (src/volumeserver/VolumeServer.cpp:127-165): `commitId_` never advances, so the loop's own condition is not modelled; what any batch does is.
- WriteQuorum.OpenAfterAllReplies: says what the callbacks do; that the promise's destructor fails the future once the last callback has dropped the shared context is folly's doing.
- Replicas.VolumeReplica.constructor: the database is new; the source opens an existing one if there is one at the path, while the journal always starts empty.
- Members.PBMember.ParseChildren: children arrive already told apart; splitting a name at its colon, and the failure of a number that does not parse, are not modelled.
- Members.PBMember.HandleElectionResponse: the time of the last election is not kept; whether the back-off is over is an input of the watch event.
- Agreement across leader contexts: each new context numbers writes from -1 again, so beyond `SecondContexts` logs of different leaders are not compared.
- GroupInfoUpdateMsg: nothing in the repository sends it (src/volumeserver/VolumeServer.cpp:266-272 only handles it), so syncs, and with them the step-down of a leader, depend on a sender outside; here it may come at any time under a term handed out.
- Syncs.SyncEndsOnlyAdmitted: what happens to a refused sync is not modelled; in the source it ends the process (src/volumeserver/VolumeServer.cpp:92-94), here a crash event may follow or nothing. The pull between consent and end is empty in the source, both ends being -1.
- Session loss short of a crash: losing the session ends the member, drops its requests and removes its LOCK; a failed acquire aborts in the source (`handleError_`) and is followed here by a crash event or by nothing.
- Group children: a child is the LOCK, a numbered member or something else, and a member's node that outlives or lags its session is any list of children.
- The content of votes inside `LockProtocol`: any buckets and any appointment that was sent may arrive; `Offices` takes the buckets that answers make, and `CodedVotes` the answers that members give.
- Debug checks: the model goes on where a check of the source would end the process; whether a check can fail is a theorem of its own.
- Replies in `Cluster`: a success can only follow the peer's own success; a failure can come at any time.
- ZkTree.ZooKeeperAdapter.CreateNode: plain nodes only, without the sequence flag, and one client whose calls are not lost, so the retry loop on recoverable errors runs once.
- ZkTree.ZooKeeperAdapter.DeleteNode: no other client adds children meanwhile; with one client no inner call throws.
- ZkTree.ZooKeeperAdapter.GetNodeChildren: the paths come in no particular order; the source sorts them.
- ZkTree.ValidPath: stands for the service's own check of paths too, which also rejects the components `.` and `..` and some characters.
- ZkTree.ZkServer.Create: result codes are those of ZooKeeper's documented create and delete; ACLs, watches and quotas are not modelled.
- Placement.SphereConfigMgr.AddService: a failed ring creation aborts in the source and is not an event here.
- Placement.SphereConfigMgr.AddResource: publication to the topic is the list of volumes a server has seen.
- Placement.ResourceMgr.HandleResourceConfigTableUpdate: an update for a hosted volume goes to `applyResourceUpdate`, which is unimplemented in the source and does nothing here; the ring table is pulled once, so rings made later are unknown to the server, as in the source.
- Members.PBMember.HandleAddToGroupMsg: the response's sync commit id, always -1, is not returned.
- Journals.Journal.RetrieveEntries: the byte limit is ignored, as in the source.
- ConnectionCache, PropertiesCache, server bring-up, the command line, `RedundantVolumeConfigMgr`, src/dc, src/replica and src/infra/temp: they would add only easy members or are unfinished.
