# A model of the Raft node, its log store and the CURP tables

The project models three parts of the program in Dafny and proves what they are for.

**Raft** (`Raft*.dfy`, `Quorum.dfy`, `BackOff.dfy`). `RaftSpec` gives every block that runs under the
node's mutex as a function on the node's value; `RaftCluster` makes them the steps of a cluster whose
network is a set of messages that only grows, so that a message may be delayed, reordered, delivered
again or lost. A run is any sequence of such steps, for any number of nodes from two on. `RaftHistory`
remembers about a run who won each term, every vote, every acknowledgement and the longest log of each
leader, and states the invariant; `RaftElections`, `RaftLeader`, `RaftFollower` and `RaftReplies` prove
that each step keeps it; `RaftSafety` and `RaftProgress` draw the conclusions, which speak of runs alone:
election safety, log matching, leader completeness, state machine safety, truthful match indices, monotone
commit indices, indices in range. `BackOff` compares the conflict hints with stepping back one by one, with whole
rounds of a send, the handler's reply and the leader's answer to it. `RaftExact` says exactly when each block says
yes and what it replies. `RaftAvailability` is the other side of safety: from every reachable state, whatever was
lost or left half done, any majority can on its own elect a leader and commit one more entry on all its nodes.
`RaftNode` is the node as an object over two arrays and a `LogVec`; every method is proved to do exactly
what its step does.

**The log store** (`LogVec.dfy`, `EntryCodec.dfy`, `EntryMessage.dfy`, `Varint.dfy`, `WireFormat.dfy`, `Utf8.dfy`). `LogVec` is
an object over two byte files and is proved to be a sequence of entries. The wire form of an entry is
concrete: varints and length-delimited fields as in the Protocol Buffers Encoding specification, sections
"Base 128 Varints" and "Length-Delimited Records"; `WireFormat` reads it back as any such message, without
knowing what an entry is.

**CURP** (`Witness.dfy`, `CurpMaster.dfy`, `KeyValue.dfy`). The witness and the master are objects over their
redundant tables. Over every run the tables agree with each other and with what was executed, and the
operations executed speculatively commute, so that a sync or a recovery may take them in any order.

A lemma about runs takes the whole run as a sequence of states (Raft) or events (CURP). A name such as
`aa`, `ar`, `va`, `vr` is the argument or reply of AppendEntries or RequestVote.

## What the model found

- `src/raft/raft_rpc.cpp:277-278` says that the follower takes the lesser of the leader's commit index and
  the index of the last new entry; the code takes the length of the whole log instead. `RaftProgress.FollowerCommit`
  and `RaftFollower.MergedFacts` show that on every run both give the leader's commit index.
- The follower's scan for the start of the conflicting term stops at its commit index
  (`src/raft/raft_rpc.cpp:211`). On arbitrary logs a rejection may then leave the leader's `nextIndex` where it was:
  `BackOffRefinement.ProgressExactly` says exactly when, `StuckIfCommitDiffers` gives such logs, and
  `RaftFollower.ConflictHint` shows that no run reaches them.
- A candidate that gets an AppendEntries of its own term keeps its role (`src/raft/raft_rpc.cpp:158-164`). The
  model keeps this; `RaftSafety.SenderLeads` says that it can no longer win that term.
- An entry whose key is not well-formed UTF-8 is written, but its value is lost when it is read back, because
  `decode_entry` ignores that the parser failed (`src/storage/log_vec.cpp:220-224`). `EntryCodec.RoundTrip` gives
  the exact condition. Entries that arrive in a message passed the same parser, so a follower's log is not affected;
  `RaftNodeModule.Clean` states this.
- A replay onto a master that has unsynced operations may put one key into the table twice, and then the order of
  the sync matters: `CurpSpec.ReplayCanClash` is such a run and `CurpSpec.ReplayKeysExactly` the exact condition.
  On a master with nothing unsynced, one witness's records never clash.

## Model

| member | source | states |
|---|---|---|
| RaftSafety.StateMachineSafety | src/raft/raft.cpp:237-260 | If two nodes, at any two times of a run, have committed position i, their logs are equal up to and including i |
| RaftSafety.LeaderCompleteness | src/raft/raft_rpc.cpp:84-104 | What any node has committed in a term is in the log of every leader of every later term, whenever either is looked at |
| RaftSafety.ElectionSafety | src/raft/raft.cpp:88-141 | No two nodes are ever leader in one term, however elections, late answers and step-downs interleave |
| RaftSafety.OneVotePerTerm | src/raft/raft_rpc.cpp:61-104 | A node's term never falls, and within a term its vote, once cast, never changes |
| RaftSafety.SenderLeads | src/raft/raft_rpc.cpp:153-164 | Once an AppendEntries of a term was sent, only its sender ever leads that term; so a receiver that keeps the role of candidate cannot win it |
| RaftSafety.LogMatching | src/raft/raft_rpc.cpp:183-259 | Two logs, at any two times, with the same term at a position are equal up to and including it |
| RaftSafety.LogMatchesRequest | src/raft/raft.cpp:363-394 | A log with the term of a sent entry at that entry's position has the previous term and all sent entries up to there |
| RaftSafety.LogTerms | src/raft/raft_rpc.cpp:238-259 | Every log starts with the default entry, and its terms never decrease and never exceed the node's term |
| RaftSafety.StepOk | src/raft/raft_rpc.cpp:56-344 | Every step, of whatever kind, keeps the invariant, and only extends what was recorded before |
| RaftSafety.CommittedAgree | src/raft/raft.cpp:244-258 | The logs of two terms in which something was committed agree up to the lesser committed position |
| RaftSafety.NotYetPushed | src/raft/raft.cpp:244-258 | An entry pushed after a later term was won is never committed |
| RaftElections.UpToDateKeeps | src/raft/raft_rpc.cpp:87-90 | A log that passes the up-to-date test against one that has an entry has that entry too, unless it can never be committed |
| RaftElections.GrantedVote | src/raft/raft_rpc.cpp:84-104 | Whoever gets a vote has every entry that the voter confirmed and that may still be committed |
| RaftElections.WinComplete | src/raft/raft.cpp:101-125 | The majority of votes makes the new leader's log hold everything of earlier terms that is or may be committed |
| RaftElections.Unwon | src/raft/raft.cpp:101-115 | With a majority for a candidate nobody else has won the term, and the candidate's log is the one it stood with |
| RaftElections.VotersMajority | src/raft/raft.cpp:88-101 | When the shared counter passes half, that many distinct nodes have voted for the candidate in that term, itself included |
| RaftElections.ElectOk | src/raft/raft.cpp:135-165 | Standing for election, from any role, keeps the invariant |
| RaftElections.VoteAnswerOk | src/raft/raft_rpc.cpp:319-344 | The reply block of a vote request keeps the invariant, also when it steps down and still reports the vote |
| RaftLeader.SentOk | src/raft/raft.cpp:363-394 | What a leader sends is a slice of its log, and the commit index it sends lies within it and is committed |
| RaftLeader.PushedTooLate | src/curp/curp_master.cpp:389-397 | When a later term was already won, a majority can no longer confirm what an old leader pushes |
| RaftFollower.ConflictHint | src/raft/raft_rpc.cpp:193-218 | A conflict lies above the follower's commit index, so the hint is at least 1 and at most the probed position |
| RaftFollower.CommitShared | src/raft/raft_rpc.cpp:183-232 | The sender of a current AppendEntries has all that the receiver has committed |
| RaftFollower.MergedFacts | src/raft/raft_rpc.cpp:238-285 | After a merge the log agrees with the leader's up to the last sent position, and the commit index is the old one or exactly the leader's, and committed |
| RaftFollower.MergedAcks | src/raft/raft_rpc.cpp:238-273 | Whatever the follower confirmed before is still there after a merge, unless it can never be committed |
| RaftLog.MergeMeets | src/raft/raft_rpc.cpp:238-259 | On any log: nothing up to prevLogIndex changes, every sent position has the sent term, and something is removed exactly if a term conflicts |
| RaftLog.MergeMerges | src/raft/raft_rpc.cpp:238-259 | On a log that matches the leader's, the result has all that was sent, keeps all that was shared, and is the old log or the leader's prefix |
| RaftLog.MergeAgain | src/raft/raft_rpc.cpp:238-259 | A message whose entries the log has changes nothing, wherever the merge stands |
| RaftReplies.ReplicatedCommitted | src/raft/raft.cpp:244-258 | A position that the scan accepts is confirmed by a majority of distinct nodes, and its entry is of the current term |
| RaftReplies.BackOffInRange | src/raft/raft.cpp:285-338 | Whatever probe a hint answers, the new nextIndex stays within 1 and the length of the log |
| RaftProgress.IndexSafety | src/raft/raft.cpp:285-394 | On every run every commit, next and match index is in range, so every index read of a send or reply is too |
| RaftProgress.MonotoneIndices | src/raft/raft_rpc.cpp:276-285 | No commit index ever falls; while a node leads a term it stays leader and its match indices only grow |
| RaftProgress.CommitScanExact | src/raft/raft.cpp:237-260 | After a success the commit index is the greatest position above the old one of the current term that a strict majority has, or the old one if there is none |
| RaftProgress.MatchIndexTruthful | src/raft/raft.cpp:221-234 | What a leader believes a follower to have, it has, then and as long as it stays in that term, however replies are reordered |
| RaftProgress.FollowerCommit | src/raft/raft_rpc.cpp:276-285 | A raised commit index equals the leader's, and the log up to it is that of the leader of the term |
| RaftProgress.LateRequestKeepsLog | src/raft/raft_rpc.cpp:238-274 | A repeated or late, shorter request of a term already confirmed further succeeds and changes no entry |
| RaftProgress.RejectionLowersNext | src/raft/raft.cpp:266-339 | On every run any rejection that is there for the leader of its term either is of a newer term and makes it step down, or, if it answers the current probe, strictly lowers nextIndex, which stays at least 1 |
| RaftProgress.RejectedProbeLowersNext | src/raft/raft_rpc.cpp:193-232 | When a follower not beyond the leader's term rejects the current probe, the very reply its handler gives, whenever it arrives in that term, strictly lowers nextIndex |
| RaftProgress.AcceptedHasWholeLog | src/raft/raft.cpp:379-394 | A follower that accepts a request then has the whole log its leader had when it sent it |
| RaftProgress.SearchesAgree | src/raft/raft.cpp:280-339 | On every run the rounds of probe, reply and back-off end, accepted, at the position where stepping back one by one ends |
| BackOffRefinement.OneBackOff | src/raft/raft.cpp:280-339 | One round of send, rejection and reply strictly lowers nextIndex, skips only probes that would have been rejected, and changes nothing else |
| BackOffRefinement.FastIsSlow | src/raft/raft.cpp:280-339 | The rounds, through the leader's own reply handler, end exactly where stepping back by one ends |
| BackOffRefinement.SearchEnds | src/raft/raft_rpc.cpp:193-218 | The search ends with an accepted probe and never drops below a common prefix |
| BackOffRefinement.ProgressExactly | src/raft/raft_rpc.cpp:210-215 | On any sorted logs a rejection lowers nextIndex if and only if it is not the case that the follower has committed the conflicting position and the leader has no entry of its term up to there |
| BackOffRefinement.StuckIfCommitDiffers | src/raft/raft_rpc.cpp:211-215 | There are logs, which no run reaches, where a rejection leaves nextIndex as it was |
| RaftAvailability.MajorityCommits | src/raft/raft.cpp:207-264 | Every run can be continued by the steps of any majority alone to a state in which each of its nodes has the same log, with a new entry for any given request last, and has committed all of it |
| RaftAvailability.MajorityElects | src/raft/raft.cpp:75-165 | Every run can be continued by the steps of any majority alone to a state in which one of its nodes leads |
| RaftAvailability.SomeRunElects | src/raft/raft_rpc.cpp:84-104 | For every number of nodes from two on some run ends with a leader |
| RaftAvailability.CanElect | src/raft/raft.cpp:88-141 | In any reachable state the majority's node with the most up-to-date log can win the term above all of theirs |
| RaftAvailability.CatchUp | src/raft/raft.cpp:219-339 | A leader brings any follower not beyond its term to exactly its own log and at least its commit index, in finitely many rounds, whatever was there before |
| RaftAvailability.CommonTop | src/raft/raft.cpp:244-258 | When all of a majority have the log, the leader's own last entry counts as stored by a majority |
| RaftExact.VoteGrantedExactly | src/raft/raft_rpc.cpp:61-125 | A vote is granted if and only if the term is not old, the vote in it is free or the candidate's, and the candidate's last entry is lexicographically at least the voter's; the reply has the greater term |
| RaftExact.VoteCountsExactly | src/raft/raft_rpc.cpp:319-344 | A vote counts if and only if it was granted and the node still stands in the term it asked in; a newer term makes it step down |
| RaftExact.WonExactly | src/raft/raft.cpp:88-131 | The counted vote makes a leader if and only if with it, and not before, a strict majority is reached; it then assumes every peer to have its log, and knows of none |
| RaftExact.SendsWholeSuffix | src/raft/raft.cpp:363-394 | What is sent starts at nextIndex and is all the log has from there, with the term before it and the commit index |
| RaftExact.AppendReplyExactly | src/raft/raft_rpc.cpp:136-232 | The reply has the greater of the two terms; it confirms if and only if the term is not old and the previous entry's term is there; else it gives the length of the log, or the term there and the first position of that term above the commit index |
| RaftExact.BackOffExactly | src/raft/raft.cpp:285-338 | nextIndex becomes the follower's length, or the position behind the leader's last entry of the conflicting term, or the follower's first position of that term |
| RaftExact.SuccessAdvances | src/raft/raft.cpp:227-234 | A confirmation moves the match index to the last position confirmed, never back, nextIndex right behind it, and no other peer's |
| RaftExact.NewerTermStepsDown | src/raft/raft.cpp:266-278 | A rejection of a newer term makes the leader a follower of that term without a vote |
| RaftExact.StaleReplyIgnored | src/raft/raft.cpp:221-225 | A reply to another term's request, to a node that leads no more, or of an older term changes nothing |
| RaftNodeModule.RaftNode.constructor | src/raft/raft.cpp:52-64 | A new node is the initial node: term 0, no vote, one default entry in its log |
| RaftNodeModule.RaftNode.Elect | src/raft/raft.cpp:135-165 | Does the election step and builds the vote request of the log as it reads back |
| RaftNodeModule.RaftNode.RequestVote | src/raft/raft_rpc.cpp:56-128 | Does the vote step and gives its reply |
| RaftNodeModule.RaftNode.GetVoteAnswer | src/raft/raft_rpc.cpp:319-344 | Does the step of the vote's reply block, and reports whether the vote counts |
| RaftNodeModule.RaftNode.CollectVote | src/raft/raft.cpp:88-132 | Counts one vote and becomes leader, with fresh index arrays, exactly as the step says |
| RaftNodeModule.RaftNode.HeartBeat | src/raft/raft.cpp:363-394 | Builds the full suffix behind the peer's nextIndex, with the term before it |
| RaftNodeModule.RaftNode.AppendEntries | src/raft/raft_rpc.cpp:130-294 | Does the AppendEntries step and gives its reply, conflict hint included |
| RaftNodeModule.RaftNode.ConflictStart | src/raft/raft_rpc.cpp:210-214 | The loop finds where the specified backward scan stops |
| RaftNodeModule.RaftNode.MergeEntries | src/raft/raft_rpc.cpp:238-259 | The loop, with its truncation and appends, leaves the specified merge in the files |
| RaftNodeModule.RaftNode.RaiseCommit | src/raft/raft_rpc.cpp:276-285 | The commit index after the handler |
| RaftNodeModule.RaftNode.HandleAppendReply | src/raft/raft.cpp:219-341 | Does the reply step on the two index arrays and the commit index |
| RaftNodeModule.RaftNode.CommitScan | src/raft/raft.cpp:237-260 | The nested loops find the position at which the specified scan stops |
| RaftNodeModule.RaftNode.CountHolders | src/raft/raft.cpp:245-253 | The count passes half exactly if a strict majority, with the leader, holds an entry of the current term there |
| RaftNodeModule.RaftNode.BackedOff | src/raft/raft.cpp:285-338 | The loop and its branches give the specified new nextIndex |
| EntryCodec.RoundTripParsed | proto/raft.pb.cc:783-887 | Parsing a written entry gives the entry and success, or, on an ill-formed key, failure and the entry without its value; negative terms and omitted fields included |
| EntryCodec.RoundTrip | src/storage/log_vec.cpp:214-224 | An entry decodes to itself if and only if its key is well-formed UTF-8 or its value is empty |
| WireFormat.WritesFields | proto/raft.pb.cc:853-879 | Any reader of varint and length-delimited records finds in what is written exactly the fields of `proto/raft.proto`, with their numbers and wire types, in order, without those of the default value |
| WireFormat.ParseExactly | proto/raft.pb.cc:783-845 | On every sequence of bytes the parser accepts if and only if they are a message of the entry's own fields with well-formed keys, in any order and number, and then each field has its last record's value |
| Utf8.ValidExactly | proto/raft.pb.cc:811 | A key is well-formed if and only if it encodes some sequence of Unicode scalar values |
| Varint.EncodeMeans | proto/raft.pb.cc:853-863 | A varint's groups of seven bits, low group first, make up the number; the top bit is set on all bytes but the last, and no needless byte is written |
| EntryCodec.Injective | src/storage/log_vec.cpp:214-224 | Different entries with well-formed keys have different wire forms |
| EntryCodec.IllFormedKeyLosesValue | proto/raft.pb.cc:806-814 | A concrete entry that does not read back as it was written |
| EntryCodec.ByteSizeExact | proto/raft.pb.cc:889-922 | The size computed before writing is the number of bytes written |
| EntryMessage.Message.InternalParse | proto/raft.pb.cc:783-845 | The loop over the fields leaves in the object what the specified parse gives, and its verdict |
| EntryMessage.Message.InternalSerialize | proto/raft.pb.cc:847-887 | Writes the wire form at the given place of the buffer and changes no other byte |
| LogVecModule.Offsets | src/storage/log_vec.cpp:162-187 | Offset i is where the entries before end, the slice up to the next is the wire form of entry i, and an offset repeats exactly if that form is empty |
| LogVecModule.FilesDetermine | src/storage/log_vec.cpp:147-171 | Two sequences with the same two files are the same sequence, if their keys are well-formed |
| LogVecModule.FilesOfPrefix | src/storage/log_vec.cpp:199-211 | The files of a prefix are prefixes of the files, which is why truncation may cut both |
| LogVecModule.DefaultEntryIsEmpty | src/raft/raft.cpp:62 | The first entry of every log takes no bytes, so it shares its offset with the next |
| LogVecModule.OffsetReturns | src/storage/log_vec.cpp:154-156 | An offset written low byte first reads back |
| LogVecModule.LogVec.constructor | src/storage/log_vec.cpp:21-39 | Opening the files of a sequence gives that sequence, its length taken from the offset file |
| LogVecModule.LogVec.PushBack | src/storage/log_vec.cpp:147-160 | Appends the entry to the sequence the files denote |
| LogVecModule.LogVec.At | src/storage/log_vec.cpp:162-171 | Reads entry idx as it was stored, the last one too |
| LogVecModule.LogVec.GetOffset | src/storage/log_vec.cpp:184-187 | The offset read is the length of all entries before |
| LogVecModule.LogVec.TruncateFrom | src/storage/log_vec.cpp:199-211 | Cuts the sequence to its first idx entries, or leaves it if it is no longer than that |
| WitnessSpec.TablesAgree | src/curp/witness.cpp:77-81 | Over every run the id set is exactly the stored ids, each under one key, and the size stays within the limit |
| WitnessSpec.CollectExact | src/curp/witness.cpp:120-132 | Collection removes exactly the records whose key and id are listed, counts them exactly, and keeps the tables in agreement |
| WitnessSpec.RecordsSeparated | src/curp/witness.cpp:65-81 | Between two new records for one key the first was collected by its id or dropped by a reset |
| WitnessSpec.AcceptedExactly | src/curp/witness.cpp:28-81 | An acceptance means the id is held afterwards; it is given exactly to an open witness with the right master and room, that holds the id already or nothing for the key |
| WitnessSpec.RecordExactly | src/curp/witness.cpp:28-90 | Which of the five answers a request gets, exactly; what of it is stored, and for whom; a refusal changes nothing but its count |
| WitnessSpec.RefusesOnceClosed | src/curp/witness.cpp:164-165 | From a stop or its master's recovery on, until a reset, every request is refused as stopped, and the records are among those there were |
| WitnessSpec.ClosedExactly | src/curp/witness.cpp:185-212 | The witness is closed if and only if a stop or its master's recovery closed it and no reset came since |
| WitnessSpec.ResetReopens | src/curp/witness.cpp:209-212 | After a reset any request of the new master is accepted and stored, and any other master's refused |
| WitnessSpec.ServesOneMaster | src/curp/witness.cpp:83-88 | From a named master's first record on, until a reset, no other master changes or gets anything |
| WitnessSpec.GarbageCollectExactly | src/curp/witness.cpp:112-147 | A collection returns the number of records it dropped; another master's drops none |
| WitnessSpec.HeldUntilReleased | src/curp/witness.cpp:57-81 | Until it is released a record stays, unchanged |
| WitnessSpec.ClosedOnlyShrinks | src/curp/witness.cpp:157-172 | Once closed, by recovery or a stop, the witness only loses records until it is reset |
| WitnessSpec.Conservation | src/curp/witness.cpp:90-132 | Without a reset every record ever made is stored or was counted as collected |
| WitnessModule.Witness.Record | src/curp/witness.cpp:14-102 | Does the record step and gives its result, in the order of the checks |
| WitnessModule.Witness.GarbageCollect | src/curp/witness.cpp:104-148 | The loop collects the listed entries and returns their count |
| WitnessModule.Witness.GetRecoveryData | src/curp/witness.cpp:150-183 | Closes the witness and returns each record once, in some order; to another master it gives nothing and stays open |
| WitnessModule.Witness.Reset | src/curp/witness.cpp:198-222 | Empties both tables, rebinds and reopens |
| KeyValue.BatchesCommute | src/curp/curp_master.cpp:308-318 | Two orders of one batch with distinct keys give the same store |
| KeyValue.DecidesKey | src/curp/curp_master.cpp:308-318 | In a batch with distinct keys each operation alone decides its key |
| KeyValue.LastWriteDecides | src/curp/curp_master.cpp:325-343 | In any sequence of operations the last PUT or DELETE of a key decides it, and a GET nothing |
| KeyValue.SameKeyDoesNotCommute | src/curp/curp_master.cpp:308-318 | With a key twice the order can matter |
| CurpSpec.TablesAgree | src/curp/curp_master.cpp:65-99 | Over every run no id is executed twice, executed_ops_ has exactly the ids that ran, and the unsynced tables list exactly the operations and keys since the last sync |
| CurpSpec.SuccessMeansExecuted | src/curp/curp_master.cpp:65-115 | A propose succeeds exactly if its operation has then been executed, now or earlier, on the fast path, and otherwise asks for a sync; it runs the operation at most once |
| CurpSpec.SyncExactly | src/curp/curp_master.cpp:372-400 | After a sync no key and no operation is unsynced, what ran and is known to have run is unchanged, and the synced store is the one execution gave |
| CurpSpec.SyncLetsProceed | src/curp/curp_master.cpp:73-99 | After a sync any operation that did not run yet takes the fast path, and every key can be read |
| CurpSpec.FastPathsSeparated | src/curp/curp_master.cpp:73-99 | Between two fast-path executions on one key there is a sync |
| CurpSpec.KeysStayDistinct | src/curp/curp_master.cpp:73-99 | On every run whose replays do not clash the unsynced operations have pairwise distinct keys |
| CurpSpec.AnySyncOrder | src/curp/curp_master.cpp:388-400 | Then applying the unsynced operations in any order to what was synced gives the store that execution order gave |
| CurpSpec.AnyRecoveryOrder | src/curp/curp_master.cpp:254-279 | On a master with nothing unsynced, any two orders of one witness's records leave the same tables and the same store |
| CurpSpec.RecoveredStore | src/curp/curp_master.cpp:260-279 | After a recovery each key of the witness whose request is new has its data, and every other key is as it was |
| CurpSpec.ReplayKeysExactly | src/curp/curp_master.cpp:254-279 | A replay leaves the keys distinct if and only if no record it executes has the key of an unsynced operation or of another such record |
| CurpSpec.WitnessRecordsNoClash | src/curp/witness.cpp:65-81 | One witness's records never clash on a master with nothing unsynced |
| CurpSpec.ReplayPending | src/curp/curp_master.cpp:260-279 | A replay adds to the unsynced operations one for each record whose id is new, and no other |
| CurpSpec.ReplayCanClash | src/curp/curp_master.cpp:254-279 | A run after which one key is in the unsynced table twice |
| CurpSpec.AnsweredReadIsSynced | src/curp/curp_master.cpp:130-141 | A read is answered only for a key about which the synced store and the executed store agree |
| CurpMasterModule.CurpMaster.Propose | src/curp/curp_master.cpp:46-116 | Rejects while recovering; otherwise does the propose step and gives its result |
| CurpMasterModule.CurpMaster.Read | src/curp/curp_master.cpp:118-142 | Succeeds exactly if the master is not recovering and the key is not unsynced |
| CurpMasterModule.CurpMaster.ReplayOps | src/curp/curp_master.cpp:254-284 | The loop does the replay step |
| CurpMasterModule.CurpMaster.ReplayFromLocalWitness | src/curp/curp_master.cpp:243-252 | Closes the witness and replays its records, each once; a witness bound to another name gives none |
| CurpMasterModule.CurpMaster.DoSync | src/curp/curp_master.cpp:366-422 | Visits each unsynced operation once, in some order, empties both tables, sets the sync index and resets the witness; with nothing unsynced it does nothing |

## Left out

- Restarts: `persist()` is empty (`src/raft/raft.cpp:180-185`), so no claim is made about a node that comes back; a run starts with fresh log directories.
- Reopening a log that has entries: the node's constructor then appends a second default entry (`src/raft/raft.cpp:62`). `LogVec` itself may be reopened on the files of any sequence.
- A crash between the two writes of `push_back`, and the storage engine's file object: a file is the sequence of its bytes, and stays below 2^63 bytes.
- Snapshots: `handleInstallSnapshot` is empty and `lastIncludedIndex` stays 0, so the branches for it are never taken.
- Integer widths of terms, indices and log lengths: they are taken to stay below 2^31; `RaftProgress.IndexSafety` shows that none becomes negative. 64-bit counters and ids do not wrap.
- Clusters of fewer than two nodes.
- How a client's entry gets into a leader's log: no code pushes the entries built at `src/curp/curp_master.cpp:389-397`, so the model has a step in which a leader pushes any entry of its current term.
- RaftAvailability.MajorityCommits: needs terms below 2^31 - 1, as an entry's term field has 32 bits; `MajorityElects` does not.
- Liveness under timing: what is proved is that a majority always can make progress, not that timers let it. Timers, threads, the gRPC layer, stub caches, logging and tracing. A step is one block under a mutex; `collectVote` holds its counter's mutex as well, so its tally is one step.
- RaftCluster.Apply: the shared counter of an election is one more than the number of voters counted; the object form, `RaftNode.CollectVote`, has the counter itself.
- The forward and reverse iterators of `LogVec`, of which the node uses only the last entry's term.
- EntryCodec.ParseField: unknown fields are not skipped and kept but end the parse; the half-read value of a field at which parsing fails is not kept. Neither occurs in what the serializer writes.
- EntryCodec.RoundTrip: strings of 2^31 - 16 bytes and more, which the parser refuses, are excluded by `Fits`.
- Utf8.Valid: the check that the Protocol Buffers runtime makes is not part of the repository; it is modelled by table 3-7 of the Unicode Standard, and proved to accept exactly the encodings of scalar values.
- RaftNodeModule.RaftNode.AppendEntries: the entries sent are taken to have passed the message parser, and the file to have room for them.
- `execute_op` only logs; `KeyValue` gives PUT, DELETE and GET their plain meaning on a map, which is an interpretation. Replaying a record as a PUT of the serialized request is what the code does.
- `recover()`: it calls `do_sync` while it holds the same mutex (`src/curp/curp_master.cpp:206-208`), so it cannot finish with operations unsynced; its parts are modelled, not their sequence. Recovery from remote witnesses and from the log, where a foreign client or nothing is called.
- The Raft log and term that `do_sync` reads: the log's size is a parameter, and the entries that it builds and drops are not built.
- That a client records under another master id than recovery asks with (`src/curp/curp_client.cpp:319`); a mismatch gives no records, as the code has it.
- The master's statistics, status getters, the client and the service classes: one-branch facts or stubs.
