# Storage server and alarm channel: a Dafny model

The project models the parts of the storage server that have to be right under crashes,
lost messages and concurrency, and proves what they promise.

- **The reliable alarm channel.** A reporter's Store commits an error only after the alarm is
  durable in an outbox; a stop-and-wait sender removes a file only for a matching answer; a
  collector stores, ingests and only then answers, and rebuilds itself from disk. `MonitorStore`,
  `ReliablePublisher`, `AlarmSpool`, `SpoolDisk`, `ReliableCollector` and `InboxRecovery` are the
  operations, `RecoveryTies` says what equal timestamps leave open, `ReliableReporting` joins the
  first two, `SpoolCapacity` follows the byte cap over whole runs. `ReliableChannel` is the whole
  protocol as a step system; `ChannelExposure` says which steps put an alarm at risk,
  `ChannelProgress` exactly when the head of a sender's line blocks, and `ChannelDrain` that
  diligent work ends with everything delivered. `SpoolRefinement` ties its directories to the
  spool's disks, run by run. `PublisherInChannel` and `CollectorInChannel` show that the methods of
  publisher and collector are steps of it, each section of a sender's round by itself, and so are
  restarts; `ChannelSteps` carries no loss over to their disks.
- **The wire formats below it.** `Bytes`, `Crc32`, `AlarmProtocol` (the checked envelope),
  `MonitorData` and `MonitorWire` (version 2 datagrams), `AlarmStreamDecoder` (frames out of a
  TCP stream), `Names` (file names and decimal numbers). `WireLayout` says where each field is,
  `WireVerdicts` what a decoder answers to any bytes, `CrcRemainder` that the checksum is the
  remainder of a polynomial division, naming nothing of the code but the result.
- **Disk work.** `DiskExecutor` (registrations, bounded queue, shutdown), `AsyncFileSource`
  (reads and their callbacks), `Upload` (intake of a body), `ObjectStore` (publication by content
  hash, concurrently and across power losses).
- **The metadata cache.** `MetadataCache`.
- **Policies and timers.** `MonitorPolicy`, `ThresholdAlarm`, `TimerManager`.

## How to read it

Code that updates state in place is a class whose methods carry the contract; every method of a
class that threads share is one critical section, so the class invariant `Valid` holds over all
interleavings. Protocols that span processes are relations `Next(s, step, next)` with an
invariant and lemmas over whole runs (`seq` of states). Ghost fields (`fed`, `history`, `ingests`,
`fired`, `body`, ...) record the past that a contract talks about.

The operating system, the network and the clock are nondeterministic: a system call may fail
(`Spool.faults` counts the failures, so that a contract can say that an error has a cause, and
`Spool.deeds` lists the calls that succeeded, so that it can say in which order they come), a
frame may be lost, repeated or delayed for ever, and a process may crash or a machine lose power
between any two steps. A data directory entry has two sides: what a process sees, and every
content a power loss may leave (`SpoolDisk.Slot`).

Safety of the channel is proved for senders that may pick any file, because a scan can pass over
one; progress is proved for senders whose scans pick the least name, as a complete scan does
(`SpoolRefinement.ScanPicksHead`). Picking and sending are separate steps: the code holds no lock
between them, and a lesser name may be stored meanwhile. The spool's methods work on any disk,
damaged files included; what they say of undamaged disks is tied to the state of the disk when the
process started. Beside the channel a damaged file counts as no file.

What the channel results assume: message ids are never drawn twice by one source (the code
compares a new id with the files still in the outbox only); frames are not forged; a rename is
atomic; a synced directory entry survives a power loss, and so does a directory once made. Of the
database `ObjectStore` assumes that a committed row stays. Calls interrupted by a signal are
retried by the code and count as one call here.

## Findings

Promises that do not hold without a condition. Each comes with its exact condition, and with a
counterexample where the condition does not show one by itself.

- *An acknowledged alarm survives a power loss of the collector.* Recovery, and the Duplicate
  answer of `store`, accept an inbox file whose directory may never have been synced (after a
  crash between rename and sync, or a failed sync whose unlink failed too). The sender then
  removes its copy. `AcknowledgedButLost` is such a run for every message. In every run an alarm
  that only the inbox still holds can be lost if and only if no sync of its directory followed
  the rename (`LostExactlyWhenUnsynced`); recovery and the already-present branch are the only
  ways there (`OnlyUnseenAreExposed`); accepting synced entries only would close the gap
  (`CarefulNeverLoses`). Crashes of processes, and power losses of publishers, lose nothing
  (`NoLoss`).
- *Quarantine never overwrites a file.* `fs::exists` with an error code returns false on an error,
  and the rename follows. `OverwritesExactly`, `QuarantineCanOverwrite`.
- *Stored bytes stay within the cap.* The scan passes over an entry whose status query fails.
  The capacity test protects the cap for every frame it admits if and only if no query failed
  (`CapKeptExactly`, `CapCanBeExceeded`); without such a failure the cap holds at every point of a
  spool's history (`Spool.Valid`, `HistoryKeepsCap`). A power loss can pass it too, by bringing
  back a file whose unlinking was not synced: exactly when the largest sizes the names have had
  since their directories were last synced add up to more (`LossPassesCapExactly`,
  `LossCanPassCap`).
- *Every alarm in an outbox gets its turn.* A scan always picks the least name, so a file that
  cannot be read, is never answered or cannot be removed holds up every file behind it that is not
  picked yet, for as long as it stays (`NothingOvertakes`). A file can be delivered if and only if
  it is not such a file itself and none stands before it, or it was picked before that one came
  (`DeliverableExactly`).
- *Recovery does not depend on the directory listing.* It does not for files that carry the
  identity their name says (`RecoveryIgnoresListing`). Under a foreign name two files can carry one
  identity, and the sort leaves the order of records open that share time, source and message id.
  The order is determined if and only if no two different records do (`OrderDeterminedExactly`).
  The value of a key is determined if and only if the newest of its own records agree
  (`ValueDeterminedExactly`, `TieLeavesChoice`); ties between records of different keys are
  harmless (`StoreDetermined`).

## Model

| member | source | states |
|---|---|---|
| ReliableChannel.NoLoss | src/monitor/reliable_alarm_publisher.cpp:412-489 | In every run with lost or repeated messages, crashes of either side and power losses of publishers, an alarm whose enqueue succeeded is at every moment in the outbox or the inbox with its original bytes; also across collector power losses that find every accepted entry synced |
| ReliableChannel.IngestedOnceBeforeAnswer | src/monitor/reliable_alarm_collector.cpp:628-701 | In every run whatsoever, one collector process ingests an identity at most once, and every answer ever in flight was ingested exactly once by the process that sent it |
| ChannelProgress.DeliverableExactly | src/monitor/reliable_alarm_publisher.cpp:928-1057 | From every reachable state, whatever crashed or was lost before: with scans that pick the least name and steps in which nothing crashes, is refused or has to be undone, a file of an outbox can be accepted by the collector and removed for good if and only if it is not stuck (never read, answered or removed) and, unless the sender has already picked it, no stuck file stands before it |
| ChannelProgress.DeliveryStaysPossible | src/monitor/reliable_alarm_publisher.cpp:928-1057 | Without stuck files, from every state of every run: a promised alarm is either gone from the outbox because the collector accepted it, or it can still reach the present collector's inbox with its frame and be removed, also after a power loss took an earlier acceptance |
| ChannelProgress.NothingOvertakes | src/monitor/reliable_alarm_publisher.cpp:928-966 | In every run with complete scans, whatever else fails: while a lesser file stays in the outbox, a promised alarm that was not picked before is neither picked, sent nor removed |
| ChannelProgress.Serve | src/monitor/reliable_alarm_publisher.cpp:928-1056 | The head of the line can be picked, sent, stored, ingested, answered, removed and its removal synced; the other files stay |
| ChannelProgress.ServePicked | src/monitor/reliable_alarm_publisher.cpp:968-1056 | So can a picked file, whatever lesser names have arrived since |
| ChannelDrain.DiligenceIsBounded | src/monitor/reliable_alarm_publisher.cpp:928-1057 | From a reachable state only a bounded number of steps that do something is possible, in whatever order they come |
| ChannelDrain.DrainedWhenDone | src/monitor/reliable_alarm_publisher.cpp:1042-1056 | Where no such step is possible any more every outbox is empty and every alarm promised before has been accepted |
| ChannelDrain.DrainedIntoInbox | src/monitor/reliable_alarm_collector.cpp:650-697 | and every file that was in an outbox, its removal not yet decided, is in the present collector's inbox with its frame |
| ChannelDrain.NeverStalls | src/monitor/reliable_alarm_collector.cpp:628-701 | In every reachable state in which an outbox holds a file some sender or the collector can go on |
| ReliableChannel.AckMeansStored | src/monitor/reliable_alarm_collector.cpp:656-697 | An answer in flight stands for an inbox file holding the frame that was sent |
| ChannelExposure.LostExactlyWhenUnsynced | src/monitor/alarm_spool.cpp:584-605 | In every run, a promised alarm whose outbox copy is gone and whose inbox file is there can be lost to a collector power loss if and only if no sync of its inbox directory (and no loss it came through) followed its rename |
| ChannelExposure.StoredIsSafe | src/monitor/reliable_alarm_collector.cpp:656-663 | An entry whose store returned success is never exposed again, whatever fails later |
| ChannelExposure.OnlyUnseenAreExposed | src/monitor/reliable_alarm_collector.cpp:664-668 | An accepted alarm that a power loss can take was recovered at start-up or found already present when its frame came |
| ReliableChannel.AcknowledgedButLost | src/monitor/reliable_alarm_collector.cpp:422-503 | For every message there is a run in which it is promised, an acknowledgement of it is sent, and it ends in neither directory |
| ReliableChannel.CarefulNeverLoses | src/monitor/reliable_alarm_collector.cpp:656-697 | If the collector took on only synced entries, no crash and no power loss anywhere could lose an alarm |
| ReliableChannel.CarefulAcksAreDurable | src/monitor/reliable_alarm_collector.cpp:692-697 | Under the same care every answer in flight stands for an entry no power loss can take |
| ReliableChannel.NextKeepsInv | src/monitor/reliable_alarm_publisher.cpp:928-1057 | Every step of senders, network and collector keeps the channel's inductive invariant |
| ReliableChannel.InvMeansNoLoss | src/monitor/reliable_alarm_publisher.cpp:1042-1054 | In a state of the invariant no promised alarm is missing from both sides |
| ReliableChannel.NextKeepsBase | src/monitor/reliable_alarm_collector.cpp:628-701 | Every step without exception keeps the part of the invariant that power losses of the collector cannot break |
| ReliableChannel.RunKeepsBase | src/monitor/reliable_alarm_collector.cpp:679-697 | So threads, directories, promises, ingest counts, the collector and the answers stay consistent over every run whatsoever |
| ReliableChannel.ReceiverIngests | src/monitor/reliable_alarm_collector.cpp:644-648 | A collector step never makes a second ingest of an identity in one process |
| SpoolRefinement.PublishPuts | src/monitor/alarm_spool.cpp:584-589 | The rename into the data directory is the channel's put under that identity and no other |
| SpoolRefinement.RemovalPuts | src/monitor/alarm_spool.cpp:692-743 | Unlink and quarantine are the channel's removal of that identity and no other |
| SpoolRefinement.SyncFlushes | src/monitor/alarm_spool.cpp:96-111 | Syncing a directory settles exactly the entries of the source that lives there |
| SpoolRefinement.LossSurvives | src/monitor/alarm_spool.cpp:591-605 | What a power loss leaves of a disk whose files were synced before they got their names, damaged or not, is what the channel lets survive |
| SpoolRefinement.RealNamesAreTidy | src/monitor/alarm_spool.cpp:497-507 | Inbox and outbox paths are unique per identity, and share a directory exactly for a common source |
| SpoolRefinement.RunsAreMirrored | src/monitor/alarm_spool.cpp:470-743 | Every run of system calls and power losses on such a disk is a run of the channel's directory changes that shows the disk at every moment, for all identities at once; damaged files count as none |
| SpoolDisk.SoundIsFirm | src/monitor/alarm_spool.cpp:538-583 | A disk that holds only complete synced frames is such a disk |
| SpoolRefinement.RealNamesAreWell | src/monitor/alarm_spool.cpp:497-507 | The real inbox and outbox names are such that this applies to them |
| SpoolRefinement.HistoryIsRun | src/monitor/alarm_spool.cpp:470-743 | The history of a spool's process is such a run |
| SpoolRefinement.HistoryKeepsCap | src/monitor/alarm_spool.cpp:525-536 | Started within its cap and without a failed status query, a spool was within it at every point of its history |
| SpoolRefinement.ScanPicksHead | src/monitor/alarm_spool.cpp:296-300 | The file a complete scan of an outbox picks is, if it can be read, the head of the channel's line |
| PublisherInChannel.EnqueueInChannel | src/monitor/reliable_alarm_publisher.cpp:412-489 | An enqueue moves the channel by steps of its own and the channel's outbox shows the disk again; it promises an alarm exactly when it returns success, and then the file is settled; it uses up at most one id and leaves other sources alone |
| PublisherInChannel.PickInChannel | src/monitor/reliable_alarm_publisher.cpp:928-956 | The scan of a round is the channel's pick of a file that can be read, or no step at all |
| PublisherInChannel.SendInChannel | src/monitor/reliable_alarm_publisher.cpp:958-1001 | Whatever happened since the scan: reading the picked file ends in the channel's send of its frame, or in the end of the round, a damaged file set aside |
| PublisherInChannel.ConcludeInChannel | src/monitor/reliable_alarm_publisher.cpp:1001-1057 | Whatever happened since the sending, enqueues of this publisher included: a matching answer that the collector has given by now leads to the channel's removal, otherwise the round ends; the disk is shown again |
| PublisherInChannel.RunIterationInChannel | src/monitor/reliable_alarm_publisher.cpp:928-1057 | The whole round, whatever fails in it: the channel sends, does what it likes while the round waits, in particular answers this very frame, and goes on by the round's removal; the outbox shows the disk again, other sources, ids and promises are left alone |
| CollectorInChannel.AnswerCanCome | src/monitor/reliable_alarm_collector.cpp:628-701 | From every reachable state with a listening collector a file that is sent now can be answered while its round waits: first deliveries are among the rounds above |
| PublisherInChannel.OthersAreApart | src/monitor/reliable_alarm_publisher.cpp:412-489 | After such calls of one publisher everything said beside another publisher still holds |
| PublisherInChannel.RestartPublisher | src/monitor/reliable_alarm_publisher.cpp:249-298 | A new process on the disk the old one left, or on what a power loss left of it, is the channel's crash or power loss of that publisher |
| CollectorInChannel.ProcessAlarmInChannel | src/monitor/reliable_alarm_collector.cpp:628-701 | Handling a frame that was sent moves the channel by its own steps and the inbox shows the disk again; an answer it gives is an answer of the channel for that frame |
| CollectorInChannel.RecoverInChannel | src/monitor/reliable_alarm_collector.cpp:422-503 | Start-up, with damaged and recordless files in the inbox, is the channel's recovery: it ends listening with exactly the files that carry a record accepted; if it fails the channel's inbox has at most been synced and still shows the disk |
| CollectorInChannel.RestartCollector | src/monitor/reliable_alarm_collector.cpp:288-330 | A new collector process on the disk the old one left, or on what a power loss that finds accepted entries synced leaves of it, is the channel's crash or power loss of the collector |
| CollectorInChannel.SweepsShown | src/monitor/reliable_alarm_collector.cpp:433-481 | Setting aside files without a record is at most a sync of the channel's inbox, in whatever order and wherever it stops |
| ChannelSteps.PromisedIsOnDisk | src/monitor/reliable_alarm_publisher.cpp:412-489 | Beside any channel state reached by calls, crashes and power losses, those of the collector when they find every accepted entry synced, an alarm an enqueue promised is in a file of the publisher's or of the collector's disk, with its bytes |
| SpoolDisk.RunsAreSound | src/monitor/alarm_spool.cpp:470-608 | At every point of every run of system calls and power losses, each data file, now or after a loss, is a complete synced ALARM frame under the name its identity spells |
| SpoolDisk.SettledStays | src/monitor/alarm_spool.cpp:591-607 | A settled file keeps its bytes through calls and power losses until it is removed |
| SpoolDisk.StoredAfterPublish | src/monitor/alarm_spool.cpp:525-536 | Publishing adds exactly the file's size to the stored bytes |
| SpoolDisk.StoredAfterRemoval | src/monitor/alarm_spool.cpp:708-717 | Removing takes away exactly the file's size |
| SpoolCapacity.LossPassesCapExactly | src/monitor/alarm_spool.cpp:708-717 | At any point of any run a power loss can take the spool past a cap if and only if the largest sizes its names have had since their directories were last synced add up to more |
| SpoolCapacity.CapOverRuns | src/monitor/alarm_spool.cpp:525-536 | If the capacity test admitted every rename and no loss found a removal unsynced, the cap holds at every point of the run, after power losses too |
| SpoolCapacity.LossCanPassCap | src/monitor/alarm_spool.cpp:708-717 | A file unlinked, another admitted in its place, and a loss that brings the first one back: past the cap |
| SpoolCapacity.PeakNeedsRemoval | src/monitor/alarm_spool.cpp:713-717 | A name can come back larger only after a removal that was not synced |
| AlarmSpool.Spool.Store | src/monitor/alarm_spool.cpp:470-608 | Refusals before the disk is touched; Success only for a file absent before and settled now, after file sync, close, rename, sync of its directory and of the temporary one, in this order; Duplicate only for one present, before the capacity test; an input or output error has a failed call, 100 taken names or a byte overflow behind it; other files untouched; the cap holds unless an entry's status query failed, and then up to those entries' bytes |
| AlarmSpool.Spool.Persist | src/monitor/alarm_spool.cpp:493-608 | The same for the part under the lock |
| AlarmSpool.Spool.Admission | src/monitor/alarm_spool.cpp:525-536 | A frame is admitted only if it fits beside everything but the entries whose status query failed, and refused as full without a failed call only if it does not fit |
| AlarmSpool.Spool.Stage | src/monitor/alarm_spool.cpp:538-583 | A staged file holds the whole frame, written, synced and closed; the data directory is untouched; on failure the temporary file is gone unless a second call, the unlink, failed too |
| AlarmSpool.Spool.Release | src/monitor/alarm_spool.cpp:584-607 | The staged file ends settled under its name with its bytes added, or taken back; it is left behind only if a second call, the unlink, failed too |
| AlarmSpool.Spool.Rename | src/monitor/alarm_spool.cpp:584-589 | The rename alone: visible under its name, exactly its bytes added, nothing else touched, or a failed call |
| AlarmSpool.Spool.SyncDestination | src/monitor/alarm_spool.cpp:591-605 | Settled when both syncs succeed, else taken back; left behind only if the unlink failed too |
| AlarmSpool.Spool.SyncDirectory | src/monitor/alarm_spool.cpp:96-111 | A sync leaves every entry of the directory with its current content only, and changes none |
| AlarmSpool.Spool.OpenFresh | src/monitor/alarm_spool.cpp:541-560 | A new empty temporary file; without a failed call it fails exactly if all of the next 100 names are taken |
| AlarmSpool.Spool.WriteAll | src/monitor/alarm_spool.cpp:113-130 | Short writes add up to the whole frame, or a call failed |
| AlarmSpool.Refusal | src/monitor/alarm_spool.cpp:473-492 | Which of the two refusals a frame gets, and none exactly for a complete ALARM frame of the given identity |
| AlarmSpool.Spool.Scan | src/monitor/alarm_spool.cpp:262-311 | File count, byte sum without overflow and least path of all entries but those whose status query failed |
| AlarmSpool.Spool.Next | src/monitor/alarm_spool.cpp:610-628 | A file that is there, least among those seen; Empty only if none was seen |
| AlarmSpool.Spool.Read | src/monitor/alarm_spool.cpp:630-690 | On any disk: the file's own bytes when they form an ALARM frame; a damaged file, and no other, is moved away; an error has a failed call or a used-up corrupt directory behind it |
| AlarmSpool.Spool.Remove | src/monitor/alarm_spool.cpp:692-718 | Success exactly without a failed call, after unlink and sync, and then no power loss brings the file back |
| AlarmSpool.Spool.QuarantineFile | src/monitor/alarm_spool.cpp:720-743 | The file moves to the corrupt directory under a free name if no probe fails on a taken one |
| AlarmSpool.Spool.MoveToCorrupt | src/monitor/alarm_spool.cpp:313-355 | Which name is taken, what becomes of the two directories, both synced after the rename, and why it may fail |
| AlarmSpool.Spool.Initialize | src/monitor/alarm_spool.cpp:363-431 | Start-up empties the temporary directory, leaves data alone and, without failing probes, keeps what was quarantined |
| AlarmSpool.OverwritesExactly | src/monitor/alarm_spool.cpp:317-340 | Quarantine replaces a file if and only if, after taken names only, a probe fails for a taken name |
| AlarmSpool.QuarantineCanOverwrite | src/monitor/alarm_spool.cpp:326-340 | It does so for a concrete directory and probe outcome |
| AlarmSpool.FirstFreeIsFree | src/monitor/alarm_spool.cpp:317-351 | The chosen suffix is below 1000, all earlier ones are taken, and none is chosen only if all are |
| AlarmSpool.RoomForName | src/monitor/alarm_spool.cpp:313-355 | A corrupt directory of fewer than 1000 files has a name left for every file |
| AlarmSpool.CapKeptExactly | src/monitor/alarm_spool.cpp:279-302 | On a sound disk with room left, every frame the capacity test admits keeps the cap if and only if no entry's status query failed |
| AlarmSpool.CapCanBeExceeded | src/monitor/alarm_spool.cpp:279-302 | For every two frames there is a full sound spool, a result its scan may report and a rename its test admits that end past the cap |
| AlarmSpool.PathsInjective | src/monitor/alarm_spool.cpp:497-507 | Different identities have different outbox paths and different inbox paths |
| AlarmSpool.NativeNames | src/monitor/alarm_spool.cpp:201-203 | An outbox name stands by itself, an inbox name in the directory of its source |
| Names.FileNameInjective | src/monitor/alarm_spool.cpp:201-203 | Different identities have different file names |
| Names.BelowExactly | src/monitor/alarm_spool.cpp:296-300 | The order of the scan is: a beginning of the other, or the lesser character where they first differ |
| Names.HexU64 | src/monitor/alarm_spool.cpp:175-187 | The loop yields the sixteen hexadecimal digits |
| Names.HexMessageId | src/monitor/alarm_spool.cpp:188-199 | The loop yields two digits a byte |
| ReliableCollector.Collector.ProcessAlarm | src/monitor/reliable_alarm_collector.cpp:628-701 | An answer only for an identity that is in the inbox and was ingested by this process, never a second ingest, the record ingested is the one on disk; no answer has a cause |
| ReliableCollector.Collector.Keep | src/monitor/reliable_alarm_collector.cpp:650-677 | What is handed to the engine is what the inbox file of the identity carries |
| ReliableCollector.Collector.LoadPersisted | src/monitor/reliable_alarm_collector.cpp:580-603 | The persisted record; or none, with a failed call behind it or because the file is damaged or carries no V2 record, and then it is out of the way while the corrupt directory has names left; other files untouched |
| ReliableCollector.Collector.Take | src/monitor/reliable_alarm_collector.cpp:679-695 | Ingested and remembered together, or neither |
| ReliableCollector.Collector.RecoverInbox | src/monitor/reliable_alarm_collector.cpp:422-503 | On any disk, success leaves the Store that ingesting the records of the files in sorted order gives, each key with its newest record by time, source and message id, and exactly their identities accepted, files with a record in place and damaged or recordless ones gone; where files carry the identity their name says this is what the disk alone determines; it succeeds unless a call fails, the engine refuses or the corrupt directory is full |
| ReliableCollector.RecoveryIgnoresListing | src/monitor/reliable_alarm_collector.cpp:422-503 | Two recoveries of one disk, whatever their listings, end with one Store and one accepted set |
| ReliableCollector.CollectExactly | src/monitor/reliable_alarm_collector.cpp:433-481 | What is collected from a listing is what its files carry, and nothing else |
| ReliableCollector.Collector.ReadAll | src/monitor/reliable_alarm_collector.cpp:430-481 | On any disk: the items of the readable V2 files in listing order, their files still in place; damaged and recordless files are set aside and do not stop the others; nothing else happens to the data directory, also on failure |
| ReliableCollector.Collector.ReadOne | src/monitor/reliable_alarm_collector.cpp:433-480 | One file: its item and the file untouched, or no item and the file gone, or a failure with a cause |
| ReliableCollector.Collector.IngestSorted | src/monitor/reliable_alarm_collector.cpp:491-500 | Every item ingested and accepted once, unless the engine refuses |
| ReliableCollector.CollectedIds | src/monitor/reliable_alarm_collector.cpp:433-481 | Each item comes from the file its identity names, so recovered identities are distinct |
| InboxRecovery.OrderDeterminedExactly | src/monitor/reliable_alarm_collector.cpp:486-489 | The items alone determine the order in which they are ingested if and only if no two different ones share time, source and message id |
| InboxRecovery.TieLeavesChoice | src/monitor/reliable_alarm_collector.cpp:486-500 | Two tied records of one key with different values can be sorted either way and give two Stores |
| RecoveryTies.ValueDeterminedExactly | src/monitor/reliable_alarm_collector.cpp:483-500 | Whatever order the sort chooses, a key ends with one value if and only if the newest of its records agree on it |
| RecoveryTies.StoreDetermined | src/monitor/reliable_alarm_collector.cpp:483-500 | If no two records of one key are tied, every order the sort may choose gives the same Store |
| InboxRecovery.SortedIsUnique | src/monitor/reliable_alarm_collector.cpp:486-489 | There is one sorted order of a set of items with distinct identities |
| InboxRecovery.NewestWins | src/monitor/reliable_alarm_collector.cpp:483-500 | In whatever order the sort leaves ties, a key with a record newer than its others (a greater millisecond; with equal ones a greater source; with equal ones a greater byte where the ids first differ) ends with that record's number or text |
| InboxRecovery.PrecedesExactly | src/monitor/reliable_alarm_collector.cpp:486-489 | One item sorts before another exactly if the other is newer in this sense |
| InboxRecovery.LatestChangeWins | src/monitor/reliable_alarm_collector.cpp:483-500 | With frame times that are the milliseconds of the changes, a change at least a millisecond later than all others of its key is what the key ends with |
| InboxRecovery.NothingInvented | src/monitor/reliable_alarm_collector.cpp:491-500 | What a key ends with is one of its records, whole, or what it held before |
| InboxRecovery.IngestedIsUpToDate | src/monitor/reliable_alarm_collector.cpp:483-500 | All of this together, for any sorted order: newest records hold, nothing is invented, other keys stay |
| InboxRecovery.OthersStay | src/monitor/reliable_alarm_collector.cpp:491-500 | Keys without a record keep what the Store held |
| InboxRecovery.Sort | src/monitor/reliable_alarm_collector.cpp:486-489 | For any items: a permutation in which nothing stands behind something it precedes |
| ReliablePublisher.EnqueuedIsReadable | src/monitor/reliable_alarm_publisher.cpp:418-451 | A frame is made exactly for encodable records not before the epoch; it is a legal ALARM of this source and id, carries the millisecond of the change, decodes to itself, and the collector's payload check returns the record |
| ReliablePublisher.EnqueuedIsRecovered | src/monitor/reliable_alarm_collector.cpp:433-481 | What recovery reads from the file of an enqueued record: that record, its identity and the millisecond of its change |
| ReliablePublisher.AnswerMatchesItsFrame | src/monitor/reliable_alarm_collector.cpp:605-626 | The queued answer is a legal frame that survives the wire and matches exactly the frames of the identity it answers |
| ReliablePublisher.Milliseconds | src/monitor/reliable_alarm_publisher.cpp:149-159 | Whole milliseconds since the epoch, 1,000,000 nanoseconds each, exactly for times not before it |
| ReliablePublisher.RealFormatsAreLawful | src/monitor/reliable_alarm_collector.cpp:145-165 | The real envelope, payload reader and paths meet what the collector's proofs ask for |
| ReliablePublisher.Publisher.Enqueue | src/monitor/reliable_alarm_publisher.cpp:412-489 | Stored only for a frame of this record settled under the first of four ids whose file is not there; no existing file is harmed; each failure has its cause: not ready, no encoding, no id left or drawn, no room, a failed call |
| ReliablePublisher.Publisher.Offer | src/monitor/reliable_alarm_publisher.cpp:447-470 | One id: the frame is settled, or its file was there and nothing happened, or a failure with its cause |
| ReliablePublisher.Publisher.RunIteration | src/monitor/reliable_alarm_publisher.cpp:928-1057 | On any disk: without a failed call the least file is taken; a readable file disappears only after it was sent and a matching answer came back, and then it does unless a call fails; a damaged one is moved away; exactly what becomes of the data directory |
| ReliablePublisher.Publisher.Fetch | src/monitor/reliable_alarm_publisher.cpp:958-1001 | The bytes sent are those of the picked file, which can be read; a file that cannot is out of the way unless a call fails or the corrupt directory is full |
| ReliablePublisher.Publisher.Conclude | src/monitor/reliable_alarm_publisher.cpp:1001-1057 | The file is unlinked only for an answer of type 2 with source and id of the bytes sent, and then it is gone for good unless a call fails |
| ReliablePublisher.ReceiveFrame | src/monitor/reliable_alarm_publisher.cpp:735-773 | Header then payload, in any pieces, yields exactly the first frame of the stream |
| ReliablePublisher.ReceiveAll | src/monitor/reliable_alarm_publisher.cpp:704-733 | Exactly the requested bytes, or nothing if the stream ends first |
| MonitorStore.SessionIsReplay | src/monitor/monitor_store.cpp:97-217 | For every sequence of forced reports and sink answers the Store is the replay of exactly the candidates made durable |
| MonitorStore.ReplayHoldsTheLast | src/monitor/monitor_store.cpp:176-216 | A key holds its last durable candidate, or what it held at first |
| MonitorStore.RepeatIsSilent | src/monitor/monitor_store.cpp:176-183 | A value once held, reported again, commits nothing and asks nobody |
| MonitorStore.Decide | src/monitor/monitor_store.cpp:97-188 | A commit is asked for except for a value lost to an exception, a number or text equal to the stored one, and an unforced initial zero; it carries exactly the incoming data and time, as an insertion or an update, and otherwise the answer says which of these it was |
| MonitorStore.Store.Update | src/monitor/monitor_store.cpp:97-217 | For a commit, a changed number, text or kind among them, the sink is asked once with the candidate, and not at all otherwise; refusal leaves every key as it was |
| MonitorStore.Reporter.ReportError | src/monitor/monitor_reporter.cpp:68-136 | Every commit is a durable sink call with the committed record; failed and unchanged reports leave the Store alone; the Store stays the replay of the sink's log |
| ReliableReporting.Reporter.ReportError | src/monitor/monitor_reporter.cpp:103-135 | End to end with the outbox as the sink: a record becomes visible only with a settled new outbox file from which decoder and payload check read exactly that record; unchanged exactly if the key holds this number, and then the disk is left alone |
| MonitorStore.Enriched | src/monitor/monitor_reporter.cpp:151-171 | A registered error fixes the level and, unless empty, the description; nothing else changes |
| AlarmStreamDecoder.ChunkingIrrelevant | src/monitor/alarm_stream_decoder.cpp:42-160 | Frames and final state depend on the bytes, not on where the feeds cut them |
| AlarmStreamDecoder.ParseConcat | src/monitor/alarm_stream_decoder.cpp:42-160 | Parsing a prefix and resuming with the remainder is parsing the whole |
| AlarmStreamDecoder.EndsBetweenFrames | src/monitor/alarm_stream_decoder.cpp:162-184 | A stream ends between frames if and only if it is the encodings of its frames |
| AlarmStreamDecoder.CompleteStreams | src/monitor/alarm_stream_decoder.cpp:167-172 | A complete stream is exactly the encodings of the frames delivered, all legal |
| AlarmStreamDecoder.EncodedStreams | src/monitor/alarm_stream_decoder.cpp:130-151 | Every concatenation of encodings is delivered completely, frame for frame |
| AlarmStreamDecoder.BufferBounded | src/monitor/alarm_stream_decoder.cpp:64-128 | What waits is less than one frame, below 4144 bytes, and parses to itself |
| AlarmStreamDecoder.EightFramesPerRead | src/monitor/reliable_alarm_collector.cpp:50-57 | A read of 384 bytes never completes a ninth frame |
| AlarmStreamDecoder.WireLawful | src/monitor/alarm_protocol.cpp:170-313 | The real envelope satisfies the laws the stream proofs use |
| AlarmStreamDecoder.Decoder.Feed | src/monitor/alarm_stream_decoder.cpp:42-160 | The decoder delivers exactly the frames the new bytes complete and stays the parse of everything fed; the first error is final |
| AlarmStreamDecoder.Decoder.Finish | src/monitor/alarm_stream_decoder.cpp:162-184 | Success exactly when the stream fed is the encodings of the frames delivered; otherwise failed, with the code's two reasons |
| AlarmStreamDecoder.Decoder.Reset | src/monitor/alarm_stream_decoder.cpp:186-193 | A fresh stream |
| AlarmProtocol.DecodeEncode | src/monitor/alarm_protocol.cpp:226-313 | Every legal frame decodes from its encoding |
| AlarmProtocol.EncodeDecode | src/monitor/alarm_protocol.cpp:272-313 | Every accepted byte string is the encoding of what it decodes to |
| AlarmProtocol.EncodeInjective | src/monitor/alarm_protocol.cpp:226-270 | Different legal frames have different encodings |
| AlarmProtocol.SingleByteCaught | src/monitor/alarm_protocol.cpp:272-292 | Changing one byte of an accepted frame makes decoding fail |
| AlarmProtocol.DamageCaught | src/monitor/alarm_protocol.cpp:272-292 | So does any length-preserving damage that lies wholly in the CRC field, or wholly inside 32 consecutive covered bits at any bit offset |
| AlarmProtocol.EncodeFrame | src/monitor/alarm_protocol.cpp:226-270 | The buffer filled in place is the encoding, the one whose fields `WireLayout` names |
| AlarmProtocol.ComputeFrameCrc | src/monitor/alarm_protocol.cpp:112-118 | The CRC in two parts is the checksum (the one of `CrcRemainder.ChecksumIsRemainder`) of header front and payload together |
| CrcRemainder.ChecksumIsRemainder | src/monitor/alarm_protocol.cpp:10-118 | A number is the checksum of a message exactly if the message as transmitted, low bit first, its first 32 bits complemented, followed by the complement of the number, is a multiple of x^32+x^26+x^23+x^22+x^16+x^12+x^11+x^10+x^8+x^7+x^5+x^4+x^2+x+1 over two elements |
| CrcRemainder.RegisterIsRemainder | src/monitor/alarm_protocol.cpp:89-102 | The register is the remainder of the bits fed to it, under this polynomial |
| CrcRemainder.PolynomialIsGenerator | src/monitor/alarm_protocol.cpp:10-11 | The code's constant has exactly the bits of this polynomial, mirrored |
| WireLayout.LegalExactly | src/monitor/alarm_protocol.cpp:120-139 | Types 1 to 4; type 1 has 1 to 4096 bytes of payload, the others none |
| WireLayout.FrameHead | src/monitor/alarm_protocol.cpp:226-247 | Magic, version, type, flags and payload size at bytes 0, 4, 5, 6 and 8 |
| WireLayout.FrameFields | src/monitor/alarm_protocol.cpp:249-266 | Source, message id, time, CRC and payload at bytes 12, 20, 36, 44 and 48; the CRC is that of everything else |
| WireVerdicts.FrameVerdict | src/monitor/alarm_protocol.cpp:170-313 | For every byte string: it is refused with the status of the first of ten tests, each on the bytes of one field, that it fails, and accepted if it passes all |
| AlarmProtocol.FrameSize | src/monitor/alarm_protocol.cpp:170-224 | An announced size is at least the header and at most 4144 |
| AlarmProtocol.Encode | src/monitor/alarm_protocol.cpp:226-270 | Succeeds exactly for legal frames, with header and payload size |
| Crc32.BurstCaught | src/monitor/alarm_protocol.cpp:89-118 | Equal-length inputs that differ, but only within 32 consecutive bits at any bit offset, have different CRC-32 values |
| Crc32.UpdateIsBitwise | src/monitor/alarm_protocol.cpp:89-102 | Byte by byte with eight shifts each is the bit-serial register fed with the bits, low bit first |
| Crc32.UpdateConcat | src/monitor/alarm_protocol.cpp:112-118 | Updating in parts is updating with the concatenation |
| Crc32.ComputeUpdate | src/monitor/alarm_protocol.cpp:89-102 | The two nested loops compute the update |
| Crc32.StepIsShift | src/monitor/alarm_protocol.cpp:93-98 | On numbers, digit by digit: a bit step shifts right by one and, if a one was shifted out, adds the polynomial modulo two |
| Crc32.StepBack | src/monitor/alarm_protocol.cpp:93-98 | If two registers agree after a bit step from position m up, they agreed before it from m + 1 up and in the bit shifted out |
| MonitorWire.DecodeEncodeV2 | src/monitor/monitor_wire.cpp:296-398 | Decoding an encoded record returns it, for every int64 nanosecond time |
| MonitorWire.EncodeDecodeV2 | src/monitor/monitor_wire.cpp:355-398 | Re-encoding an accepted datagram returns the same bytes |
| MonitorWire.JoinSplit | src/monitor/monitor_wire.cpp:100-183 | Joining the split of any time returns it |
| MonitorWire.SplitJoin | src/monitor/monitor_wire.cpp:136-183 | Splitting a joined time returns its parts |
| MonitorWire.Join | src/monitor/monitor_wire.cpp:136-183 | A time is returned exactly for parts within the representable range, without intermediate overflow |
| MonitorWire.BitsBijective | src/monitor/monitor_wire.cpp:481-512 | The two's-complement helpers are inverse to each other |
| MonitorWire.EncodeDatagram | src/monitor/monitor_wire.cpp:296-353 | The vector filled in place is the encoding, or the code's error |
| MonitorWire.EncodeV2 | src/monitor/monitor_wire.cpp:296-353 | Succeeds exactly for encodable records, with a datagram of 40 to 1200 bytes |
| WireLayout.DatagramHead | src/monitor/monitor_wire.cpp:296-353 | Version, type, flags, total and header size at bytes 0, 1, 2, 4 and 6 |
| WireLayout.DatagramKey | src/monitor/monitor_wire.cpp:296-353 | The four parts of the key at bytes 8, 12, 16 and 20 |
| WireLayout.DatagramTime | src/monitor/monitor_wire.cpp:296-353 | The time as whole seconds in two's complement at byte 24 and nanoseconds below a second at byte 32 |
| WireLayout.DatagramBody | src/monitor/monitor_wire.cpp:296-353 | The two field sizes at bytes 36 and 38, the description from byte 40, then text, or number and state |
| WireVerdicts.DatagramVerdict | src/monitor/monitor_wire.cpp:355-398 | For every byte string: it is refused with the status of the first of thirteen such tests it fails, and accepted if it passes all |
| Bytes.GetPut | src/monitor/alarm_protocol.cpp:36-78 | Big-endian reading undoes writing |
| Bytes.PutGet | src/monitor/alarm_protocol.cpp:36-78 | Big-endian writing undoes reading |
| Bytes.PutIsShift | src/monitor/alarm_protocol.cpp:36-57 | Each byte written is the shifted and masked value |
| Bytes.StoreBE | src/monitor/monitor_wire.cpp:432-469 | An integer written in place from the right, everything behind it untouched |
| DiskExecutor.CleanupAccepted | src/ftp/async_file_receiver.cpp:202-246 | In every reachable state a claimed cleanup task is accepted: terminate is never called |
| DiskExecutor.RefusedOnlyWhenNotRunning | src/ftp/disk_executor.cpp:93-106 | A job is refused for the phase alone, never for a full queue |
| DiskExecutor.RegisteredIsServed | src/ftp/disk_executor.cpp:65-91 | The pool never stops under a registered transfer, a cancelled one has a task that will release it, an unregistered one holds no file |
| DiskExecutor.NoPostAfterRelease | src/ftp/async_file_receiver.cpp:157-200 | A result is posted only for a transfer registered before and after and not cancelled |
| DiskExecutor.OneResultPerJob | src/ftp/async_file_receiver.cpp:157-200 | In every run, as long as a transfer is not cancelled: its results and its job still at work are as many as the jobs it started |
| DiskExecutor.OpenUntilEnded | src/ftp/async_file_receiver.cpp:157-200 | In every run a transfer stays open until it is cancelled, a job fails or the final job is done |
| DiskExecutor.EndsAtConclusion | src/ftp/async_file_receiver.cpp:157-200 | The conclusion of a job ends the transfer exactly in these cases, and otherwise leaves it idle |
| DiskExecutor.DrainIsBounded | src/ftp/disk_executor.cpp:40-91 | After shutdown has begun, every run has at most as many effective steps as the measure says |
| DiskExecutor.DrainNeverStalls | src/ftp/disk_executor.cpp:59-91 | While anything is registered an effective step is possible |
| DiskExecutor.DrainedAtZero | src/ftp/disk_executor.cpp:77-90 | The measure is zero exactly when nothing is registered |
| DiskExecutor.CanShutDown | src/ftp/disk_executor.cpp:40-91 | From every state short of the end the executor can be shut down completely |
| DiskExecutor.QueueHasRoom | inc/ftp/disk_executor.h:43-72 | A registered transfer that is not queued leaves the queue fewer tasks than registrations |
| DiskExecutor.NextKeepsInv | src/ftp/async_file_receiver.cpp:87-246 | Every interleaved step keeps the flag discipline, the limit of 64 and the phase conditions |
| AsyncFileSource.Source.Request | src/ftp/async_file_source.cpp:184-214 | The read is started or the callback answered at once with the code's error |
| AsyncFileSource.Source.ReadReturns | src/ftp/async_file_source.cpp:216-255 | A finished read posts exactly the requested bytes once; a failed one turns terminal with its error and no data, a cancelled one with no answer left to give |
| AsyncFileSource.Source.WorkerCloses | src/ftp/async_file_source.cpp:237-255 | The answer the closing worker carried, and nothing else, joins the queue of callbacks; nothing stays pending after the file is closed |
| AsyncFileSource.Source.Cancel | src/ftp/async_file_source.cpp:273-305 | A waiting callback is answered with cancellation; a cleanup is claimed exactly when no task is left |
| AsyncFileSource.Source.Deliver | src/ftp/async_file_source.cpp:257-271 | A callback runs once; after cancellation it sees an error and no data |
| AsyncFileSource.Source.OpenReturns | src/ftp/async_file_source.cpp:139-182 | Opened and ready, or terminal |
| AsyncFileSource.EachAnsweredOnce | src/ftp/async_file_source.cpp:184-305 | When nothing is pending any more every request has been answered exactly once |
| AsyncFileSource.FailureIsTold | src/ftp/async_file_source.cpp:216-271 | At every moment of every interleaving: a request whose read failed, if its callback has run, was told an error and given no data |
| MetadataCache.Cache.Probe | inc/ftp/metadata_cache.h:249-293 | A hit is the database's answer at that moment; it happens exactly for a present, unexpired entry of the gate's generation |
| MetadataCache.Cache.Load | inc/ftp/metadata_cache.h:295-328 | The database's answer; an admissible one is then cached under the gate's generation until a time within ten per cent of the configured one, any other drops the entry; other keys untouched |
| MetadataCache.Cache.EndWrite | inc/ftp/metadata_cache.h:163-180 | Whatever became of the write the gate moves on, or is switched off when its generation is exhausted, before it opens |
| MetadataCache.Cache.Commit | inc/ftp/metadata_cache.h:163-180 | A change of the database inside one directory keeps every servable entry faithful |
| MetadataCache.Cache.BeginWrite | inc/ftp/metadata_cache.h:163-166 | The gate is closed to probes and loads, nothing else changes |
| MetadataCache.Cache.Fill | inc/ftp/metadata_cache.h:320-325 | An entry of the gate's generation holding the database's answer keeps the cache faithful |
| MetadataCache.Cache.Drop | inc/ftp/metadata_cache.h:304-307 | Erasure and eviction of anything at any time keep the invariant |
| MetadataCache.KeysInjective | inc/ftp/metadata_cache.h:190-211 | Two different questions never share a key |
| MetadataCache.FieldReadable | inc/ftp/metadata_cache.h:190-194 | A length-prefixed field can be read off the front of any text |
| Names.DecimalInjective | inc/ftp/metadata_cache.h:190-194 | Different lengths have different decimal prefixes |
| MetadataCache.Fits | inc/ftp/metadata_cache.h:222-240 | True exactly if the whole listing fits, without passing the limit on the way |
| MetadataCache.JitteredTtl | inc/ftp/metadata_cache.h:242-247 | Within ten per cent of the configured time, and for multiples of 100 exactly the per cent drawn |
| MonitorPolicy.ContFor.Feed | src/monitor/monitor_policy.cpp:31-100 | Value and rising edge are those of the condition on the whole history: the present streak above the threshold has lasted the duration |
| MonitorPolicy.TimesPerPeriod.Feed | src/monitor/monitor_policy.cpp:137-178 | Value and rising edge are those of the condition on all events: the last of them fit the period |
| MonitorPolicy.CrowdedMeansClose | src/monitor/monitor_policy.cpp:151-168 | For times that never run backwards, the condition is that all of the last events lie within the period |
| MonitorPolicy.SmoothTrim.Feed | src/monitor/monitor_policy.cpp:208-270 | A sample counts exactly if it is the first or within the trim; the average is the floor mean of the last accepted samples; a rejected sample changes nothing |
| MonitorPolicy.SmoothTrim.Accept | src/monitor/monitor_policy.cpp:227-255 | The running sum is the sum of the window, with no underflow |
| MonitorPolicy.MeanWithin | src/monitor/monitor_policy.cpp:257-269 | The floor mean lies within minimum and maximum of the window |
| MonitorPolicy.SumFits | src/monitor/monitor_policy.cpp:227-248 | The 64-bit sum cannot overflow for windows of up to 2^32 samples |
| MonitorPolicy.RingPush | src/monitor/monitor_policy.cpp:143-158 | Writing at the head and moving on drops the oldest and appends the newest |
| MonitorPolicy.Push | src/monitor/monitor_policy.cpp:143-158 | The vector updated in place is the ring with the newest element, and its head is the oldest once full |
| MonitorPolicy.StreakIsLongest | src/monitor/monitor_policy.cpp:41-59 | A streak is the longest unbroken run at the end of the history |
| ThresholdAlarm.Alarm.Feed | src/observability/storage_monitor_runtime.cpp:30-48 | The state changes exactly when the readings asking for it since the last change span the hold duration without a break |
| ThresholdAlarm.SustainedChange | src/observability/storage_monitor_runtime.cpp:30-48 | Every reading of that span is known and on the far side of its bound |
| TimerManager.Manager.Check | src/monitor/timer_manager.cpp:244-290 | Idle, the timeout of the earliest deadline, or the firing of an overdue earliest timer; firings stay in deadline order over the whole run |
| TimerManager.Manager.Add | src/monitor/timer_manager.cpp:132-242 | Accepted exactly under the code's conditions, placed behind every deadline not later; otherwise nothing changes |
| TimerManager.Manager.Return | src/monitor/timer_manager.cpp:292-312 | A recurring timer comes back one interval after its planned time, in order; a one-shot does not |
| TimerManager.Manager.Cleanup | src/monitor/timer_manager.cpp:67-85 | The list is emptied once; firings stay as they were |
| TimerManager.Manager.FindPosition | src/monitor/timer_manager.cpp:97-113 | The one place that keeps the list sorted and stable |
| TimerManager.PopKeepsAll | src/monitor/timer_manager.cpp:264-287 | Firing the earliest timer keeps order and schedule of all firings, and every timer's count the number of its firings |
| TimerManager.AddKeepsAll | src/monitor/timer_manager.cpp:203-216 | So does an addition at any moment, during callbacks too |
| TimerManager.ReturnKeepsAll | src/monitor/timer_manager.cpp:115-131 | So does the reinsertion of a recurring timer one interval later |
| TimerManager.FiresOnSchedule | src/monitor/timer_manager.cpp:292-304 | A firing with m earlier firings of its timer is m intervals after the timer's first deadline: none is skipped, none repeated |
| TimerManager.OneShotFiresOnce | src/monitor/timer_manager.cpp:305-312 | A one-shot timer has no two firings |
| TimerManager.TimeoutUntil | src/monitor/timer_manager.cpp:25-46 | The remaining time rounded up by less than a microsecond, and zero once due |
| ObjectStore.RowsHoldUploads | src/ftp/upload_engine.cpp:92-104 | At every point of every interleaving of uploads and power losses, the hash in a file row is the digest of the announced leading part of the body uploaded for it, and the object of that name is there and is this part, or the digest function collides on the two |
| ObjectStore.RowsAreDurable | src/ftp/object_storage_engine.cpp:201-234 | Whatever a power loss leaves, the object of a row is there and unchanged |
| ObjectStore.ObjectsNamed | src/ftp/object_storage_engine.cpp:201-234 | At every point every object's name is the digest of its content |
| ObjectStore.DurableObjectsStay | src/ftp/object_storage_engine.cpp:211-234 | An object that has reached the medium is never lost and never changes, through uploads and power losses |
| ObjectStore.LinkedObjectsStay | src/ftp/object_storage_engine.cpp:213-228 | Between power losses a linked object never changes |
| ObjectStore.NextKeepsOk | src/ftp/object_storage_engine.cpp:153-234 | Every step of every upload, and a power loss, keeps file, streamed digest, objects and rows in agreement |
| ObjectStore.CanUpload | src/ftp/object_storage_engine.cpp:153-234 | From every state, in the middle of other uploads, a body can be uploaded and registered under a free name, unless an object of another size has its hash |
| ObjectStore.BrokenOffForGood | src/ftp/upload_engine.cpp:92-104 | In every run an upload that failed, or that a power loss found without its row, never gets one |
| Upload.AbsorbedIsGood | src/ftp/object_storage_engine.cpp:153-180 | Hashing each chunk after it is written keeps the register that of the leading part of the body |
| Upload.HashFile | src/ftp/object_storage_engine.cpp:88-106 | Hashing a file in reads of any length yields the digest of its content, unless a read fails |
| Upload.EveryDigestStreams | src/ftp/object_storage_engine.cpp:153-197 | For every digest function there is one streaming hasher that computes it on all contents: the law asked of the hasher excludes no digest |
| ObjectStore.Publish | src/ftp/object_storage_engine.cpp:201-234 | Unless a call fails the synced file is linked under its hash, or an object of the same size and digest is already there; nothing is overwritten |
| Upload.Intake.Finalize | src/ftp/upload_engine.cpp:92-104 | Whenever the finalizer runs, the file is exactly the announced leading bytes of the body, the streamed hash is their digest, and later bytes are still in the buffer |
| Upload.Intake.Consume | src/ftp/upload_engine.cpp:140-149 | One chunk leaves the buffer; the last one requests the finish; an error outside the receiving phase |
| Upload.Intake.Opened | src/ftp/upload_engine.cpp:128-138 | Receiving begins, or an empty body is finished at once |
| Upload.Intake.Feed | src/ftp/async_file_receiver.cpp:40-65 | Nothing while busy, else the least of remaining, available and 64 KiB, in order |
| Upload.Intake.Append | src/ftp/object_storage_engine.cpp:153-180 | The whole chunk is in the file, in pieces, and in the hash, unless a write fails, and then the intake has failed |
| Upload.Intake.OnWritten | src/ftp/async_file_receiver.cpp:266-315 | A pending finish follows the last chunk |
| Upload.Intake.RequestFinish | src/ftp/async_file_receiver.cpp:67-85 | Finish at once when idle, else after the chunk in flight |
| ObjectStore.ReadRange | src/ftp/object_storage_engine.cpp:264-285 | Exactly the requested range, from reads of any length, or nothing, which needs a failed read or a short file |

## Left out

- Sockets, poll loops, reconnection and back-off, heartbeats, DNS, signals, thread creation,
  logging, counters and command lines: replaced by nondeterministic steps or dropped.
- Symbolic links, path ownership checks and file modes of the spool: paths are those the spool
  itself made.
- Version 1 datagrams, and `MonitorStore::query`: they would only add easy members.
- Allocation failures; null pointers with a size; the stream decoder's buffer-limit branch, which
  no input reaches.
- CD lookups of the metadata cache, which follow their expiry time only; a disabled bank, which
  only asks the database; its counters.
- The hash functions: `std::hash` and SHA-256 are parameters; the latter by a register with its
  concatenation law. No claim is made about collisions.
- That the collector's live Store converges to the producer's latest value: the sender picks the
  least file name, so delivery is not in time order. Only recovery sorts by time.
- Termination of the timer check loop: a callback slower than its interval can keep it busy.
- `report_alarms` and the resource sampler around the threshold alarms.
- Wake-up pipe and callback registry of the timers: their answers are parameters of `Manager.Add`.
- Login, sign-up, SQL and the database schema.
- AlarmSpool.Spool.Store: where status queries fail the cap is stated up to the bytes of those
  entries, because the code counts nothing else; see Findings.
- ReliableCollector.Collector.RecoverInbox: where a file carries a foreign identity it names no
  one outcome, only that of some sorted order, because the code's sort leaves ties open; see
  Findings.
- PublisherInChannel.RunIterationInChannel: asks that readable files carry the identity their name
  says; sending a foreign one would be a forged frame to the channel. Enqueues of the same
  publisher while the round waits are in the three sections, not in the whole round.
- CollectorInChannel.RecoverInChannel: asks that readable files carry the identity their name
  says; a foreign one is ingested by the code under an identity the channel's inbox does not have.
- PublisherInChannel.RestartPublisher: starts from a disk between two calls of the old object; a
  crash inside a call is a step of `ReliableChannel` and a point of a spool's history
  (`SpoolRefinement.RunsAreMirrored`), but not a point of the method.
- ChannelDrain.DrainedWhenDone: says what diligent work ends in, not that a scheduler, a network
  or a disk will let it go on.
- ReliableChannel.NoLoss: for power losses of the collector it asks that every accepted entry be
  synced at that moment, because the property fails otherwise; see Findings.
- TimerManager.Manager.Add: deadlines of recurring timers are unbounded integers after the first;
  the code's clock would overflow after 292 years.
- MonitorPolicy.TimesPerPeriod.Feed: time differences are unbounded integers.
- DiskExecutor.NextKeepsInv: the tail of a finished, non-final job on its worker thread is not a
  step, as it touches nothing.
- AsyncFileSource.Source.Request: registration with the executor is its answer `accepted`; the
  registration protocol itself is `DiskExecutor`.
