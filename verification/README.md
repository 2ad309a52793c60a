# Family Beacon core: a verified model

This project models five parts of the Family Beacon core and proves what they promise. Each part is written twice
where the source changes state in place: once as values and functions, on which whole runs are reasoned about, and once
as a class whose methods have the source's own fields and loops and are proved to compute exactly those functions. What
each operation does is also stated over the fields it reads and writes, apart from the functions that compute it.

* **The offline outbox** (`Outbox*.dfy`). Queue, coalescing, eviction, expiry, sending order, budget, backoff, dead
  channels and restarts. The session manager and the transport are an `Oracle` that may answer every call differently.
  Main results: conservation of every message id over every run, with the exact condition under which the books fail;
  the discipline of one pass over its trace of calls; exactly which messages expire, are superseded, wait and why;
  exactly when one message overtakes another; how many passes empty a queue; the queue's shape; what may happen to a
  durable message.
* **The membership state machine** (`Roster*.dfy`, `Churn.dfy`). Every step of a device's roster: founding, vouches, the
  quarantine, removals, sync, labels, the server's list, storing and adopting. Signatures, digests and the reading of
  signed times are a `Platform`, about which nothing is assumed; its `readTime` stands where `Timestamps.Parse` is used.
  Main results: an invariant of every reachable roster, monotonicity and transparency of every step, provenance of every
  member back to the founder and of every recorded key to a verified vouch, the exact exceptions to the size cap and to
  the permanence of identity keys, what the churn budget bounds on any run, what any number of devices hold after any
  exchanges of syncs, how a server's revocation spreads, exactly when two removals commute, and the snapshot round trip.
* **The channel table of the Sund transport** (`Channel*.dfy`, `SundTransport.dfy`) and its in-memory counterpart
  (`Memory*.dfy`). The table's lock is released around every request, so each lock region and each request is one step
  and any number of operations interleave, over a server whose recipient keys are immutable and whose sender keys bind
  once. Requests may be lost before or after they take effect. What the table says of the server is proved true in every
  interleaving, or false after exactly certain steps. The in-memory transport is proved to be an at-least-once
  queue over every run.
* **Calendar arithmetic and timestamp text** (`Calendar.dfy`, `*Timestamps.dfy`, `Rfc3339.dfy`, `Envelope.dfy`). The two
  day conversions are inverse to each other on all integers and all Gregorian dates, with the source's truncating
  division written out. The timestamps of section 5.6 of RFC 3339 are a grammar with its own meaning; writer, reader
  and the envelope's shape check are each tied to it, and what the reader takes beyond it is set out exactly.
* **Encodings that must be unambiguous** (`Canonical*.dfy`, `JsonReader.dfy`, `Identity.dfy`, `RequestSigning.dfy`,
  `ServerAddress.dfy`, `Address*.dfy`, `Hex.dfy`, `Decimals.dfy`). Canonical JSON, which a reader of JSON's own grammar
  reads back as what was handed in; signing domains; the request signing string; and server addresses, with the grammar
  of exactly the texts that are read.

`dafny verify dfyconfig.toml` checks everything.

## Where the code and what is said of it part ways

Each of these is a theorem below; the model keeps the code's behaviour.

* A drain that sends a message and later in the same pass finds its channel dead reports the message both sent and
  dropped, because the purge of a dead channel passes over what was dropped but not over what was sent
  (`core/sund-client/src/outbox.rs:646-660`). This is the only way the books fail (`OutboxRuns.ConservedExactlyWhen`);
  no transport can bring it about exactly when a pass visits no two messages of one channel
  (`OutboxAccepting.NeverTwiceExactlyWhen`), and two messages are enough (`OutboxWitness.ReachableCountedTwice`).
* A channel is not first-in first-out with urgency as the one exception: a message is also overtaken while it is backed
  off, when its session refuses it, and by one queued after the clock was set back
  (`OutboxReports.OvertakenExactlyWhen`, `OutboxWitness.BackedOffIsOvertaken`, `OutboxWitness.RefusedIsOvertaken`,
  `OutboxWitness.ClockSetBackOvertakes`). On runs whose clock goes forward on each channel the last cannot happen
  (`OutboxFifo.RunsKeepOrder`).
* The wait before a retry starts at a minute, not half of one, since the attempt is counted before the wait is computed
  (`OutboxOutcomes.BackoffSchedule`).
* Approving a held vouch looks again at the introducer, but not at the size cap or at an identity key recorded since
  (`RosterProvenance.CapBrokenExactlyWhen`, `RosterProvenance.KeyChangesExactlyWhen`), and a founded family can come to
  both (`RosterWitness.CapIsBroken`, `RosterWitness.KeyIsChanged`); its second look at the tombstone can never find one
  (`RosterInvariants.ApprovalNeverMeetsTombstone`).
* A device the server revoked has no tombstone at the device that saw the revocation, but that device's next sync
  leaves one at each receiver that knows the device and has something to merge, not at one that saw the same
  (`RosterRevocation.RevocationSpreadsExactlyWhen`, `RosterRevocationWitness.RevocationBuries`).
* The churn budget counts by the time an event was signed. On any run whose clock goes forward at most five of the
  vouches of one introducer taken without asking in a day of that clock were signed within that day
  (`RosterBudget.FreshBounded`); but one signed with an older time spends none of it
  (`ChurnBudget.BudgetSpentExactlyWhen`), so all together stay within five exactly when the older ones fit into what is
  left (`RosterBudget.WithinFiveExactlyWhen`), and a founder can fill its family, nineteen admissions at one moment, with
  nothing on its count (`RosterBudgetWitness.FounderGathers`).
* Removals do not always commute: one that buries the signer of another sets that one aside if it comes first, and of two
  removals of one device the second is set aside before its epoch is read (`RosterOrder.OrderShowsExactlyWhen`,
  `RosterCommute.SameSubjectEpoch`). A member is lost or kept, and an epoch is one or two, by the order of arrival
  (`RosterOrderWitness.MemberLostOrKept`, `RosterOrderWitness.EpochTells`).
* A vouch this device hands out may be refused by every receiver: three rules are checked on receipt only
  (`RosterVouching.VouchAcceptedExactlyWhen`).
* Attaching the same sender id with another seed during a first send leaves a queue marked bound that the server has
  bound to the other key (`ChannelInterleaving.ReattachMisleads`); exactly such a step makes the table's marks untrue
  (`ChannelFailures.MisledExactlyWhen`).
* A rotation retires the old queue before it makes the new one: cut short in between, it leaves a live channel whose
  record names a queue that is gone (`ChannelFailures.CutShortStrands`).
* Acknowledging during a subscription of the in-memory transport makes it pass over a message that is still pending
  (`MemoryDelivery.AckShiftsCursor`).
* An instant after the year 9999 is written but cannot be read (`Rfc3339.TimestampRoundTrip`); the reader takes texts
  the envelope refuses, and more than its comment says: signs inside the fields, small letters, a dot with no digits,
  any ASCII character inside an offset (`LaxTimestamps.ReadExactlyWhen`, `LaxTimestamps.GrammarExactlyWhen`,
  `LaxTimestamps.SignsAreRead`).
* A field of a signed request that holds a line end makes the signing string that of another request as well
  (`RequestSigning.UnambiguousExactlyWhen`).
* The text of a WebPKI address on port 443 whose host ends in white space does not read back
  (`AddressRoundTrip.AddressRoundTrip`).

## Model

| member | source | states |
|---|---|---|
| OutboxObject.Outbox.constructor | core/sund-client/src/outbox.rs:377-379 | a new outbox is empty and hands out id zero first |
| OutboxObject.Outbox.PendingFor | core/sund-client/src/outbox.rs:395-397 | counts the messages of one peer |
| OutboxObject.Outbox.QueuedOn | core/sund-client/src/outbox.rs:432-436 | counts the messages of one channel |
| OutboxObject.Outbox.Position | core/sund-client/src/outbox.rs:415-420 | finds the first entry a rule is about, or that there is none |
| OutboxObject.Outbox.Enqueue | core/sund-client/src/outbox.rs:408-480 | the whole new queue, the id and what was pushed out: a twin superseded, else on a full channel the oldest non-durable entry, else a refusal that changes nothing |
| OutboxObject.Outbox.Retain | core/sund-client/src/outbox.rs:503-515 | keeps in order what the rule is not about and reports the rest in order |
| OutboxObject.Outbox.AllDue | core/sund-client/src/outbox.rs:518-520 | the indices whose backoff has passed, in queue order |
| OutboxObject.Outbox.DueNow | core/sund-client/src/outbox.rs:517-525 | the due indices sorted by urgency, age and id, cut to the budget |
| OutboxObject.Outbox.BackOff | core/sund-client/src/outbox.rs:564-566 | one more attempt and a later due time for one entry, nothing else changed |
| OutboxObject.Outbox.Attempt | core/sund-client/src/outbox.rs:534-627 | what one turn of the loop does to queue, report, id lists, failed channels and trace, in each of its eight outcomes |
| OutboxObject.Outbox.SendDue | core/sund-client/src/outbox.rs:534-627 | the sending loop over all due entries |
| OutboxObject.Outbox.DropBacklog | core/sund-client/src/outbox.rs:637-661 | the purge of one dead channel, its reason, and the deferred records it withdraws |
| OutboxObject.Outbox.DropBacklogs | core/sund-client/src/outbox.rs:629-661 | the purge of all dead channels in key order |
| OutboxObject.Outbox.Drain | core/sund-client/src/outbox.rs:491-667 | the whole new queue, the report and the calls made by a pass |
| OutboxObject.Outbox.ForgetPeer | core/sund-client/src/outbox.rs:674-690 | drops and reports exactly the peer's messages |
| OutboxObject.Outbox.Snapshot | core/sund-client/src/outbox.rs:698-719 | the one stored form that restores to this very queue |
| OutboxObject.Outbox.Restore | core/sund-client/src/outbox.rs:711-719 | restores a snapshot of this version and refuses any other |
| OutboxObject.NeedsSession | core/sund-client/src/outbox.rs:278-293 | exactly the peers with a lost or missing session, each once, in order |
| StringOrder.SortedKeys | core/sund-client/src/outbox.rs:631-635 | the keys of an ordered map, each once and ascending |
| StringOrder.SortedUnique | core/sund-client/src/outbox.rs:631-635 | the ascending list of some keys is unique, so walks of equal maps agree |
| StringOrder.LessExactlyWhen | core/sund-client/src/canonical.rs:14-16 | a key comes before another exactly if it is a proper beginning of it or has the smaller character where they first differ |
| OutboxQueue.KeptAndLost | core/sund-client/src/outbox.rs:503-515 | every retain splits the queue: no id is lost, none duplicated |
| OutboxQueue.KeptInv | core/sund-client/src/outbox.rs:674-690 | dropping entries by any rule keeps ids ordered, one entry per key and the bound per channel |
| OutboxQueue.EnqueueKeepsInv | core/sund-client/src/outbox.rs:408-480 | enqueueing keeps the same; a refusal changes nothing |
| OutboxQueue.RefusedExactlyWhen | core/sund-client/src/outbox.rs:405-462 | refused if and only if the channel is full of durable entries, none of them a twin |
| OutboxCoalescing.EnqueueEffect | core/sund-client/src/outbox.rs:408-480 | an accepted message stands last, field by field as handed in, under the id answered, not tried yet; before it the queue as it was, less the one message the answer names; a refusal changes nothing |
| OutboxCoalescing.AnswerExactly | core/sund-client/src/outbox.rs:408-462 | a twin by channel and key is superseded; without one, two hundred on the channel cost the oldest perishable entry, as expired, or are a refusal if there is none; else nothing is replaced |
| OutboxCoalescing.EveryEntryCameIn | core/sund-client/src/outbox.rs:408-690 | every entry of a reachable queue is a message once handed in, field by field but for its attempts, under the id answered then |
| OutboxCoalescing.SupersedesExactlyWhen | core/sund-client/src/outbox.rs:415-428 | after any run a message supersedes exactly when one handed in earlier with the same channel and key is still queued |
| OutboxCoalescing.SupersededIsGone | core/sund-client/src/outbox.rs:415-474 | then the answer names that message by its id, channel and peer, and it is queued no longer |
| OutboxQueue.EnqueueConserves | core/sund-client/src/outbox.rs:408-480 | the ids before with the new one are the ids after with the displaced one |
| OutboxOrder.DueExactly | core/sund-client/src/outbox.rs:518-520 | an index is listed as due once, exactly when its backoff has passed |
| OutboxOrder.SendOrderOrdered | core/sund-client/src/outbox.rs:517-525 | a pass visits distinct due entries, at most the budget, in strictly increasing (urgency, age, id) order |
| OutboxOrder.BudgetTakesTheFirst | core/sund-client/src/outbox.rs:484-490 | a due entry left out means the budget is spent on entries all ahead of it |
| OutboxOrder.OrderUnique | core/sund-client/src/outbox.rs:521-524 | the order does not depend on how the sort is carried out |
| OutboxPass.TurnFates | core/sund-client/src/outbox.rs:534-627 | each turn sends, drops or defers the entry it visits once, and no other |
| OutboxPass.TurnsFates | core/sund-client/src/outbox.rs:534-627 | the loop disposes of each id as often as it visits it |
| OutboxPass.PurgeAllEntries | core/sund-client/src/outbox.rs:629-661 | the purge takes exactly the entries of dead channels not already dropped |
| OutboxPass.PurgeAllBalances | core/sund-client/src/outbox.rs:629-661 | what the purge takes from the queue it adds to the dropped list |
| OutboxConservation.SweepAccount | core/sund-client/src/outbox.rs:663-665 | the final sweep takes each id sent or dropped, except those the purge took first |
| OutboxConservation.DrainConserves | core/sund-client/src/outbox.rs:491-667 | per drain and id: queued before equals queued, sent and dropped after, less one double count for each send buried later in the pass |
| OutboxDiscipline.SendDiscipline | core/sund-client/src/outbox.rs:491-627 | calls are made only for unexpired due entries in order within the budget; only frames sealed just before for the same entry are posted; after a failed send a channel is left alone; the failure table is true |
| OutboxExpiry.CallsAreTimely | core/sund-client/src/outbox.rs:503-627 | every call of a pass is for an entry of the queue that is due and has no expiry or one still to come, with that entry's own peer and text, channel, urgency and hold time |
| OutboxExpiry.ExpiredIsDropped | core/sund-client/src/outbox.rs:488-515 | a message whose expiry has come is reported as expired, is queued no longer, and no call is made for it |
| OutboxExpiry.ExpiredExactlyWhen | core/sund-client/src/outbox.rs:503-515 | a drain reports as expired exactly the messages of the queue whose expiry has come |
| OutboxOutcomes.SurvivorsBackedOff | core/sund-client/src/outbox.rs:547-627 | whatever is still queued was not attempted and is unchanged, or has one more attempt and its new wait |
| OutboxOutcomes.BackoffSchedule | core/sund-client/src/outbox.rs:76-89 | the waits are 30, 60, 120, 240, 480 and then 900 seconds; an entry backed off waits from 60 to 900 |
| OutboxReports.SentReportExact | core/sund-client/src/outbox.rs:574-585 | the sent report lists, in order, exactly the posts the transport accepted, with their message ids and how long each was queued |
| OutboxReports.CountedTwiceExactlyWhen | core/sund-client/src/outbox.rs:646-660 | some entry is reported sent and dropped if and only if a channel dies in the pass after accepting a send |
| OutboxReports.AheadIsSentExactlyWhen | core/sund-client/src/outbox.rs:517-627 | what comes before a sent message of its channel in the order of sending is sent too if and only if it is due and its session does not refuse it |
| OutboxReports.OvertakenExactlyWhen | core/sund-client/src/outbox.rs:361-627 | of two messages on a channel the one queued later goes out without the earlier one ahead of it if and only if the earlier is backed off or refused by its session, or the later is urgent and the earlier not, or the clock was set back in between |
| OutboxFifo.RunInOrder | core/sund-client/src/outbox.rs:408-719 | on every run whose clock goes forward per channel, ids and enqueue times agree on each channel |
| OutboxFifo.RunsKeepOrder | core/sund-client/src/outbox.rs:361-627 | on such runs, of two messages of equal urgency on a channel, the one queued later goes out without the other ahead of it if and only if that one is backed off or refused by its session |
| OutboxReports.DeferredStillQueued | core/sund-client/src/outbox.rs:534-665 | a message reported as waiting is still queued |
| OutboxLedger.DroppedReasonsExact | core/sund-client/src/outbox.rs:503-661 | each drop reported is of an expired message, those first, or has the reason the transport gave in that pass for its channel; and each answer that kills a channel is reported on |
| OutboxLedger.DeferredTellsTruth | core/sund-client/src/outbox.rs:534-665 | a message reported as waiting is queued under that id, for that channel and peer, after that many attempts |
| OutboxDeferrals.DeferredReasonsExact | core/sund-client/src/outbox.rs:534-627 | each message reported as waiting has its reason from an answer of the pass: to itself, or to one before it that shut its channel |
| OutboxDeferrals.RefusalsReported | core/sund-client/src/outbox.rs:547-627 | each answer that keeps a message waiting is reported with its own reason, unless the message is reported as dropped |
| OutboxForget.ForgetEffect | core/sund-client/src/outbox.rs:674-690 | forgetting a peer takes out and reports exactly the messages for it and leaves the rest in order |
| OutboxForget.RestoredExactlyWhen | core/sund-client/src/outbox.rs:711-719 | a stored queue is taken over exactly if its version is one |
| OutboxRuns.ReachableInv | core/sund-client/src/outbox.rs:408-690 | in every reachable state ids ascend below the next one, no channel holds over 200 entries, no two entries of a channel share a key |
| OutboxRuns.RunConserves | core/sund-client/src/outbox.rs:408-719 | over any run, restarts included, each id handed out is queued, sent or dropped once in all, plus once per drain that buried its send |
| OutboxRuns.ConservedExactlyWhen | core/sund-client/src/outbox.rs:408-719 | every id is accounted for once if and only if in no drain a channel dies after accepting a send |
| OutboxRuns.DurableDrain | core/sund-client/src/outbox.rs:491-667 | a durable message leaves in a drain only sent, or with its channel retired or unknown |
| OutboxRuns.DurableLeavesOnly | core/sund-client/src/outbox.rs:408-690 | a durable message without a key is never pushed out: it goes by being sent, by its channel dying, or with its peer |
| OutboxAccepting.NeverTwiceExactlyWhen | core/sund-client/src/outbox.rs:517-660 | no transport can have a drain count a message twice if and only if the pass visits no two messages of one channel |
| OutboxAccepting.TwiceReported | core/sund-client/src/outbox.rs:574-665 | what is counted twice is in the report once as sent and once as dropped, and no longer queued |
| OutboxAccepting.DrainTakesBudget | core/sund-client/src/outbox.rs:484-667 | a transport that accepts everything leaves a due queue shorter by the budget, or empty |
| OutboxAccepting.EmptiesExactlyWhen | core/sund-client/src/outbox.rs:484-667 | repeated passes empty it exactly once passes times budget reach its length |
| OutboxWitness.ReachableCountedTwice | core/sund-client/src/outbox.rs:646-660 | two messages queued, one accepted and the next answered by retirement: one is reported sent and dropped, and the books of the run fail |
| OutboxWitness.ClockSetBackOvertakes | core/sund-client/src/outbox.rs:517-525 | a run in which the clock is set back between two messages and the second goes out while the first stays |
| OutboxWitness.BackedOffIsOvertaken | core/sund-client/src/outbox.rs:534-627 | a run in which a message backed off is overtaken by the next |
| OutboxWitness.RefusedIsOvertaken | core/sund-client/src/outbox.rs:534-627 | a run in which a message whose session refuses it is overtaken by the next |
| Churn.ChurnLog.Record | core/beacon-roster/src/churn.rs:76-84 | the signer's stamps with the clamped new one, pruned to the window; other signers untouched |
| Churn.ChurnLog.Count | core/beacon-roster/src/churn.rs:88-93 | counts the stamps inside the window |
| Churn.ChurnLog.Forget | core/beacon-roster/src/churn.rs:105-107 | removes one signer and no other |
| Churn.PrunedLogAnswersLikeHistory | core/beacon-roster/src/churn.rs:76-102 | with a clock that does not go back, count and budget are those of the whole unpruned history since the signer was forgotten |
| Churn.PruningHidesExactly | core/beacon-roster/src/churn.rs:80-93 | what pruning hides from a later question: nothing, if and only if no stamp lies between the cutoffs |
| Churn.KeptWithinWindow | core/beacon-roster/src/churn.rs:70-84 | after a record everything kept lies in the last day |
| ChurnBudget.BudgetSpentExactlyWhen | core/beacon-roster/src/roster.rs:799-828 | an admission spends its introducer's budget exactly when its vouch was signed within the last day |
| RosterBudget.StepLogs | core/beacon-roster/src/roster.rs:640-1433 | each step changes the churn log by exactly its own events: a record for an admission without approval or a removal of another, a signer forgotten for each burial |
| RosterBudget.RunLogs | core/beacon-roster/src/roster.rs:640-1433 | so the log of any run is that of the events of its steps, in order |
| RosterBudget.RunSeesAllExactlyWhen | core/beacon-roster/src/churn.rs:70-93 | after any run the count kept for a signer is the number of its events that arrived in the last day of this device's clock exactly when none of them was signed with an older time |
| RosterBudget.AdmittedExactlyWhen | core/beacon-roster/src/roster.rs:721-828 | after any run the next vouch is taken without asking exactly when it passes the rules, its subject is not active, and of its introducer's events of the last day fewer than five were signed within it |
| RosterBudget.ActiveNeverForgotten | core/beacon-roster/src/roster.rs:1393-1433 | no device that is active after a run has had its stamps forgotten in it |
| RosterBudget.FreshBounded | core/beacon-roster/src/roster.rs:799-828 | on any run whose clock goes forward, of one introducer's vouches taken without asking in the last day of that clock at most five were signed within that day |
| RosterBudget.WithinFiveExactlyWhen | core/beacon-roster/src/churn.rs:1-102 | all its vouches so taken in that day are at most five exactly when those signed with older times are no more than the others leave of five |
| RosterBudget.OldVouchesUncounted | core/beacon-roster/src/roster.rs:799-828 | vouches signed with older times, over however many days, are never held and leave their introducer's count as it was |
| RosterBudget.OldVouchTakenExactlyWhen | core/beacon-roster/src/roster.rs:721-828 | each of them is taken exactly when it passes the rules and its subject is not active |
| RosterBudgetWitness.FounderGathers | core/beacon-roster/src/roster.rs:799-828 | a run from founding in which up to nineteen vouches of one member are taken at one moment and its count stays zero |
| RosterObject.DeviceRoster.constructor | core/beacon-roster/src/roster.rs:359-391 | a founder alone, active, at epoch zero |
| RosterObject.DeviceRoster.CountActive | core/beacon-roster/src/roster.rs:502-507 | the number of active devices |
| RosterObject.DeviceRoster.ApplyTombstone | core/beacon-roster/src/roster.rs:1393-1433 | tombstone, record, churn log, quarantine, epoch and ledger after a removal |
| RosterObject.DeviceRoster.AdmitSubject | core/beacon-roster/src/roster.rs:1365-1376 | the new record and its ledger entry |
| RosterObject.DeviceRoster.CheckVouch | core/beacon-roster/src/roster.rs:727-787 | the first rule a vouch breaks, in the order the rules are checked |
| RosterObject.DeviceRoster.ReceiveVouch | core/beacon-roster/src/roster.rs:721-828 | roster, outcome and ledger after a vouch: refused, known, held or admitted |
| RosterObject.DeviceRoster.Approve | core/beacon-roster/src/roster.rs:836-903 | roster, outcome and ledger after an approval |
| RosterObject.DeviceRoster.Deny | core/beacon-roster/src/roster.rs:906-921 | the held vouch is gone and its denial shown |
| RosterObject.DeviceRoster.RemoveDevice | core/beacon-roster/src/roster.rs:640-685 | this device's own removal of another or of itself, counted only in the first case |
| RosterObject.DeviceRoster.ReceiveOwnRemoval | core/beacon-roster/src/roster.rs:1307-1363 | being told of one's own removal: recorded, epoch raised, split shown, record untouched |
| RosterObject.DeviceRoster.ReceiveRemoval | core/beacon-roster/src/roster.rs:930-1025 | roster, outcome and ledger after a removal from another device |
| RosterObject.DeviceRoster.MergeReported | core/beacon-roster/src/roster.rs:1068-1103 | what one reported device does in a merge |
| RosterObject.DeviceRoster.MergeDevices | core/beacon-roster/src/roster.rs:1064-1103 | the merge of all reported devices in order |
| RosterObject.DeviceRoster.ReceiveSyncMessage | core/beacon-roster/src/roster.rs:1042-1121 | digest, sender and equality checks, then the merge and the epoch |
| RosterObject.DeviceRoster.ReconcileServerList | core/beacon-roster/src/roster.rs:1183-1242 | findings, deactivations and ledger for the server's list |
| RosterObject.DeviceRoster.FindUnlisted | core/beacon-roster/src/roster.rs:1230-1236 | the active devices the server did not list, in id order |
| RosterObject.DeviceRoster.Relabel | core/beacon-roster/src/roster.rs:1129-1166 | labels change, each change is shown, and no other field of the record moves |
| RosterInvariants.BuriedSound | core/beacon-roster/src/roster.rs:1393-1433 | a burial keeps the invariant, grows tombstones and epoch, and shows the removal and any split |
| RosterInvariants.BurialSplitsExactlyWhen | core/beacon-roster/src/roster.rs:1393-1447 | a burial shows a split exactly for the device buried, and exactly if it has evicted this one |
| RosterInvariants.EvictionSplitsExactlyWhen | core/beacon-roster/src/roster.rs:1307-1447 | an eviction of this device shows a split exactly for its signer, and exactly if it is buried here |
| RosterInvariants.IntroduceSound | core/beacon-roster/src/roster.rs:721-828 | receiving a vouch keeps the invariant, monotonicity and transparency, in each of its outcomes |
| RosterInvariants.ApproveSound | core/beacon-roster/src/roster.rs:836-903 | so does an approval |
| RosterInvariants.ReceiveRemoveSound | core/beacon-roster/src/roster.rs:930-1025 | so does a removal received, about self or another |
| RosterInvariants.SyncSound | core/beacon-roster/src/roster.rs:1042-1121 | so does a sync |
| RosterInvariants.ReconcileAllSound | core/beacon-roster/src/roster.rs:1183-1228 | so does the server's list |
| RosterInvariants.StepSound | core/beacon-roster/src/roster.rs:572-1447 | every step keeps the invariant, forgets no tombstone, lowers no epoch, heals no split, and names whoever joins, leaves or splits off in its own ledger |
| RosterInvariants.ReachableInv | core/beacon-roster/src/roster.rs:640-1433 | in every reachable roster nothing tombstoned is active or held, tombstone epochs do not exceed the roster's, and only this device tombstones itself |
| RosterInvariants.ApprovalNeverMeetsTombstone | core/beacon-roster/src/roster.rs:869-891 | an approval never finds a tombstone for what it approves |
| RosterEffects.RemoveOwnEffect | core/beacon-roster/src/roster.rs:640-685 | an active device's removal raises the epoch by one, files a tombstone with that reason, time, signer and epoch, makes the subject inactive and not waiting, shows all that, and changes no other record; an inactive one's is refused and changes nothing |
| RosterEffects.ReceiveRemoveEffect | core/beacon-roster/src/roster.rs:930-1025 | a removal that checks out does the same under its own epoch, or is only counted if the subject is buried already; another is refused, with the reason, and changes nothing |
| RosterEffects.OwnRemovalEffect | core/beacon-roster/src/roster.rs:1307-1363 | word of this device's own removal from any signer with a record is noted with the epoch and shown, and buries no one |
| RosterEffects.FoundEffect | core/beacon-roster/src/roster.rs:359-391 | a founder is alone, active, its own introducer, at epoch zero, with nothing buried, held or counted |
| RosterEffects.RuleIsFirstFailed | core/beacon-roster/src/roster.rs:727-787 | a vouch is refused for the first of eight tests it fails, in the source's order, and not at all exactly if it passes them all |
| RosterEffects.IntroduceEffect | core/beacon-roster/src/roster.rs:721-828 | a vouch that fails changes nothing; a member's changes nothing; a newcomer's is held as it arrived after five events in the last day, and otherwise files the newcomer from it; each with its entry |
| RosterEffects.ApproveEffect | core/beacon-roster/src/roster.rs:836-903 | a held vouch leaves the quarantine and lets its subject in on what it says, unless its introducer is no longer active or the subject is buried |
| RosterEffects.DenyEffect | core/beacon-roster/src/roster.rs:906-921 | the vouch leaves the quarantine, shown as denied, and nothing else changes |
| RosterEffects.LabelsEffect | core/beacon-roster/src/roster.rs:1129-1166 | each label asked for is set, each change is written down in order, and no other part of any record moves |
| RosterEffects.SyncSays | core/beacon-roster/src/roster.rs:689-711 | a sync carries the epoch, a digest over all it carries, and id, key and state of each device in order of ids |
| RosterEffects.SyncTombstonesSay | core/beacon-roster/src/roster.rs:1085-1121 | a tombstone a sync makes is by its sender, without a time, under the larger epoch; those there before stay as they were |
| RosterEffects.SyncOutcomeExactly | core/beacon-roster/src/roster.rs:1042-1121 | a sync is refused for its digest, then for its sender, then finds nothing new, then is merged; a merge only removes the records of those it buries, drops their held vouches and notes a sender that reports this device removed |
| RosterEffects.ReconcileState | core/beacon-roster/src/roster.rs:1183-1242 | the server's list moves nothing but the state of records, and that only to removed |
| RosterLedgers.SyncWrites | core/beacon-roster/src/roster.rs:1064-1121 | a merged sync writes down exactly the strangers it reports and the devices it buries, and an epoch if it was raised; another writes nothing |
| RosterLedgers.ReconcileWrites | core/beacon-roster/src/roster.rs:1183-1242 | the server's list writes down exactly the strangers listed and the devices taken out, in the server's name |
| RosterProvenance.OnlyVouchesLetIn | core/beacon-roster/src/roster.rs:721-903 | a device becomes active only by a vouch that checks out in that step or the approval of a held one whose introducer is active |
| RosterProvenance.HeldOnlyVouched | core/beacon-roster/src/roster.rs:799-819 | a vouch enters the quarantine only after checking out, and is never altered there |
| RosterProvenance.RecordStep | core/beacon-roster/src/roster.rs:640-1447 | a step leaves the key, introducer and joining time of a record alone, or files the record field by field from the vouch that step carries, under the introducer that step names |
| RosterProvenance.RecordProvenance | core/beacon-roster/src/roster.rs:721-903 | every record of any run has the key, introducer and joining time of a record at the start, or of a vouch that verified when it arrived and that some step filed it from |
| RosterProvenance.FoundedRecords | core/beacon-roster/src/roster.rs:359-903 | in a founded family every other record, active or not, stands under the key and introducer of such a vouch |
| RosterProvenance.AdmissionExplained | core/beacon-roster/src/roster.rs:721-903 | the step that admits a device carries a vouch for it that verified against the introducer's key when it arrived, then or earlier, from an introducer active at the admission, and files the device as the vouch says |
| RosterProvenance.Provenance | core/beacon-roster/src/roster.rs:721-903 | every active device is linked to one active at the start by such admissions going strictly back in time, each naming the next as introducer on record |
| RosterProvenance.FoundedProvenance | core/beacon-roster/src/roster.rs:359-903 | in a founded family every other active device was let in by such an admission, and is linked so to the founder |
| RosterProvenance.KeyChangesExactlyWhen | core/beacon-roster/src/roster.rs:836-903 | a recorded identity key changes exactly by approving a held vouch that names another key while its introducer is active; no record disappears |
| RosterProvenance.CapBrokenExactlyWhen | core/beacon-roster/src/roster.rs:836-903 | the cap of twenty is broken exactly by approving a vouch for an inactive device when twenty are active |
| RosterProvenance.CapHolds | core/beacon-roster/src/roster.rs:54-903 | on every run that approves only below the cap a family never exceeds twenty |
| RosterWitness.CapIsBroken | core/beacon-roster/src/roster.rs:836-903 | a run from founding after which twenty-one devices are active |
| RosterWitness.KeyIsChanged | core/beacon-roster/src/roster.rs:836-903 | a run from founding whose last step changes the recorded key of an active device |
| RosterVouching.VouchAcceptedExactlyWhen | core/beacon-roster/src/roster.rs:594-623 | a vouch made here passes a like-minded receiver's rules if and only if this device is active, vouches for another, and names the key on record |
| RosterVouching.VouchedExactlyWhen | core/beacon-roster/src/roster.rs:594-623 | a vouch is made exactly for a device not buried, with a usable key, and with room for it; it names the subject as given and this roster's epoch |
| RosterSync.SyncEffect | core/beacon-roster/src/roster.rs:1042-1121 | an accepted sync sets the epoch to the maximum and leaves active exactly those who were and are not reported removed; it admits no one |
| RosterSync.SyncAcceptedExactlyWhen | core/beacon-roster/src/roster.rs:1043-1056 | accepted exactly when the digest fits and the sender is active; otherwise nothing changes |
| RosterSync.SyncDevicesReport | core/beacon-roster/src/roster.rs:699-711 | a sync reports removed exactly the known devices that are not active |
| RosterFindings.MergeReport | core/beacon-roster/src/roster.rs:1064-1120 | the outcome of a merge names exactly the reported devices neither known nor tombstoned here, and counts exactly the tombstones made |
| RosterFindings.FindingsExactly | core/beacon-roster/src/roster.rs:1183-1242 | the server's list takes out exactly those it lists as revoked; unvouched, revoked and unreachable devices are reported exactly when there are such |
| RosterFindings.MalformedOnlySubject | core/beacon-roster/src/roster.rs:540-548 | in a family founded on a usable key every recorded key is usable, and only the subject's own key can make a vouch malformed |
| RosterSync.SyncIdempotent | core/beacon-roster/src/roster.rs:1042-1121 | receiving the same sync from the same sender twice changes nothing more |
| RosterSync.SyncConverges | core/beacon-roster/src/roster.rs:689-1121 | after one exchange each way both have the maximal epoch and agree on every shared third device |
| RosterGossip.HeldIsHeard | core/beacon-roster/src/roster.rs:689-1121 | among any number of members, after any exchanges, a device has the largest epoch of those it has heard from, and holds a further device active exactly if all of those did |
| RosterGossip.HeardAlikeAgree | core/beacon-roster/src/roster.rs:689-1121 | two members that have heard from the same members agree |
| RosterGossip.RoundsConverge | core/beacon-roster/src/roster.rs:689-1121 | after all have told one and that one has told all, the whole family agrees |
| RosterSync.MergeTombstones | core/beacon-roster/src/roster.rs:1064-1103 | a merge adds exactly the tombstones of the devices known here, this one aside, that are reported removed |
| RosterSync.SyncBuriesExactlyWhen | core/beacon-roster/src/roster.rs:1042-1121 | a sync does so exactly when it is merged, and otherwise buries no one |
| RosterRevocation.RevocationSpreadsExactlyWhen | core/beacon-roster/src/roster.rs:689-1228 | after any list of the server: no tombstone here, and the next sync adds one at a receiver exactly for the devices both know, the receiver aside, that the list revokes or the sender held inactive, if the receiver takes the sender for active and is not in step with it |
| RosterRevocation.UnawareReceiverBuries | core/beacon-roster/src/roster.rs:689-1228 | a receiver that still holds the revoked device active buries it |
| RosterRevocationWitness.RevocationBuries | core/beacon-roster/src/roster.rs:689-1228 | two runs from founding between which that happens |
| RosterCommute.RemovalsCommute | core/beacon-roster/src/roster.rs:930-1025 | two removals at one time, neither about this device or the other's signer and not both about one device unburied, give the same roster in either order, churn stamps up to order |
| RosterOrder.OrderShowsExactlyWhen | core/beacon-roster/src/roster.rs:930-1025 | any two removals at one time give the same roster in either order, churn stamps up to order, if and only if they do not both check out with one burying the other's signer or both burying one device under different tombstones |
| RosterOrderWitness.MemberLostOrKept | core/beacon-roster/src/roster.rs:930-1025 | a run from founding after which a member is active or not by the order of two removals |
| RosterOrderWitness.EpochTells | core/beacon-roster/src/roster.rs:1001-1025 | a run from founding after which the epoch is one or two by the order of two removals of one device |
| RosterCommute.SameSubjectEpoch | core/beacon-roster/src/roster.rs:1001-1025 | two removals of one device agree on the epoch in both orders exactly when their epochs are equal or not news |
| RosterPersistence.MapRoundTrip | core/beacon-roster/src/roster.rs:1248-1297 | listing a map by key and filing the list again restores it exactly when every element carries its key |
| RosterPersistence.SnapshotRoundTrip | core/beacon-roster/src/roster.rs:1248-1297 | a roster survives export and import if and only if everything in it is filed under its own id |
| RosterPersistence.ReachableRoundTrip | core/beacon-roster/src/roster.rs:1248-1297 | every roster a founder can reach survives, and no other device can import it |
| RosterPersistence.AdoptSound | core/beacon-roster/src/roster.rs:411-475 | adopting well-formed lists gives a roster that satisfies the invariant, with the joiner active |
| RosterPersistence.AdoptAgrees | core/beacon-roster/src/roster.rs:411-475 | adopting a sound roster gives the same view of every other device, unless the joiner is tombstoned in it |
| RosterPersistence.RestoredExactlyWhen | core/beacon-roster/src/roster.rs:1268-1297 | a stored roster is restored exactly if its version is one and it is this device's, and the error says which it is |
| RosterPersistence.AdoptedExactlyWhen | core/beacon-roster/src/roster.rs:411-475 | a roster is adopted exactly if the vouch names this device, verifies under the introducer's usable key, and no tombstone is this device's; the joiner is filed from the vouch |
| RosterPersistence.AdoptedRecords | core/beacon-roster/src/roster.rs:411-475 | every other device and tombstone is on record as last handed over, and each record handed over is written down as joined, the joiner last |
| SundTransportObject.SundTransport.Declare | core/sund-client/src/sund_transport.rs:124-135 | stages a channel, leaving one already there as it was |
| SundTransportObject.SundTransport.LookUpLive | core/sund-client/src/sund_transport.rs:325-336 | the record, or that the channel is unknown or retired |
| SundTransportObject.SundTransport.AttachOutbound | core/sund-client/src/sund_transport.rs:148-162 | points a live channel's sends at a queue, unbound; else the error says unknown or retired |
| SundTransportObject.SundTransport.ReadForOpen | core/sund-client/src/sund_transport.rs:349-356 | the seed to create a queue under, unless there is a queue |
| SundTransportObject.SundTransport.CommitOpen | core/sund-client/src/sund_transport.rs:358-368 | records the queue if there still is none and the channel is live; else the error says unknown or retired |
| SundTransportObject.SundTransport.CommitRotation | core/sund-client/src/sund_transport.rs:215-220 | records seed and queue together on a live channel |
| SundTransportObject.SundTransport.CommitRetire | core/sund-client/src/sund_transport.rs:397-402 | marks a known channel retired, retired or not; else the error says unknown |
| SundTransportObject.SundTransport.NoteBound | core/sund-client/src/sund_transport.rs:433-441 | marks the queue bound if the channel still points at it |
| ChannelInterleaving.ServerKeepsKeys | core/sund-client/src/sund_transport.rs:190-443 | no step replaces a recipient key or a bound sender key at the server |
| ChannelEffects.LookUpEffect | core/sund-client/src/sund_transport.rs:325-336 | a channel is unknown, or retired, or may be used, and the answer says which |
| ChannelEffects.DeclareEffect | core/sund-client/src/sund_transport.rs:124-135 | a channel is staged with its seed and nothing else; one already there stays as it is |
| ChannelEffects.AttachEffect | core/sund-client/src/sund_transport.rs:148-162 | a channel in use is pointed at the peer's queue, unbound; nothing else changes |
| ChannelEffects.OpenCommitEffect | core/sund-client/src/sund_transport.rs:358-368 | the end of an open records the queue just made exactly on a channel in use without one |
| ChannelEffects.RotateCommitEffect | core/sund-client/src/sund_transport.rs:215-220 | the end of a rotation records seed and queue exactly on a channel in use |
| ChannelEffects.MarkEffect | core/sund-client/src/sund_transport.rs:433-441 | the end of a first send marks the peer's queue exactly if the record still names it |
| ChannelEffects.RetireCommitEffect | core/sund-client/src/sund_transport.rs:397-402 | the end of a retirement retires a known channel and changes nothing else of it |
| ChannelEffects.RetiredExactlyWhen | core/sund-client/src/sund_transport.rs:378-403 | a channel in use becomes retired exactly at the end of a retirement of it |
| ChannelEffects.RetiredRefusesForever | core/sund-client/src/sund_transport.rs:325-405 | from then on no request for it changes any record or begins any operation |
| ChannelEffects.OpenRun | core/sund-client/src/sund_transport.rs:348-369 | an open by itself gives a channel in use a queue made under the key of its seed |
| ChannelEffects.RotateRun | core/sund-client/src/sund_transport.rs:190-221 | a rotation by itself ends with the new seed, the queue made under its key, and the old queue retired at the server |
| ChannelEffects.RotateRunWithoutQueue | core/sund-client/src/sund_transport.rs:190-221 | and without a queue with the new seed and the queue made under its key |
| ChannelEffects.RetireRun | core/sund-client/src/sund_transport.rs:378-403 | a retirement by itself ends with the channel retired and its queue retired at the server, whether or not it was before |
| ChannelEffects.RetireRunWithoutQueue | core/sund-client/src/sund_transport.rs:378-403 | and without a queue with the channel retired and the server not asked |
| ChannelEffects.SendRun | core/sund-client/src/sund_transport.rs:405-443 | a first send by itself binds the key of the seed on record at the server and marks the record |
| ChannelEffects.SendAgainRun | core/sund-client/src/sund_transport.rs:405-443 | a later send by itself changes neither table nor server |
| ChannelEffects.LostRequest | core/sund-client/src/sund_transport.rs:190-443 | a request lost, or its answer, ends its operation with the table as it was |
| ChannelEffects.RefusedSend | core/sund-client/src/sund_transport.rs:405-432 | so does a first send the server refuses |
| ChannelInterleaving.StepOnChannel | core/sund-client/src/sund_transport.rs:124-443 | a record never disappears, a queue is replaced only by the end of a rotation, a retired channel is frozen |
| ChannelInterleaving.InboundAlwaysSound | core/sund-client/src/sund_transport.rs:124-403 | in every interleaving a recorded inbound queue was created under the public key of the seed recorded beside it |
| ChannelInterleaving.FirstOpenWins | core/sund-client/src/sund_transport.rs:348-369 | the first queue recorded stays the channel's until a rotation ends, however many opens overlap |
| ChannelInterleaving.RetiredForever | core/sund-client/src/sund_transport.rs:378-403 | retirement is one-way and freezes seed, queue and peer queue |
| ChannelInterleaving.BoundTellsTruth | core/sund-client/src/sund_transport.rs:405-443 | if no sender id is attached with two seeds, a queue marked bound has its seed's key bound at the server |
| ChannelFailures.MisledExactlyWhen | core/sund-client/src/sund_transport.rs:405-443 | a step makes true marks untrue exactly when it ends a first send whose queue is still on record with a seed whose key is not the one bound |
| ChannelFailures.TruthfulExactlyWhen | core/sund-client/src/sund_transport.rs:124-443 | in any interleaving all marks are true all along exactly when there is no such step |
| ChannelFailures.StrandedExactlyWhen | core/sund-client/src/sund_transport.rs:190-403 | a recorded queue stops being there at the server exactly when a request retires it, this device's or another's, or a rotation records one already retired |
| ChannelFailures.CutShortStrands | core/sund-client/src/sund_transport.rs:190-221 | a rotation whose second request is lost leaves the channel live with a record naming the queue it retired |
| ChannelInterleaving.ReattachMisleads | core/sund-client/src/sund_transport.rs:433-441 | attaching a sender id again during a first send breaks that |
| MemoryTransportObject.MemoryTransport.Open | core/sund-client/src/memory.rs:88-98 | opens a new channel, accepts an open one, refuses a retired one |
| MemoryTransportObject.MemoryTransport.Retire | core/sund-client/src/memory.rs:100-109 | empties and retires a known channel |
| MemoryTransportObject.MemoryTransport.Send | core/sund-client/src/memory.rs:111-132 | takes an id and appends the message, the id being used up even when refused |
| MemoryTransportObject.MemoryTransport.Subscribe | core/sund-client/src/memory.rs:134-141 | a fresh cursor exactly on a live channel |
| MemoryTransportObject.MemoryTransport.Ack | core/sund-client/src/memory.rs:143-148 | removes the named message and keeps the rest in order |
| MemoryTransportObject.MemorySubscription.NextDelivery | core/sund-client/src/memory.rs:160-173 | the message at the cursor, which then moves on; at the end nothing |
| MemoryDelivery.PendingIsOutstanding | core/sund-client/src/memory.rs:70-148 | after any run a live channel holds exactly what was accepted and not acknowledged since, in sending order |
| MemoryDelivery.ReachableIdsDistinct | core/sund-client/src/memory.rs:111-132 | the ids pending on a channel are distinct |
| MemoryDelivery.RetiredStaysEmpty | core/sund-client/src/memory.rs:70-173 | a retired channel stays retired and empty and refuses all but another retirement |
| MemoryDelivery.RetiredIsEmpty | core/sund-client/src/memory.rs:100-109 | in every reachable state a retired channel is empty |
| MemoryAnswers.Standing | core/sund-client/src/memory.rs:88-109 | after any run a channel is known exactly if it was opened, and retired exactly if it was retired after that |
| MemoryAnswers.Answers | core/sund-client/src/memory.rs:70-173 | after any run each operation fails exactly where the channel was never opened or is retired, with the error that says which; a message sent is answered with its number among all sends |
| MemoryDelivery.FreshSubscriptionRedelivers | core/sund-client/src/memory.rs:134-173 | a fresh subscription pulled to its end delivers all outstanding messages in order |
| MemoryDelivery.AckShiftsCursor | core/sund-client/src/memory.rs:143-173 | acknowledging another message passes over the one at the cursor if and only if it lay before it |
| Calendar.DaysRoundTrip | core/sund-client/src/rfc3339.rs:96-118 | every day number gives a valid Gregorian date and comes back from it |
| Calendar.CivilRoundTrip | core/sund-client/src/rfc3339.rs:96-118 | every valid date comes back from its day number |
| Calendar.OrderAgrees | core/sund-client/src/rfc3339.rs:96-103 | dates are in order exactly when their day numbers are |
| Calendar.DaysCountDays | core/sund-client/src/rfc3339.rs:96-103 | the epoch is day zero and tomorrow is the next number |
| Rfc3339.FormatRenders | core/sund-client/src/rfc3339.rs:21-38 | up to the end of 9999 the writer writes the grammar's form of the instant |
| Rfc3339.ReadsTheGrammar | core/sund-client/src/rfc3339.rs:46-93 | the reader gives every timestamp of the grammar its local time less its offset |
| Rfc3339.FourDigitYears | core/sund-client/src/rfc3339.rs:28-38 | from 1970 a day has a four-digit year exactly up to the last of 9999 |
| Rfc3339.TimestampRoundTrip | core/sund-client/src/rfc3339.rs:21-93 | writing and reading back gives the instant if and only if it is no later than the last second of 9999 |
| EnvelopeCheck.ShapeIsTheGrammar | core/beacon-protocol/src/envelope.rs:294-341 | the character-by-character shape is exactly the grammar |
| EnvelopeCheck.PastDigits | core/beacon-protocol/src/envelope.rs:321-330 | the loop steps over the longest run of digits |
| EnvelopeCheck.IsRfc3339 | core/beacon-protocol/src/envelope.rs:294-341 | accepts exactly the timestamps of the grammar |
| EnvelopeCheck.AcceptedIsRead | core/sund-client/src/rfc3339.rs:46-93 | everything the envelope accepts is read, as the instant it names |
| LaxTimestamps.ReadExactlyWhen | core/sund-client/src/rfc3339.rs:46-93 | a text is read as an instant if and only if it has the lax form with that instant: signs allowed in every field, either letter, any fraction, any ASCII character inside an offset |
| LaxTimestamps.GrammarExactlyWhen | core/sund-client/src/rfc3339.rs:40-93 | a text of that form is a timestamp of the grammar if and only if no field is signed, the letters are capital, a dot has digits and an offset a colon |
| LaxTimestamps.ReadBeyondTheGrammar | core/sund-client/src/rfc3339.rs:40-93 | so the texts read and yet refused by the envelope are exactly the others of that form |
| LaxTimestamps.SignsAreRead | core/sund-client/src/rfc3339.rs:51-71 | a text with negative hour, minute and second is read, and is no timestamp |
| EnvelopeCheck.Validate | core/beacon-protocol/src/envelope.rs:234-254 | accepted exactly when every rule holds, and refused for the first one broken |
| CanonicalProofs.RefusedExactly | core/sund-client/src/canonical.rs:73-105 | a value is refused exactly when a floating-point number occurs anywhere in it |
| CanonicalProofs.RefusalNamesAFloat | core/sund-client/src/canonical.rs:73-105 | the path named is that of the first floating-point number by index and by key, indices in brackets and keys after dots |
| CanonicalProofs.EncodeUnambiguous | core/sund-client/src/canonical.rs:64-71 | no value's text begins another's, whatever follows inside an array or object |
| CanonicalProofs.EncodeInjective | core/sund-client/src/canonical.rs:64-71 | no two values are written alike |
| JsonReader.ReadsBack | core/sund-client/src/canonical.rs:64-71 | what is written is JSON, by the grammar of RFC 8259, for the value it was written for |
| JsonReader.ValueReads | core/sund-client/src/canonical.rs:64-71 | also inside an array or object, whatever follows |
| JsonReader.CanonicalSays | core/sund-client/src/canonical.rs:64-71 | the canonical text of a document reads as its scalars, its lists item by item and its fields by name |
| CanonicalMeaning.CanonicalRefusedExactly | core/sund-client/src/canonical.rs:64-105 | a document with distinct field names is refused exactly when a floating-point number occurs in it |
| CanonicalMeaning.FieldOrderIrrelevant | core/sund-client/src/canonical.rs:64-71 | the order of fields, at any depth, changes neither the text nor a refusal |
| CanonicalMeaning.SameTextExactlyWhen | core/sund-client/src/canonical.rs:64-71 | two documents have the same text if and only if they differ only in the order of fields |
| CanonicalMeaning.KeysAscend | core/sund-client/src/canonical.rs:14-16 | in an object's text each member stands after exactly the members of smaller keys and before exactly those of larger keys, each once and ascending |
| CanonicalMeaning.CanonicalPrintable | core/sund-client/src/canonical.rs:64-71 | canonical text holds no control character |
| Identity.SigningBytesInjective | core/sund-client/src/identity.rs:81-104 | what is signed determines purpose and payload |
| Identity.SignedText | core/sund-client/src/identity.rs:81-104 | what is signed, spelled out: product, purpose and version between slashes, a NUL, and the payload |
| Identity.DomainsNotPrefixes | core/sund-client/src/identity.rs:89-95 | no purpose's domain begins another's |
| Identity.SignedAlikeExactlyWhen | core/sund-client/src/identity.rs:179-186 | two documents are signed alike if and only if purpose and content agree, the order of fields aside |
| RequestSigning.BuildSigningString | core/sund-client/src/sigauth.rs:62-80 | method, path, time, nonce and the digest in hexadecimal, one to a line |
| RequestSigning.SigningStringText | core/sund-client/src/sigauth.rs:62-80 | the signing string, spelled out over the fields of the request, with 64 digits of digest |
| RequestSigning.UnambiguousExactlyWhen | core/sund-client/src/sigauth.rs:62-80 | a request's signing string is no other's, digests aside, if and only if none of its four fields holds a line end |
| RequestSigning.RequestNeverAStatement | core/sund-client/src/sigauth.rs:62-80 | no request is signed like an identity statement about a document, whatever its method |
| RequestSigning.MethodNeverADomain | core/sund-client/src/identity.rs:89-104 | a GET, POST or PUT request is signed like no identity statement at all |
| Hex.HexValue | core/sund-client/src/address.rs:282-288 | reads exactly the sixteen lower-case digits, each as the value it is written for |
| Hex.HexTextInjective | core/sund-client/src/sigauth.rs:64-71 | two byte strings have the same hexadecimal text only if they are equal |
| ServerAddress.ParseFingerprint | core/sund-client/src/address.rs:268-280 | the filled array, or a refusal at the first pair that is not a byte |
| ServerAddress.Print | core/sund-client/src/address.rs:201-220 | the canonical text of an address |
| AddressRoundTrip.FingerprintExactlyWhen | core/sund-client/src/address.rs:268-288 | a fingerprint is read exactly from its own 64 lower-case digits |
| AddressRoundTrip.ReadableExactlyWhen | core/sund-client/src/address.rs:114-263 | an address can be read from some text if and only if its host, port and mode are of the required form |
| AddressGrammar.ReadExactlyWhen | core/sund-client/src/address.rs:114-280 | a text is read as an address exactly when, white space around it aside, it spells it: scheme in any case, host, bracketed if an IP address with brackets, port with a plus sign or leading zeros or not, and fingerprint |
| AddressGrammar.AuthorityExactlyWhen | core/sund-client/src/address.rs:225-263 | host and port are read exactly from their spellings |
| AddressGrammar.AuthorityRefusedFor | core/sund-client/src/address.rs:225-263 | an authority not read is refused for a path, query or user in it; or else for what follows its host; or else for its host |
| AddressGrammar.PinnedRefusedFor | core/sund-client/src/address.rs:131-146 | a pinned address is refused for its fingerprint exactly if it has none; or else for its authority; or else for having no port |
| AddressGrammar.WebPkiRefusedFor | core/sund-client/src/address.rs:148-161 | the other is refused for having a fingerprint; or else for its authority; or else for an IP address as its host |
| AddressGrammar.SchemeExactlyWhen | core/sund-client/src/address.rs:114-129 | without either scheme a text is no address |
| AddressGrammar.DisplayText | core/sund-client/src/address.rs:201-220 | the text of an address, spelled out |
| AddressGrammar.SpaceIs | core/sund-client/src/address.rs:115 | white space is the 25 characters Unicode has for it |
| AddressGrammar.SchemeIs | core/sund-client/src/address.rs:116-128 | a text has a scheme exactly if it begins with it but for capitals in place of small letters |
| AddressRoundTrip.SplitAuthorityOfText | core/sund-client/src/address.rs:225-263 | host and port are read back from their text, bracketed or not |
| AddressRoundTrip.AddressRoundTrip | core/sund-client/src/address.rs:114-220 | a parsed address reads back from its text if and only if it is not a WebPKI address on port 443 whose host ends in space |
| AddressRoundTrip.DisplayInjective | core/sund-client/src/address.rs:201-220 | different addresses, of one mode or two, print differently |
| AddressRoundTrip.ModesNeverAlike | core/sund-client/src/address.rs:201-220 | a pinned and a WebPKI address never print alike |
| AddressRoundTrip.NoPrefixParses | core/sund-client/src/address.rs:114-145 | a printed pinned address cut short anywhere is refused, never read in the other mode |
| AddressRoundTrip.ModeStated | core/sund-client/src/address.rs:107-160 | the mode is the scheme's, never inferred, and a fingerprint is there exactly in pinned mode |
| AddressRoundTrip.SpaceIgnored | core/sund-client/src/address.rs:115-115 | white space around an address makes no difference |
| AddressRoundTrip.SchemeCaseIgnored | core/sund-client/src/address.rs:116-128 | nor does the case of its scheme |

## Left out

* Ids, attempt counts, epochs and times are unbounded integers: overflow of the source's machine words is not modelled.
* The outbox's clock is whole seconds from 1970; a time before 1970 counts as 1970 in the source and cannot be given here.
* The Olm sessions behind `encrypt` and the network behind `send` are the oracle's answers; key bundles and the session
  store are not part of this model.
* Ed25519, SHA-256, base64 and the wording of refusals: the platform's answers are taken as given, and only the length of
  a digest is used.
* The parts of a roster's ledger entries that carry a direction, a message id and the text of a refusal.
* Signed times inside the roster are read by the platform's `readTime`, not by `Timestamps.Parse`.
* RosterCommute.RemovalsCommute: the churn stamps are compared as multisets, because their order does differ.
* RosterOrder.OrderShowsExactlyWhen: the same, and both removals are received at one time of the device's clock.
* RosterPersistence.AdoptSound: asks for well-formed lists, because adoption itself checks none of that.
* Churn.PrunedLogAnswersLikeHistory: asks for a clock that is past 1970 and does not go back; what happens otherwise is
  Churn.PruningHidesExactly.
* ChannelInterleaving.InboundAlwaysSound: restoring a stored table during a run is not one of the steps.
* ChannelInterleaving.BoundTellsTruth: one sufficient condition on a whole run; the exact one is
  ChannelFailures.TruthfulExactlyWhen.
* RosterBudget.FreshBounded: asks for a clock that is past 1970 and does not go back, like
  Churn.PrunedLogAnswersLikeHistory; approvals by the user are on no one's budget and are not counted.
* `subscribe` and `acknowledge_all` of the Sund transport: a request and a loop over its answer.
* Arrival times, time-to-live and priority in the in-memory transport, which ignores the last two.
* The reader of integers inside timestamps is never given more than four characters, so its range errors do not arise.
* Canonical text is given as characters; its UTF-8 bytes are one to one with them. Values that cannot be serialized as JSON
  are not part of this model, and how a floating-point number would be written is left open.
* Which texts are IP addresses is a parameter, of which only the characters used are assumed, and that none is empty.
* The origin URL of an address, which is `https://`, its host as printed and its port.
* JsonReader.ReadsBack: the reader takes no white space, no fractions and no halves of surrogate pairs, none of which are
  written.
* The types of messages, the decoding of an envelope from JSON and the check of its sender.
* HTTP, TLS, certificate pinning, the client's composition of these parts, consent and pairing.
