# The rfed node: deferred delivery, blobs and wire forms

`rfed` is a store-and-forward node on a Reticulum network. This project models
the parts of it that must not lose, duplicate or misdirect a message, and
proves what they promise:

- **The deferred delivery queue.** Per-subscriber buckets, pages a pull holds
  until its response is proved, copies in flight from the announce flush, and
  a database row for every entry. Operations interleave in any order and the
  process may crash and reload between any two. `DeferredQueue.dfy` is the
  object, updated in place; `QueueState.dfy` says what each operation makes of
  the queue as a value; `QueueRuns.dfy` and the modules after it prove what
  every run keeps; `QueueCalls.dfy` shows that every call on the object is a
  step of such a run, a batch one step a blob; `Effects.dfy` and
  `Selections.dfy` say bucket by bucket and entry by entry what each does.
- **The protocols over it.** The paged pull (`Pulls.dfy`, `UnprovedPages.dfy`),
  the announce flush (`Flush.dfy`), the distro hand-off (`HandOff.dfy`), the
  distro fan-out (`Distro.dfy`), the judging of distro and channel hashes
  (`Node.dfy`) and any interleaving of the paths that judge (`NodeRuns.dfy`).
  Each path says which events it makes on the queue, in order
  (`QueueTraces.dfy`), so what is proved over runs goes on holding after it.
- **The blob store** (`BlobDisk.dfy`, `BlobStore.dfy`): index, byte counter,
  eviction, and every file operation the store makes, of which a crash may cut
  off any.
- **Wire forms** (`MessagePack.dfy`, `PullResponses.dfy`, `Announces.dfy`,
  `ChannelRequests.dfy`, `DerSignature.dfy`), with MessagePack's own forms in
  `WireForms.dfy`.

`dafny verify dfyconfig.toml` checks everything.

How the model is read:

- A mutex-guarded section is one atomic step. The clock, the random source, the
  file system's time stamps and everything the transport decides (which link
  answers, which interface takes a packet, how many wakes leave) are
  parameters, so every statement holds whatever they are. No clock is assumed
  to move forward.
- The database is a map from row id to row. An inserted id is above every id
  in the table, as SQLite gives it, so a deleted last id may come again. One
  transaction is one step, and writes succeed.
- Time stamps are reals. Where the code walks a hash map, the order is left
  open: an eviction between buckets equal in length and age may pick either,
  and tickets are handed out at load in any order of buckets.
- The queue's limit is 4096 after every load; no code sets another.

Where the code does not do what one might expect, the code is modelled as it
is and the exact condition is proved: a page size of 0 (nothing forbids
configuring it) makes a pull that never ends (`Pulls.RoundProgresses`); a page
given back can leave an empty bucket (`QueueLimits.SettleLeavesEmpty`) or one
over its limit (`QueueLimits.ReturnIgnoresLimit`); pages given back in the
order they were taken stand in the wrong order
(`UnprovedPages.ReturnOrderMatters`); a blob refused for its size has emptied
the store first (`BlobStores.BlobStore.StoreWithId`). The queue's comment says
that a blob is refused only at its limit with everything held;
`QueueSafety.RefusedExactly` proves that this is so, in both directions.

## Model

| member | source | states |
|---|---|---|
| QueueRuns.StepKeepsInv | rfed/src/deferred_queue.rs:241-264 | In every reachable state, after any operation or a reload, rows and stored entries correspond one to one, tickets and row ids name one entry each, tickets are below the next one |
| QueueRuns.StepAccounts | rfed/src/deferred_queue.rs:391-807 | Every operation loses exactly the entries it evicts, drains, proves, confirms or expires, from memory and the table alike, and adds exactly the one it queues |
| QueueRuns.RunsAreSound | rfed/src/deferred_queue.rs:292-807 | A run from a state that keeps the invariant keeps it at every step |
| QueueCalls.Perform | rfed/src/deferred_queue.rs:391-807 | Every call on the queue object makes the events of its kind, steps of a run from any valid state to a valid one |
| QueueCalls.Live | rfed/src/deferred_queue.rs:292-340 | Whatever the table and the calls made after loading it, batches included, the events the calls make are those of a sound run that ends where the object stands |
| QueueTraces.LeadsIsRun | rfed/src/deferred_queue.rs:391-807 | A path's events, in order, are those of a run from the state before it to the state after |
| QueueTraces.LeadsKeepsInv | rfed/src/deferred_queue.rs:391-807 | So a path keeps the invariant |
| QueueTraces.LeadsTallies | rfed/src/deferred_queue.rs:125-138 | The outcomes counted over any offers are the change in the queue's length |
| QueueTraces.LeadsBrings | rfed/src/deferred_queue.rs:391-440 | Offers and drains bring in nothing but what is offered |
| Conservation.LoadedInv | rfed/src/deferred_queue.rs:292-340 | What is loaded from any table keeps the invariant, tickets fresh |
| Restart.ReloadGivesSurvivors | rfed/src/deferred_queue.rs:342-360 | A crash after any step of any run: the reload gives each subscriber exactly its entries not drained, confirmed, proved, evicted or expired, once each, in the order they were enqueued |
| Restart.SurvivorsExact | rfed/src/deferred_queue.rs:342-360 | The ledger's survivors: every entry born and not gone, once, in order of birth |
| Restart.LedgerAgrees | rfed/src/deferred_queue.rs:275-287 | At every step the table's rows are the survivors' rows, ids rising with birth although deleted ids come again |
| Restart.RemovedIsGone | rfed/src/deferred_queue.rs:494-807 | An entry once removed, a confirmed one included, is in no later reload |
| Restart.LedgerKept | rfed/src/deferred_queue.rs:342-360 | Every run has a ledger |
| QueueSafety.TicketNamesOneEntry | rfed/src/deferred_queue.rs:430-439 | While the process runs a ticket names one entry, whatever its row id has named since |
| QueueSafety.GoneForGood | rfed/src/deferred_queue.rs:724-753 | An entry that left is in no later state: no page, flush or settle brings it back |
| QueueSafety.ConfirmTakesTheCopied | rfed/src/deferred_queue.rs:719-753 | A confirm of a flushed copy removes that very entry or nothing, and nothing stores its ticket after |
| Conservation.ConfirmRemovesExactly | rfed/src/deferred_queue.rs:724-753 | A confirm removes the one entry the ticket names under the subscriber, from bucket or page, with its row, and says whether there was one |
| QueueSafety.NoSecondCopyInFlight | rfed/src/deferred_queue.rs:693-717 | Between two copies of one ticket there is a confirm or a release of it |
| QueueSafety.FlushMovesNothing | rfed/src/deferred_queue.rs:706-717 | Flushing changes no bucket, page or row, and copies exactly the wanted entries not in flight |
| QueueSafety.RefusedExactly | rfed/src/deferred_queue.rs:406-418 | A blob is refused exactly when the limit is reached and everything stored is in held pages |
| QueueSafety.RunBounded | rfed/src/deferred_queue.rs:506-511 | Over any run, restarts included, the queue never stands above 4096 unless loaded so, and then never grows |
| QueueSafety.StepBounded | rfed/src/deferred_queue.rs:391-440 | No step takes the queue past its limit or further past it |
| QueueSafety.HeldPagesAreSafe | rfed/src/deferred_queue.rs:773-807 | Neither eviction nor expiry takes an entry out of a held page |
| QueueSafety.FairEviction | rfed/src/deferred_queue.rs:442-462 | The victim's bucket is a longest one, oldest front entry on a tie, and at least the average of what is not held |
| QueueSafety.SmallBucketsSpared | rfed/src/deferred_queue.rs:406-418 | Over any run a bucket below the average share loses nothing to another subscriber's enqueue |
| QueueSafety.Pigeonhole | rfed/src/deferred_queue.rs:447-462 | Buckets of at most a given length hold at most that many times their number |
| QueueLimits.EnqueueKeepsLimit | rfed/src/deferred_queue.rs:399-405 | An enqueue leaves a bucket within its limit, taken as at least 1, exactly when it was within it |
| QueueLimits.ReturnIgnoresLimit | rfed/src/deferred_queue.rs:671-691 | A page given back takes its bucket over the limit exactly when the two together are over it |
| QueueLimits.OverLimitHappens | rfed/src/deferred_queue.rs:671-691 | A pull, an arrival in its place and an unproved page do take a bucket over its limit |
| QueueLimits.SettleLeavesEmpty | rfed/src/deferred_queue.rs:684-688 | A page given back leaves an empty bucket exactly when all of it was confirmed and nothing else waits |
| QueueLimits.EmptyBucketHappens | rfed/src/deferred_queue.rs:684-688 | A pull, a confirm and an unproved page do leave one |
| QueueLimits.ExpiryKeepsSurvivors | rfed/src/deferred_queue.rs:773-807 | Expiry leaves every bucket exactly its young entries in their old order, and no empty bucket |
| QueueLimits.ReportNamesEachLoss | rfed/src/deferred_queue.rs:773-807 | The expiry report names each subscriber and hash that lost entries once, with the exact count |
| Effects.OutcomeExact | rfed/src/deferred_queue.rs:398-420 | Which outcome an enqueue has: its own oldest goes exactly when the bucket is not empty and its length at the limit or over; otherwise it is queued exactly when the queue is below its own limit, refused exactly when every bucket is empty, and evicts another's when not |
| Effects.VictimExact | rfed/src/deferred_queue.rs:398-462 | The blob evicted is a bucket's front: the subscriber's own, or one of a bucket than which none is longer, and of those as long none has an older front |
| Effects.EnqueueExact | rfed/src/deferred_queue.rs:391-440 | Bucket by bucket what each outcome does: the new entry last in its subscriber's, the victim's first gone, every other as it was; the table loses the one row and gains the other |
| Effects.RoomLosesNothing | rfed/src/deferred_queue.rs:398-440 | With room in the bucket and in the queue an enqueue evicts nothing and the entry stands behind what was there |
| Effects.LengthIsRows | rfed/src/deferred_queue.rs:508-511 | What counts against the limit, held pages included, is as many as the table's rows |
| Effects.DrainExact | rfed/src/deferred_queue.rs:494-504 | A drain leaves that subscriber nothing and touches no other |
| Effects.DrainBatchExact | rfed/src/deferred_queue.rs:519-533 | A batch takes the first entries, as many as asked or all |
| Effects.DrainMatchingExact | rfed/src/deferred_queue.rs:558-592 | A matching drain takes wanted entries off the front until it has as many as asked or there are no more; of the bucket's front only the unwanted stay, and what is behind is untouched |
| Effects.TakePageExact | rfed/src/deferred_queue.rs:622-669 | A page does the same up to its count, keeps the rows, and is held under the next page id |
| Effects.SettleExact | rfed/src/deferred_queue.rs:679-691 | A page proved takes exactly its rows; unproved it stands in front of its subscriber's bucket; an unknown one does nothing |
| Effects.ConfirmExact | rfed/src/deferred_queue.rs:724-753 | A confirm takes exactly the entries of that ticket out of the subscriber's bucket and pages, and ends the flight |
| Effects.ConfirmSays | rfed/src/deferred_queue.rs:724-753 | And says whether there was one |
| Effects.ExpireExact | rfed/src/deferred_queue.rs:773-807 | Expiry leaves each bucket its entries enqueued at the threshold or later, in order, and takes exactly the rows of the others |
| Selections.FlushCopiesExact | rfed/src/deferred_queue.rs:706-717 | A flush copies what is wanted and not in flight, each entry once and in the bucket's order; with nothing in flight, all that is wanted |
| Selections.FlushAgain | rfed/src/deferred_queue.rs:706-764 | Nothing is copied a second time while in flight, and what a release lands is copied by the next flush |
| Selections.DropWantedSplits | rfed/src/deferred_queue.rs:574-582 | Taking the first wanted entries splits the bucket once: before the split only the unwanted stay, behind it everything |
| Selections.CountIsChosen | rfed/src/deferred_queue.rs:482-487 | The count is of the bucket's entries with that hash |
| Filters.ChosenExact | rfed/src/deferred_queue.rs:558-592 | A selection reads the sequence at exactly the positions admitted, each once and in order |
| Octets.LessExact | rfed/src/deferred_queue.rs:775-806 | The report's order is that of byte strings: by the first byte that differs, a prefix first |
| QueueTraces.TalliedExact | rfed/src/deferred_queue.rs:111-138 | Each of the tally's four counts is how many of the offers came out so |
| DeferredQueues.DeferredQueue.Load | rfed/src/deferred_queue.rs:292-340 | The rows read in id order, appended to their subscribers' buckets, one fresh ticket each |
| DeferredQueues.DeferredQueue.Enqueue | rfed/src/deferred_queue.rs:391-440 | The outcome is one the state allows, and the queue and table are what that outcome makes of them; which outcome and what it makes is spelled out in `Effects.OutcomeExact` and `Effects.EnqueueExact` |
| DeferredQueues.DeferredQueue.PopOldestOfFullest | rfed/src/deferred_queue.rs:447-462 | The front entry of a longest bucket, oldest on a tie, or nothing when all are empty |
| DeferredQueues.DeferredQueue.TotalLength | rfed/src/deferred_queue.rs:508-511 | The number of stored entries, held pages included |
| DeferredQueues.DeferredQueue.EnqueueAll | rfed/src/deferred_queue.rs:466-477 | Every blob is offered once, in order, and the tally counts the outcomes: queued and refused make up what was offered, the queue grew by queued less evicted, and it got nothing else |
| DeferredQueues.DeferredQueue.Drain | rfed/src/deferred_queue.rs:494-504 | The whole bucket and its rows go |
| DeferredQueues.DeferredQueue.DrainBatch | rfed/src/deferred_queue.rs:519-533 | The first entries of the bucket and their rows go |
| DeferredQueues.DeferredQueue.DrainMatching | rfed/src/deferred_queue.rs:558-592 | The first wanted entries go, the rest keeps its order |
| DeferredQueues.DeferredQueue.DrainChannelBatch | rfed/src/deferred_queue.rs:539-546 | The same for one routing hash |
| DeferredQueues.DeferredQueue.CountMatching | rfed/src/deferred_queue.rs:482-487 | How many of the bucket's entries have the routing hash |
| DeferredQueues.DeferredQueue.HasPendingMatching | rfed/src/deferred_queue.rs:607-612 | Whether the bucket has a wanted entry |
| DeferredQueues.DeferredQueue.TakePage | rfed/src/deferred_queue.rs:622-669 | The longest front of the wanted entries within count and budget, one at least, moves to a held page |
| DeferredQueues.DeferredQueue.SettlePage | rfed/src/deferred_queue.rs:679-691 | Proved, the page's rows go; unproved, its entries are back in front in their order |
| DeferredQueues.DeferredQueue.FlushCopies | rfed/src/deferred_queue.rs:706-717 | Copies of the wanted entries not in flight, in order, each once (`Selections.FlushCopiesExact`), now marked so |
| DeferredQueues.DeferredQueue.Confirm | rfed/src/deferred_queue.rs:724-753 | The ticket's entry leaves its bucket or held page with its row, and its flight ends |
| DeferredQueues.DeferredQueue.Release | rfed/src/deferred_queue.rs:759-764 | The flight ends; says whether the entry waits in its bucket |
| DeferredQueues.DeferredQueue.EvictExpired | rfed/src/deferred_queue.rs:773-807 | Old bucketed entries go with their rows; the ordered report's exact counts sum to the drop in length |
| Paging.PageTakesNext | rfed/src/deferred_queue.rs:641-649 | A page takes one entry more exactly while the count and, past the first, the budget allow |
| Paging.PageIsLargest | rfed/src/deferred_queue.rs:614-652 | A page of two or more keeps its budget and stops short only where the next entry would break it |
| Tallies.BumpOrdered | rfed/src/deferred_queue.rs:779-800 | Counting one more loss keeps the report strictly ordered |
| Tallies.OrderedCount | rfed/src/deferred_queue.rs:796-806 | In an ordered report a key stands once, with its count |
| Entries.DropWantedSelects | rfed/src/deferred_queue.rs:574-582 | Taking the first wanted entries leaves the later wanted and all the unwanted in order |
| Entries.DropWantedKeepsAll | rfed/src/deferred_queue.rs:574-582 | And loses none: what is kept and what is taken make up the bucket |
| Pulls.PullDrains | rfed/src/deferred_queue.rs:605-691 | For any page size of 1 or more, budget, cost and wanted set: pulling and proving ends within as many rounds as there are wanted entries; the pages put together are those entries in order, and nothing else moves |
| Pulls.ReachablePullDrains | rfed/src/deferred_queue.rs:605-691 | The same, round for round, from every state a run reaches |
| Pulls.RoundProgresses | rfed/src/destinations.rs:3451-3455 | A round makes progress exactly when the page size is not 0 |
| Pulls.PullAnswer | rfed/src/destinations.rs:207-255 | The answer encodes the page taken and whether more waits; only a page with entries asks for proof |
| Pulls.PullToTheEnd | rfed/src/destinations.rs:207-255 | A requester decoding and proving answers until told no more is pending has received exactly the wanted blobs, in order, and the node has forgotten them; the queue saw this pull's pages and their proofs and nothing else |
| Pulls.DrainIsProvedPage | rfed/src/deferred_queue.rs:558-592 | A matching drain is a page with budget for all, proved at once: same blobs, buckets, pages and rows |
| Pulls.BatchIsDrainOfAll | rfed/src/deferred_queue.rs:494-533 | A batch is the matching drain of everything; the full drain a batch of at least the bucket's length |
| UnprovedPages.UnprovedPagesUndo | rfed/src/deferred_queue.rs:622-691 | Pages given back last first, through anything else that does not take from the subscriber: the wanted entries are those at the start without the tickets confirmed since, followed only by later arrivals, and so are the unwanted |
| UnprovedPages.UnprovedPagesRestore | rfed/src/deferred_queue.rs:671-691 | Without arrivals or confirms, exactly as they stood |
| UnprovedPages.ReturnOrderMatters | rfed/src/deferred_queue.rs:684-688 | Two pages given back in the order taken stand swapped; only the reverse order restores |
| HandOff.UnPulledIsCount | rfed/src/handoff.rs:453-469 | The count worked out from an enqueue's outcome is the count read back after it, for every outcome |
| HandOff.RoomBelowBound | rfed/src/handoff.rs:406-408 | Below three quarters of the limit nothing is refused and no other bucket loses an entry |
| HandOff.QueueThenWake | rfed/src/handoff.rs:167-199 | Queue, then wake: queued unless refused or the lock poisoned, woken when a wake left |
| HandOff.DistroHandOff | rfed/src/handoff.rs:366-451 | A hand-off tries the push exactly at 64 un-pulled, at three quarters of the limit, by kind, or when nothing could be queued, and names exactly the bounds met; one that does not has queued its blob and is the silent hand-off the runs speak of |
| HandOff.SilentIsSound | rfed/src/handoff.rs:331-350 | Over any run a silent hand-off queued its blob and left fewer than 64 un-pulled |
| HandOff.SilenceIsBounded | rfed/src/handoff.rs:346-350 | However many silent hand-offs follow one another, they do not pile up 64 |
| Flush.FlushQueued | rfed/src/fanout.rs:197-393 | Every copy is counted once by what became of it; exactly the oversized and the not sent leave flight at once; buckets, pages and rows stand |
| Flush.FatesSum | rfed/src/fanout.rs:163-173 | The four counters add up to the copies |
| Flush.TallyExact | rfed/src/fanout.rs:197-393 | Each counter is how many copies went that way: a link is tried first whatever the size, an interface only with a destination and a packet that fits |
| Distro.DistroTable.Register | rfed/src/distro.rs:192-215 | Idempotent by pair: afterwards a device of the pair is registered, what was registered stays, and one is added only if there was none; table and rows agree |
| Distro.DistroTable.Unregister | rfed/src/distro.rs:218-233 | The pair's entries and row go, the rest stays in order |
| Distro.DistroTable.IsDistro | rfed/src/distro.rs:257-261 | Whether any device is registered for the hash |
| Distro.DistroTable.DevicesSnapshot | rfed/src/distro.rs:248-254 | The distro's devices in order |
| Distro.DevicesOfExact | rfed/src/distro.rs:248-261 | Which are exactly those registered for it, and some exactly when it is a distro |
| Distro.DevicesAreChosen | rfed/src/distro.rs:248-254 | The devices registered for it, each once and in order |
| Distro.UnregisteredIsChosen | rfed/src/distro.rs:218-233 | Unregistering keeps every other device, once and in order |
| Distro.HandedExact | rfed/src/distro.rs:625-764 | Handed off are the devices no live session takes the blob for and whose key is sound, once each in order, by the key's identity hash; the counts are of just these, of those live and of those unkeyed |
| Distro.DistroTable.RegisteredDistroHashes | rfed/src/distro.rs:267-272 | Exactly the hashes with a registered device |
| Distro.FanOut | rfed/src/distro.rs:625-764 | Pushed live, handed off and unkeyed add up to the devices, each by its own treatment; every device handed off is offered the blob once, in order, and the queue gets nothing else; queued is how many of the offers stored it |
| Distro.HandOffTo | rfed/src/distro.rs:581-598 | One device's hand-off, at once or when its live push went unproved: one offer of the blob under the device's identity hash |
| Nodes.Node.Judge | rfed/src/destinations.rs:921-929 | A distro's hash gives its registered devices, any other is a channel, a poisoned table decides nothing |
| Nodes.Node.PlanChannelFanout | rfed/src/destinations.rs:896-916 | Nobody under a distro's hash, whatever rows it has; else exactly the subscribers of the channel's rows that are not stale |
| Nodes.Node.PlanSyncDispatch | rfed/src/destinations.rs:1004-1015 | The distro's devices or exactly the channel's subscribers, never both |
| Nodes.SubscribersExact | rfed/src/destinations.rs:954-999 | A channel plan names the subscriber of every row under the channel, row by row in order, and nobody else |
| Nodes.UnexpiredIsChosen | rfed/src/subscription.rs:246-275 | Planning keeps every row but the node's own stale ones under the channel |
| Nodes.ExpiredExact | rfed/src/subscription.rs:246-275 | Whose subscribers are the expired ones |
| Nodes.RecipientsAreDevices | rfed/src/destinations.rs:883-895 | Under a distro's hash a plan's recipients are devices registered to it when it was judged |
| Nodes.Node.RunPlan | rfed/src/destinations.rs:810-860 | Run at any later time, a plan first drops what expired subscriptions had queued, then offers the blob once to each recipient handed off, in order, and does nothing else; under a distro's hash its recipients are devices registered when it was judged |
| Nodes.HandedToExact | rfed/src/destinations.rs:810-860 | The hand-offs of a plan are one to each subscriber whose delivery is not confirmed, or to each device no live session takes the blob for, in order |
| Nodes.Node.HandOffLater | rfed/src/distro.rs:581-598 | A push left unproved is handed off later: one offer more, to a recipient of the same plan |
| Nodes.Node.DropExpired | rfed/src/fanout.rs:140-160 | One drain of the channel for each expired subscription, which leaves it nothing queued there; nothing else is drained and nothing added |
| Nodes.Node.Subscribe | rfed/src/destinations.rs:3135-3182 | Accepted exactly for a 16-byte hash policy allows, under no distro and by none, and refused for the first of these that fails; adds the subscriber's one row unless it holds one |
| Nodes.Node.BackupPush | rfed/src/destinations.rs:2772-2880 | From a trusted owner every pair under no distro and by none gets its row, and no other does |
| Nodes.BackedUpOnce | rfed/src/subscription.rs:280-310 | However often a pair is pushed its row is stored once |
| Nodes.Node.BackupTick | rfed/src/destinations.rs:2091-2236 | Every backup row of an unheard owner under no distro is visited once, and no other; a visit offers every blob under the row's channel once, unless the subscriber has anything waiting; adopted are the rows with blobs or a wait |
| Nodes.VisitsExact | rfed/src/destinations.rs:2091-2236 | The visits of a row of an owner not heard, under no distro, are as many as it stands in the table, and of any other row none |
| Nodes.DeliversExact | rfed/src/destinations.rs:2091-2236 | A visit offers exactly the blobs stored under the row's channel, in order, to its subscriber, or none when something waits for it |
| Nodes.AdoptedExact | rfed/src/destinations.rs:2091-2236 | Adopted are the rows whose visit found a blob or something waiting, one a visit |
| Nodes.ChainPairsExact | rfed/src/destinations.rs:2056-2070 | The chain is extended with exactly the adopted pairs the backup node does not own |
| Nodes.ChainPairsAreChosen | rfed/src/destinations.rs:2056-2070 | One pair a row, in order |
| NodeRuns.Perform | rfed/src/destinations.rs:883-1015 | Any path, from any valid node, takes it from one state to the next by exactly that path's rule: registering and unregistering change the device table alone, subscribing and backup pushes the rows alone, publishes and sync ingests make one plan and keep the devices it was judged by, and only running a plan, handing off late and the tick touch the queue, with the plan's or the visits' events |
| NodeRuns.DoesKeepsApart | rfed/src/destinations.rs:883-1015 | By those rules whatever a path enqueues under a hash that was a distro's when judged is for a device then registered to it, and what rows it adds are under no distro now registered, and by none |
| NodeRuns.JudgedWhenMade | rfed/src/destinations.rs:921-929 | A plan kept in any life was made at an earlier step, and is judged by the devices registered at that step |
| NodeRuns.OffersFollowJudging | rfed/src/destinations.rs:810-860 | So a run of a plan, however late and whatever was registered since, offers under a distro's hash only to devices registered at the step that made it |
| NodeRuns.ChannelReached | rfed/src/destinations.rs:954-999 | Whoever had a row under a channel, not expired, when a blob was judged is offered it when the plan runs, however late, unless its delivery is confirmed |
| NodeRuns.DistroReached | rfed/src/destinations.rs:1004-1015 | Every device registered for a distro when a blob was judged is offered it when the plan runs, unless a live session takes it or its key is corrupt |
| NodeRuns.LateReached | rfed/src/distro.rs:581-598 | A late hand-off offers the blob to just the recipient it is for |
| NodeRuns.Live | rfed/src/destinations.rs:883-1015 | Over any calls in any order, from any stored rows, devices and blobs: each step does what its call's rule says from where the last one ended, keeps distro and channel apart, and the queue goes through the steps' events |
| BlobStores.BlobStore.Open | rfed/src/blob_store.rs:235-276 | On a sound disk the index is exactly the complete files with their sizes and time stamps, the counter their size, and no temporary file stays; only temporary files are removed |
| BlobStores.BlobStore.StoreWithId | rfed/src/blob_store.rs:85-146 | A new id is refused for space exactly when the blob alone exceeds the limit; stored, it is on disk and the counter within the limit; room is made by age and no more than needed; the file operations are the removals and then the temporary write and its rename |
| BlobStores.BlobStore.MakeRoom | rfed/src/blob_store.rs:103-114 | Expired blobs at most hourly, then the oldest until there is room; one removal a blob that goes, in order |
| BlobStores.BlobStore.WriteBlob | rfed/src/blob_store.rs:126-145 | Two file operations: a write of the temporary file, and its rename into place |
| BlobStores.BlobStore.Get | rfed/src/blob_store.rs:149-153 | An indexed id reads back the bytes of one completed store |
| BlobStores.BlobStore.Delete | rfed/src/blob_store.rs:169-175 | File, index and counter go together by one file removal; the subtraction never saturates |
| BlobStores.BlobStore.EvictOlderThan | rfed/src/blob_store.rs:179-195 | Exactly the blobs of known age before the cutoff, one file removal each |
| BlobStores.BlobStore.EvictToFit | rfed/src/blob_store.rs:200-227 | A minimal prefix in age order, unknown ages last, one file removal each in that order; nothing goes while an older blob of known age stays |
| BlobStores.ByAge | rfed/src/blob_store.rs:204-212 | Every id once, known ages rising, unknown last |
| BlobStores.CrashAndOpen | rfed/src/blob_store.rs:123-133 | A crash in any file operation of the store's life, a write cut off leaving any bytes or none, then open: the complete files are those from before the operation or those from after it, the index is exactly they, and each has the bytes of a completed store |
| BlobDisk.TempWriteIsAtomic | rfed/src/blob_store.rs:123-133 | A write cut off anywhere leaves the complete files as they were when what it writes is a temporary file |
| BlobDisk.WriteInPlaceIsNot | rfed/src/blob_store.rs:123-133 | Writing a blob in its own place is not atomic: cut off, it leaves bytes no store completed |
| BlobStores.CrashIsSound | rfed/src/blob_store.rs:123-133 | Of every file operation a store has made, a crash leaves the complete files from before or from after, all sound |
| BlobDisk.GoodDelete | rfed/src/blob_store.rs:169-175 | Deleting keeps index, files and counter in agreement and the history of file operations atomic, the counter at least the size deleted |
| BlobDisk.GoodWrite | rfed/src/blob_store.rs:126-145 | So does storing, by its two file operations |
| BlobDisk.MinimalPrefix | rfed/src/blob_store.rs:214-220 | An eviction that could not stop one blob earlier could not have stopped before that |
| BlobDisk.EvictionTakesOldest | rfed/src/blob_store.rs:204-220 | Of any blob evicted and any kept whose age is known: the evicted one's is known and no later |
| BlobDisk.RoomExact | rfed/src/blob_store.rs:103-114 | What fits already evicts nothing; else it fits afterwards and would not with the last evicted blob put back |
| BlobStores.UnexpiredExact | rfed/src/blob_store.rs:103-114 | The hourly look takes exactly the blobs known to be received more than 30 days ago |
| MessagePack.WriteReads | rfed/src/destinations.rs:62-68 | Reading a written value gives it back and leaves what follows |
| MessagePack.PrefixFree | rfed/src/destinations.rs:127-135 | No written message has two readings |
| WireForms.OneByteForms | rfed/src/destinations.rs:62-68 | Nil, booleans and small integers are read from the specification's single bytes |
| WireForms.IntegerForms | rfed/src/destinations.rs:62-68 | Other integers from its markers, unsigned or two's complement, most significant byte first |
| WireForms.StringForms | rfed/src/destinations.rs:62-68 | Byte strings and strings from theirs |
| WireForms.ArrayForms | rfed/src/destinations.rs:62-68 | Arrays from theirs |
| WireForms.MostSignificantFirst | rfed/src/destinations.rs:62-68 | A number's first byte weighs most |
| WireForms.ShortestForms | rfed/src/destinations.rs:192-198 | Writing takes as few bytes as any form has for the value |
| PullResponses.PullResponseRoundTrip | rfed/src/destinations.rs:257-274 | The requester decodes each entry's routing hash and blob, in order, and the flag that were encoded |
| PullResponses.ResponseOnTheWire | rfed/src/destinations.rs:257-274 | Any MessagePack reader finds the array of pairs, routing hash first, and the flag |
| PullResponses.ResponseLength | rfed/src/destinations.rs:192-198 | The response is the sum of the entries' costs and the envelope, to the byte |
| PullResponses.PageFitsOneSegment | rfed/src/destinations.rs:185-190 | A page of two or more, or of one within the budget, packs within the segment less 57 bytes |
| PullResponses.PageLeavesNoRoom | rfed/src/destinations.rs:185-190 | A page stops short only where one blob more would exceed the budget |
| Announces.NodeAnnounceRoundTrip | rfed/src/announce.rs:21-61 | Decoding an encoded announce gives its name, cost and version back |
| Announces.AnnounceOnTheWire | rfed/src/announce.rs:21-34 | Any MessagePack reader finds the name, the cost or nil, and version 1 |
| Announces.AnnounceExact | rfed/src/announce.rs:37-61 | What any payload decodes to, field by field, missing, odd and oversized ones included |
| Announces.Utf8Exact | rfed/src/announce.rs:44-48 | A name is taken exactly when its bytes encode Unicode scalar values |
| ChannelRequests.DecodeChannelStreamFilters | rfed/src/destinations.rs:127-168 | The bare hash, or the list's hashes once each, or the first thing wrong with it |
| ChannelRequests.StreamFiltersExact | rfed/src/destinations.rs:127-168 | 16 bytes are the hash itself; anything else is a list whose every item is a 16-byte hash, each kept once, or is refused for the first item that is not |
| ChannelRequests.KeepFirstExact | rfed/src/destinations.rs:162-164 | Each hash once, in the order they first came |
| ChannelRequests.FiltersRoundTrip | rfed/src/destinations.rs:127-168 | An encoded list decodes to itself without its repetitions |
| ChannelRequests.ListIsNoBareHash | rfed/src/destinations.rs:128-130 | An encoded list is never mistaken for a bare hash |
| ChannelRequests.PullRequestForms | rfed/src/destinations.rs:170-183 | Both forms name the same channel; 16 bytes are taken as they are and anything else exactly when it reads as 16 bytes of binary, else its length is reported |
| DerSignature.SignatureConverts | utilities/apns_bridge.py:203-223 | Any two numbers below 2^256 in minimal DER, under a short or long sequence header, convert to their 32-byte forms |
| DerSignature.StandardSignatureConverts | utilities/apns_bridge.py:203-223 | For the standard's own form of a signature, with or without sign padding |
| DerSignature.ContentsConvert | utilities/apns_bridge.py:203-223 | Byte by byte: a sequence, and in it twice a tag, a length and a content, whatever the contents |
| DerSignature.FixedKeepsNumber | utilities/apns_bridge.py:218-220 | Fixing a content's width keeps its number |
| DerSignature.Refusals | utilities/apns_bridge.py:203-216 | A wrong tag fails the assertion, an end too soon the index |

## Left out

- Failed database and file writes, the mode without a database (row id 0) and the legacy import: writes succeed; a failed commit in the original can make two live entries share a row id.
- Tickets at load: the load's second pass over tickets is taken as any order of buckets; the original follows its hash map's.
- Mutex poisoning, except where a path acts on it: the hand-off, and the judging of distro and channel.
- HandOff.DistroHandOff: how many wakes leave is a parameter; the notify registry, the wake's message id and the log lines are not modelled.
- Flush.FlushQueued: its two locked sections run back to back here; what other threads do between them is covered by the runs, of which each section is a step.
- Nodes.Node.RunPlan: which subscribers' deliveries are confirmed is a parameter; the tiers of the channel fan-out, link sessions and streams, are not modelled.
- Nodes.Node.Subscribe: signatures are taken as verified and renewal times are not kept; which rows are stale is a parameter of the plan.
- NodeRuns.Live: unsubscribing and pruning stale backup rows, which only take rows away, are not among the calls.
- Nodes.Node.BackupTick: whether an owner was heard is a parameter, and the wakes it collects are not modelled.
- BlobStores.BlobStore.Open: file names that are not hex, which the original skips, are not on the model's disk; on a disk with one id under two destinations, which no store leaves, the counter is not claimed to be exact.
- MessagePack.Read: maps, floats, extension types and the nesting limit of the original's reader; none occurs in the messages modelled.
- PullResponses.PullResponseRoundTrip: lengths below 2^32, as the format carries.
- Machine widths: counters are unbounded; the truncations to 32 and 8 bits in the announce decoder and to 32 bits in MessagePack headers are modelled.
- Reticulum transport, announces, receipts, proof-of-work stamps and all cryptography; the APNs and FCM bridges beyond the signature conversion.
- Conservation of backup-push pairs: the original drops them when a link never establishes.
