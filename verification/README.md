# The gossip layer, modelled and verified

This project models the stateful core of the gossip layer (`gossip/`): the message store and its
replacement policies, the alive/dead membership of the discovery service, the pull protocol, the
batching emitter, block admission and the state-info cache of a channel, the routing of batches, and
the collection of acknowledgements. `dafny verify dfyconfig.toml` checks all of it.

What the code updates in place is a class whose methods run the same loops and branches. Each method's
postcondition equates the new state with a function of the old one, and the theorems are lemmas about
those functions and about runs of them.

| file | what it covers |
|---|---|
| `Policy.dfy`, `MessageStore.dfy` | the replacement policies as an order on facts; the store with its in-place loops |
| `StoreConvergence.dfy`, `StoreLifecycle.dfy`, `StoreLives.dfy` | what any sequence of deliveries leaves; conservation over runs with purging and expiry; the life of each single entry |
| `BatchingEmitter.dfy` | the emitter, its buffer bound, and exact forwarding counts |
| `BlockAdmission.dfy`, `BlockServing.dfy`, `StateInfoCache.dfy` | at-most-once delivery in a channel; what it offers and serves to others; the index that must match its store |
| `Membership.dfy`, `Discovery.dfy`, `DiscoveryRuns.dfy`, `DiscoveryTimes.dfy`, `DiscoveryEffects.dfy` | the five maps as one view; the handlers; whole runs coupled with the alive-message store; the time on record for each peer; the exact effect of each handler on each peer |
| `PullEngine.dfy`, `PullNetwork.dfy`, `PullRound.dfy`, `PullRoundRun.dfy`, `PullDisclosure.dfy` | the pull handlers; many nodes with packets in flight; one loss-free round; that round as a run of the network; what the handlers refuse and withhold |
| `Selection.dfy`, `Routing.dfy`, `RoutingLaws.dfy`, `Audience.dfy`, `GossipBatch.dfy` | peer selection; who is sent what; what that guarantees; the audience of each message, said without the routing code; the sending loops |
| `Acks.dfy` | collecting acknowledgements and the verdict |
| `Messages.dfy`, `Sequences.dfy` | message data types with 64-bit conversions; lemmas on sequences |

Clocks, random draws, permutations, signature checks and organisation lookups are parameters: every
theorem holds for all their answers. Handlers are atomic steps.

## What the code does that its documentation does not say

- `Size` of a message store subtracts entries that expired, but does not add them back when they are
  evicted by `Add` or `Purge` instead of by age: it then stays too small for good and can be negative.
  `AddKeepsSizeExact`, `PurgeKeepsSizeExact` and `ExpiryKeepsSizeExact` say for each call when it keeps an
  exact `Size` exact; `SizeCanBeNegative` reaches -1 with three blocks and two expiry passes.
- A pulled update with one bad item (unparsable, of another channel, or failing verification) puts the new
  blocks in front of it in the store and then drops the update. `StoredIsDeliveredIffNoneIsBad`: what the
  store takes from an update is delivered exactly if no item is bad. `AbortedUpdateIsLost`: otherwise it is
  not delivered later either, until a removal; `BlockIsLost` is the smallest case.
- A block that falls out of the window, or expires, is taken from the messages the channel can serve but
  stays among the items it offers: peers ask for it and get nothing. A channel can serve all it offers
  throughout a run exactly if no step loses an offered block (`AlwaysCoveredIffNeverLoses`), and
  `PushKeepsCovered`, `PullKeepsCovered`, `OwnKeepsCovered` and `ExpiryKeepsCovered` say which calls lose one.
  `EvictedIsStillOffered` shows it after two pushes, `ExpiredIsStillOffered` after a push and an expiry pass.
  The cause is `PullMediator.Remove`, which looks up the characters of the item in a set of strings.
- A block that an update brings and pushes out again is put back at hand after the update, although it is no
  longer in the store: `PullKeepsCovered`.
- The validity check made for each item of such an update looks at the update message instead of the
  item, so it never rejects anything. `HandleDataUpdate` proves this.
- A stopped emitter still accepts messages and keeps them all: `StoppedBufferGrows`.
- Asking for zero acknowledgements waits for every peer unless the first answer is an error:
  `NoAcksAskedFor`.
- A membership response that lists the receiver among the dead gives the receiver a peer record about
  itself, and nothing else: `MayRecordItself`. The invariant of the five maps allows for it.
- `ConfigureChannel` keeps a first join message even when it then returns on the comparison of sequence
  numbers without installing its organisations.
- An alive message loses its secret envelope just before its first send out of the organisation, in
  place: later sends within the organisation then go without it. `SecretsStayHome` says exactly which sends
  carry it, `HomeSendGoesWithout` shows one that does not.

## Model

| member | source | states |
|---|---|---|
| Policy.PolicyIsOrder | gossip/msg.go:281-328 | The comparator over all message kinds is exactly an order on facts: invalidated by an equal or superseding fact, invalidates a superseded one, otherwise no action |
| Policy.BeatsIsTransitive | gossip/msg.go:516-534 | Superseding is transitive, across the sliding block window and the lexicographic times |
| Policy.SettledByMaximum | gossip/msg.go:316-328 | A fact that some known fact equals or supersedes is equalled or superseded by an unsuperseded one |
| Policy.MaximaAbsorb | gossip/msg.go:68-86 | Taking in facts one at a time computes the maxima of all facts taken in |
| Policy.AbsorbKeepsSettled | gossip/msg.go:68-86 | What is turned away once stays turned away whatever arrives later |
| Policy.AbsorbSettles | gossip/msg.go:68-86 | After taking in a fact, what is turned away is exactly what that fact and the earlier ones equal or supersede |
| MessageStores.Reach | gossip/msg.go:68-86 | The number of entries examined: no entry before it invalidates the message, the one at it does |
| MessageStores.MessageStore.Add | gossip/msg.go:68-86 | The loop that deletes while walking ends with the entries, result and trigger calls of the specification: superseded entries in front of the first invalidating one leave, and the message is appended if there is none |
| MessageStores.MessageStore.CheckValid | gossip/msg.go:88-97 | True exactly if no stored message invalidates the given one |
| MessageStores.MessageStore.Get | gossip/msg.go:105-115 | The unexpired messages in order |
| MessageStores.MessageStore.IsPurgeNeeded | gossip/msg.go:192-201 | True exactly if some entry is to be purged |
| MessageStores.MessageStore.Purge | gossip/msg.go:117-136 | Deletes exactly the entries asked for, keeps the order of the others, and calls the trigger for each deleted one |
| MessageStores.MessageStore.ExpireMessages | gossip/msg.go:167-190 | Entries older than the time to live are marked and called back, marked ones older than twice that are removed, and the expired count follows |
| StoreConvergence.AddAgreesWithCheckValid | gossip/msg.go:68-97 | For every policy, Add returns true exactly when CheckValid does on the state before it |
| StoreConvergence.AcceptsIffUnsettled | gossip/msg.go:88-97 | A message is accepted exactly if the store has no equal or superseding fact; for blocks: new and not more than the window below any stored number |
| StoreConvergence.RejectedAddChangesNothing | gossip/msg.go:68-86 | A rejected Add has deleted nothing and called no trigger, although the loop deletes as it goes |
| StoreConvergence.AcceptedAdd | gossip/msg.go:68-86 | An accepted Add removes exactly the superseded entries, keeps the order of the others, and appends the new message last |
| StoreConvergence.AddKeepsCompatible | gossip/msg.go:68-86 | Add keeps the invariant that no two entries invalidate each other |
| StoreConvergence.AddAbsorbs | gossip/msg.go:68-86 | One Add refines one step of the abstract window and register set |
| StoreConvergence.DeliveryKeepsMaxima | gossip/msg.go:68-86 | After any deliveries the store's facts are exactly the maxima of the facts delivered |
| StoreConvergence.OrderDoesNotMatter | gossip/msg.go:68-86 | Delivering the same messages in another order or more often leaves the same facts |
| StoreConvergence.BlockWindow | gossip/msg.go:316-328 | A delivered block number s is left exactly if s + k is at least every delivered number |
| StoreConvergence.WindowIsSize | gossip/msg.go:316-328 | The window is the configured size, for every nonnegative size |
| StoreConvergence.WindowBoundsBlocks | gossip/msg.go:316-328 | At most k + 1 blocks fit in a store whose entries tolerate each other; RunsAreCompatible shows that every reachable store is one |
| StoreConvergence.OneEntryPerRegister | gossip/msg.go:302-307 | At most one entry for each peer and kind |
| StoreConvergence.LastWriterWins | gossip/msg.go:502-527 | For each peer and kind heard of, the entry left was delivered and no delivered time is later |
| StoreLifecycle.LifecycleLaws | gossip/msg.go:68-190 | Over every run and entry: added = stored + evicted + removed; called back = expired and stored + expired and evicted + removed; expired count = expired stored + expired evicted |
| StoreLifecycle.StepConserves | gossip/msg.go:68-190 | Each of Add, Purge and the expiry pass keeps the three conservation laws |
| StoreLifecycle.CallbackPrecedesRemoval | gossip/msg.go:167-190 | Counting together the entries with one message and creation time: called back at most as often as added and at least as often as removed |
| StoreLifecycle.SizeIsUnexpiredCount | gossip/msg.go:99-103 | Size is the unexpired count less the evictions of expired entries, so it is right exactly if there were none |
| StoreLifecycle.SizeAfterPurgingAll | gossip/msg.go:99-136 | Purging everything leaves a negative Size exactly if some entry was evicted while expired |
| StoreLifecycle.AddKeepsSizeExact | gossip/msg.go:68-103 | An Add keeps an exact Size exact if and only if it supersedes no expired entry |
| StoreLifecycle.PurgeKeepsSizeExact | gossip/msg.go:99-136 | A Purge keeps an exact Size exact if and only if it purges no expired entry |
| StoreLifecycle.ExpiryKeepsSizeExact | gossip/msg.go:167-190 | An expiry pass keeps an exact Size exact |
| StoreLifecycle.SizeOfStore | gossip/msg.go:99-103 | Size of a store in the state a run has left is the unexpired count less the evictions of expired entries |
| StoreLifecycle.SweepExactly | gossip/msg.go:167-190 | Called back are exactly the unmarked entries older than the time to live, removed exactly the marked ones older than twice that; the rest stays |
| StoreLifecycle.SizeCanBeNegative | gossip/msg.go:68-103 | With window 0 and a clock that moves forward, adding three blocks with an expiry pass after each of the first two leaves one entry and a Size of -1 |
| StoreLifecycle.RunsAreCompatible | gossip/msg.go:68-190 | In every run with adds, purges and expiry the entries tolerate each other |
| StoreLifecycle.BlocksFitWindow | gossip/msg.go:316-328 | In every run of a block store with window k at most k + 1 blocks are stored |
| StoreLives.NumbersAreGhosts | gossip/msg.go:68-190 | Numbering the entries in order of addition does not influence what is stored, evicted, called back or removed |
| StoreLives.EveryEntryLivesOnce | gossip/msg.go:68-190 | In every run each single entry added is in exactly one of stored, evicted and removed, and was called back once or never as its mark says |
| StoreLives.CalledBackOncePerEntry | gossip/msg.go:167-190 | In every run each single entry is called back at most once, and once if it was removed |
| BatchingEmitters.BatchingEmitter.Add | gossip/channel.go:876-886 | New buffer and callbacks are those of the specification, with emission at the burst size |
| BatchingEmitters.BatchingEmitter.Emit | gossip/channel.go:908-930 | The callback gets the buffer in arrival order, then the in-place loop ages it |
| BatchingEmitters.BatchingEmitter.AgeBuffer | gossip/channel.go:919-929 | Every counter drops by one and exactly those that run out are deleted |
| BatchingEmitters.AgedAt | gossip/channel.go:919-929 | On a buffer with nondecreasing counters what is deleted is a prefix |
| BatchingEmitters.StepKeepsInvariant | gossip/channel.go:876-930 | Each step keeps counters nondecreasing, and from position B - 1 on keeps the entry with n - 1 behind it emitted n times |
| BatchingEmitters.BufferBound | gossip/channel.go:876-930 | After any run without a stop the buffer holds at most B + T - 2 messages |
| BatchingEmitters.AddCallsWhenFull | gossip/channel.go:876-886 | An addition calls back exactly when it fills the buffer to the burst size, once and with everything in it; with zero iterations nothing happens |
| BatchingEmitters.TickCallsUnlessEmpty | gossip/channel.go:899-917 | A timer tick calls back exactly if the buffer is not empty |
| BatchingEmitters.StoppedBufferGrows | gossip/channel.go:876-930 | After a stop every added message stays and nobody is called, whatever ticks and stops follow |
| BatchingEmitters.ForwardedExactly | gossip/channel.go:876-930 | In every run: emissions seen + left = T for each message, messages leave as a prefix after exactly T emissions, and each callback gets a stretch of the accepted messages in order |
| BatchingEmitters.TicksDrain | gossip/channel.go:899-930 | As many timer ticks as the largest counter empty the buffer |
| BlockAdmission.GossipChannel.HandleDataMsg | gossip/channel.go:446-470 | Store, deliveries, forwarded messages and pull engine change as the push specification says: only a valid, verified and new block is delivered, forwarded and served |
| BlockAdmission.GossipChannel.HandleDataUpdate | gossip/channel.go:481-505 | Store, deliveries and pull engine change as the pull specification says: all that was added is delivered and served, or nothing if an item is bad |
| BlockAdmission.GossipChannel.ConsumeItems | gossip/channel.go:978-989 | Each item of the update left is delivered, in order |
| BlockAdmission.GossipChannel.AddToMsgStore | gossip/channel.go:512-520 | The channel's own block enters the store and is not delivered; it is served to others even if the store turned it away |
| BlockAdmission.GossipChannel.RemoveFromPuller | gossip/channel.go:1385-1389 | Every evicted or expired block is taken from the pull engine's messages |
| BlockAdmission.GossipChannel.ExpireBlocks | gossip/msg.go:167-190 | One expiry pass of the block store with its callbacks |
| BlockAdmission.AddTurnsAway | gossip/msg.go:68-86 | A block is added exactly if its number is not turned away; afterwards it is, and so is all that was before |
| BlockAdmission.PushDelivers | gossip/channel.go:446-470 | A pushed block is delivered exactly if it verifies and its number is not turned away |
| BlockAdmission.PullDelivers | gossip/channel.go:481-505 | Exactly which numbers a pulled update delivers, in order: none if some item is bad, else those not settled by the store and the items before them |
| BlockAdmission.AbortedIffBad | gossip/channel.go:481-505 | An update is dropped exactly if one of its items is unparsable, of another channel, no block, or fails verification |
| BlockAdmission.TakenInIsSound | gossip/channel.go:481-505 | Whatever an update puts in the store or hands on is an item of it that was parsed, is of the channel, carries a block and was verified |
| BlockAdmission.DeliveredWasVerified | gossip/channel.go:481-505 | Every number an update delivers is that of a parsed and verified block of the channel among its items |
| BlockAdmission.OwnIsTakenIn | gossip/channel.go:512-520 | One's own block is stored exactly if its number is not turned away, is not delivered, and its number is turned away from then on |
| BlockAdmission.StoredIsDeliveredIffNoneIsBad | gossip/channel.go:481-505 | A number that the store takes from an update is delivered by it if and only if no item of the update is bad |
| BlockAdmission.TakeInOnce | gossip/channel.go:482-505 | Delivering everything an update put in the store would deliver no number twice |
| BlockAdmission.StepOnce | gossip/channel.go:446-520 | Every push, pull, own block and marking pass keeps the at-most-once invariant |
| BlockAdmission.AtMostOnce | gossip/channel.go:446-520 | In every run without physical removal no number is delivered twice and none first added by the channel itself is delivered |
| BlockAdmission.DeliveredOnceFromStart | gossip/channel.go:446-520 | From an empty channel on, until a removal, deliveries are distinct and none is of a block first added by the channel itself |
| BlockAdmission.RedeliveredAfterRemoval | gossip/msg.go:183-188 | The restriction is needed: with any time to live, pushing a block, two late expiry passes, and pushing it again delivers it twice |
| BlockAdmission.AbortedUpdateIsLost | gossip/channel.go:481-505 | New blocks in front of the first bad item of an update are stored and never delivered in any later run without removal |
| BlockAdmission.BlockIsLost | gossip/channel.go:481-505 | A good block followed by an unparsable envelope, in an empty channel: stored, not delivered, and not delivered by a later push either |
| BlockServing.DecimalIsInjective | gossip/channel.go:603-609 | Different block numbers go by different items |
| BlockServing.OnlyAdmittedIsOffered | gossip/channel.go:446-520 | In every run, with removals or without, whatever is offered or at hand was delivered or is the channel's own |
| BlockServing.StepKeepsInvariant | gossip/channel.go:446-520 | Every step without removal keeps delivery, store and pull engine in agreement |
| BlockServing.ServedIffAdmitted | gossip/channel.go:446-520 | In every run without removal an unexpired stored block can be served if and only if it was delivered or is the channel's own |
| BlockServing.PushEffects | gossip/channel.go:446-470 | A pushed block that verifies and is not turned away is delivered, forwarded, offered and at hand; any other changes nothing |
| BlockServing.OwnEffects | gossip/channel.go:512-520 | One's own block is offered and at hand, and neither delivered nor forwarded |
| BlockServing.PullEffects | gossip/channel.go:481-505 | An update forwards nothing, and the blocks it delivers are offered from then on exactly if it was solicited and responses were accepted |
| BlockServing.SweepEffects | gossip/channel.go:1385-1389 | An expiry pass takes from what is at hand exactly what it calls back |
| BlockServing.PushKeepsCovered | gossip/channel.go:1001-1008 | A pushed block leaves everything offered at hand if and only if it pushes no offered block out of the window |
| BlockServing.OwnKeepsCovered | gossip/channel.go:512-520 | One of the channel's own blocks leaves everything offered at hand if and only if it pushes no offered block out of the window |
| BlockServing.PullKeepsCovered | gossip/channel.go:481-505 | A pulled update leaves everything offered at hand if and only if each offered block it pushes out is one it brought itself, and it is not aborted |
| BlockServing.ExpiryKeepsCovered | gossip/channel.go:1385-1389 | An expiry pass leaves everything offered at hand if and only if it calls back no offered block |
| BlockServing.StepKeepsCovered | gossip/channel.go:446-520 | Any step leaves everything offered at hand if and only if it loses no offered block |
| BlockServing.AlwaysCoveredIffNeverLoses | gossip/channel.go:446-520 | Everything offered is at hand throughout a run if and only if no step of the run loses an offered block |
| BlockServing.EvictedIsStillOffered | gossip/channel.go:1001-1008 | After two pushes with window 0 the first block is offered and a request for it is answered with nothing |
| BlockServing.ExpiredIsStillOffered | gossip/channel.go:1387-1389 | After a push and a late expiry pass, whatever the window, the block is stored and offered and a request for it is answered with nothing |
| StateInfoCaches.IndexIsExact | gossip/discovery.go:887-912 | The index maps the peer of each stored message to that message |
| StateInfoCaches.IndexKeys | gossip/discovery.go:887-912 | The index has a key exactly for the peers with a stored message |
| StateInfoCaches.DeletionUnindexes | gossip/channel.go:1435-1439 | Deleting entries and removing their peers leaves the index of the remaining store |
| StateInfoCaches.AdditionReindexes | gossip/channel.go:1280-1293 | Removing the superseded peer and putting the new message gives the index of the new store |
| StateInfoCaches.StateInfoCache.Add | gossip/channel.go:1280-1293 | Succeeds exactly if the store accepts the message and it is one's own or signed by a known peer of one of the organisations; index and store agree afterwards |
| StateInfoCaches.StateInfoCache.Purge | gossip/msg.go:117-136 | Purging through the trigger keeps index and store in agreement |
| StateInfoCaches.StateInfoCache.PruneRejected | gossip/channel.go:535-546 | The loop over a snapshot that purges as it goes leaves, in order, exactly one's own message and those signed by known peers of the organisations |
| StateInfoCaches.PruneStep | gossip/channel.go:535-546 | Purging the peer of one rejected message removes that message alone |
| StateInfoCaches.Channel.AddStateInfo | gossip/channel.go:460 | Succeeds exactly if the store accepts the message and it is one's own or signed by a known peer of an installed organisation; the store changes as the cache says |
| StateInfoCaches.Channel.SweepDeparted | gossip/channel.go:1440-1449 | The periodic sweep leaves exactly the messages of members, no fewer, with index, store and organisations in agreement |
| StateInfoCaches.Channel.ConfigureChannel | gossip/channel.go:522-547 | A join message that is installed leaves exactly one's own message and those signed by known peers of its organisations; the early returns change what is stated and no more |
| Membership.RecordThenRead | gossip/discovery.go:987-989 | Converting an incarnation number to int64, to a time and back to uint64 is the identity |
| Membership.IsBeforeAgreesWithPolicy | gossip/discovery.go:987-989 | before holds exactly when compareTimestamps with swapped arguments invalidates |
| Membership.LearnedIsMarkAlive | gossip/discovery.go:712-758 | For an unknown peer, learning it has the same effect as refreshing or resurrecting |
| Membership.HeardIsConsistent | gossip/discovery.go:316-354 | An alive message keeps the five maps in agreement |
| Membership.HeardDeadIsConsistent | gossip/discovery.go:404-422 | Learning a dead peer from a response keeps the five maps in agreement |
| Membership.HeardDeadAdvances | gossip/discovery.go:404-422 | A dead peer reported by others changes nothing recorded about a known peer |
| Membership.MayRecordItself | gossip/discovery.go:404-422 | A dead entry about oneself leaves a peer record about oneself and changes nothing else |
| Membership.PresumedAdvances | gossip/discovery.go:582-604 | Presuming a peer dead moves its record and changes no peer's recorded message |
| Membership.HeardRecordsMaximum | gossip/discovery.go:316-354 | After a valid alive message the recorded time is the later of the two |
| Discovery.GossipDiscovery.LearnNewMember | gossip/discovery.go:712-758 | New maps are those of the specification, with the internal endpoint on record preferred |
| Discovery.GossipDiscovery.LearnExistingMember | gossip/discovery.go:672-710 | Refreshing marks the peer alive; the unchecked record exists and the branch for a peer without a message is unreachable |
| Discovery.GossipDiscovery.ResurrectMember | gossip/discovery.go:490-516 | A dead peer becomes alive with the message's time |
| Discovery.GossipDiscovery.HandleAliveMessage | gossip/discovery.go:316-354 | The three code paths have one effect: a valid message about another peer that is newer than the record becomes the record |
| Discovery.GossipDiscovery.HandleMsgFromComm | gossip/discovery.go:356-424 | View, store, forwarding and reply for each of the message kinds, with the handler's early returns |
| Discovery.GossipDiscovery.HandleMembershipResponse | gossip/discovery.go:387-422 | The two loops over alive and dead envelopes, with the stops and the skips of each |
| Discovery.GossipDiscovery.ExpireDeadMembers | gossip/discovery.go:582-604 | Each alive peer of the list moves to the dead maps; the connections closed are exactly those of the listed peers that were alive, each once and in order, and their records exist |
| Discovery.GossipDiscovery.ExpiryCallback | gossip/discovery.go:958-969 | The peer of an expired alive message leaves all five maps |
| Discovery.GossipDiscovery.ExpireMessages | gossip/msg.go:167-190 | One expiry pass with its callbacks, on store and maps |
| Discovery.GossipDiscovery.GetMembership | gossip/discovery.go:188-206 | One report for each alive peer, with the endpoint of its message and the internal endpoint on record; no lookup is nil; none while stopping |
| Discovery.GossipDiscovery.CopyLastSeen | gossip/discovery.go:562-570 | The records of exactly the dead peers, as they are on file and one of each; no lookup is nil |
| DiscoveryEffects.HeardExactly | gossip/discovery.go:316-354 | A valid alive message about another peer that is news makes it alive with that message and its endpoints on record; any other changes nothing, and nobody else is affected |
| DiscoveryEffects.HeardDeadExactly | gossip/discovery.go:404-422 | A dead entry about a peer without a record makes it known as dead with its endpoints on record; any other changes nothing |
| DiscoveryEffects.AliveHeardAt | gossip/discovery.go:392-403 | Which messages of a response are heard, position by position: the valid and accepted ones in front of the first unreadable or foreign envelope |
| DiscoveryEffects.DeadHeardAt | gossip/discovery.go:404-422 | Which dead entries are taken notice of, position by position |
| DiscoveryEffects.CutShort | gossip/discovery.go:392-403 | The dead part is reached exactly if every envelope of the alive part is a readable alive message |
| DiscoveryEffects.HandledHasEffect | gossip/discovery.go:356-424 | The exact effect of every handler on every other peer: who becomes known, who becomes alive, and that the record changes only to a message heard and is not before any |
| DiscoveryEffects.ToldIsRecorded | gossip/discovery.go:356-424 | After a handler, every peer it was told of is known with a time no earlier than told, known before or not |
| DiscoveryEffects.ToldStaysRecorded | gossip/discovery.go:303-314 | And it stays so over every run until the peer is forgotten |
| DiscoveryEffects.OnlyAliveIsStored | gossip/discovery.go:379-382 | The store takes in the accepted alive messages sent to the service, and nothing from requests and responses |
| DiscoveryEffects.PresumeAllExactly | gossip/discovery.go:582-604 | The listed peers that are alive become dead, record and all; nothing else changes |
| DiscoveryEffects.ClosingExactly | gossip/discovery.go:585-603 | The connections closed are those of the listed peers that were alive, each once |
| DiscoveryRuns.StepAgrees | gossip/discovery.go:316-424 | Every step keeps the maps consistent and every unexpired validated stored message backed by a record at least as late |
| DiscoveryRuns.ExpireStepAgrees | gossip/discovery.go:958-972 | An expiry pass keeps that agreement, because the store holds one entry per peer |
| DiscoveryRuns.AliveStepAgrees | gossip/discovery.go:356-386 | Storing and handling an alive message keeps that agreement |
| DiscoveryRuns.Run | gossip/discovery.go:303-314 | Agreement holds after any sequence of handlers, presumed deaths and expiry passes |
| DiscoveryRuns.EveryRunAgrees | gossip/discovery.go:303-314 | Maps and store agree after every run of a service that starts knowing nobody |
| DiscoveryRuns.HandledAdvances | gossip/discovery.go:356-424 | No handler lowers a recorded time or loses a peer; a dead peer returns only by a strictly newer message |
| DiscoveryRuns.ForgetAllForgets | gossip/discovery.go:958-969 | An expiry pass forgets exactly the peers it calls back and leaves the others untouched |
| DiscoveryRuns.TimeAdvances | gossip/discovery.go:316-354 | From learning a peer until it is forgotten its recorded message changes only to strictly newer ones |
| DiscoveryTimes.HandledIsLatest | gossip/discovery.go:356-424 | After a handler the recorded time of a known peer is the latest among the one before and those of the valid alive messages about it that the store check let through |
| DiscoveryTimes.RecordIsLatest | gossip/discovery.go:316-354 | Over every run, until a peer is forgotten, its recorded time is the latest among its first record and the valid alive messages about it that the store check let through |
| PullEngines.InitiateIsBooked | gossip/channel.go:1222-1251 | Starting a round keeps the nonce books in agreement and issues only the drawn nonces |
| PullEngines.AddOwnersIsBooked | gossip/channel.go:1138-1153 | Recording owners keeps every owner list nonempty and every owner holding a nonce |
| PullEngines.PullEngine.InitiatePull | gossip/channel.go:1222-1240 | Engine state, and one hello to each peer under its nonce |
| PullEngines.PullEngine.Add | gossip/channel.go:942-948 | The item joins the state and its message is remembered |
| PullEngines.PullEngine.Remove | gossip/channel.go:1001-1008 | The message is forgotten and the item stays in the state |
| PullEngines.PullEngine.HandleHello | gossip/channel.go:1155-1174 | The digest lists each item the requester may see exactly once |
| PullEngines.PullEngine.HandleDigest | gossip/channel.go:1138-1153 | Owners of missing items grow by the sender, only under an outstanding nonce |
| PullEngines.PullEngine.HandleReq | gossip/channel.go:1176-1193 | The items sent are exactly the requested ones that are present and pass the egress filter, in order; nothing under an unknown nonce |
| PullDisclosure.ServedExactly | gossip/channel.go:1176-1193 | A request is served exactly with those of its items that are present and pass the egress filter, and only under a nonce that a hello opened |
| PullDisclosure.NonceWindow | gossip/channel.go:1155-1163 | A hello opens its nonce, the timer closes it, and neither does anything else |
| PullDisclosure.DigestExactly | gossip/channel.go:1138-1153 | A digest counts only while digests are accepted and under an outstanding nonce; each missing item gains the holder of the nonce as owner, once for each listing |
| PullDisclosure.UpdateExactly | gossip/channel.go:978-994 | An update is remembered as far as it can be read, and taken in exactly if all of it can be, under an outstanding nonce, while responses are accepted |
| PullDisclosure.PhasesGate | gossip/channel.go:1222-1261 | Digests are heard from the start of a round to its timer, responses from the timer to its end, and neither between rounds |
| PullDisclosure.ResponseExactly | gossip/channel.go:1088-1110 | A response carries the messages at hand for the items, and no others |
| PullDisclosure.AssignedToOwner | gossip/channel.go:1238-1239 | Each advertised item is requested from one of its owners |
| PullDisclosure.AnyOwnerCanBeAsked | gossip/channel.go:1238-1239 | For each owner of an item some draw chooses it |
| PullDisclosure.NothingWithheldLeaves | gossip/channel.go:1155-1193 | In every network run, whatever is on its way to a requester passed the egress filter in force at the step that offered or prepared it |
| PullEngines.PullEngine.AssembleResponse | gossip/channel.go:1088-1110 | The messages at hand for the items |
| PullEngines.PullEngine.HandleUpdate | gossip/channel.go:978-994 | Items are remembered and consumed up to an unparsable one; the state grows only if there is none |
| PullEngines.PullEngine.HandleRes | gossip/channel.go:1195-1202 | The state grows by the items exactly under an outstanding nonce while responses are accepted |
| PullEngines.PullEngine.HandleDigestTimeout | gossip/channel.go:1204-1261 | The requests partition the advertised items: each exactly once, to one of its owners, under a nonce issued to that owner |
| PullEngines.PullEngine.MapRequests | gossip/channel.go:1222-1251 | The mapping lists each advertised item once, under an owner that advertised it |
| PullEngines.PullEngine.HandleEndPull | gossip/channel.go:1253-1261 | The books are cleared and in agreement |
| PullNetwork.NothingFromNowhere | gossip/channel.go:942-994 | In every network run with loss, duplication, reordering and overlapping rounds every item anywhere was added at some node, and all nonce books agree |
| PullNetwork.HelloPacketsAreHellos | gossip/channel.go:1226-1232 | The packets that start a round are its hellos |
| PullNetwork.DigestKeepsInvariant | gossip/channel.go:1138-1153 | Delivering a digest, late or twice, keeps that invariant |
| PullNetwork.UpdateKeepsInvariant | gossip/channel.go:978-994 | Delivering an update, late or twice, readable or only in part, keeps that invariant |
| PullNetwork.StateGrowth | gossip/channel.go:1195-1202 | An item set never shrinks, and grows only by Add or by an update under an outstanding nonce while responses are accepted |
| PullRound.DigestedAt | gossip/channel.go:1138-1153 | An item has owners exactly if it was missing and advertised, and only advertisers own it |
| PullRound.AnswerIsComplete | gossip/channel.go:1176-1193 | The response to a request carries exactly the requested items |
| PullRound.RequestedIsObtainable | gossip/channel.go:1222-1251 | Nothing is fetched that the filters do not let through |
| PullRound.ObtainableIsRequested | gossip/channel.go:1222-1251 | Everything missing that the filters let through is requested |
| PullRound.RoundFetchesEverything | gossip/channel.go:1138-1261 | A loss-free round leaves the old items and exactly the union of what the responders may disclose and the initiator lets in |
| PullRoundRun.RoundIsRun | gossip/channel.go:1138-1261 | Every loss-free round is a run of the network, one packet at a time, after which the initiator is as the round says |
| PullRoundRun.RunFetchesEverything | gossip/channel.go:1138-1261 | After that run the initiator has its old items and exactly what the filters let through |
| Selection.RandomInt | gossip/common.go:355-361 | The result is in range for every 64-bit draw, negative ones included |
| Selection.RandomIntIsResidue | gossip/common.go:355-361 | The result is the draw, read as a signed integer, up to a multiple of the bound |
| Selection.IndexInSlice | gossip/common.go:345-353 | The first position of the element, or -1 exactly if there is none |
| Selection.GetRandomIndices | gossip/common.go:313-332 | Distinct indices in range, as many as asked for, those the draws give in order of first appearance; nil exactly if too few exist |
| Selection.SelectPeers | gossip/filter.go:32-47 | The first k eligible peers of the permutation |
| Selection.AddressedAt | gossip/discovery.go:880-885 | A peer with an internal endpoint is addressed by it, any other by its external one |
| Selection.SelectionCount | gossip/filter.go:32-47 | As many peers as asked for and eligible, whatever the permutation, and only eligible ones |
| Routing.PartitionMessages | gossip/gossip.go:966-977 | The matching and the other messages, each in order |
| Routing.ChainSortsByCategory | gossip/gossip.go:519-541 | The chain of partitions yields exactly the five categories, each in the order of the batch |
| Routing.CategoriesCoverBatch | gossip/gossip.go:519-541 | Sorting by category neither loses nor repeats a message |
| RoutingLaws.EveryRouteIsPermitted | gossip/gossip.go:488-611 | No send violates its message's source filter, and every send obeys the full rule of its category |
| Audience.OnlyAudienceIsSent | gossip/gossip.go:488-611 | Nobody is sent a message that is not for them, in terms of organisations, channels, endpoints, tags and the message's own filter |
| Audience.AudienceIsReached | gossip/gossip.go:488-611 | When the selection is not cut short, a member is sent a message of the batch if and only if it is for that member |
| Audience.PassFilterPicks | gossip/gossip.go:520-550 | Each pass picks among exactly the members that can be picked, channel members with an identity and a state-info message among them |
| Audience.PickedInChannel | gossip/gossip.go:599-605 | All members that can be picked are picked for leadership messages, min(configured number, those) for blocks |
| Audience.StateInfoSends | gossip/gossip.go:529-540 | A state-info message is sent to min(configured number, members that can be picked), for each time it is in the batch |
| Audience.AliveSends | gossip/gossip.go:546-565 | The same for alive messages of the own organisation, and at most so many for others |
| RoutingLaws.GroupRoute | gossip/gossip.go:582-610 | Blocks and leadership messages go only to members of a known channel, in the organisation, with an identity and a state-info message |
| RoutingLaws.StateInfoRoute | gossip/gossip.go:529-540 | State-info messages go to the channel's organisations if the sender has an external endpoint, else within the organisation |
| RoutingLaws.OrgRoute | gossip/gossip.go:541-545 | Restricted messages stay in the organisation |
| RoutingLaws.AliveRoute | gossip/gossip.go:546-565 | Foreign alive messages go only to that organisation and one's own and need an external endpoint; unknown ones go nowhere |
| RoutingLaws.ChannelMessageCount | gossip/gossip.go:568-611 | A block or leadership message is sent exactly once, per time in the batch, to each chosen peer of its known channel that its filter admits |
| RoutingLaws.RestrictedMessageCount | gossip/gossip.go:541-545 | The same for restricted messages and the peers chosen for them |
| RoutingLaws.StateInfoMessageCount | gossip/gossip.go:529-540 | A state-info message is sent exactly once, for each time it is in the batch, to each peer chosen that time |
| RoutingLaws.AliveMessageCount | gossip/gossip.go:546-565 | The same for unrestricted alive messages; other unrestricted messages are sent to nobody |
| RoutingLaws.StateInfoReach | gossip/gossip.go:529-540 | Whatever the permutations, each occurrence of a state-info message is sent to min(configured number, eligible) members |
| RoutingLaws.AliveReach | gossip/gossip.go:546-565 | The same for alive messages of the own organisation, and at most so many for those of others |
| RoutingLaws.ChosenCount | gossip/gossip.go:599-605 | For a channel's leadership messages all eligible members are chosen, for its blocks min(configured number, eligible), before the source filters |
| RoutingLaws.RestrictedChosenCount | gossip/gossip.go:542 | For restricted messages min(configured number, members of the organisation) are chosen, before the source filters |
| RoutingLaws.CountByCategory | gossip/gossip.go:519-565 | A message is sent only by the pass for its own category |
| RoutingLaws.LeadershipReachesAll | gossip/gossip.go:599-605 | A leadership message reaches every member that the filters admit, whatever the permutation |
| GossipBatch.GossipService.RemoveSelfLoop | gossip/gossip.go:613-621 | The peers the source filter admits, in order |
| GossipBatch.CollectChannels | gossip/gossip.go:572-583 | The distinct nonempty channels in order of first appearance |
| GossipBatch.GroupIsWhole | gossip/gossip.go:586-592 | What is grabbed for a channel from the messages left over is all the batch has for it |
| GossipBatch.GossipService.GossipInChan | gossip/gossip.go:568-611 | The sends are those of the routes by channel; unknown channels are skipped |
| GossipBatch.GossipService.SendStateInfos | gossip/gossip.go:529-540 | The sends are those of the state-info routes |
| GossipBatch.GossipService.SendAlive | gossip/gossip.go:546-565 | The sends of one alive message and what is left of its secret envelope |
| GossipBatch.GossipService.SendGossipBatch | gossip/gossip.go:488-566 | All sends of a batch in order, with the secret envelope each carries, and the envelopes left on the messages, also if a message is in the batch twice |
| GossipBatch.SecretsStayHome | gossip/gossip.go:555-563 | Exactly which sends carry the secret envelope: an alive message goes without it from its first send out of the organisation on, at home and abroad, and every other send carries it |
| GossipBatch.HomeSendGoesWithout | gossip/gossip.go:546-565 | An alive message of the organisation, selected first for a peer abroad and then for one at home, goes to both without its envelope |
| Acks.Send | gossip/communicate.go:695-720 | The results are the answers up to the first point with enough successes, or all; no more answers than peers are awaited |
| Acks.AckCount | gossip/communicate.go:723-731 | The number of results without error |
| Acks.AcksCollected | gossip/communicate.go:695-731 | In any order, min(minAck, successes) acknowledgements are collected |
| Acks.CollectedIsShortest | gossip/communicate.go:703-718 | The wait ends exactly with the first answer that makes the successes enough, or with the last |
| Acks.NoAcksAskedFor | gossip/communicate.go:714-717 | With minAck 0 the first answer ends the wait only if it is an error |
| Acks.EnoughIffEnoughSucceed | gossip/gossip.go:175-177 | The ack-count check passes exactly if at least minAck peers succeed |
| Acks.VerdictIgnoresOrder | gossip/gossip.go:170-178 | The verdict does not depend on the order of arrival |
| Acks.SendByCriteria | gossip/gossip.go:147-179 | Each verdict in terms of eligible members and successful peers |
| Acks.SendWithAck | gossip/communicate.go:158-203 | The collected answers, or one error for each peer while stopping; enough succeed exactly if enough peers do |

## Left out

- Interleaving inside a handler: locks are dropped between the steps of `handleAliveMessage`, and `onDigest` tests the nonce before it locks; here each handler is one step.
- Discovery.GossipDiscovery.LearnNewMember: takes one member, because every caller passes one; the same for LearnExistingMember.
- Discovery.GossipDiscovery.HandleMsgFromComm: the reply is the member it is sent to; the contents of membership responses, disclosure policies and signing are not modelled.
- DiscoveryRuns.StepAgrees: a stored message that failed validation is not claimed to be backed, since the code stores it before validating it.
- BlockAdmission.AtMostOnce: ends at the first physical removal from the store; afterwards the code can deliver a number again, exactly as PushDelivers and RedeliveredAfterRemoval say.
- BlockAdmission.GossipChannel.AddToMsgStore: takes a data message with a payload, as the gossip service passes; its state-info branch is StateInfoCaches.Channel.AddStateInfo.
- Data messages without payload inside the replacement policy, where the code dereferences nil: `HandleMessage` turns them away before.
- Membership checks in front of `HandleMessage` and the other branches of it (state snapshots, leadership messages): guards and forwarding only.
- StoreLifecycle.CallbackPrecedesRemoval: counts entries with one message and creation time together; StoreLives.CalledBackOncePerEntry tells them apart.
- StateInfoCaches.Channel.ConfigureChannel: the two sequence numbers are parameters, because the code reads the clock for each; no order of join messages follows.
- PullEngines.PullEngine.InitiatePull: the nonces are parameters; that the loop drawing them ends depends on chance.
- Selection.GetRandomIndices: draws come from a finite supply, and the result says whether it sufficed; that the loop ends depends on chance.
- PullRound.RoundFetchesEverything: endpoints of the responders are distinct, the previous round has ended, every responder holds the messages of its items, and no item is added or removed during the round.
- PullNetwork.NothingFromNowhere: packets are not forged; envelopes may become unreadable, but not turn into other messages.
- Several peers sharing one endpoint, and the mapping from endpoints to connections.
- GossipBatch.GossipService.Send: hands over the secret envelope at the moment of the call; the code's sending goroutine reads it somewhat later, when it may have been taken off.
- GossipBatch.GossipService.SendGossipBatch: membership, channels and organisations stay fixed while one batch is sent.
- Pointers shared between stores, buffers and packets, beyond the secret envelope of an emitted message.
- Last-seen times in the discovery maps and the timeout that computes presumed-dead peers: the list is a parameter.
- Acks.Send: each peer's answer is a parameter; that every peer answers rests on the subscription timeout.
- The communication layer (gRPC, TLS, handshakes, connections), `PubSub`, `ChannelDeMultiplexer`, `IdMapper`, configuration and `Stop` sequences.
- Which messages enter the emitter (`Gossip`, `Forward`): only the emitter itself is modelled.
