# Models of etherfold's protocols, stores and folds

A Dafny project that models the parts of etherfold where the most can go wrong without anything
throwing, and proves what their documentation promises of them. `dafny verify dfyconfig.toml` verifies it.

The modules follow the source, file by file:

- **One tab indexes.** `TabElection` is the candidacy of `tabElection.ts` and the lock manager it talks
  to (W3C Web Locks API, sections 4.1 to 4.4), as one asynchronous step system: what a tab does, what
  the manager does and the delivery of each answer are separate steps in any order. `CandidacyObject`
  has the callbacks as they are written. `TabElectionSafety` and `TabElectionResults` hold over every
  run of any number of tabs; `EarlySteal` and `StealGuard` show when a steal may be sent. `Takeover` is the host around
  it, with its tenure counter and its snapshot switch; `ElectedHost` shows that what the election tells a host
  is what that host's steps take, and `SettleTimer` is the timer that calls for a take.
- **One query, every backend.** `Text` and `Bytes` are the two orders the stored forms rely on;
  `QueryPlan` is the planner as a compiler from predicates to plans, between three readings of them;
  `QueryPage` the order and the cut.
- **The versioned row store.** `RowStore` is the store with its writes and its revert, `RowHistory` what
  it means, `RowCounters` and `LeastSquares` what the replay measurement keeps beside it. `StagedBlock`
  and `StagedList` are the write surface a handler gets above it; `WriteHistory` joins the two.
- **Between tabs.** `ProgressChannel` and `ProgressDelivery` are the progress half of the cross-tab
  channel (HTML Living Standard, section 9.5); `PublishedStart` the returning tab's one switch.
- **Folds.** `NftFold` and `TokenFold` are two processors whose rows must agree; `TokenKey` the padded id.
- **Around them.** `Followers`, `ArrivalQueue` and `Decode`.

An object that changes its variables in place is a class here, and each of its methods is proved to be
the step function its step system is built from; what the source promises is proved of that system, for
every run. Counterexamples are lemmas beside the results whose conditions they justify.

Where the code does not do all that is said of it, the model follows the code:

- `takeFromBackgroundedLeader` does not test that the first ask has settled. Gains and displacements go
  on alternating after a take if and only if it has (`StealGuard`, `EarlySteal`). The host arms the settle timer only from a
  reader's seat, so the step system takes that as the environment's guarantee.
- The container is set in one place, `openContainer`, with no tenure test, and two displaced continuations
  reach it that nothing lets go of after: a fresh start that throws after its container opened, because the
  catch returns on the tenure test, and a snapshot switch that was opening its container again. Either
  leaves a displaced tab with a container; a later takeover then finds it and goes no further. `Takeover`
  gives the exact condition over every run (`DisplacedEndsAsReader`, `BlockedExactly`).
- A reader seat still being built when a fresh start begins seats the new writer as a reader when it
  opens, and a switch of an earlier tenure still opening its container then replaces the new writer's. A
  fresh start keeps the writer's seat and its own container if and only if neither is there (`WriterExactly`).
- `takeOver` reconsiders the settle timer before it sets the writer's seat, not after, so that break
  of eligibility is not reconsidered. Takes are earned if and only if such breaks are.
- `compareUtf8` is the order of UTF-8 bytes exactly on well-formed text: a lone surrogate compares
  above U+FFFF, while a database stores the replacement character. SQL's half of the planner's meaning
  does not depend on it; the in-memory half does, for operands and stored texts alike (`OperandsExactly`,
  `ValuesExactly`, `MembersExactly`).
- `revertCounts` counts upserts. Its deleted and total counts are right exactly when no block upserts
  a key twice, which the staging area guarantees and the counter itself does not.
- The token processor's comment says the zero address never holds anything. It has a holding of every token
  ever burnt, and those are not the tokens it owns exactly when one was moved again after (`ZeroAgreesExactly`).
- A progress listener hears a repeat exactly when it is attached to an end that holds what it was last told.
- The accessor's comment says a row closed above a block has a live row opened above it; a deleted
  one has none. The two sets are disjoint all the same (`CurrentPlusDelta`).
- A contract with two members of one selector decodes differently through the map and the search.


## Model

| member | source | states |
|---|---|---|
| `TabElectionSafety.StepKeeps` | packages/browser/src/tabElection.ts:254-397 | every one of the eleven steps (stand, take, resign, die; process, abort, callback, deny, settle, reject, finish) keeps the invariant: one holder, a queue of exactly the waiting requests, each candidacy in one of its legal positions |
| `TabElectionSafety.RunKeeps` | packages/browser/src/tabElection.ts:254-397 | so does every run of steps, from any world that satisfies it |
| `TabElectionResults.Reached` | packages/browser/src/tabElection.ts:254-397 | every world reached from none satisfies the invariant |
| `TabElectionResults.LeaderIsHolder` | packages/browser/src/tabElection.ts:254-301 | in every reachable world a candidacy with `holding` true is the lock manager's one holder exactly when no steal rejection is owed to it |
| `TabElectionResults.OneLeader` | packages/browser/src/tabElection.ts:254-397 | with no rejection outstanding at most one tab leads |
| `TabElectionResults.NoCandidateIsLost` | packages/browser/src/tabElection.ts:278-395 | a live, unresigned candidacy whose first ask settled holds, or waits in the queue, or steals; in the last two its one request can still bring it the lock and is not being aborted |
| `TabElectionResults.RejectionRequeues` | packages/browser/src/tabElection.ts:283-301 | the rejection owed to a displaced leader can be delivered, tells it once, and puts it back in line |
| `TabElectionResults.CrashHandsOver` | packages/browser/src/tabElection.ts:240-247 | when the holder's tab dies, the first queued request of another tab is granted the lock, and the other places stay in order |
| `TabElectionResults.ResignHandsOver` | packages/browser/src/tabElection.ts:386-395 | so does a leader that resigns: its release grants the lock to the first in line, another tab's request or one of its own that is being aborted, and the rest keep their order |
| `TabElectionResults.NoLockLeaks` | packages/browser/src/tabElection.ts:316-337 | whoever holds the lock is alive and either leads by that request or has a callback or a release still to run |
| `TabElectionResults.EventsAlternate` | packages/browser/src/tabElection.ts:283-309 | gains and displacements alternate for each candidacy, a gain first, in every reachable world |
| `TabElectionResults.SilentAfterResign` | packages/browser/src/tabElection.ts:386-395 | after `resign` nothing more is told to the host, whatever was in flight |
| `TabElectionResults.Settles` | packages/browser/src/tabElection.ts:254-397 | deliveries strictly lower a load, so with nobody deciding anything the election comes to rest: displacements do not ping-pong |
| `TabElectionResults.QuietMeansOneLeader` | packages/browser/src/tabElection.ts:240-247 | at rest, if anybody stands, exactly one tab leads, it is the manager's holder, and every other candidate waits in the queue |
| `StealGuard.TakeExactlyWhenSettled` | packages/browser/src/tabElection.ts:366-385 | in every reachable world, what a tab hears goes on alternating after its take if and only if its first ask had settled |
| `StealGuard.EarlyTakeGainsTwice` | packages/browser/src/tabElection.ts:366-385 | a take by a tab still asking, however far its ask has got, can go on to two gains in a row |
| `EarlySteal.StealBeforeTheAskSettles` | packages/browser/src/tabElection.ts:366-385 | one such take in a world of two live tabs, with no tab going away |
| `EarlySteal.AskRefusedIsReached` | packages/browser/src/tabElection.ts:329-339 | that world is reached by six ordinary steps |
| `CandidacyObject.Candidacy.AskCallback` | packages/browser/src/tabElection.ts:330-338 | the ask's callback does to the captured variables what the step system says, and holds on exactly then |
| `CandidacyObject.Candidacy.QueuedCallback` | packages/browser/src/tabElection.ts:316-323 | the same for a queued request, refused when resigned or superseded |
| `CandidacyObject.Candidacy.StealCallback` | packages/browser/src/tabElection.ts:372-380 | the same for a steal |
| `CandidacyObject.Candidacy.EnterQueue` | packages/browser/src/tabElection.ts:311-327 | `queue()` sends a request unless resigned |
| `CandidacyObject.Candidacy.AskSettled` | packages/browser/src/tabElection.ts:339-342 | a refused ask queues unless the tab holds or resigned |
| `CandidacyObject.Candidacy.TenureRejected` | packages/browser/src/tabElection.ts:283-301 | the rejection of a held request ends the tenure, tells the host and queues again, unless resigned |
| `CandidacyObject.Candidacy.TakeFromBackgroundedLeader` | packages/browser/src/tabElection.ts:366-385 | a no-op while resigned, holding or stealing; otherwise leaves the queue and sends a steal |
| `CandidacyObject.Candidacy.Resign` | packages/browser/src/tabElection.ts:386-395 | gives back the tenure, leaves the queue, once |
| `Takeover.DisplacedEndsAsReader` | packages/browser/src/IndexerState.ts:1268-1377 | over every run, a tab that lost the lock at whatever point of whichever takeovers and switches has the reader role from then on, and a reader store once its last seat opened; it is left with a container if and only if a fresh start threw late, or a snapshot switch opened one again, and nothing after let go of one |
| `Takeover.WriterExactly` | packages/browser/src/IndexerState.ts:1278-1297 | with no other fresh start in progress, one that begins keeps the writer role in every continuation, its own container and no reader seat once it succeeded, if and only if when it begins no reader seat is still being built and no earlier switch is still opening its container again |
| `Takeover.LeaderEndsAsWriter` | packages/browser/src/IndexerState.ts:1268-1312 | over runs whose fresh starts begin in order, switches and their reopenings included, what a leading tab has, by how its takeover went: succeeded, threw early, threw late, or still starting |
| `Takeover.BlockedExactly` | packages/browser/src/IndexerState.ts:1278 | a takeover that still leads when its seat is there goes no further exactly when such a late failure or reopening left its container |
| `Takeover.StepKeeps` | packages/browser/src/IndexerState.ts:1225-1377 | every step keeps: only the takeover that leads has the tenure, a tab that lost the lock reads, and a container held or being opened again came from a fresh start that opened it |
| `Takeover.OlderSeatUnseatsTheWriter` | packages/browser/src/IndexerState.ts:1256-1275 | such a run from the start: a seat older than the one a takeover waited for, opened late, leaves the new writer with the reader role |
| `Takeover.LateFailureLeavesAContainer` | packages/browser/src/IndexerState.ts:1291-1308 | and one where a displaced fresh start throws after its container opened: the catch returns on the tenure test |
| `Takeover.ReopeningLeavesAContainer` | packages/browser/src/IndexerState.ts:1676-1697 | and one where a tab is displaced while its switch awaits `openContainer`: the reopening sets the container with no tenure test, no fresh start failed late, and the tab's next takeover is blocked by it |
| `Takeover.ReopeningReplacesTheWriters` | packages/browser/src/IndexerState.ts:1512-1516 | landing after that takeover instead, it takes the place of the new writer's container |
| `ElectedHost.EveryEventCanBeTaken` | packages/browser/src/IndexerState.ts:1202-1213 | the two step systems meet: each gain and displacement a candidacy of a reachable election was told of is a step its host can take next, whatever the host did between them |
| `Takeover.Host.TakeOver` | packages/browser/src/IndexerState.ts:1274-1275 | a takeover starts its own tenure |
| `Takeover.Host.Resume` | packages/browser/src/IndexerState.ts:1278-1288 | it goes on only with no container and its tenure still current |
| `Takeover.Host.Finish` | packages/browser/src/IndexerState.ts:1291-1297 | after the fresh start a stale tenure lets go of what it built, a current one drops the reader seat |
| `Takeover.Host.SeatOpened` | packages/browser/src/IndexerState.ts:1232-1256 | a seat that opened is held, and takes the reader role |
| `Takeover.Host.StepDown` | packages/browser/src/IndexerState.ts:1321-1341 | a displacement ends the tenure, takes the reader role and lets go of the container |
| `SettleTimer.TakesAreEarnedExactly` | packages/browser/src/tabElection.ts:421-454 | at every moment of a history all takes to come are earned if and only if each break of eligibility under an armed timer was reconsidered, or there is no time to settle |
| `SettleTimer.TakeIsEarned` | packages/browser/src/tabElection.ts:426-454 | a take then follows at least `settleMs` in which, without a break, this tab was visible and reading and the leader last heard hidden or never heard; and never follows `stop` |
| `SettleTimer.ArmedSince` | packages/browser/src/tabElection.ts:436-448 | an armed timer was armed by an event since which eligibility has not broken |
| `SettleTimer.UnreconsideredChangeCounts` | packages/browser/src/IndexerState.ts:1279-1288 | the break the host does not reconsider: the writer seat set after `reconsider` lets a timer armed before it fire unearned |
| `SettleTimer.Watch.Reconsider` | packages/browser/src/tabElection.ts:437-448 | arms once, disarms when eligibility breaks, does nothing once stopped |
| `SettleTimer.Watch.Fire` | packages/browser/src/tabElection.ts:444-447 | takes exactly when not stopped and still eligible |
| `Bytes.BigEndianOrders` | packages/state-store/src/semantic-types.ts:40-68 | fixed-width big-endian bytes compare as the numbers do, at any width |
| `Bytes.EncodeU256` | packages/state-store/src/semantic-types.ts:55-68 | refused outside 0 to 2^256 - 1, and otherwise the 32 big-endian digits, by the loop that fills them from the end |
| `Bytes.DecodeU256` | packages/state-store/src/semantic-types.ts:69-76 | 32 bytes to their value, anything else refused |
| `Bytes.ValueOfBigEndian` | packages/state-store/src/semantic-types.ts:52-83 | decoding an encoding gives the value back |
| `Bytes.BigEndianOfValue` | packages/state-store/src/semantic-types.ts:52-83 | encoding a decoding gives the bytes back: the encoding is canonical |
| `Bytes.CompareBytes` | packages/state-store-indexeddb/src/accessor.ts:383-389 | the first difference decides, a prefix comes first |
| `Text.CompareUtf8` | packages/state-store/src/listing.ts:135-147 | the loop computes the comparison by lifted code units |
| `Text.CompareUtf8IsByteOrder` | packages/state-store/src/listing.ts:122-147 | on well-formed text that comparison is the order of the UTF-8 bytes, neither string being encoded |
| `Text.WellFormedExactly` | packages/state-store/src/listing.ts:122-147 | and a string compares right with every well-formed one if and only if it is well-formed itself |
| `Text.SameBytesExactly` | packages/state-store/src/listing.ts:122-147 | two strings have the same UTF-8 bytes exactly when they are the same with U+FFFD for each lone surrogate |
| `QueryPlan.AcceptsTheMeaningful` | packages/accessor/src/plan.ts:156-235 | a predicate is planned if and only if its columns are declared and its operands of their kind; everything else is refused |
| `QueryPlan.SqlMeansTheSame` | packages/accessor/src/types.ts:23-42 | the plan over stored forms is TRUE in SQL's three-valued logic on exactly the rows the source predicate selects, whatever text there is: nulls, empty `in` and u256 bytes included |
| `QueryPlan.PlanMeansTheSame` | packages/accessor/src/types.ts:23-42 | and filtered in memory it selects the same rows wherever the text is well-formed |
| `QueryPlan.OperandsExactly` | packages/accessor/src/types.ts:33-35 | the condition on the operand is needed, for each of the six comparisons: the backends select the same rows of well-formed text if and only if the operand is well-formed |
| `QueryPlan.ValuesExactly` | packages/accessor/src/types.ts:33-35 | and so is the one on the row: on a stored text they agree for every well-formed operand if and only if it is well-formed |
| `QueryPlan.MembersExactly` | packages/accessor/src/types.ts:33-35 | an `in` is read alike on all rows of well-formed text if and only if with each of its members it has that member's repaired form, U+FFFD for each lone surrogate |
| `QueryPlan.InSplits` | packages/accessor/src/types.ts:33-35 | and on any row whatever it is read differently exactly when the row's text is no member but is repaired to what one is |
| `QueryPlan.StoredOrderIsOrder` | packages/accessor/src/plan.ts:205-235 | a stored operand compares with a stored value as the operand does with the value, in SQL always, in memory on well-formed text |
| `QueryPlan.InMeansTheSame` | packages/accessor/src/plan.ts:176-184 | the planned `in` has exactly the hits of the asked one, null members dropped |
| `QueryPage.OneSorting` | packages/accessor/src/types.ts:43-47 | the declared order leaves no ties: two sortings of the same rows are the same list |
| `QueryPage.FindAnswersOnePage` | packages/accessor/src/types.ts:23-47 | so a limit cuts the same page on both backends, and says alike whether there is more |
| `QueryPage.DistinctParents` | packages/accessor/src/plan.ts:98-105 | the filter with its set keeps each parent's key once, in first-seen order |
| `QueryPage.FirstSeenIsUnique` | packages/accessor/src/plan.ts:66-69 | the keys alone decide that list |
| `RowStore.VersionedStore.PackedApply` | docs/spikes/the-full-stratagems-replay-on-fake-indexeddb/measure.ts:191-221 | several blocks in one transaction leave the store the blocks leave applied one after another |
| `RowStore.VersionedStore.Mutate` | docs/spikes/the-full-stratagems-replay-on-fake-indexeddb/measure.ts:203-217 | close the live version at the block, then open the new one or none |
| `RowStore.VersionedStore.ApplyBlock` | packages/state-store-indexeddb/src/store.ts:347-412 | refused for a recorded hash or a height not above the tip, otherwise applied whole |
| `RowStore.VersionedStore.RevertTo` | packages/state-store-indexeddb/src/store.ts:633-667 | the two index walks delete what opened above the target, reopen what closed above it, and leave the live rows to match |
| `RowStore.Newest` | packages/state-store-indexeddb/src/store.ts:533-536 | the as-of cursor lands on the newest version opened at or before the block |
| `RowHistory.AsOfIsReplay` | packages/state-store-indexeddb/src/store.ts:527-539 | read as of any block, the store answers what replaying every mutation up to it on a plain map answers |
| `RowHistory.CurrentIsReplay` | docs/spikes/the-full-stratagems-replay-on-fake-indexeddb/measure.ts:191-221 | the tip is the replay of everything, and the open versions are exactly the live rows |
| `RowHistory.AsOfIsTheLiveVersion` | packages/state-store-indexeddb/src/store.ts:533-537 | the answer is the one version whose half-open range holds the block: ranges never overlap |
| `RowHistory.PackingDoesNotMatter` | docs/spikes/the-full-stratagems-replay-on-fake-indexeddb/measure.ts:184-221 | however blocks are packed the store is the same |
| `RowHistory.RevertRestoresThePrefix` | packages/state-store-indexeddb/src/store.ts:633-667 | any store a revert may leave is exactly the store that applying only the blocks up to its target builds |
| `RowHistory.EveryRunIsItsSurvivors` | packages/state-store-indexeddb/src/store.ts:347-667 | over every run of applies, refusals and reverts the store is the one its surviving blocks build, and they ascend |
| `RowHistory.CurrentPlusDelta` | packages/state-store-indexeddb/src/accessor.ts:59-68 | live rows opened by the block plus versions closed since are exactly the versions live at it, no key twice |
| `RowCounters.RevertCounts` | docs/spikes/the-full-stratagems-replay-on-fake-indexeddb/measure.ts:165-183 | the loop's three numbers: upserts above the target, keys whose version open at it was closed since, upserts in all |
| `RowCounters.RevertCountsAreExactly` | docs/spikes/the-full-stratagems-replay-on-fake-indexeddb/measure.ts:160-183 | against the revert itself: the deleted count is right if and only if no block above the target upserts a key twice, and the reopened count always is |
| `RowCounters.VersionsBeforeIsExactly` | docs/spikes/the-full-stratagems-replay-on-fake-indexeddb/measure.ts:165-183 | the version count is never short, and right if and only if no block upserts a key twice |
| `RowCounters.TwiceInABlockCountsTwo` | docs/spikes/the-full-stratagems-replay-on-fake-indexeddb/measure.ts:174-178 | a block writing one key twice counts two versions where one is stored |
| `RowCounters.FlushedBlocksCountExactly` | packages/state-store/src/mutation-context.ts:75-84 | blocks flushed from a staging area never do, so on them the counters are exact |
| `RowCounters.PredictorTracker.Track` | docs/spikes/the-full-stratagems-replay-on-fake-indexeddb/measure.ts:107-127 | the live set and the version count follow the store, and `closes` keeps the live rows in balance |
| `LeastSquares.Fit` | docs/spikes/the-full-stratagems-replay-on-fake-indexeddb/measure.ts:267-280 | the sums and the two quotients: none for a zero determinant, otherwise a solution of the normal equations with no larger sum of squared errors than any other pair |
| `LeastSquares.FitIsTheOnlyMinimum` | docs/spikes/the-full-stratagems-replay-on-fake-indexeddb/measure.ts:267-280 | and no other pair has as small a sum |
| `LeastSquares.NoDeterminantNoAnswer` | docs/spikes/the-full-stratagems-replay-on-fake-indexeddb/measure.ts:279-280 | without a determinant every pair shares its error with another |
| `StagedBlock.MutationContext.Get` | packages/state-store/src/mutation-context.ts:111-119 | a read answers the block's own writes over the store |
| `StagedBlock.MutationContext.Set` | packages/state-store/src/mutation-context.ts:120-122 | a write is seen by every later read |
| `StagedBlock.MutationContext.Mutations` | packages/state-store/src/mutation-context.ts:75-84 | what is flushed holds one mutation a key and makes the store what the handler saw |
| `StagedBlock.FlushMeansWhatWasWritten` | packages/state-store/src/mutation-context.ts:75-84 | for every sequence of writes, coalescing by key changes nothing they mean |
| `StagedBlock.FlushedInFirstTouchOrder` | packages/state-store/src/mutation-context.ts:75-84 | and what is flushed is the last write of every key touched, in first-touch order |
| `WriteHistory.ReadsSeeTheWrites` | packages/state-store/src/mutation-context.ts:11-27 | a read as of any block answers what every handler write up to it, one after another, left: through staging, flushing, versioning and the as-of read |
| `StagedList.List` | packages/state-store/src/mutation-context.ts:150-183 | the bounded listing of a block in progress is the listing of what its handler sees, rows, order, cut and truncation flag alike |
| `StagedList.BudgetSuffices` | packages/state-store/src/mutation-context.ts:142-148 | asking the store for the limit plus the staged keys cannot come back short |
| `StagedList.TruncationIsExact` | packages/state-store/src/mutation-context.ts:178-183 | and the flag is set if and only if more rows are seen than the limit |
| `ProgressDelivery.OpenAtTheLastPublish` | packages/browser/src/stateMovedAcrossTabs.ts:480-517 | with one publishing tab and in-order delivery, every end open at the last publish holds a report like it once the channel drains |
| `ProgressDelivery.AttachedSince` | packages/browser/src/stateMovedAcrossTabs.ts:570-587 | and so does an end that attached a listener later, while the publisher stays open to answer its ask |
| `ProgressDelivery.RepeatsExactly` | packages/browser/src/stateMovedAcrossTabs.ts:499-507 | a step tells a listener what it was last told already if and only if it attaches one to an end that holds a report like it; no other step does, by any number of publishers |
| `ProgressDelivery.AttachingAgainRepeats` | packages/browser/src/stateMovedAcrossTabs.ts:570-580 | attaching a listener that is still attached repeats exactly when the end has heard anything |
| `ProgressDelivery.AttachingFirstNeverRepeats` | packages/browser/src/stateMovedAcrossTabs.ts:570-580 | and a listener attached for the first time is repeated nothing |
| `ProgressDelivery.NobodyGossips` | packages/browser/src/stateMovedAcrossTabs.ts:434-445 | a report is only ever posted by a tab whose own host made it |
| `ProgressDelivery.DeliveriesDrain` | packages/browser/src/stateMovedAcrossTabs.ts:509-517 | each delivery lowers a load, answers included, so a channel left alone drains |
| `ProgressChannel.ChannelEnd.OnMessage` | packages/browser/src/stateMovedAcrossTabs.ts:480-517 | one message: news is held and told to every listener, a repeat is dropped, an ask answered with the end's own last report or with silence |
| `ProgressChannel.ChannelEnd.OnProgress` | packages/browser/src/stateMovedAcrossTabs.ts:570-587 | a listener is handed the held report, or an ask is posted |
| `ProgressChannel.ChannelEnd.PublishProgress` | packages/browser/src/stateMovedAcrossTabs.ts:554-569 | held and posted, unless closed |
| `ProgressChannel.ChannelEnd.Close` | packages/browser/src/stateMovedAcrossTabs.ts:588-596 | forgets everything, once |
| `PublishedStart.LetsGoOnce` | packages/browser/src/publishedStart.ts:416-458 | between resets the container is let go and reopened at most once, whatever succeeded, was refused or failed in between |
| `PublishedStart.LetsGoOnlyBelow` | packages/browser/src/publishedStart.ts:416-426 | and only an undemoted container of one generation strictly below the snapshot last chosen, with no reset, no other choice and no other let-go since it was |
| `PublishedStart.SwitchedIsAhead` | packages/browser/src/publishedStart.ts:436-457 | `switched` is answered with a cursor strictly above the abandoned one, itself strictly below the snapshot last chosen, and not again until a reset |
| `PublishedStart.OverBudgetExactly` | packages/browser/src/publishedStart.ts:597-616 | over budget is exactly: remaining blocks times the milliseconds of the advances that count since the container opened exceed budget times 1000 times their blocks; with no budget, never |
| `PublishedStart.BlocksAreTheDistance` | packages/browser/src/publishedStart.ts:609-610 | over consecutive advances the measured blocks are the distance covered, and more exactly when one went backwards |
| `PublishedStart.RefusalsAreRethrown` | packages/browser/src/publishedStart.ts:543-571 | once the switch was tried and until a reset, refusals and failures are thrown on, folds answer their own cursor, and nothing held changes |
| `PublishedStart.RefusedWithNothingChosen` | packages/browser/src/publishedStart.ts:416-422 | with no snapshot chosen since a reset a refusal is thrown on |
| `PublishedStart.NothingSwitched` | packages/browser/src/publishedStart.ts:543-571 | the same wherever a switch was not tried, whatever kept it |
| `PublishedStart.EstimateIsOver` | packages/browser/src/publishedStart.ts:614-615 | the quotient exceeds the budget exactly when the products do |
| `PublishedStart.Start.SwitchTo` | packages/browser/src/publishedStart.ts:416-458 | one try, one let-go, and what it answers |
| `PublishedStart.Start.Measure` | packages/browser/src/publishedStart.ts:597-616 | what is measured, and whether the rest is over budget |
| `PublishedStart.Start.AdvanceOnce` | packages/browser/src/publishedStart.ts:543-571 | one advance and the switch where it applies |
| `PublishedStart.CatchUpBudgetOf` | packages/browser/src/publishedStart.ts:271-282 | refused exactly when negative or not finite; thirty seconds by default, and otherwise what was given |
| `NftFold.EveryStreamAgrees` | examples/event-processor-nfts/src/entities.ts:89-116 | over every stream whatsoever `ownership` is the inverse of `nft`, no row is owned by the zero address, a token is owned by whoever its last transfer went to, and the counters count |
| `NftFold.FoldBlocks` | examples/event-processor-nfts/src/entities.ts:89-138 | however events are grouped into blocks, each staged and flushed, the rows are those of the events in order |
| `NftFold.OnTransfer` | examples/event-processor-nfts/src/entities.ts:89-116 | the handler, write by write, through its staging area |
| `TokenFold.ValidStreamsAgree` | examples/browser-reference/src/processor.ts:70-85 | over every valid ERC-721 stream, self-transfers included, a non-zero account's holdings are the tokens it owns and its count is how many |
| `TokenFold.OwnersAreLast` | examples/browser-reference/src/processor.ts:70-74 | a token belongs to whoever its last transfer went to, and the counter counts the transfers, over any stream |
| `TokenFold.HoldsAddUp` | examples/browser-reference/src/processor.ts:70-85 | and the counts of the non-zero accounts add up to the tokens that have an owner |
| `TokenFold.KeptExactly` | examples/browser-reference/src/processor.ts:76-84 | one transfer keeps that agreement if and only if its sender is the owner (zero for an unowned token), or the token is unowned and its sender an account with no row |
| `TokenFold.ZeroHoldsTheBurnt` | examples/browser-reference/src/processor.ts:76-84 | over every stream the zero address has a holding of exactly the tokens ever burnt, and its count is the number of burnings |
| `TokenFold.ZeroAgreesExactly` | examples/browser-reference/src/processor.ts:76-84 | and those agree with the tokens it owns if and only if no token was moved again after it was burnt |
| `TokenFold.FoldBlocks` | examples/browser-reference/src/processor.ts:70-85 | however transfers are grouped into blocks, each staged and flushed, the rows are those of the transfers in order |
| `TokenFold.OnTransfer` | examples/browser-reference/src/processor.ts:70-85 | the handler, reading its own earlier writes |
| `TokenKey.KeysReadBack` | examples/event-processor-nfts/src/entities.ts:34-41 | the display form of any id's key is its own decimal form |
| `TokenKey.KeysOrderAsIds` | examples/event-processor-nfts/src/entities.ts:27-36 | keys of ids below 10^78 compare bytewise as the ids do |
| `TokenKey.KeysAreDistinct` | examples/event-processor-nfts/src/entities.ts:34-36 | no two ids share a key, of any size |
| `TokenKey.Uint256Fits` | examples/event-processor-nfts/src/entities.ts:27-33 | every `uint256` is below 10^78 |
| `TokenKey.LongerIdsMisorder` | examples/event-processor-nfts/src/entities.ts:34-36 | one digit more and the order is lost |
| `Followers.Reported.StalledIn` | packages/cli/src/followers.ts:69-86 | over any run of cycles a generation is reported exactly when its report cannot advance and its previous one was absent or could |
| `Followers.RebuildUntilLevel` | packages/cli/src/followers.ts:55-67 | it ends on the unread stream, after the first pass with no budget stop, having reported exactly the news of all its passes |
| `ArrivalQueue.EveryRunIsSerial` | packages/cli/src/arrivalQueue.ts:22-29 | however submissions, starts and settlings interleave: settled works, then at most one running, then the waiting ones, and the shared state is what the settled works leave one at a time |
| `ArrivalQueue.WorksRunInTurn` | packages/cli/src/arrivalQueue.ts:5-29 | works run in arrival order and never two at once, and each caller gets its own work's outcome on the state it found, whatever failed before |
| `ArrivalQueue.NeverStuck` | packages/cli/src/arrivalQueue.ts:22-29 | while a work has not settled one can start or one is running |
| `ArrivalQueue.StepsLower` | packages/cli/src/arrivalQueue.ts:22-29 | and every start and settling leaves less to do |
| `ArrivalQueue.Arrivals.Arrive` | packages/browser/src/IndexerState.ts:1041-1050 | the reconfigure queue chains a work after what is queued in the same way |
| `Decode.ReparseThrough` | docs/spikes/replay-decode-cache/decode-breakdown.ts:112-130 | grouping by address, parsing each group and scattering by saved index is parsing each event in place; it throws exactly when some address has no fetcher |
| `Decode.BuildSelectorMap` | docs/spikes/replay-decode-cache/decode-breakdown.ts:150-159 | the map holds the last named member of each selector, anonymous ones never |
| `Decode.DecodeWholeAbi` | docs/spikes/replay-decode-cache/decode-breakdown.ts:138-147 | a list decodes if every event of it does, each by the first member with its selector |
| `Decode.DecodePreselected` | docs/spikes/replay-decode-cache/decode-breakdown.ts:162-175 | the same by the map, with what the map does not have unknown |
| `Decode.MatchedListsDecodeAlike` | docs/spikes/replay-decode-cache/decode-breakdown.ts:138-175 | with distinct selectors a list the map matches throughout decodes alike through either, throws included |
| `Decode.AgreeExactly` | docs/spikes/replay-decode-cache/decode-breakdown.ts:138-175 | a matched event decodes alike with every decoder if and only if the first member with its selector is the last named one |
| `Decode.SharedSelectorsChooseApart` | docs/spikes/replay-decode-cache/decode-breakdown.ts:150-159 | two members of one selector are chosen between differently |

## Left out

- Browser services: IndexedDB requests, `navigator.locks`, `BroadcastChannel`, `fetch`, timers and clocks appear as the environment's steps or as parameters; failures of a post, a transaction or a request are not modelled.
- A grant and the running of its callback are separate steps, but a callback and the host's own handler inside it are one; a handler that calls back into the candidacy is not modelled.
- The failure of the first ask to be made at all, and the bfcache, visibility events and `document` plumbing around the election.
- `Takeover`: dispose, re-initialisation and a displacement during the first `init`; the stores, the port, the auto-index loop and what `demote` reports. What makes a switch is `PublishedStart`; here any container held can be opened again at any time. Fresh starts are opaque: a container opens or not. Its opening and the rest of the fresh start are one task, since the source awaits nothing between them but promises already settled.
- The types of predicates that no type-checked caller can write are one constructor per refusal in `QueryPlan`; messages are not modelled. How a number is spelled as an id is a parameter.
- A block query's height check, cursors, claims and the revert sequence of the store, timestamps, retention, `prune`, and encoding of rows: a row is its columns.
- An abstract `Key` stands for the strings `keyOf` and `rowKey` build; `StagedList` tells an id by its prefix and its place in the order.
- `LeastSquares`, `PublishedStart`: exact reals for floating point. A zero determinant answers none, where the source divides by it.
- `update` of the staging area, which is a read and a write, and the shape of a row read back (declared fields filled with null).
- The state-moved half of the cross-tab channel, which keeps nothing; listeners that throw, or attach and detach from inside a delivery. The microtask that hands a held report to a new listener is one step with attaching.
- `ProgressDelivery.AttachedSince`: asks the publisher to stay open, because an ask to a closed tab is silence.
- Two publishing tabs: the delivery results are for one; the repeat and gossip results are for any number.
- `PublishedStart`: an advance is one step, so calls do not overlap and a `reset`, a container opened elsewhere or a demotion landing while `indexMore` or the reopening is awaited is not modelled; the index and the seed install before the boot, and how a snapshot is chosen, are the host's. `publication.ts` is left out: a loop that returns its first success, and lookups.
- `IndexerState.ts`: the promotion stamp of `advanceOnce` enters `PublishedStart` as `pointerMoved`. `whileWriting` and the auto-index loop, which decide when an advance is made, are left out, since advances are made at any time here; and so is the React plumbing, which keeps no state of its own.
- Lower-casing and checksums: an address is a number, in `Decode` with a flag for its spelling. The ABI decoder is a function of the member it decodes with; viem is not part of this model.
- `TokenFold.ValidStreamsAgree`: says nothing of the zero address, whose rows `ZeroHoldsTheBurnt` and `ZeroAgreesExactly` are about: it keeps its holding of a burnt token that is minted again.
- `Followers.RebuildUntilLevel`: that each budget stop consumes some of the stream is its requirement; the rebuild itself is not part of this model.
- `ArrivalQueue`: a work is what it makes of the state it found when it starts; works that write before they settle are not modelled.
- Bundles, Content-Security-Policy probing, hashing, workers, HTTP servers, the CLI and the measurements of the other spikes.
