# Verification of the transaction event pipeline

A Dafny model of the service that takes transaction events from a Redis stream into
PostgreSQL, with proofs of what its delivery, storage, money and read paths promise.
`dafny verify dfyconfig.toml` checks the project.

## What is modelled

**The servers.** `Streams` has every Redis command the service sends as a total function on
one record: the stream, how far it has been trimmed, the group's cursor, the pending-entries
list (PEL) and the dead-letter stream. Beside what Redis knows, the record keeps what Redis
forgets: every delivery, every dead letter ever written, every acknowledged id. `Scans` says slot by
slot what one XAUTOCLAIM and one XREADGROUP take, without naming those functions. `Ledger` is the
transactions table and its per-user aggregate.

**The machine.** `Pipeline` puts the servers and the memory of any number of workers into one
state, `Sys`, moved by one atomic command at a time. A command that fails before it takes
effect is no step. A command whose reply is lost is a step from which the worker learns
nothing. A crash is a step that forgets one worker's memory. `Legal` is what the workers' code
checks before it sends a command: it acknowledges only what it knows to be committed or
trimmed, and dead-letters only what deserves it. A *run* is a list of legal steps from the
empty system, by anybody, in any order. Every main result is about all runs.

**The code.** `Cluster` is the servers and everybody connected to them as one mutable object.
`EventQueue`, `EventProcessor`, `EventConsumer` and `ExchangeRateProvider` are classes whose
methods follow the service's methods branch by branch. Any remote call may fail or lose its reply,
and between two awaits `Interfere` lets everybody else, including the worker's own other tasks,
take any number of legal steps. Every method is proved to extend the trace by legal steps only
(`Good`), so the theorems about runs hold of the code. Stopping a worker at an await leaves a
prefix of such a trace. Each remote call is also logged (`Call`, `Remote`) with how it ended and
the state it met, and the contracts say which calls a method makes: what the code does is pinned
down, not only what it leaves true.

**The results.** `Safety` has the invariant and what follows from it for every run; `Counts` how
far delivery counts can be trusted; `Drain` the termination measure; `Confluence` independence of
order; `Overlap` when an event ends both stored and dead-lettered; `Letters` how long a dead letter
can be read; `Money`, `Reads`, `Paging`, `Retry` and `Rates` the arithmetic, the read side, the retry
schedule and the rate cache.

## Where the code and its documentation differ

The model follows the code.

- `app/queue.py:173-175` says that one XPENDING over the worker's own entries covers every
  claimed id. It asks for as many entries as were claimed, oldest first, so entries the worker
  already owned can push claimed ones out, and `app/queue.py:147` then counts these as delivered
  once. `Counts.AllExactIff` gives the exact condition, `Counts.CountsCanFallShort` a run where
  it fails. Counts never exceed the truth, and the count of the oldest pending entry is exact,
  which is enough for the backlog to drain.
- `app/queue.py:234-243` reports a missing group and a lag that Redis cannot compute as 0, which
  `scripts/load_test.py:82` takes for drained. `Drain.DrainDetectionIff` gives the exact condition,
  `Drain.MissingGroupLooksDrained` and `Drain.UnknownLagLooksDrained` runs where an unread entry is
  overlooked.
- The repository's README (lines 196-199) says no event is acknowledged without having landed somewhere. That is
  so (`Safety.AckedHasLanded`), but the dead-letter stream is trimmed too (`app/queue.py:215`), so the
  landing place is its history: `Letters.SurvivesAnyTrimIff` gives the exact condition for a letter to
  stay readable, `Letters.OldLetterIsGone` a run after which one is not. An event can also land
  twice: `Overlap.BothMeansOverdelivered` and `Overlap.StoredIsBuriedIff` say when,
  `Overlap.StoredAndDeadLettered` is a run.
- `app/api/users.py:69` clamps a page to `api_max_page_size`, which may be configured as 0: then a
  client never advances (`Paging.ZeroPageSizeNeverAdvances`). The endpoint counts before it lists, so
  an insert between the two can end a walk early (`Paging.InsertBetweenCountAndListSkips`);
  `Paging.RequestMissesIff`, `Paging.WalkMissesIff` and `Paging.WalkSkipsIff` say exactly when a row
  is skipped.
- `app/repository.py:69` speaks of a NUMERIC(24,8) column; `app/models.py:28` declares NUMERIC(24,4).

## Model

| member | source | states |
|---|---|---|
| Safety.NoEventLost | app/queue.py:102-218 | In every reachable state each entry ever published is unread, pending, trimmed, in the history of dead letters, or its event id has a committed row |
| Safety.NoLossWithinBound | app/queue.py:57-80 | An entry followed by fewer than `stream_max_len` publications has not been trimmed and so is unread, pending, dead-lettered or stored |
| Safety.NothingLostWithinBounds | app/queue.py:200-219 | If moreover some dead letter of the entry, if it has one, is followed by fewer than `stream_max_len` others, the entry is unread, pending, stored, or can be read in the dead-letter stream |
| Safety.DlqHoldsTheNewest | app/queue.py:206-217 | Over any run the dead-letter stream is the end of everything ever dead-lettered and keeps at least `stream_max_len` of it once it was trimmed |
| Safety.RecentLetterIsKept | app/queue.py:206-217 | In every reachable state a dead letter followed by fewer than `stream_max_len` others can be read back |
| Letters.SurvivesAnyTrimIff | app/queue.py:206-217 | A retained letter survives the next write whatever Redis trims if and only if fewer than `stream_max_len` letters follow it |
| Letters.OldLetterIsGone | app/queue.py:215-216 | Under any settings a legal run of `stream_max_len` + 1 poisonous entries after which the first is acknowledged, not stored, and its dead letter is gone |
| Safety.AckedHasLanded | app/queue.py:200-204 | An id that an XACK took out of the pending list has a committed row or a dead letter, even if its entry was trimmed |
| Safety.OnlyPoisonIsParked | app/consumer.py:121-131 | Every dead letter carries the payload that was published, and its reason is true: more than `max_deliveries` deliveries were made, the payload does not parse, or nobody prices its currency |
| Safety.DeliveryPartition | app/queue.py:84-128 | Without trimming, the unread entries are those past the cursor and the delivered ones split disjointly into pending and acknowledged |
| Safety.AckedForever | app/queue.py:194-198 | An acknowledged entry never becomes pending or readable again, whatever follows |
| Safety.InsertedAtMostOnce | app/repository.py:48-60 | Any run inserts an id exactly once if it makes the id appear and never otherwise |
| Safety.InsertedIsCounted | app/repository.py:48-60 | The number of insertions is the number of steps of the run that put the id into a table that had none |
| Safety.ExactlyOnce | app/processor.py:45-95 | Over any interleaving a committed row never changes, at most one step of the run inserts an id, and STORED is reported for it at most as often, across all workers |
| Safety.SummaryEqualsBooks | app/repository.py:62-73 | The aggregate recomputed from the rows equals running totals that are touched only when a row is new, so duplicates and lost replies never inflate it |
| Safety.ReportedAtMostDelivered | app/queue.py:170-192 | A reported delivery count is at least 1 and at most the deliveries made |
| Safety.LearnedIsTrue | app/consumer.py:148-200 | What a reply teaches a worker (messages, counts, committed ids, deleted ids) is true of the servers |
| Safety.LostReplyTeachesNothing | app/consumer.py:176-195 | A worker whose reply to a read, a claim or a store was lost remembers and reports exactly what it did before, and a reply teaches no other worker anything |
| Safety.StepKeepsInv | app/consumer.py:75-224 | One legal step by anybody keeps the whole invariant |
| Safety.RunKeepsInv | app/consumer.py:75-224 | So does every legal run from a state that satisfies it |
| Safety.EntryIsSomewhere | app/consumer.py:3-7 | The invariant alone places every entry: unread, pending or settled |
| StreamLaws.XAddKeeps | app/queue.py:57-80 | Publishing keeps the stream well-formed and never trims below the bound |
| StreamLaws.XReadGroupKeeps | app/queue.py:102-128 | Reading keeps the pending list, the cursor and the delivery history consistent |
| StreamLaws.XAutoClaimKeeps | app/queue.py:153-168 | Claiming keeps them consistent: counts stay equal to deliveries made and deleted ids were trimmed |
| StreamLaws.ScanFacts | app/queue.py:153-168 | XAUTOCLAIM claims only pending, untrimmed entries that are idle for long enough, and reports as deleted only pending entries that were trimmed |
| Scans.ScanExactly | app/queue.py:156-163 | From any start the walk claims a slot if and only if its entry is there and idle for long enough, fewer than the scanned number of slots are older, and fewer than COUNT of these are idle or trimmed; it drops a trimmed one under the same two limits |
| Scans.ScanAscends | app/queue.py:156-168 | The claimed and the deleted ids each come in ascending order |
| Scans.ClaimExactly | app/queue.py:153-168 | XAUTOCLAIM from `0-0` answers with exactly these ids, gives exactly the claimed slots a new owner, one delivery more and the present time, removes exactly the dropped ones, and leaves every other slot as it was |
| Scans.ReadExactly | app/queue.py:112-120 | XREADGROUP hands out the smaller of COUNT and the number of unread entries, from the first unread one on, and gives each a slot of this consumer with one delivery; nothing else changes |
| StreamLaws.XAckKeeps | app/queue.py:194-198 | Acknowledging keeps delivered ids split into pending, acknowledged and vanished |
| StreamLaws.XParkKeeps | app/queue.py:200-219 | So does dead-lettering |
| Counts.InFirst | app/queue.py:179-186 | XPENDING with a limit k answers with exactly the owned ids that have fewer than k older owned ones |
| Counts.ReportedExactly | app/queue.py:170-192 | The count of a redelivered entry is exact if and only if the worker owns fewer older pending entries than it asked for |
| Counts.AllExactIff | app/queue.py:142-150 | Claim and count taken together, all reported counts are exact if and only if no older entry the worker owns was left out of the claim |
| Counts.OldestIsExact | app/queue.py:170-192 | The oldest pending entry, once claimed, is always counted exactly |
| Counts.CountsCanFallShort | app/queue.py:173-175 | Under any settings with `batch_size` at least 1 and `reclaim_idle_ms` at least 2, a legal run of the claims the code makes after which a worker holds an entry with count 1 that was delivered twice |
| Drain.ScanFindsOldest | app/queue.py:156-163 | A claim from `0-0` always meets the oldest pending entry: it claims it if it is idle for long enough and removes it if it was trimmed |
| Drain.StepLowers | app/consumer.py:98-131 | No step but a publication raises the measure (backlog, deliveries left for the oldest, unread), and every productive step lowers it |
| Drain.DrainBound | app/consumer.py:98-131 | Over any run without publications, with any faults and any number of workers, the productive steps are bounded by the drop of the measure |
| Drain.StepsAreCounted | app/consumer.py:98-131 | The number bounded there is the number of places of the run at which a step gets something done |
| Drain.RoundIsProductive | app/consumer.py:98-131 | A reclaim round whose oldest pending entry is due is legal and gets something done, whatever legal publication-free steps others take between claim, count and dead letter, as long as they do not claim the entry again before it is idle |
| Drain.TurnIsProductive | app/consumer.py:75-131 | A turn (read while anything is unread, else wait `reclaim_idle_ms` and make a round) gets something done whenever anything is left |
| Drain.ProgressIsPossible | app/consumer.py:75-131 | While anything is left, reading is productive or, after `reclaim_idle_ms`, the oldest pending entry is due |
| Drain.BacklogDrains | app/consumer.py:75-131 | After as many turns as the measure says, of any workers and with any legal publication-free steps of the others within and between the turns, nothing is unread or pending and every published entry is stored, dead-lettered or trimmed |
| Drain.OneWorkerDrains | app/consumer.py:75-131 | In particular one worker alone drains any backlog it finds |
| Drain.OldestIsCounted | app/queue.py:170-192 | An oldest pending entry that its counter still owns is counted exactly, however long after the claim |
| Drain.SlotStays | app/queue.py:156-163 | Over any legal run too short for it to be reclaimed, the slot of the oldest pending entry stays as it is or something gets done |
| Drain.DrainDetection | scripts/load_test.py:77-85 | Pending 0 and a computed lag of 0 at one moment, as one XINFO reports them, mean every published entry is settled |
| Drain.DrainDetectionIff | app/queue.py:229-246 | Looking drained implies being drained if and only if the group exists and its lag was computed, or nothing is unread |
| Drain.UnknownLagLooksDrained | app/queue.py:240-243 | For every `stream_max_len` a reachable state that looks drained because the lag is unknown while an entry was never read |
| Drain.MissingGroupLooksDrained | app/queue.py:234-237 | Under any settings a reachable state that looks drained because the group is missing while an entry was never read |
| Confluence.TableIsDetermined | app/processor.py:45-77 | With one payload per id and one rate per currency, every row holds the id, user, amount, currency and timestamp of its event, the rate of the currency and the conversion of the amount, whoever processed it and when |
| Confluence.TableHoldsProcessed | app/processor.py:69-95 | The ids in the table are those of the processing attempts that committed, seen or unseen |
| Confluence.SameEventsSameTable | app/queue.py:70-80 | Two runs that processed the same set of events end with the same ids, rows that agree in every field but `processed_at`, and the same summary of every user |
| Overlap.BothMeansOverdelivered | app/consumer.py:121-131 | In every reachable state an entry that is stored and dead-lettered was delivered more than `max_deliveries` times, unless the row of its event id came from a payload with another currency |
| Overlap.StoredIsBuriedIff | app/consumer.py:98-131 | An undisturbed round over a due oldest entry that is stored keeps the row and dead-letters the entry if and only if it had been delivered `max_deliveries` times or more |
| Overlap.ClaimedIsBuriedIff | app/consumer.py:98-131 | The same for any pending stored entry that a claim meets: buried if and only if it had been delivered `max_deliveries` times and the worker owns fewer older entries than it claimed, or `max_deliveries` is 0 |
| Overlap.RowsAreConvertible | app/processor.py:53-56 | Every stored row has a currency that is base or priced |
| Overlap.StoredAndDeadLettered | app/consumer.py:209-216 | Under any settings a legal run of two workers, with any sufficient number of reclaims, after which one event has both a row and a dead letter |
| Queue.EventQueue.Publish | app/queue.py:57-68 | One XADD is sent; success appends exactly the payload and returns its id; a failure left no trace or the same append; trimming stays above the bound |
| Queue.EventQueue.PublishMany | app/queue.py:70-80 | Exactly one XADD per event is sent, in order, each ending on its own; those that took effect left their payloads in the stream in the order of the batch; success means all of them did |
| Queue.EventQueue.EnsureGroup | app/queue.py:84-98 | Afterwards the group exists; a new one starts at 0, so nothing published before it is skipped; an existing one is untouched |
| Queue.EventQueue.Read | app/queue.py:102-128 | One XREADGROUP is sent (none for a count below 1); a reply holds the smaller of the count and the number of unread entries, the i-th being the first unread id plus i with its published payload and count 1, each now pending for this consumer; a failure left the stream alone or delivered just the same entries |
| Queue.EventQueue.Autoclaim | app/queue.py:153-168 | One XAUTOCLAIM is sent; if it took effect, an id is claimed if and only if it is pending, not trimmed and idle for long enough, fewer than the scanned number of slots are older, and fewer than `count` of these are idle or trimmed; a trimmed id is deleted under the same two limits; both lists ascend, and every other slot stays; a failure left the stream alone or claimed just the same |
| Queue.EventQueue.DeliveryCounts | app/queue.py:170-192 | One XPENDING is sent, none for no ids; each message gets its published payload and the deliveries of its slot if this consumer owns it and fewer older ones than it asked about, else 1; never more than were made; the stream is untouched |
| Queue.EventQueue.ClaimStale | app/queue.py:130-151 | The claim is sent and, if it brought anything, the count; if both replied there is one message, with the count reported, for exactly each slot the claim took over and one deleted id for exactly each it dropped, both ascending, whatever others do in between; otherwise it fails |
| Queue.EventQueue.Ack | app/queue.py:194-198 | Removes exactly the given ids from the pending list, counts those that were there, and leaves the stream alone; an empty list sends nothing |
| Queue.EventQueue.DeadLetter | app/queue.py:200-219 | All or nothing: the dead letter is the newest in the stream (given a positive `stream_max_len`) with payload, reason, id and count, and the entry stops being pending, or nothing happened |
| Queue.EventQueue.Stats | app/queue.py:229-246 | Three queries, three moments: the length is the number of entries not trimmed at the first, the number of dead letters that of the second, pending and lag those of the third, unknown lag and missing group read as 0; if the group exists and its lag was known, a report that looks drained means every entry is settled at the third moment |
| Queue.EventQueue.PickGroup | app/queue.py:234-243 | The loop over the groups reports the last group of the name, 0 if there is none or its lag is unknown |
| Processor.EventProcessor.Store | app/processor.py:79-95 | True exactly when this call wrote the row it was given, field by field that of the event; the table gains exactly this row or, if its id is known, stays as it is; a failure may come after the commit took effect |
| Processor.EventProcessor.Process | app/processor.py:45-77 | A normal return means the row is committed; STORED means it was absent at every earlier moment and now holds the id, user, amount, currency and timestamp of the event and the conversion of its amount at a rate the source returned for that currency; each transient error is one failed store or one outage of the source; a permanent error is a currency the source does not know |
| Processor.EventProcessor.ProcessWithRetry | app/consumer.py:167-175 | The attempts follow the retry schedule and each is witnessed by the remote calls it made; a normal return means the row is committed; STORED only if the row was in the table at no earlier moment, so never after an unseen commit; the id is inserted at most once from start to end by anybody |
| Consumer.EventConsumer.HandleOne | app/consumer.py:162-207 | The remote calls are those of the branch taken: what does not parse is dead-lettered and nothing else is sent; otherwise the scheduled attempts, then a dead letter after a permanent error and nothing after any other; the id comes back exactly after a normal return, and then its row is committed |
| Consumer.EventConsumer.Conclude | app/consumer.py:176-200 | Each way processing can end selects its branch: hand the id back, send one dead letter with a true reason, or send nothing |
| Consumer.LeftAlone | app/consumer.py:182-195 | A message left pending had nothing but store attempts sent on its behalf, and a dead-lettered one nothing else before its dead letter |
| Consumer.EventConsumer.HandleBatch | app/consumer.py:148-160 | Every message is handled by the calls of its own handling (one message after the other, where the source gathers them); after all of them one XACK of exactly the processed ids is sent, and nothing if there are none; if it was answered none of them is pending |
| Consumer.DoneIdsAre | app/consumer.py:158 | The acknowledged ids are exactly those whose processing returned normally |
| Consumer.EventConsumer.DeadLetter | app/consumer.py:218-224 | Success means a dead letter exists and the entry is no longer pending; a failure is swallowed |
| Consumer.EventConsumer.ConsumeTurn | app/consumer.py:75-96 | One read is sent; if it replied, the next unread entries are handled, all of them and in order, and each is pending or settled afterwards; if not, nothing else is sent |
| Consumer.EventConsumer.ClaimAndForget | app/consumer.py:104-115 | The messages are those of the claim; the ids reported as deleted were trimmed, are acknowledged by one XACK and not pending if it was answered; a failure of any command ends it |
| Consumer.EventConsumer.BuryOverdelivered | app/consumer.py:121-129 | One dead letter is sent for each message counted above `max_deliveries`, in order, and nothing else; the others are kept in order |
| Consumer.EventConsumer.ReclaimTurn | app/consumer.py:98-131 | If claiming went well every claimed message is buried or handled, in the calls that were sent; otherwise nothing more is sent; in every case each is pending or settled |
| Consumer.ReclaimTurnGetsSomethingDone | app/consumer.py:98-131 | A turn as the code makes it over a due oldest pending entry contains a productive call: the claim, or else the dead letter if others leave the entry alone meanwhile |
| Consumer.ConsumeTurnGetsSomethingDone | app/consumer.py:75-96 | So does a turn whose read takes effect while anything is unread |
| Consumer.BusyTurnsAreBounded | app/consumer.py:75-131 | Over any stretch of an execution without publications, no more of a worker's turns get something done than the measure of the state at its beginning allows |
| Consumer.BusyTurnsAreCounted | app/consumer.py:75-131 | The number bounded there is the number of turns with a call that took effect and got something done |
| Consumer.CallsAreSteps | app/consumer.py:75-131 | The productive calls of a worker's log are different productive steps of the run |
| Consumer.EventConsumer.Run | app/consumer.py:57-71 | What the consumer sends is the group creation and then the calls of its turns, each a whole consume or reclaim turn with steps of others within and between them; if the group could not be created there are none; without publications the turns that get something done are bounded by the measure at the start; at any stop every published entry is unread, pending or settled |
| Consumer.HeldIsSafe | app/consumer.py:3-7 | What a worker holds is a published entry that is pending or settled, however many others hold it too |
| Clusters.Cluster.Interfere | app/consumer.py:66-70 | While a worker waits at an await, others and its own other tasks take legal steps only, and nothing it knew becomes false |
| Clusters.Cluster.Send | app/consumer.py:3-7 | A remote call fails without effect, or takes effect with or without its reply, and is logged with the state it met at its place in the run |
| Clusters.Cluster.InsertedOnceSince | app/processor.py:26-35 | Between any two moments of an execution an id is inserted at most once |
| Ledger.InsertAddsToAggregate | app/repository.py:62-73 | A new row adds its amount and one to the aggregate of its user only; a known id changes nobody's |
| Reads.SummaryIsAggregate | app/repository.py:62-73 | The final normalisation changes nothing while the total fits 28 digits, and fails exactly when it does not |
| Reads.RowsArePriced | app/processor.py:55-68 | In every reachable state each row holds the conversion of its own amount at its own rate |
| Reads.RowsComeFromEntries | app/processor.py:59-69 | In every reachable state each row stands under its own id and holds the id, user, amount, currency and timestamp of the event that some published entry parses to |
| Reads.SumDrift | app/money.py:5-8 | A sum over n rows is within n times 0.00005 of the exact sum of amount times rate |
| Reads.SummaryDrift | app/money.py:5-8 | The same for the total of any user in any reachable state, if the amounts and rates of all rows of that user are in the ranges of the conversion |
| Money.RoundHalfUpIsNearest | app/money.py:11-13 | The rounding formula gives the nearest multiple, of two equally near ones the one away from zero |
| Money.NearestIsUnique | app/money.py:11-13 | There is only one such multiple |
| Money.DigitsFit | app/money.py:30 | A number has at most k digits if and only if it is below 10^k |
| Money.ProductIsExact | app/money.py:30 | For amounts of at most 20 digits and rates below 10^4 with at most 8 digits the product is not rounded by the 28-digit context |
| Money.MultiplyRoundsOnce | app/money.py:30 | For all arguments the product is exact below 10^28; otherwise it is rounded once, to the nearest 28-digit value, of two equally near ones the one with an even last digit |
| Money.RoundHalfEvenIsNearest | app/money.py:30 | The rounding of the context gives the nearest multiple, of two equally near ones the even one |
| Money.UnitsAreNearest | app/money.py:11-13 | For all values quantising is exact if there are at most four decimals and otherwise one rounding half away from zero |
| Money.ConversionAnswers | app/money.py:16-30 | For all arguments which error comes and when: not finite, then rate not positive, then more than 28 digits; otherwise the quantised product |
| Money.ConversionIsNearest | app/money.py:16-30 | For such arguments conversion succeeds, is one correct rounding of the exact product, and fits NUMERIC(24,4) |
| Money.ConversionIsOdd | app/money.py:16-30 | Negating the amount negates the result |
| Money.ConversionIsMonotone | app/money.py:16-30 | A larger amount never converts to less |
| Money.ConversionDrift | app/money.py:5-8 | One stored amount is within 0.00005 of the exact product |
| Paging.RowAtPosition | app/repository.py:112-117 | Each row stands in the listing at the number of rows that come before it |
| Paging.PositionOfRow | app/repository.py:112-117 | Nothing but matching rows is listed, each once |
| Paging.PageHoldsItsPositions | app/api/users.py:69-82 | On one table a page holds exactly the rows at positions from the offset up to the page size, which is the limit given (or the default) but at most the maximum, and `has_more` is true exactly if rows remain |
| Paging.PagesTile | app/api/users.py:69-82 | A walk over a fixed table ends; its pages put together are the listing in order, each row once; all but the last are full |
| Paging.ListingTiles | app/repository.py:111-117 | For one table the pages together hold each row of the user with `from` <= timestamp <= `to` exactly once, newest first with the greater id first among equals |
| Paging.EndpointAnswers | app/api/users.py:63-82 | Whatever the two statements see: refused if and only if `from` is later than `to`; else the limit is the one given (or the default) but at most the maximum, `total` counts the rows of the user with `from` <= timestamp <= `to` in the first table, the items are such rows of the second, as many as the page holds or remain, newest first with the greater id first among equals |
| Paging.EndpointWalk | app/api/users.py:60-82 | Following `has_more` from offset 0 over one table a row is returned if and only if it is in the table, of that user, and `from` <= timestamp <= `to`; newest first, each once |
| Paging.ZeroPageSizeNeverAdvances | app/api/users.py:69 | Before the end, a page makes no progress and still reports more if and only if the page size is 0 |
| Paging.NoRowSkipped | app/api/users.py:71-82 | If the table only grows and the last request counts and lists the same rows, the walk collects every row that was at or after its offset at the start |
| Paging.WalkCollectsEverything | app/api/users.py:71-82 | If the last request counts and lists the same rows, a walk from offset 0 collects everything that was there when it began |
| Paging.RequestMissesIff | app/api/users.py:71-74 | A request misses a row it has counted at or after its offset if and only if so many newer rows arrive between its count and its listing that they push it off the page |
| Paging.WalkSkipsNothingIff | app/api/users.py:69-82 | A walk over a growing table collects everything that was there when it began if and only if it collects the oldest such row |
| Paging.WalkMissesIff | app/api/users.py:69-82 | A walk misses a row that was there when it began if and only if the row is on none of the earlier pages and enough newer rows arrive between the last count and the last listing to push it off the last page |
| Paging.WalkSkipsIff | app/api/users.py:69-82 | So it skips anything if and only if that happens to the oldest such row |
| Paging.InsertBetweenCountAndListSkips | app/api/users.py:71-74 | A newer row inserted between the count and the listing ends the walk early: a row present at the start is never returned |
| Paging.MatchingGrows | app/repository.py:75-88 | In every run the rows that match a query only grow, so the snapshots of a walk are as assumed |
| Paging.MatchingIsOrderable | app/repository.py:106-117 | In every reachable state a collation that tells ids apart orders the rows of any query totally |
| Retry.BackoffDelay | app/retry.py:16-26 | An attempt below 1 is refused; otherwise the delay lies between 0 and the capped exponential ceiling |
| Retry.CeilingDoubles | app/retry.py:25-26 | The ceiling starts at `base_delay` and doubles with each attempt until it reaches `max_delay` |
| Retry.WaitAfter | app/retry.py:50-68 | A wait follows an attempt if and only if its outcome is transient and it is not the last allowed |
| Retry.RetryTransient | app/retry.py:29-71 | For every outcome sequence the result is that of the first attempt that is not transient within `max_attempts`, else of the last; waits and `on_retry` calls each number calls minus one |
| Retry.SettlesOnce | app/retry.py:49-71 | Every outcome sequence determines the number of calls |
| Retry.TotalWait | app/retry.py:25-26 | The total wait is at most the number of waits times `max_delay` and at most `base_delay` times 2^waits - 1 |
| Rates.RunKeepsCacheOk | app/rates.py:95-151 | Over any run of hits, misses, expiries and failures everything cached was fetched for the currency of its key no later than it was written |
| Rates.CacheAgreesWithSource | app/rates.py:95-151 | From an empty cache, a live entry is a rate the source returned for that currency, written less than the time to live ago |
| Rates.CacheIsUnobservable | app/rates.py:95-127 | With a constant source a cached rate is the rate the source would return |
| Rates.RateService.Fetch | app/rates.py:47-68 | A success is recorded as an answer for a known currency; an unknown currency is unknown to the source; failures record nothing |
| Rates.ExchangeRateProvider.ReadCache | app/rates.py:129-143 | One GET is sent; a hit is what is live under the key `rate:` and the code, younger than the time to live, and parses; a failed read and a corrupt entry are a miss |
| Rates.ExchangeRateProvider.WriteCache | app/rates.py:145-151 | One SET of exactly this rate under this currency is sent; a failure, as with any time to live below 1, is swallowed |
| Rates.ExchangeRateProvider.GetRate | app/rates.py:95-127 | USD is 1 without a call, and for any other code of capitals every call names that code; a lookup reads the cache as it was at a moment of this call and answers with a live entry, else asks the source once and fills the cache; a success is a rate the source returned for that currency, with a constant source its quote; an unknown currency is unknown to the source |
| Rates.LookupByName | app/rates.py:102-106 | A lookup by the upper case of the code is one by the code itself if it is made of capitals, and the dollar alone needs none |
| Prelude.CapitalsStay | app/rates.py:102-103 | A code of capitals is its own upper case, and is the base currency if and only if it is `USD` |
| Pipeline.ConvertibleByName | app/rates.py:21-68 | Of the codes of capitals exactly `USD` and those the source prices convert |

## Left out

- Entry ids are positions in the order of publication; their millisecond form and clock are not modelled.
- asyncio scheduling, the semaphore, the stop event, signals and sleeps: steps of other tasks may fall between any two awaits, and the loops stop after any number of turns.
- `asyncio.gather` over a batch is a loop with interference; the concurrency of its tasks is that interference.
- FastAPI wiring, HTTP status codes, health and metrics endpoints, logging, Prometheus counters, the load generator's traffic.
- JSON encoding and decoding: parsing is an arbitrary partial function of the payload, so a published event need not parse again (`app/schemas.py:34-44`).
- Text of decimals: parsing and printing are taken to round-trip; negative zero, the exponent limits of the decimal context and amounts written with more than four decimals are not in the ranges of `Money`.
- The Redis 6 reply of XAUTOCLAIM, and XINFO on a stream that does not exist.
- How many entries an approximate trim drops and how many slots one XAUTOCLAIM examines: any number Redis may choose.
- Insert and commit of one row are one atomic step; SQL construction and dialect dispatch are reduced to their result, with the plain INSERT as one extra branch.
- Column types: a conversion that fits NUMERIC(24,4) is proved to fit, but the rounding of a stored rate to NUMERIC(24,10) is not modelled.
- Floating point in the retry delays: real numbers are used.
- `str.upper` is modelled on ASCII letters.
- Engine and pool singletons, worker startup, configuration loading.
- Drain.RoundIsProductive: a round during which the oldest entry becomes idle again and is claimed by another task is not covered; that claim may itself have been the productive step.
