# Verification of the Concord event indexer

The backend keeps a PostgreSQL projection of an on-chain escrow contract. Its indexer polls a
Soroban RPC for contract events, turns each event into one or more un-transacted SQL statements,
skips events that fail, and stores its cursor only after the page. HTTP handlers read the same
tables, register webhooks on them, and sign users in with one-time challenges. This project models
that behaviour in Dafny and proves what survives crashes, replays and interleavings.

| file | what it models |
|---|---|
| `Base.dfy` | machine integers and their casts |
| `Tables.dfy`, `Cells.dfy` | the three projected tables, one `Statement` constructor per SQL writer, and a row-by-row view |
| `Replay.dfy`, `ReplayExact.dfy`, `ReplayCuts.dfy` | which statement lists can be run again, whole or cut anywhere, without effect: exactly which |
| `Healing.dfy` | when two databases that differ come to agree: exactly when |
| `Decode.dfy` | contract values: maps, vectors, 128-bit amounts, timestamps, hex |
| `Events.dfy`, `Log.dfy` | an event's plan (its statements up to the first decoding error), and the log: a position is an event or a stretch of ledgers without events |
| `ChainEvents.dfy` | what each of the eleven contract events stands for, independently of the decoder, and that decoding recovers it |
| `Machine.dfy` | the service as a state machine: one SQL statement a step, crashes anywhere, webhook requests interleaved |
| `CatchUp.dfy`, `Draining.dfy`, `Announcements.dfy` | run-level theorems for schedules that lose no statements: convergence, what catching up costs, who is told |
| `RowRules.dfy`, `Safety.dfy`, `Traces.dfy` | run-level theorems for every schedule, lost SQL calls included |
| `Agreements.dfy` | milestones and disputes agree at the event boundaries of a log and of a run: exactly when |
| `Disorder.dfy`, `Retries.dfy` | a causal list absorbs any of its statements run beforehand, so losses in abandoned attempts do no harm |
| `StraightRuns.dfy`, `Restarts.dfy`, `PerEscrow.dfy`, `Losses.dfy` | what lost SQL calls and slid bootstraps cost: which statements, exactly when it matters, and that other escrows do not suffer |
| `Isolation.dfy`, `Registers.dfy` | independence of escrows, the ledger guard |
| `Poll.dfy`, `Indexer.dfy`, `Deliveries.dfy`, `PollRuns.dfy` | the imperative indexer over a mutable database, its specification, and its refinement of the machine |
| `Challenges.dfy`, `WebhookApi.dfy`, `Listing.dfy`, `Framing.dfy` | the API pieces with state or arithmetic of their own |

How the parts fit. `Indexer.Indexer.PollOnce` is the real loop over a mutable `Database`; its
contract equates the new rows, deliveries, cursor and count with `Poll.ProcessPage`.
`PollRuns.PollIsASchedule` shows that such a poll is a schedule of `Machine`, and `Machine` adds
what the loop cannot show: a crash between any two statements, a cursor that is not stored, a
growing log, requests in between. `CatchUp.AlwaysCatchesUp` is the main theorem about its runs and
rests on the absorption law `Replay.PartialRunAbsorbed`.

Assumptions, each written into a contract:

- The RPC log is append-only, a page is a contiguous run with at most 100 events starting right after
  the cursor or at the start ledger, and a returned cursor skips no event (`Machine.Enabled`). Paging
  tokens are positions in the log, those between events included; an event's own token points just
  past it (`Log.ValidLog`). The worker passes over a position without an event as over a failed call:
  that step does nothing.
- `CatchUp.CausalLog`: no statement of the indexed log needs a row that is absent when it runs and
  is created later in the log.
- No SQL call fails for a transient reason while its event has statements left (`Machine.LosesWork`;
  a failed lookup of webhooks is allowed), and a bootstrap that is tried again does not slide past an
  event with statements to run (`CatchUp.SteadyStart`).

The theorems in `Safety.dfy` and `Traces.dfy` need none of the last two groups. `PerEscrow.dfy` needs
them for one escrow at a time, and `Retries.dfy` allows lost SQL calls in attempts whose cursor is never
stored. Where the third group fails, `Restarts.dfy` says exactly when the tables agree with the log all
the same, for any number of lost calls, crashes and slid bootstraps in any order; `StraightRuns.dfy` says
which statements a run that never goes back has lost; `Losses.dfy` has a concrete run of each kind.
`ReplayExact.dfy` and `ReplayCuts.dfy` say exactly how much of the second group whole replays and
interrupted runs need.

Three things the code does that a reader of its comments may not expect, all modelled as they are:

- `src/indexer/mod.rs:82` stores the RPC's latest ledger beside the cursor, not the ledger of the
  last event; nothing reads it once a paging token exists.
- `unix_seconds_to_datetime` (`src/indexer/decode.rs:73-76`) casts to `i64` first, so seconds close to
  2^64 are accepted and come out before 1970 (`Decode.DateTimeRange`).
- `escrow_created` writes the escrow row before its milestones are decoded
  (`src/indexer/mod.rs:133-163`), so a malformed milestone leaves an escrow with fewer milestones.

## Model

| member | source | states |
|---|---|---|
| `CatchUp.AlwaysCatchesUp` | src/indexer/mod.rs:40-86 | After every schedule of statements, crashes, failed fetches, failed cursor stores, failed webhook lookups, repeated bootstraps that skip no statement, log growth, page sizes and webhook requests, running the log from the stored cursor on the current tables gives the fold of the whole indexed log on the empty database; idle at the end of the log, the tables are that fold. |
| `CatchUp.StepKeepsInv` | src/indexer/mod.rs:40-86 | The invariant behind it: the stored position is one from which the tables can be caught up, and mid-page the tables are those of the fetch plus the executed part of the page. Every step that loses or skips no statement keeps it, whatever tables the indexing started from. |
| `CatchUp.ReadyNow` | src/indexer/mod.rs:64-83 | In every invariant state, mid-page included, abandoning the page now would still leave tables that can be caught up from the stored cursor. |
| `Replay.PartialRunAbsorbed` | src/db.rs:81-297 | Absorption: for every database, causal statement list and cut, running the list after its cut prefix equals running the list. |
| `Replay.CausalAfterPartialRun` | src/db.rs:81-297 | A partial run leaves the list causal, so attempts can be repeated. |
| `Replay.ListsInOrderAreCausal` | src/db.rs:81-297 | A list each of whose statements finds the row it needs is causal. |
| `Replay.AttemptsAbsorbed` | src/db.rs:81-297 | Any number of attempts, each cut at its own point, followed by one full run equals the full run. |
| `Replay.ReplayWhole` | src/db.rs:81-297 | Replaying a whole causal list changes nothing. |
| `Replay.StepUnderOverwrite` | src/db.rs:105-110 | The exchange step of that proof: two databases that a statement makes equal stay so under a statement for which both have, or both lack, the row. |
| `Replay.ExecRowsMonotone` | src/db.rs:81-297 | More rows before, more rows after: no writer deletes, and no writer inserts less because of a row that is there. |
| `ReplayExact.ReplaysExactlyWhenReplayable` | src/db.rs:81-297 | For every database and every statement list, causal or not: a whole replay is harmless if and only if each statement that came before its row is superseded by a later effective one. |
| `ReplayExact.CausalIsReplayable` | src/db.rs:81-297 | Causal lists meet that condition. |
| `ReplayCuts.EveryCutAbsorbedExactly` | src/db.rs:81-297 | For every database and list: a run interrupted at any point whatever is absorbed by the full run, if and only if the list is replayable and, for each milestone and dispute row, a first insert that comes before its escrow has the content the row ends up with. |
| `ReplayCuts.CutAbsorbedExactly` | src/db.rs:81-297 | The same for one given cut: what only the retry lets in is superseded later, and creates no row with other content. |
| `ReplayCuts.RetryRunsAsKept` | src/db.rs:81-297 | Under that condition a retry does what the effective statements of the first run do. |
| `ReplayCuts.WholeReplaysAreNotEnough` | src/db.rs:257-262 | A concrete replayable list for which a cut run diverges: the first writer of a dispute wins. |
| `Healing.HealsExactly` | src/db.rs:81-297 | Two databases with the same rows come to agree under a list of statements if and only if each column on which they differ is overwritten: a status by any write of its row, evidence by a submission, a release kind by a release, an escrow by a write its ledger guard lets through on both. |
| `Healing.DropIsHarmlessExactly` | src/db.rs:81-297 | Leaving out a statement that creates no row is harmless if and only if what it changes is overwritten later. |
| `Healing.MissingRowsDoNotHeal` | src/db.rs:81-297 | A row that only one database has makes the difference permanent unless a later statement creates it. |
| `Indexer.Indexer.PollOnce` | src/indexer/mod.rs:40-86 | A stored token is asked for as the cursor, without a start ledger and whatever the latest ledger; the cursor (0, NULL) asks from max(latest - 17280, 1), and fails if the latest ledger does not come; always at most 100 events. Rows and notices afterwards are those of processing exactly the fetched page in order, the requests sent are one block per notice with one request to each of its targets, the cursor moves only past a processed page (to the RPC's own cursor, else the last event's) and only if stored, the count is the number of successful-call events, and a failed read or fetch changes nothing. |
| `PollRuns.PollEndsInAfterPoll` | src/indexer/mod.rs:40-86 | Answered with the events of a page that the machine may fetch, the running indexer's poll leaves the rows, notices, webhooks and cursor of the machine's poll, so every theorem about runs is one about this loop. |
| `PollRuns.PageOfFetch` | src/indexer/mod.rs:46-83 | The machine's request, spelled out for each stored cursor, and its new cursor, are those of the loop. |
| `Poll.FailedCallsDoNothing` | src/indexer/mod.rs:66-68 | An event of a failed contract call changes no row and sends no notice, whatever its topics and value say. |
| `Poll.SuccessfulCallsRun` | src/indexer/mod.rs:66-73 | An event of a successful call runs the statements it decodes to, and is announced, under its own token and to the webhooks of its escrow, exactly when it is recognised and none of them fails. |
| `Poll.OnlySuccessesMatter` | src/indexer/mod.rs:65-74 | A page does what its events of successful calls alone do, in the same order. |
| `Log.EntriesAreTheirEvents` | src/indexer/mod.rs:65-69 | A log entry keeps its event's token, ledger and success flag and runs the event's statements exactly when the call succeeded; a position without an event runs nothing. |
| `Indexer.Indexer.ProcessEvent` | src/indexer/mod.rs:88-241 | Rows are those of the event's plan stopped at its first foreign-key error; the result says which error, if any; one delivery batch is spawned exactly when a recognised event went through. |
| `Indexer.Indexer.ProcessCreated` | src/indexer/mod.rs:109-164 | The loop over milestones, with its early exits, leaves the escrow and exactly the milestones before the first bad deadline or failed insert. |
| `Indexer.Indexer.ProcessSubmitted` | src/indexer/mod.rs:168-193 | Nothing is written unless all fields decode; then escrow status first, milestone second. |
| `Indexer.Indexer.ProcessRaised` | src/indexer/mod.rs:218-225 | Milestone status is written even when the dispute insert then fails. |
| `Indexer.Indexer.ProcessResolved` | src/indexer/mod.rs:226-232 | An undecodable resolution writes nothing; otherwise milestone, then dispute. |
| `Indexer.Indexer.ProcessReleased` | src/indexer/mod.rs:194-203 | An approval or auto-release runs one release statement, and nothing when the milestone id does not decode. |
| `Indexer.Indexer.ProcessExpired` | src/indexer/mod.rs:204-208 | An expiry runs one status statement, and nothing when the milestone id does not decode. |
| `Indexer.Indexer.ProcessEscrowStatus` | src/indexer/mod.rs:165-217 | Funding, the two cancellations and completion run one guarded status write. |
| `Indexer.Indexer.NotifyWebhooks` | src/indexer/mod.rs:243-279 | The loop sends exactly one request to each webhook the escrow has at that moment and to no other, at its own URL, with the JSON body of this escrow and event, signed with the timestamp under that webhook's own secret; the clock is read once. |
| `Deliveries.FulfilsTogether` | src/indexer/mod.rs:64-73 | Over a page, the requests sent are one block per notice, in order, with exactly one request to each target of that notice. |
| `Deliveries.OneRequestPerNotice` | src/indexer/mod.rs:259-278 | So each webhook gets exactly as many requests as there are notices addressed to it, equal notices included. |
| `Deliveries.SentIs` | src/indexer/mod.rs:259-278 | The same counted over the requests of a poll: for each webhook, as many as the notices that have it among their targets. |
| `Deliveries.RequestsCarryNotices` | src/indexer/mod.rs:259-278 | Every request carries a notice that addresses its webhook, to the URL and under the secret of that webhook. |
| `Framing.PayloadIsInjective` | src/indexer/mod.rs:251-256 | A request body determines both the escrow and the event. |
| `Indexer.Database.constructor` | migrations/0001_init.sql:1-59 | The migrated database: no rows, cursor (0, NULL). |
| `Indexer.Database.UpsertEscrow` | src/db.rs:98-110 | In-place insert, or guarded overwrite of status and ledger only. |
| `Indexer.Database.SetEscrowStatus` | src/db.rs:130-148 | In-place guarded update; unknown escrows are left alone. |
| `Indexer.Database.UpsertMilestone` | src/db.rs:160-168 | Insert once, overwrite status; fails exactly on a missing escrow. |
| `Indexer.Database.SetMilestoneStatus` | src/db.rs:180-195 | Plain overwrite of an existing row. |
| `Indexer.Database.MarkMilestoneSubmitted` | src/db.rs:199-226 | Status, evidence and time together, on an existing row. |
| `Indexer.Database.ReleaseMilestone` | src/db.rs:230-248 | Status and release kind together, on an existing row. |
| `Indexer.Database.InsertDispute` | src/db.rs:257-262 | First writer wins; fails exactly on a missing escrow when there is no row yet. |
| `Indexer.Database.ResolveDispute` | src/db.rs:280-288 | Overwrites the resolution of an existing dispute. |
| `Indexer.Database.InsertWebhook` | src/db.rs:299-325 | Fails exactly on an unknown escrow or a used id. |
| `Indexer.Database.DeleteWebhook` | src/db.rs:337-348 | Deletes, and reports, only a row with that id and that owner. |
| `Indexer.Database.SetCursor` | src/db.rs:358-365 | Both cursor columns change together. |
| `Indexer.PlanFinishes` | src/indexer/mod.rs:108-240 | A recognised event ends in a notification under its own name unless it fails to decode; only unrecognised names are ignored, and they write nothing. |
| `Poll.PageIsExec` | src/indexer/mod.rs:64-73 | Skipping an event at its first failure leaves what running every statement of the page leaves. |
| `Poll.RunIsExec` | src/indexer/mod.rs:151-163 | For decoded plans, stopping at a foreign-key error and carrying on past it agree. |
| `Poll.CountedSnoc` | src/indexer/mod.rs:64-73 | The returned count grows by one exactly for events of successful calls. |
| `PollRuns.PollIsASchedule` | src/indexer/mod.rs:40-86 | Every poll, its cursor stored or not, is a faithful schedule of the machine that ends in the state the poll's contract describes, from the events of the page alone. |
| `Poll.PageIsItsEvents` | src/indexer/mod.rs:64-83 | Positions without events change neither rows, notices nor the cursor to store. |
| `Draining.CatchingUpCosts` | src/indexer/mod.rs:40-86 | From every state of a faithful run, mid-event or not, some faithful schedule stores exactly ceil(n / 100) cursors for the n events from the stored position on (one if there are none) and ends idle at the end of the log with the tables of an uninterrupted run; every schedule that gets there, unless its bootstrap slid past events, stores at least as many. |
| `Draining.FaithfulRunsReach` | src/indexer/mod.rs:40-86 | Every faithful run from the migrated database ends in such a state, with at most 100 events in its page. |
| `Draining.FullPolls` | src/indexer/mod.rs:64-85 | After k full polls from any such state exactly min(100 k, n) more events are behind, and the end is reached exactly when they all fit. |
| `Draining.CommitsNeeded` | src/indexer/mod.rs:78-83 | In every schedule, lossy or not, from any such state, c stored cursors bring in at most 100 c events, counted from the starting cursor or, without one, from the last bootstrap. |
| `Draining.CommitsMoveForward` | src/indexer/mod.rs:75-83 | A stored cursor never moves back, and the distance to the end of the log shrinks with every page that covers any position, empty pages with a later cursor included. |
| `Safety.AlwaysSafe` | src/indexer/mod.rs:22-86 | In every reachable state of every schedule, lost SQL calls and sliding bootstraps included: rows are consistent, every stored or pending webhook is a party's, every notice belongs to a recognised event of the log whose inserted rows exist, the notices of an attempt follow log order, requests carry exactly one of start ledger and cursor; and between any two moments nothing written once changed. |
| `Safety.StepIsSafe` | src/indexer/mod.rs:40-86 | Each of the thirteen kinds of step keeps all of that. |
| `Traces.NoticesFollowTheirStatements` | src/indexer/mod.rs:108-240 | In every run, crashes and lost calls included, behind each notice there are a begin and a later finish of its event between which exactly the event's statements executed, in order, none failing; it is addressed to the webhooks the escrow had at that moment. |
| `Traces.EventHasBegun` | src/indexer/mod.rs:88-241 | Whoever is inside an event began it in an earlier step and has executed exactly the part of its statements that is not left. |
| `Traces.TablesAreRan` | src/indexer/mod.rs:40-86 | In every run the tables are what the executed statements make of the empty ones; no other step writes them. |
| `Safety.HooksStayOwned` | src/api/webhooks.rs:17-38 | The check made before a webhook insert still holds at the insert, whatever the indexer did in between. |
| `Safety.OwnersAreParties` | src/api/webhooks.rs:17-38 | The owner of each stored webhook and of each registration on its way is the client, provider or arbitrator of an escrow that is there, and its URL starts with `https://` or `http://`. |
| `Safety.RequestSteps` | src/api/webhooks.rs:17-62 | The webhook steps of the machine are those of the service, column by column. |
| `Safety.RequestIsWellFormed` | src/indexer/rpc.rs:132-148 | A request carries a start ledger or a cursor, never both or neither, and the start ledger is between 1 and max(latest, 1) for every latest ledger. |
| `RowRules.ConsistentKept` | src/indexer/mod.rs:108-236 | Every statement the decoder can produce keeps: rows have their escrow; released implies a release kind; submitted implies a time; evidence and metadata hash set exactly with their URI; resolved exactly with a kind; bps exactly for splits; statuses parseable; amounts in the signed 128-bit range. |
| `RowRules.StatementKeepsHistory` | src/db.rs:98-262 | No statement removes a row, changes a column written at insertion, lowers a ledger or reopens a resolved dispute. |
| `RowRules.EventKeepsAgreement` | src/indexer/mod.rs:218-232 | One event, from consistent tables where disputed milestones have a dispute and resolved ones a resolved dispute: this stays so if and only if the event does not resolve a dispute nobody raised on a milestone that exists. |
| `Agreements.LogsAgree` | src/indexer/mod.rs:218-232 | For every log: the tables agree after each of its events if and only if no event, at its place, resolves what was never raised. |
| `Agreements.RunsAgree` | src/indexer/mod.rs:64-73 | For every run whose events are not interrupted, foreign-key failures, replayed pages and crashes between events included: the tables agree at every event boundary if and only if no event that begins resolves what was never raised. |
| `Agreements.CaughtUpTablesAgree` | src/indexer/mod.rs:40-86 | With crashes anywhere: a faithful run idle at the end of such a log agrees. |
| `Agreements.EventRan` | src/indexer/mod.rs:88-241 | Between the two boundaries of an uninterrupted event exactly its statements took effect. |
| `Announcements.AppliedEventsAreTold` | src/indexer/mod.rs:64-83 | Once the cursor is past an event that applies in the fold, a notice of it was enqueued, unless in the latest attempt at that very event its webhooks could not be loaded; failures at other events do not matter. |
| `Announcements.WebhooksAreTold` | src/indexer/mod.rs:239-265 | Split any faithful run in two; a webhook stored at the split and not deleted by its owner afterwards is among the targets of a notice, enqueued in the second part, of every applying event of its escrow from where the indexer stood at the split up to the stored cursor, unless in the latest attempt at that very event the webhooks could not be loaded. |
| `Announcements.DroppedEventDoesNotApply` | src/indexer/mod.rs:69-71 | An event dropped on a foreign key during any partly replayed run also fails in the uninterrupted run. |
| `Announcements.StepTells` | src/indexer/mod.rs:239-265 | Every step that loses or skips no statement keeps: all applying events behind were told, to the watched webhook if it is on their escrow, except those whose latest attempt ended without its notice. |
| `Losses.LostEventsAreNotRecovered` | src/indexer/mod.rs:69-83 | A concrete run: one transient SQL error, and the idle indexer at the end of the log never agrees with the log. |
| `Losses.SlidingStartSkipsEvents` | src/indexer/mod.rs:47-49 | A concrete run without any SQL failure: a crash before the first stored cursor and a later bootstrap skip an event for good. |
| `Losses.LossStaysLocal` | src/indexer/mod.rs:69-71 | For statement lists: dropping statements of one escrow leaves every other escrow's rows as they would have been. |
| `PerEscrow.EachEscrowCatchesUp` | src/indexer/mod.rs:69-83 | After any schedule in which no lost SQL call cuts an event of this escrow and no repeated bootstrap slides past one, whatever other escrows lose and with crashes and replays anywhere, this escrow's rows can be caught up from the stored cursor to its rows of the fold, and are those rows at the end of the log; only its own events need to be causal. |
| `PerEscrow.ScheduleShows` | src/indexer/mod.rs:40-86 | Seen from one escrow, such a schedule is a faithful schedule of the same machine. |
| `PerEscrow.CausalForEach` | src/db.rs:81-297 | A causal log is causal for each escrow, so the whole-log theorem is the special case without losses. |
| `StraightRuns.StraightRunsLoseOnlyTails` | src/indexer/mod.rs:69-83 | After any run without crashes and failed cursor stores, with any lost SQL calls, the tables are the log's statements up to the stored position minus the lost tails, each from the statement that failed on. |
| `StraightRuns.OneLossMatters` | src/indexer/mod.rs:69-83 | When one loss matters: from the point where the lost rows, if any, have been created again, the tables agree with the log at its end if and only if each column on which they differ is overwritten by a later event; a lost row that no later event creates is missing for good. |
| `StraightRuns.LossesMatter` | src/indexer/mod.rs:69-83 | The same for any number of losses, all before some position: the tables agree with the log at its end if and only if the differences the losses left at that position heal in the rest. |
| `Restarts.AnyPastHealsExactly` | src/indexer/mod.rs:40-86 | What losses, crashes and slid bootstraps cost in the end, from any idle moment of any run: when the indexer is faithful from then on and idle at the end of the log, the tables are those it found with the rest of the log run on them, and agree with the log if and only if the difference to an uninterrupted run at the resumed position heals in the rest; a row only one side has and nothing creates again keeps them apart. |
| `Restarts.SlidBootstrapMatters` | src/indexer/mod.rs:47-49 | The slid bootstrap in particular: what lay between the two starting points is made good exactly when that difference heals. |
| `Restarts.RestartRuns` | src/indexer/mod.rs:40-86 | From an idle place on, with whatever tables, a faithful indexer runs the rest of the log on them. |
| `Disorder.DisorderAbsorbed` | src/db.rs:81-297 | Any statements of a causal list, run beforehand in any order and any number of times, are absorbed by the list when its inserts of each row agree in content. |
| `Disorder.ContentsMustAgree` | src/db.rs:257-262 | A concrete causal list that raises a dispute twice does not absorb an early run of its second raise. |
| `Retries.AbandonedLossesAreHarmless` | src/indexer/mod.rs:64-83 | The catch-up theorem with lost SQL calls anywhere, as long as no attempt that lost a statement stores its cursor and the inserts of each row in the log agree in content. |
| `Isolation.OwnEventsSuffice` | src/indexer/mod.rs:101-105 | After any events, the rows of one on-chain escrow are what its own events alone make of its own earlier rows. |
| `Isolation.ChainEventsCommute` | src/indexer/mod.rs:101-163 | Events naming distinct 64-bit on-chain ids commute, although keys are cast to signed. |
| `Isolation.PlanStaysOnItsEscrow` | src/indexer/mod.rs:101-232 | Every statement of an event names the row key of its second topic and no other. |
| `Isolation.SliceOfRun` | src/db.rs:150-297 | The rows of an escrow depend only on the statements that name it. |
| `Isolation.InterleavingIrrelevant` | src/db.rs:150-297 | Two interleavings of the same per-escrow streams give equal tables. |
| `Isolation.EventsCommute` | src/db.rs:150-297 | Statement lists on different escrows commute. |
| `Base.CastsAreInjective` | src/indexer/mod.rs:101-105 | The u64 to i64 and u32 to i32 key casts lose nothing. |
| `Base.CastsAreTwosComplement` | src/indexer/mod.rs:101-105 | Each cast changes its value by a multiple of the word size and lands in the signed range, which leaves one possibility; values with a clear top bit keep theirs. |
| `Registers.HighestLedgerWins` | src/db.rs:105-109 | After any status writes the row shows the last write among those with the highest ledger, if that is not below the row's own, and is otherwise untouched. |
| `Registers.OrderIrrelevant` | src/db.rs:138-139 | Permuting writes from distinct ledgers changes nothing. |
| `Registers.SortedIsLastWriter` | src/db.rs:138-139 | In ledger order the guard is plain last-writer-wins. |
| `Registers.EscrowsAreRegisters` | src/db.rs:98-148 | Whatever else runs, an existing escrow row evolves as that register over the writes that name it. |
| `Events.EveryEventIsWellPlanned` | src/indexer/mod.rs:88-241 | Any event, malformed or not, yields statements on one escrow with legal literals and paired columns; milestones only after their escrow, a dispute insert only last, dispute statuses only beside their dispute row. |
| `ChainEvents.CreationIsDecoded` | src/indexer/mod.rs:109-164 | Any encoding of a creation, whatever the field order and extra fields, runs one escrow insert with each field in its own column, then one insert per milestone in order, stopping exactly at the first deadline out of range. |
| `ChainEvents.EventsAreDecoded` | src/indexer/mod.rs:165-232 | Any encoding of any other event runs exactly the statements that event stands for and notifies under its name. |
| `ChainEvents.TermsAre` | src/indexer/mod.rs:110-132 | The descriptive columns of an escrow are recovered from any encoding of its creation; a creation time out of range is the only failure. |
| `ChainEvents.InsertsAre` | src/indexer/mod.rs:151-163 | The milestone inserts are the longest prefix with deadlines in range, in order. |
| `ChainEvents.CreationsRun` | src/indexer/mod.rs:109-150 | From the fields by name: each goes to its own column, an empty title or URI is stored as none, a hash only under a URI. The row is written before the milestones are looked at: without the field, or with any item that does not decode, the row alone is written and the event is given up; a creation time out of range writes nothing. |
| `ChainEvents.CreationsInsert` | src/indexer/mod.rs:150-163 | Then one insert per milestone, in order, each pending under its own id with its own description, amount and deadline, up to the first deadline out of range; the event is announced only if there is none. |
| `ChainEvents.CreationsThatWriteHoldTheirFields` | src/indexer/mod.rs:110-132 | A creation that writes anything carries four addresses, two 64-bit numbers and two texts under the names of their columns. |
| `ChainEvents.EscrowEventsRun` | src/indexer/mod.rs:165-217 | The four status events, by name: which status each writes, on the escrow of the second topic, at the event's ledger. |
| `ChainEvents.MilestoneEventsRun` | src/indexer/mod.rs:194-208 | Approval, auto-release and expiry, by name: which row and which literal each writes. |
| `ChainEvents.SubmissionsRun` | src/indexer/mod.rs:168-193 | A submission sets the escrow in progress and the milestone submitted at the ledger's closing time, with evidence only under a URI that is set. |
| `ChainEvents.RaisesRun` | src/indexer/mod.rs:218-225 | A dispute marks the milestone disputed, then inserts who raised it and why. |
| `ChainEvents.ResolvesRun` | src/indexer/mod.rs:226-232 | Each of the three resolutions, by its encoding: the kind and basis points that are stored. |
| `ChainEvents.EventsThatWriteHoldTheirFields` | src/indexer/mod.rs:168-232 | An event about a milestone that writes anything carries a 32-bit milestone id and the other fields of its kind. |
| `ChainEvents.MalformedEventsWriteNothing` | src/indexer/mod.rs:88-106 | A topic or value that is not a contract value, fewer than two topics, a name that is no text or an id that is no 64-bit number: nothing is written and the event is given up; a name outside the eleven is ignored. |
| `Log.RpcLogsAreValid` | src/indexer/mod.rs:65-69 | Every RPC log whose tokens are positions is a log the theorems apply to. |
| `Decode.AmountFromParts` | src/indexer/decode.rs:46-51 | The shift-and-or of the two words, on bit patterns, equals hi * 2^64 + lo. |
| `Decode.AmountsAreExact` | src/indexer/decode.rs:46-51 | That map is a bijection onto the signed 128-bit range with an explicit inverse, and every amount fits NUMERIC(39, 0). |
| `Decode.HexIsInjective` | src/indexer/decode.rs:62-67 | Distinct byte strings have distinct hex renderings. |
| `Decode.HexIsExact` | src/indexer/decode.rs:62-67 | Two lower-case digits a byte, high half first, each the digit of its half. |
| `Decode.DateTimeRange` | src/indexer/decode.rs:73-76 | Exactly which 64-bit timestamps are accepted, which are exact and which wrap to before 1970. |
| `Decode.FindIsFirst` | src/indexer/decode.rs:92-101 | Lookup returns the first entry under the symbol and fails only when there is none. |
| `Decode.FieldOrderIrrelevant` | src/indexer/decode.rs:92-101 | With distinct fields, permuting the entries changes no lookup, found or missing. |
| `Decode.MilestoneRoundTrip` | src/indexer/decode.rs:151-158 | Any map with the four fields, in any order among other distinct fields, decodes to the milestone it encodes. |
| `Decode.MilestoneIsRead` | src/indexer/decode.rs:151-158 | Each column of a milestone comes from the field of its name; the amount is hi * 2^64 + lo. |
| `Decode.ReadMilestonesAreThere` | src/indexer/decode.rs:151-158 | A milestone is read only from a map that holds its four fields with values of those kinds. |
| `Decode.MilestonesRoundTrip` | src/indexer/decode.rs:145-160 | Decoding inverts every encoding of a list of milestones, in order. |
| `Decode.DecodesItemwise` | src/indexer/decode.rs:149-159 | The list decodes to ms if and only if each item decodes to its element. |
| `Decode.OneBadItemFails` | src/indexer/decode.rs:149-159 | The whole list is an error if and only if some item is. |
| `Decode.ResolutionsStoredFaithfully` | src/indexer/decode.rs:107-131 | Stored kinds are the three, bps accompany exactly the splits, every resolution decodes, and distinct ones are stored distinctly. |
| `Decode.ResolutionsAre` | src/indexer/decode.rs:117-130 | Each variant is stored under its own kind; a split keeps its basis points, unchanged below 2^31; what follows in the vector is of no account. |
| `Decode.OnlyResolutionsDecode` | src/indexer/decode.rs:107-131 | Exactly the three variants decode, a split only with a 32-bit number after it. |
| `Challenges.ChallengeStore.Issue` | src/auth.rs:43-54 | The new nonce is acceptable 299 seconds later and no longer after 300, every other nonce of the address is refused, and other addresses keep their challenges; the history gains the issue. |
| `Challenges.ChallengeStore.VerifyAndConsume` | src/auth.rs:58-66 | True if and only if the last operation on the address was an issue of this nonce less than 300 s ago; the history gains the verdict. |
| `Challenges.LookupIsAccepts` | src/auth.rs:58-66 | The map lookup with its expiry test is the verdict that the history alone calls for. |
| `Challenges.HoldsAfter` | src/auth.rs:43-66 | An operation that rewrites its own slot only keeps the map equal to the challenges its history leaves open. |
| `Challenges.VerificationEmptiesTheSlot` | src/auth.rs:60-65 | Right after any verification, every nonce for that address is refused. |
| `Challenges.SuccessesUseUpIssues` | src/auth.rs:43-66 | In every faithful history, successes for an address never exceed its issues, and an open challenge is one not yet used. |
| `Challenges.SignIn.Challenge` | src/api/auth.rs:22-32 | An invalid address issues nothing; a valid one gets the nonce that was issued. |
| `Challenges.SignIn.Consume` | src/api/auth.rs:51-58 | Its first half: the verdict of the history, and the challenge is gone whatever the verdict. |
| `Challenges.SignIn.Answer` | src/api/auth.rs:60-66 | Its second half, after any other requests: each accepted challenge is answered once, by at most one token. |
| `Challenges.SignIn.Verify` | src/api/auth.rs:47-67 | The handler run on its own: a token needs the challenge, the signature and the encoder to succeed. |
| `Challenges.SignIn.TokensNeverExceedIssues` | src/api/auth.rs:47-67 | In every reachable state, requests between consuming and answering included, the tokens handed to an address are at most as many as the challenges issued to it, each counted one by one. |
| `WebhookApi.RegisterWebhook` | src/api/webhooks.rs:17-38 | Stored exactly when the URL starts with `https://` or `http://`, the escrow is there, the caller is its client, provider or arbitrator, and the id is new; otherwise which of the errors comes when, and nothing is stored; ownership of all webhooks is kept. |
| `WebhookApi.ListWebhooks` | src/api/webhooks.rs:40-51 | Exactly the caller's own webhooks on that escrow. |
| `WebhookApi.DeleteWebhook` | src/api/webhooks.rs:53-62 | Only the owner deletes; for anyone else nothing changes and nothing is found. |
| `Listing.PagesCoverTheListing` | src/api/escrows.rs:28-50 | Enough consecutive pages list every escrow whose client, provider and status are those asked for, each once, in strictly descending order; a status outside the five is refused. |
| `Listing.PageIs` | src/db.rs:40-58 | One page: each id on it matches, and stands where exactly offset + i matching escrows are newer; there are limit of them unless the listing ends first. |
| `Listing.PagesAreTheFront` | src/db.rs:40-58 | The first n pages concatenate to the first n * limit ids of the listing. |
| `Listing.DescendingListsAll` | src/db.rs:47 | The ordering lists each id once, strictly descending. |
| `Listing.EffectiveLimit` | src/api/escrows.rs:45 | 50 if none is asked for, the one asked for from 1 to 200, else the nearer of the two. |
| `Listing.StatusesRoundTrip` | src/models.rs:17-42 | Parsing inverts printing both ways, and the parseable texts are exactly the statuses the indexer writes. |
| `Framing.FrameIsInjective` | src/indexer/mod.rs:290-292 | The signed bytes determine both timestamp and body, for all i64 timestamps and all bodies. |
| `Framing.DecimalIsInjective` | src/indexer/mod.rs:290 | Signed decimal printing is injective. |
| `Framing.SignPayload` | src/indexer/mod.rs:287-294 | The three updates feed the MAC exactly the frame, under the webhook's secret. |
| `Framing.FrameReadsBack` | src/indexer/mod.rs:290-292 | What stands before the first dot of the signed bytes reads back as the timestamp, and what stands after it is the body. |
| `Framing.DecimalReadsBack` | src/indexer/mod.rs:290 | A reader of decimal text returns every number that is printed; no leading zero, and a minus sign for negatives only. |
| `Framing.BodyReadsBack` | src/indexer/mod.rs:251-256 | A body is the text of a JSON object with the members `escrow_id` and `event`, and reads back as this escrow and this event. |

## Left out

- HTTP routing, extractors, configuration, tracing and the mapping of errors to status codes.
- Cryptography and library codecs: ed25519, HMAC-SHA256, JWT, base64, XDR (RFC 4506) and strkey are opaque; a value that does not decode is `None`, an address carries its strkey text, a string its rendered text.
- `challenge_message`, `verify_wallet_signature` and the JWT functions of `src/auth.rs`: the sign-in handler takes their outcomes as arguments.
- Delivery of webhooks: modelled up to "spawned"; the outcome of a request is not. The targets of a notice are a set because the query has no ORDER BY; the event's own token in a notice is bookkeeping of the model.
- Sleeping, timeouts, and the clock: times are arguments, and `updated_at`, `created_at` and `resolved_at` are not columns of the model. Nonces, ids and secrets are arbitrary arguments.
- ChainEvents.EventsAreDecoded: for data maps without repeated fields, which is how the contract encodes its structs; for repeated fields see `Decode.FindIsFirst`.
- `list_disputes`: its order has ties, so no paging claim holds for it; `get_escrow` and `list_milestones` are plain lookups.
- Column limits other than NUMERIC(39, 0), and rows written before migration 0003 added its columns.
- Indexer.Indexer.ProcessEvent: SQL calls fail here only on foreign keys; a transient failure inside an event is the step `TransientError` of the machine, and a failed load of webhooks the step `FinishEvent(false)`.
- Indexer.Indexer.PollOnce: one poll on a database nobody else writes meanwhile, with SQL calls inside events failing only on foreign keys; transient failures, interleaved requests and crashes are steps of the machine.
- CatchUp.AlwaysCatchesUp: convergence is modulo the clock columns and under the assumptions listed above; without them it is false, and `Restarts.AnyPastHealsExactly` and `ReplayCuts.EveryCutAbsorbedExactly` say when.
- Restarts.AnyPastHealsExactly: the rest of the log has to be causal from the tables found.
- Retries.AbandonedLossesAreHarmless: agreement of contents is sufficient, and needed in general (`Disorder.ContentsMustAgree`), but no exact condition is stated.
- Announcements.WebhooksAreTold: on runs that lose no statement; what a lost statement does to later events of its escrow is a matter of the tables, not of notices.
- Agreements.RunsAgree: at event boundaries of runs whose events are not interrupted; a crash between the two statements of a dispute event breaks the agreement until the replay.
- Draining.FullPolls: the server returns full pages while it can.
- Draining.CatchingUpCosts: for a state without a stored cursor the bootstrap must still resolve to where it did; the lower bound does not count events that a later, slid bootstrap never asked for.
- Listing.PagesCoverTheListing: for a fixed table; offsets stay below 2^63.
- Not claimed, because the code does not ensure it: bps of at most 10000, legal order of contract transitions, monotone milestone status during a replay, atomicity of `escrow_created`.
