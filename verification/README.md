# A model of the digital-estate server

The server is a dead man's switch. While an owner logs in or uses the API nothing happens; when the
owner has been silent for as long as the last rung of a trigger ladder says, a scheduler creates
inheritance events that hand assets, or everything that is left, to inheritors. An inheritor claims
an event with a key and an access code and receives wrapped key material; an owner who logs in again
takes back what is still pending, or claimed less than 72 hours ago.

The project models that switch and the parts of the server around it, and proves what they keep.

| file | what it models |
|---|---|
| `Base.dfy`, `Text.dfy` | optional values, two facts about finite sets; white space |
| `Estate.dfy` | tables, queries and single statements |
| `Plain.dfy` | what the rules speak of, said over rows and seconds without queries or functions of the model |
| `Inheritance.dfy` | `triggerInheritance` as a function, against an independent account of who is entitled to what |
| `Escalation.dfy` | the scheduler pass: ladders, levels, the last rung, coverage |
| `Handlers.dfy` | login, claim, heartbeat, toggle; the life of an event |
| `Server.dfy` | the same handlers as methods that change the tables statement by statement |
| `Runs.dfy` | runs of any length with each handler as one step |
| `Interleaving.dfy` | runs with each SQL statement as one step, any number of claims and logins in flight |
| `LostUpdates.dfy` | the stage over those runs: the one move that uncovers an open event |
| `Release.dfy` | the state of an event when its key leaves the server |
| `Connections.dfy` | the same runs on a pool of connections, and what one connection does to them |
| `Preview.dfy` | the inheritance preview, and when it tells the truth about a trigger |
| `RateLimit.dfy` | the sliding-window limiter against a specification that remembers every hit |
| `Migrations.dfy` | statement splitting and the migration runner with failures, crashes and restarts |
| `Ladders.dfy`, `LadderStore.dfy` | trigger ladders and bindings: integrity over runs; the handlers |
| `RoundRobin.dfy` | round robin with failover, for mail and SMS |
| `Rebind.dfy` | the rewriting of `?` placeholders into `$1`, `$2`, … |
| `AdminLock.dfy` | the failure lock of administrator logins |

Times are whole seconds, as the server stores them; the limiter counts nanoseconds. Identifiers are
unbounded integers. A query result is a snapshot of the tables at the moment the query is issued.
`Estate.Config` holds everything the scheduler only reads (assets, inheritors, bindings, ladders); in
runs it may be replaced by any other configuration at any time.

## What does not hold, and exactly when it does

- An inactive stage means that nothing of the owner is pending or still reversible while handlers are
  atomic (`Runs.StageSoundAlways`), but not at statement granularity: a login can read the stage
  before the scheduler or a claim sets it, and reset it afterwards (`Interleaving.StageRaceExists`).
  Over any interleaving every open event stays covered, by its owner's stage or by a thread that is
  about to set the stage or to reverse, exactly when no login makes a harmful lost update
  (`LostUpdates.CoveredIff`); a run without lost updates that comes to rest is sound
  (`LostUpdates.StageSoundAtRest`).
- On SQLite, the default, the pool has one connection (`server/db.go:289`), and the category loop of a
  trigger issues queries while its own cursor holds it (`server/scheduler.go:260-285`). A trigger ends
  exactly when the pool has a second connection or nobody is entitled to an asset through its category
  (`Server.CompletesIff`, failing input in `Server.CategoryNeverHandedOver`); once it is in that loop
  with such an asset ahead it never leaves it, and no statement of any handler takes effect again
  (`Connections.NeverEnds`, `Connections.LeavesIff`). The results about whole triggers and scans
  (`Inheritance.*`, `Escalation.*`, `Preview.PreviewTruthful`, and what `Runs` and `Interleaving` say
  about scans) therefore describe a pool of at least two connections (`Connections.Unhindered`), or
  triggers that end. What no run may do holds on any pool (`Connections.SafeOnAnyPool`).
- A claim that takes its event does not always answer with a key: for an asset without a wrapped key it
  marks the event claimed and answers with an error, and no later claim of the event succeeds
  (`Handlers.ClaimOutcome`, `Runs.ClaimWithoutKey`).
- A key may leave the server for an event that is already reversed, when a login runs between the
  claim's update and its answer; the event is claimed at that moment exactly when no login took it back
  in between (`Release.ReleasedIff`, `Release.KeyOfReversedEvent`).
- The preview shows the first binding in order whatever its `trigger_days`, and shows no user-level
  heir when there are no active assets. It agrees with the trigger exactly when every shown binding
  is met and the owner has an active asset or no inheritor (`Preview.PreviewRule`; failing inputs in
  `Preview.UnmetShown` and `Preview.NoAssetsShown`).
- The per-ladder lists partition a user's bindings exactly when no binding names the global ladder
  by its id, which the binding handlers accept (`Ladders.ListsPartition`, `Ladders.BindingUnlisted`).
- On MySQL a migration run that stops inside a file leaves statements that the next run repeats; the
  schema is right exactly when no run stopped inside a file (`Migrations.PrefixOnce`,
  `Migrations.StatementRepeated`).
- Rewritten placeholders are read as they were meant, and can be undone, exactly when no `$` or `?`
  stands directly before a digit (`Rebind.RebindMeans`, `Rebind.RebindUndone`; failing input in
  `Rebind.DigitSwallowed`).
- Purging an asset sets the `asset_id` of its events to NULL, which makes them user-level events. An
  event made for one asset then answers with the master key (`Handlers.PurgedAnswersMasterKey`), and
  live events stay unique exactly when no owner has live events for both
  (`Handlers.PurgeKeepsUniqueIff`; failing input in `Runs.PurgeBreaksUnique`).
- The administrator lock allows five failed comparisons in any interval shorter than five minutes;
  over exactly five minutes, both ends included, ten are possible (`AdminLock.TenInFiveMinutes`).

Where code and documentation disagree the model follows the code: a stage may go from `claimed` back
to `triggered` when another event is created (the comment at `server/scheduler.go:335-336` says it
only moves forward); the general API limit is 300 a minute (`docs/architecture.en.md:154` says 120);
for a sensitive endpoint the verdict of the strict window replaces the general one
(the comment at `server/rate_limit.go:124` says that they add up); ladders have two rungs
(`docs/architecture.en.md:60` describes four).

## Model

| member | source | states |
|---|---|---|
| Estate.AppendKeepsUnique | server/scheduler.go:234-244 | inserting an event keeps "at most one live event per owner and target" if and only if the count query before it found none |
| Estate.ByPrioritySorted | server/scheduler.go:202 | the modelled ORDER BY yields (priority, id) order |
| Estate.FirstInheritor | server/scheduler.go:320-326 | the heir chosen belongs to the owner, no other heir of the owner precedes it, and there is none only if the owner has none |
| Estate.UserHeir | server/scheduler.go:307-330 | the user-level heir: the owner's default inheritor whenever that id is one of the owner's inheritors, else the owner's first in (priority, id); missing only if the owner has none |
| Inheritance.AssetRowsMeaning | server/scheduler.go:198-202 | the joined rows are exactly those of bindings with an heir whose asset is active and the owner's |
| Inheritance.FirstMetGoverns | server/scheduler.go:198-273 | of both queries' rows, the first met row of an asset is that of the binding that governs it: least in (priority, id) among the met asset bindings, or, for an asset without any, among the met bindings of its category |
| Inheritance.CategoryPassIsAssetPass | server/scheduler.go:260-285 | marking category assets as bound creates the same events as relying on the count query alone, and marks exactly the assets with a met row |
| Inheritance.BoundTest | server/scheduler.go:287-297 | comparing the number of bound assets with the number of active ones decides whether every active asset is covered, although only cardinalities are compared |
| Inheritance.AssetAllocation | server/scheduler.go:227-286 | each single-asset event goes to the inheritor of the governing binding; an asset gets one exactly when some binding governs it and none was live |
| Inheritance.UserAllocation | server/scheduler.go:287-331 | one more, user-level event exactly when there is no active asset or an uncovered one, none is live, and there is an heir; it goes to the heir of `Estate.UserHeir` |
| Inheritance.ExactAllocation | server/scheduler.go:195-331 | exactly which events a trigger creates, to whom, for any days and any existing events |
| Inheritance.TriggerRule | server/scheduler.go:195-331 | the same over rows alone: a trigger only appends; an active asset gets an event exactly when a binding decides about it and none is alive, to that binding's inheritor and with their code; one for everything exactly when there is no active asset or one left over, none is alive, and there is an inheritor: the default one, or else the first in (priority, id) |
| Inheritance.TriggerIdempotent | server/scheduler.go:195-331 | repeating a trigger with the same days changes nothing |
| Inheritance.TriggerMonotone | server/scheduler.go:195-331 | with more days no asset loses its own event; only the user-level one can become unnecessary |
| Inheritance.TriggerKeepsUnique | server/scheduler.go:234-306 | a trigger never gives an owner two live events for one target |
| Inheritance.Coverage | server/scheduler.go:227-331 | for an owner with an heir, an active asset ends a trigger with neither an event of its own nor a user-level one exactly when it waits for unmet days of its own bindings, neither was live before, and no asset is uncovered |
| Escalation.TriggersAtLastRung | server/scheduler.go:164-186 | for a ladder of any shape, inheritance starts exactly when the last rung is reached |
| Escalation.LevelCountsRungs | server/scheduler.go:128-176 | on an increasing ladder the reported level is the number of rungs crossed |
| Escalation.OverdueInSeconds | server/scheduler.go:117-126 | an owner is overdue exactly from the second on in which the last rung of their own ladder, or of the default one if they have none, is reached; a day is 86400 seconds |
| Escalation.LevelRule | server/scheduler.go:169-178 | the stored level becomes the number of the highest rung reached, capped below the last, and is never lowered |
| Escalation.NoLevelBefore | server/scheduler.go:164-168 | before the first rung nothing changes |
| Escalation.ScanRowsGrows | server/scheduler.go:157-187 | a scan only appends pending events, and only for owners whose last rung is reached |
| Escalation.ScanRowsKeepsUnique | server/scheduler.go:157-187 | a scan over any users keeps live events unique |
| Escalation.ScanSpares | server/scheduler.go:131-188 | a scan creates nothing for an owner who is below the last rung of their own (or the default) ladder, counted in seconds, was never seen, or is turned off |
| Escalation.ScanCoverage | server/scheduler.go:131-188 | from the second on in which an enabled owner with an inheritor reaches the last rung, a scan leaves each active asset with an event of its own or one for everything alive, unless all its own bindings wait for trigger days |
| Handlers.EvolvesTransitive | server/auth.go:369-373 | the lawful changes of an event compose: pending to claimed or reversed, claimed to reversed before its deadline, which is 259200 seconds after the claim |
| Handlers.FinalAfterDeadline | server/auth.go:367-373 | a claimed event whose deadline has passed never changes again |
| Handlers.LoginExact | server/auth.go:358-374 | a login sets the stage, the level and the last login of the owner's row and no other field of anything; unless the stage was inactive it reverses exactly the owner's events that are pending, or claimed with their deadline to come |
| Handlers.LoginSettles | server/auth.go:358-378 | after a login nothing of the owner is pending or reversible; the owner's row keeps its switch, and all other rows, the configuration and the clock are untouched |
| Handlers.TouchExact | server/middleware.go:55-63 | the heartbeat records the request exactly when the recorded login is missing or more than 43200 seconds old, and changes nothing else |
| Handlers.ClaimOutcome | server/inheritance.go:263-333 | a claim takes its event exactly when the code is right and the event pending: it is then claimed now, reversible for 259200 seconds, and its owner is in the claimed stage; nothing else changes. It answers with a key exactly when, moreover, the event is for everything or the asset has a wrapped key, with the key of what it hands over |
| Handlers.ReversedWithin72Hours | server/auth.go:367-373 | after a claim that took its event, a login of the owner any number of seconds later reverses it if and only if that is less than 259200 |
| Handlers.PurgedAnswersMasterKey | server/recycle.go:189-194 | after a purge an event made for that asset answers with the owner's master key |
| Handlers.PurgeExact | server/recycle.go:189-194 | a purge changes the target of that asset's events and nothing else of any event |
| Handlers.PurgeKeepsUniqueIff | server/recycle.go:189-194 | a purge keeps live events unique exactly when no owner has live events both for the asset and for everything |
| Server.CompletesIff | server/scheduler.go:260-285 | on a pool of any size a trigger ends exactly when there is a second connection or no active asset without bindings of its own is decided about by a binding of its category |
| Server.CategoryNeverHandedOver | server/db.go:288-289 | an owner whose only asset is bound through its category: on one connection nothing is ever created |
| Server.Store.TriggerInheritance | server/scheduler.go:195-331 | the loops, counts and early returns compute `Inheritance.Trigger` if the trigger ends; it ends exactly when the pool allows it, and otherwise stops after the asset-level events with every connection held |
| Server.Store.BindAssets | server/scheduler.go:227-245 | the loop over asset bindings creates the events of the rows in order and returns the assets they bind |
| Server.Store.BindCategories | server/scheduler.go:246-286 | the loop over category rows under its open cursor: events and bound assets, or, on one connection, a wait that never ends as soon as a row is met for an unbound asset |
| Server.Store.ProcessEscalation | server/scheduler.go:131-188 | the walk over the inactive users computes `Escalation.Scan` for any row order, or stops for ever in the first trigger that does not end |
| Server.Store.ProcessRow | server/scheduler.go:157-187 | one user: last rung crossed, level, trigger, and whether it ends |
| Server.Store.UserLadderDays | server/scheduler.go:117-126 | the days of the user's own ladder, or the default ones if there is none |
| Server.Store.HandleLogin | server/auth.go:358-374 | reads the stage, resets the owner, reverses what the old stage calls for |
| Server.Store.HandleClaim | server/inheritance.go:263-333 | the checks, the conditional update with its row count, the stage and the key |
| Runs.StageSoundAlways | server/auth.go:358-378 | with atomic handlers, in every reachable state an inactive stage means that every event of the owner is reversed, or claimed with its deadline passed |
| Runs.LoginAlwaysSettles | server/auth.go:358-378 | after a login at any point of any run nothing of the owner is pending or reversible |
| Runs.ReversalLaw | server/inheritance.go:292-303 | over whole runs: after a claim took an event, the event is taken back if and only if the owner logs in less than 259200 seconds after the claim; otherwise it stays exactly as claimed |
| Runs.SilenceHandsOver | server/scheduler.go:131-188 | the switch fires: after any run in which an enabled owner with an inheritor gives no sign of life until the last rung, the next scan leaves each active asset with an event of its own or one for everything, unless it waits for trigger days |
| Runs.StepFields | server/auth.go:366 | which action changes which field of which user's row: a login changes last login, stage and level, a request the last login, a scan stage and level, a claim the stage, a toggle the switch; nothing else does |
| Runs.EnabledAsAsked | server/settings.go:135-155 | in any run the switch is as the owner last asked, else as it was at first |
| Runs.HeartbeatBound | server/middleware.go:49-63 | an owner seen at most G seconds before every scan, whose ladder's last rung is not reached in G plus 43200 seconds, never has an event created, in any run and for any ladder |
| Runs.OffSpares | server/scheduler.go:132-134 | while an owner has inheritance turned off no event is created for them, in any run |
| Runs.AtMostOneEventEach | server/scheduler.go:195-331 | a stretch without a login of the owner over a fixed set of assets creates at most one event per asset and one more |
| Runs.ReachableSound | server/auth.go:358-378 | every state that the empty server reaches keeps the stage invariant and the uniqueness of live events |
| Runs.TakenForGood | server/inheritance.go:288-303 | once a claim has taken an event, no later claim of it gets a key, in any run |
| Runs.ClaimWithoutKey | server/inheritance.go:314-320 | a rightful claim that takes its event and answers without a key, as does every later one |
| Runs.PurgeBreaksUnique | server/recycle.go:189-194 | a trigger and a purge after which an owner has two live events for everything |
| Interleaving.AlwaysUnique | server/scheduler.go:234-306 | however scheduler, claims and logins interleave, no owner has two live events for one target |
| Interleaving.AlwaysLawful | server/inheritance.go:288-303 | over any interleaving each event only changes lawfully, with its deadlines |
| Interleaving.WinsOnlyByUpdate | server/inheritance.go:292-303 | a claim becomes the winner of an event only by the update that moves it from pending to claimed |
| Interleaving.LoserLearns | server/inheritance.go:292-303 | of two claims that saw an event pending, the later one changes nothing and is told that it lost, whatever happens in between |
| Interleaving.KeyReleasedOnce | server/inheritance.go:288-333 | under any interleaving a key is released at most once per event, by the claim that won it |
| Interleaving.UninterruptedScan | server/main.go:86-98 | a scan whose statements are not interrupted is the atomic scan |
| Interleaving.UninterruptedLogin | server/auth.go:358-374 | likewise for a login |
| Interleaving.UninterruptedClaim | server/inheritance.go:263-333 | likewise for a claim and its answer |
| Interleaving.OtherMoves | server/middleware.go:49-63 | requests, toggles, registrations and configuration changes do the same in both systems |
| LostUpdates.MoveCoversIff | server/auth.go:361-374 | one statement keeps every open event covered exactly when it is not a harmful lost update: the reset of a login that read an inactive stage, over a stage that no longer is, with an open event that nobody else makes good for |
| LostUpdates.CoveredIff | server/auth.go:361-374 | over any interleaving, every open event stays covered throughout exactly when no move is a harmful lost update |
| LostUpdates.HarmUncovers | server/auth.go:366-374 | a harmful lost update leaves an open event behind an inactive stage at once |
| LostUpdates.StageSoundAtRest | server/auth.go:358-378 | when a run without lost updates comes to rest, an inactive stage means that nothing of the owner is pending or reversible |
| LostUpdates.LostOnlyBySetting | server/scheduler.go:349 | a login loses an update only if another thread sets the stage between its read and its reset |
| LostUpdates.ReachableSound | server/main.go:86-98 | the empty system satisfies every invariant of the interleaved runs, so all states that it reaches do |
| Release.ClaimedIff | server/auth.go:369-373 | over any interleaving a claimed event stays as it is exactly when no login takes it back |
| Release.ReleasedIff | server/inheritance.go:292-333 | the event of a key that leaves is claimed at that moment exactly when no login took it back since the claim's update |
| Release.KeyOfReversedEvent | server/inheritance.go:304-333 | a run in which the key of a reversed event leaves |
| Connections.Unhindered | server/db.go:235-254 | on two connections or more the runs are those of `Interleaving` |
| Connections.SafeOnAnyPool | server/db.go:288-289 | on any pool live events stay unique, events change lawfully, and keys are released at most once |
| Connections.NeverEnds | server/scheduler.go:260-285 | on one connection, in the category loop with a met row for an unbound asset ahead, the scheduler never leaves the loop and no statement of anybody takes effect again |
| Connections.CategorySelectDooms | server/scheduler.go:248-258 | issuing the category query with such a row among its results is enough to get there |
| Connections.LeavesIff | server/scheduler.go:260-285 | on one connection the category loop can be left exactly when no such row is ahead |
| Interleaving.StageUnsoundAcrossStatements | server/scheduler.go:344-351 | a login between the insert and the stage update leaves the event pending behind an inactive stage |
| Interleaving.StageRaceExists | server/scheduler.go:344-351 | such an interleaving exists from a sound state |
| Preview.FirstInheritors | server/inheritance_preview.go:81-103 | the map gives each target the inheritor of its first row, and has no other keys |
| Preview.ClassifyAssets | server/inheritance_preview.go:149-175 | classification of each active asset, the user-level mark, and the counts per inheritor |
| Preview.InheritancePreview | server/inheritance_preview.go:36-219 | entries, trigger days, user-level heir, and counts equal to the number of entries that name an inheritor |
| Preview.EntriesMeaning | server/inheritance_preview.go:149-175 | one entry for each active asset of the owner and no other |
| Preview.EntryRule | server/inheritance_preview.go:81-174 | over rows alone: one entry for each active asset of the owner, in id order, under its own first binding in (priority, id), else under the first of its category if that is the owner's, else at user level |
| Preview.HeirRule | server/inheritance_preview.go:177-197 | an heir for everything is shown exactly when some entry is at user level and the owner has an inheritor: the default one, else the first |
| Preview.EntryCountRule | server/inheritance_preview.go:149-175 | the count of an inheritor is the number of entries that name them |
| Preview.TriggerDays | server/inheritance_preview.go:41-54 | the days shown are the last rung of the user's own ladder, or of the default one |
| Preview.ShownGoverns | server/inheritance_preview.go:81-174 | a shown binding whose days are met is the one that governs the asset, and the only one; if none is shown the asset is uncovered |
| Preview.UnmetShownDiffers | server/scheduler.go:229-233 | a shown binding whose days are unmet never names the inheritor who would receive the asset |
| Preview.PreviewTruthful | server/inheritance_preview.go:81-197 | with no live events, trigger and preview name the same heirs for the same things if and only if every shown binding is met and there is an active asset or no inheritor |
| Preview.PreviewRule | server/inheritance_preview.go:81-197 | the same over the handler's answer and the rows: with nothing alive, the events created hand over exactly what the answer shows if and only if every binding shown is due and there is an active asset or no inheritor |
| Preview.UnmetShown | server/inheritance_preview.go:81-103 | a state in which the preview names an inheritor who receives nothing |
| Preview.NoAssetsShown | server/inheritance_preview.go:177-197 | a state in which an inheritor receives everything and the preview names nobody |
| RateLimit.Compact | server/rate_limit.go:81-89 | filters the hits in place, to the front of the same buffer, in order |
| RateLimit.RateWindow.Record | server/rate_limit.go:81-90 | in the buffer that earlier calls used: drops what left the window, adds the hit, and allows it if at most `limit` remain |
| RateLimit.WindowMap.Allow | server/rate_limit.go:73-91 | the same for one address, created on first use; other addresses and their buffers are untouched |
| RateLimit.WindowMap.Reset | server/rate_limit.go:94-108 | deletes exactly the addresses without a hit or whose last hit is longer ago than the window |
| RateLimit.IpLimiter.RateLimit | server/rate_limit.go:111-133 | every request counts in the general window; for a sensitive one the strict window alone decides; 300 and 5 in 60 seconds |
| RateLimit.RemembersEnough | server/rate_limit.go:73-108 | what compaction and eviction leave is as good as the full history for every later cutoff |
| RateLimit.Refines | server/rate_limit.go:73-108 | on every sequence of hits and evictions the verdicts are those of the full history, denied hits included |
| RateLimit.AtMostLimit | server/rate_limit.go:73-91 | the full-history rule allows at most `limit` hits in any half-open interval one window long |
| RateLimit.LimiterBound | server/rate_limit.go:73-108 | so does the limiter as coded |
| RateLimit.QuietThenAllowed | server/rate_limit.go:73-91 | after a window without hits the next hit is allowed |
| RateLimit.AllowedIff | server/rate_limit.go:73-91 | a hit is allowed exactly when fewer than `limit` hits, allowed or denied, lie in the window before it |
| RateLimit.PassesIff | server/rate_limit.go:111-133 | over requests, with evictions and both windows: a sensitive one passes exactly when it is among at most 5 sensitive requests of its address in 60 seconds, another one when among at most 300 of either kind |
| RateLimit.MiddlewareBound | server/rate_limit.go:32-35 | in no half-open minute do more than 5 sensitive or 300 other requests of an address pass |
| Migrations.SplitStatements | server/db.go:320-336 | the loop yields the text of the blocks of the only cut of the kept lines |
| Migrations.CutOfCuts | server/db.go:320-336 | each statement is a run of kept lines of which the last, and no other, ends a statement in the sense of `Migrations.EndsIff` |
| Migrations.CutUnique | server/db.go:320-336 | there is only one such cut |
| Migrations.EndsIff | server/db.go:330 | a line ends a statement exactly when its last character that is no white space is `;` |
| Migrations.CommentIff | server/db.go:326-328 | a line is dropped exactly when its first two characters that are no white space are dashes, next to each other |
| Migrations.StatementRule | server/db.go:320-336 | each statement consists of lines of the body that are no comments, each with its newline; the last of them, and no other, ends in `;` |
| Migrations.StatementCount | server/db.go:320-336 | a body has as many statements as lines that end in `;` and are no comments |
| Migrations.OneStatementALine | server/db.go:320-336 | a body of n lines that are no comments and each end in `;` is exactly n statements, line by line |
| Text.AsciiSpace | server/db.go:326 | ASCII white space is exactly tab to carriage return and the space |
| Text.TrimIs | server/db.go:326 | trimming cuts off all white space at both ends and nothing else |
| Migrations.LinesWritten | server/db.go:323 | splitting into lines loses only newlines |
| Migrations.NothingElseLost | server/db.go:316-336 | statements and unterminated rest are the kept lines; nothing but comments is lost exactly when the last kept line ends in `;` |
| Migrations.PrefixIff | server/db.go:385-391 | a later release starts with the files of an earlier one exactly when its new files sort last |
| Migrations.BeforeIff | server/db.go:391 | names are ordered at the first byte in which they differ, or a prefix first |
| Migrations.Database.ApplyMigration | server/db.go:417-465 | all of a file and its record take effect, or nothing; it succeeds exactly when no call fails and the version was not recorded |
| Migrations.Database.ApplyUnprotected | server/db.go:430-446 | the MySQL path: exactly which statements take effect before a failure |
| Migrations.Database.RunMigrations | server/db.go:343-411 | what is durable after a run that stops anywhere, on each dialect, also when the query of recorded versions lost rows; and exactly when a run succeeds |
| Migrations.PrefixOnce | server/db.go:343-465 | after any failures, crashes and restarts the recorded versions are a prefix of the sorted files; the statements in effect are those of that prefix, once and in order, exactly when no run left stray ones |
| Migrations.TransactionalSafe | server/db.go:448-465 | on SQLite and PostgreSQL, after any failures and crashes the schema is always that prefix applied once, and all files after a completed run |
| Migrations.OrderIff | server/db.go:391-409 | two releases applied one after the other record the files in their own order exactly when the new ones sort last |
| Migrations.StatementRepeated | server/db.go:430-446 | a MySQL run that stops inside a file makes a statement take effect twice |
| Ladders.AlwaysSound | server/asset_inheritors.go:105-115 | over any run every binding has a priority from 1 on and names no ladder or an existing one of the owner of what it binds, nobody has two global ladders, nobody is bound twice to one thing, no name is blank, and custom ladders have valid days |
| Ladders.BindingStory | server/asset_inheritors.go:81-237 | every binding of every run goes back to a request of its owner, who had target and heir then; it has the priority asked for, or 1 if that was less, and the ladder that the last request about it set |
| Ladders.BindingBirth | server/asset_inheritors.go:81-133 | exactly which requests create a binding, and what it holds |
| Ladders.BindingFate | server/ladders.go:231-264 | exactly which requests remove a binding, give it another ladder or return it to the global one; target, heir and priority never change |
| Ladders.LadderBirth | server/ladders.go:126-159 | exactly which requests create a ladder, and what it holds |
| Ladders.LadderFate | server/ladders.go:163-266 | exactly which requests remove or change a ladder: its owner's delete if it is not global, its owner's update in name and days |
| Ladders.BindSound | server/asset_inheritors.go:81-133 | a binding request keeps this, also for categories |
| Ladders.RelinkSound | server/asset_inheritors.go:183-237 | changing or removing a binding keeps this |
| Ladders.DeleteSound | server/ladders.go:209-266 | deleting ladders keeps this |
| Ladders.UnbindSound | server/ladders.go:376-432 | unbinding keeps this |
| Ladders.GlobalSurvives | server/ladders.go:239-242 | no request removes or demotes a global ladder, and only its owner's update changes it |
| Ladders.GlobalForever | server/ladders.go:239-242 | a user who has a global ladder at some point of a run has one ever after |
| Ladders.ReportedIsReturned | server/ladders.go:243-264 | the bindings a delete counts are exactly those that change: the user's own, returned to the global ladder |
| Ladders.SkippedCounts | server/ladders.go:239-242 | the number skipped is the number of positions of the request that name the own global ladder |
| Ladders.DeleteIdempotent | server/ladders.go:231-256 | naming ladders twice, or deleting again, changes nothing more |
| Ladders.ListedOnce | server/ladders.go:306-319 | no binding is listed under two ladders of a user |
| Ladders.ListsPartition | server/ladders.go:293-369 | every binding of the user is listed if and only if none names the global ladder by its id |
| Ladders.BindingUnlisted | server/asset_inheritors.go:105-115 | a run after which a binding is in no list |
| LadderStore.ValidateLadderDays | server/ladders.go:67-78 | accepts exactly two strictly increasing numbers from 1 to 3650 |
| LadderStore.Store.EnsureGlobalLadder | server/ladders.go:36-53 | returns the id of a global ladder of the user, created with the configured days if missing; 0 only for an unknown user |
| LadderStore.Store.CreateTriggerLadder | server/ladders.go:126-159 | adds a custom ladder with a trimmed name and valid days, and refuses a blank name or other days |
| LadderStore.Store.UpdateTriggerLadder | server/ladders.go:163-205 | renames an own ladder and changes its days, with the same refusals |
| LadderStore.Store.DeleteTriggerLadders | server/ladders.go:209-266 | with or without enforced foreign keys and with repeated ids: removes the own custom ladders, returns their bindings to the global one, and reports the distinct ladders removed, the positions skipped, and the bindings returned |
| LadderStore.Store.UnbindLadder | server/ladders.go:376-432 | the counts reported are the bindings that changed |
| LadderStore.Store.CreateInheritor | server/asset_inheritors.go:81-133 | ownership guards in their order, least priority, and the unique constraint |
| LadderStore.Store.UpdateInheritorLadder | server/asset_inheritors.go:183-237 | guards, then one binding's ladder changes |
| LadderStore.Store.DeleteInheritor | server/asset_inheritors.go:136-179 | guards, then one binding disappears |
| RoundRobin.Modulo | server/mail.go:30-33 | the index expression walks the list in cyclic order |
| RoundRobin.Mailer.SendMailSystem | server/mail.go:25-43 | servers tried, server that delivered, next cursor |
| RoundRobin.SmsSender.SendSMS | server/sms.go:169-202 | the same over providers with up to three attempts each, and the log of attempts |
| RoundRobin.Attempt | server/sms.go:184-192 | attempts stop at the first success, three at most |
| RoundRobin.AttemptsCounted | server/sms.go:184-192 | the log holds for each provider tried exactly its attempts, and nothing for the others |
| RoundRobin.SendFair | server/mail.go:25-43 | each send tries servers at most once in cyclic order from the cursor, delivers through the first that works, and gives up only when none works |
| RoundRobin.Balanced | server/mail.go:30-40 | while all servers work, message counts of two servers differ by at most one |
| RoundRobin.NoStarvation | server/mail.go:30-40 | whatever the others do, a server that keeps working delivers one of any n consecutive messages |
| Rebind.RebindSQL | server/pgx.go:168-183 | the byte loop writes the k-th `?` as `$k` and keeps all other text |
| Rebind.NumberDecimal | server/pgx.go:175-177 | the decimal numeral of k is read back as k |
| Rebind.MarkNumber | server/pgx.go:168-183 | the number of a parameter is the number of `?` up to it |
| Rebind.ReadBack | server/pgx.go:168-183 | a server that takes the longest run of digits reads back exactly the tokens written, or else fewer of them |
| Rebind.RebindMeans | server/pgx.go:168-183 | the rewritten query means what the original meant exactly when no `$` or `?` stands before a digit |
| Rebind.RebindUndone | server/pgx.go:168-183 | the rewriting can be undone under exactly the same condition |
| Rebind.DigitSwallowed | server/pgx.go:168-183 | `?1` becomes `$11`, which is read as parameter 11 |
| Rebind.RebindTwice | server/pgx.go:83-92 | rewriting leaves no `?`, so rewriting again changes nothing |
| Rebind.PrepareContext | server/pgx.go:83-92 | the prepared text is the same with and without the fallback |
| AdminLock.Row.HandleLogin | server/auth.go:312-351 | lock check, failure count, lock after five, reset on success |
| AdminLock.RowCovers | server/auth.go:330-341 | the stored count covers all failures since any moment, unless a lock that outlasts five minutes from it was set |
| AdminLock.FailuresBounded | server/auth.go:312-351 | without a success in between, any interval shorter than five minutes holds at most five failed comparisons, and the stored count stays below five |
| AdminLock.FailureLocks | server/auth.go:330-341 | the fifth failure locks for exactly 300 seconds and starts the count again; an earlier one only counts |
| AdminLock.OtherwiseUnlocked | server/auth.go:312-351 | a success clears count and lock, a refusal changes nothing, and a password is compared exactly when the account is neither locked nor disabled |
| AdminLock.TenInFiveMinutes | server/auth.go:317-341 | the interval must be shorter than the lock |

## Left out

- RateLimit.RateWindow.Record: how much capacity append reserves when the buffer is full is not modelled.
- Server.Store.ProcessEscalation: reminders, mail and messages sent on the way are not modelled; malformed `last_login_at` text, which the walk skips, is not representable.
- Connections.PlayOn: connections that handlers hold for longer than one statement, and fairness between waiting calls, are not modelled.
- Server.Store.HandleClaim: an event key is the row number of its event and an access code is presented as its hash; key generation, hashing and wrapping are library code.
- Handlers.PurgeKeepsUniqueIff: purging is stated on its own and is not a step of the runs, which therefore hold between purges.
- Ladders.DropTarget: assumes that the database cascades deletes to bindings, as SQLite and PostgreSQL do; MySQL ignores the inline references and keeps such rows.
- Migrations.Database.RunMigrations: the text of a shipped file does not change between releases; reading the embedded files cannot fail; a failed commit leaves nothing.
- Errors of single SQL statements that handlers log and ignore, except in the migration runner.
- Deletion of users, and everything that cascades from it.
- Concurrent administrator logins: comparing passwords is one step with the check of the lock.
- PostgreSQL quoting: string literals, comments and dollar quotes are read like other text.
- Decoding of requests, JSON, paging, CSV, pages, CORS, captcha, tokens, quotas and translations: the switch does not depend on them.
- Reminder templates, notification texts and log pruning, which the switch does not depend on.
- The choice of the client address from request headers.
