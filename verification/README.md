# Cognosis, verified

Cognosis keeps a markdown vault as the source of truth and a derived Postgres index beside it. This project
models the parts of it whose correctness does not show in any single function, and proves what they promise:
for every input, every interleaving and every reachable state.

`dafny verify dfyconfig.toml` checks the whole project.

## What is modelled

**Writers sharing one vault** (`PathLocking`, `Writers`, `Outcomes`). `Write`, `Edit`, `restore_note`, the compile pass's
rewrites and moves, and snapshot commits, as threads with program counters over a map from path to bytes. A
compile pass remembers bytes it read long before it writes. Any call but a lock's may fail. Any interleaving of
their steps leaves what a serial run of whole operations leaves; a lifecycle write replaces exactly the bytes it
was computed from; to anyone who takes the lock a move has happened, has not, or has failed halfway; nobody
deadlocks. An external editor that writes without the lock is excluded, and every writer shares the one
`PathLocks`.

**The compile lifecycle** (`Curve`, `Lifecycle`, `LifecycleLaws`, `LifecycleGates`, `LifecycleSchedule`,
`LifecycleRun`, `LifecyclePrecheck`). One note's turn is a function, `Lifecycle.Compile`; the engine is a class whose loop
appends to a report, truncates it to a mark and moves the mark, proved equal to the turns in vault order. The
report is then shown to be exactly the difference between the note before and the note that landed. The decay
curve `(1 + t/S)^-0.5` is never computed: comparing squares is exact, so the tenth that is stored and the 0.2
floor are decided over rationals.

**Embedding migration** (`Migration`, `MigrationActors`, `MigrationRuns`, `MigrationResults`, `MigrationPause`,
`MigrationPace`, `MigrationProvisos`, `MigrationScenarios`, `MigrationWorker`). The back-fill worker, lazy batches,
index writes, start, pause, resume, rollback, prune, daemon starts and crashes meet only in database rows; each actor
is several transactions, with arbitrary steps of the others between them, and a lookup that fails may be taken for
"there is none" wherever the code does so.

**The link graph** (`LinkText`, `LinkNames`, `LinkGraph`, `LinkRepair`, `LinkVault`, `LinkIndex`). Links resolve when a
note is indexed, so order matters. Relinking, referrer repair and deletion are shown to bring stored edges back to what
the audit recomputes, first under the weakest condition found, then for vaults with unique basenames and plain
references. Bodies are text: the wikilink scan and SQL's LIKE, with its wildcards and escape, both read it.

**Retrieval** (`Sorting`, `Fusion`, `Ranking`, `GraphReach`, `Metrics`, `Kendall`). Reciprocal-rank fusion over a table
iterated in any order, the rescoring passes, the per-note diversity penalty, the recursive graph query with
working-table semantics (section 7.8.2 of the PostgreSQL manual), and the agreement metrics. Scores are reals.

**Text and history** (`Chunking`, `Frontmatter`, `History`, `HistoryIndex`). Paragraph packing, the frontmatter fence
and the id splice, and snapshot commits with other writers' files landing between any two steps.

`Text`, `Spacing`, `Arithmetic` and `Counting` hold the shared vocabulary: string search, splitting and joining,
surrounding space, order facts about products, sizes of finite sets.

Where the code does less than its comments say, the code is followed and the exact condition is proved:

- A move that has written its destination leaves the source in place exactly when its indexing or the removal then
  fails: the note stands at both paths with no lock held, and never at neither (`Writers.MoveKeepsSourceIff`,
  `Writers.NeverAtNeither`; `Writers.NoteAtBothPaths` is such a run).
- `Edit` counts matches without overlaps, so two overlapping matches pass as unique (`Writers.EditAcceptsIff`). A
  caller is safe with any file exactly when its pattern has no border, a proper prefix that is also its suffix
  (`Writers.UnborderedIsUnique`, `Writers.BorderedCanPassTwice`).
- The report and the frontmatter differ only for a dispute repeated word for word at the instant the note already
  carries (`LifecycleLaws.ReportIsTheDiff`).
- A graduation asked of a note that the same run falsifies, disputes or archives is dropped in silence
  (`LifecyclePrecheck.EveryRequestIsAnswered`).
- A reconstructed stability is rounded at its first store. A schedule of uncited passes puts the note where its last
  pass alone would exactly when there is no other pass, the first archives it, or it is frozen, ancient by then, or on
  the same side of the floor under the reconstructed and the rounded stability
  (`LifecycleSchedule.UnstoredAgreesIff`; `UnstoredDependsOnTheSchedule` is a note where it does not).
- A worker's round that finds the to-table covered and flips leaves the row complete exactly when no rollback got in
  since it read the row, before the flip or after; the flip stands either way (`MigrationProvisos.FinishCompletesIff`,
  with runs in `MigrationScenarios.RollbackBetweenFlipAndFinish` and `RollbackBeforeFlip`). A flip over a row that was
  rolled back first may leave the new provider short of a chunk (`MigrationScenarios.FlipIsNotCovered`).
- A daemon's start makes the configured provider the active one; after a completed migration with the old one still
  configured that undoes the flip (`MigrationScenarios.RestartUndoesFlip`).
- An activation leaves a provider active exactly when the name is registered (`MigrationProvisos.ActivateLeavesOneIff`);
  a rollback after the from-provider was pruned succeeds and leaves none
  (`MigrationScenarios.RollbackAfterPruneLeavesNone`).
- A prune loses nothing exactly when every chunk has a row with another provider, which its checks do not ask
  (`MigrationProvisos.PruneIsSafeIff`; `MigrationScenarios.PruneAfterRollbackLoses` is a run that loses a chunk). It
  drops the active provider exactly when that one was activated since the prune's first check, or that check failed
  unanswered with it active, and nothing has taken its flag since (`MigrationProvisos.PruneDropsActiveIff`;
  `MigrationScenarios.PruneInFlightDropsActive` is a run in which every lookup is answered).
- A new note is repaired exactly when the reverse lookup finds everything that refers to it
  (`LinkVault.NewNoteRepairedIff`). For a name without `%` and `_` it finds the bodies that hold the literal `[[name]]`
  with backslashes read as LIKE's escape, and the sources that are it (`LinkText.FindsIff`): aliased references, and
  names with a backslash where they stand literally, are missed (`LinkVault.AliasIsMissed`, `LinkVault.BackslashIsMissed`).
- A reconcile ends with a clean audit exactly when every reference to a note it deletes is harmless to the index its
  first pass left (`LinkRepair.ReconcileRestoresIff`). A note replaced at another path under a new id is picked up
  exactly when the new path comes first, so not when it comes back from archive/ to notes/
  (`LinkVault.ReplacedIsRelinkedIff`).
- Packing drops an empty paragraph that opens a piece (`Chunking.SplitIsLosslessIff`).
- The id splice looks no further than the first `---` after a line break. It leaves one id line over an unchanged body
  exactly when the block's first line is not a bare fence and no id line stands below a later line that begins with
  `---` (`Frontmatter.SpliceLeavesOneId`; `TwoIdsRemain` is a block where two are left).
- A commit nobody disturbs records a removal exactly when its root still exists, an empty directory being enough, or
  the real index still tracks something under it (`History.RemovalIsRecordedIff`). A call with nothing to commit does
  not bring the index up to date (`HistoryIndex.IndexAgreesIff`), and a root that vanishes, directory and all, between
  a commit and the update of the index stays in HEAD as it was until it exists again (`History.StaysForgotten`,
  `History.RemovalIsForgotten`).

## Model

| member | source | states |
|---|---|---|
| PathLocking.OrderIsGlobal | internal/write/pathlocks.go:46-60 | Both argument orders of LockTwo take the same two paths in the same order |
| PathLocking.PathLocks.LockFor | internal/write/pathlocks.go:62-71 | A path's mutex is created on first use and is the same one ever after; no other path's changes |
| PathLocking.PathLocks.LockTwo | internal/write/pathlocks.go:46-60 | One mutex for equal paths, otherwise two, in path order |
| Writers.EditAcceptsIff | internal/write/pipeline.go:305-344 | Edit accepts exactly when there is a match and every other match overlaps the first |
| Writers.OverlapPassesAsUnique | internal/write/pipeline.go:305-344 | Two overlapping matches are accepted as one |
| Writers.UnborderedIsUnique | internal/write/pipeline.go:305-344 | For a pattern without a border Edit accepts exactly the files with one match |
| Writers.BorderedCanPassTwice | internal/write/pipeline.go:305-344 | For every pattern with a border some file with two matches is accepted |
| Outcomes.EditAsks | internal/write/pipeline.go:305-344 | An edit asks to land the text before the first match, the replacement and the text after it, exactly when old and new differ, old is not empty, and every other match overlaps the first; any other edit is refused |
| Writers.AdvanceHolds | internal/lifecycle/io.go:123-165 | Which mutexes a writer holds follows from how far it has come; a failing call releases them all |
| Writers.StepWritesLocked | internal/lifecycle/io.go:23-28 | A step changes only files whose lock the writer holds |
| Writers.ReachableInv | internal/lifecycle/io.go:50-165 | In every reachable state each lock has one owner and what a writer checked under a lock is still true |
| Writers.NoLostUpdate | internal/lifecycle/io.go:73-118 | In every interleaving each change starts from what all earlier changes left, and lifecycle rewrites and moves replace or delete exactly the bytes they were computed from |
| Writers.NeighboursChain | internal/lifecycle/io.go:50-68 | Between two neighbouring changes of one file nothing is reverted |
| Outcomes.AnswersAreAsked | internal/write/pipeline.go:343-372 | In every run each change an answered request made is what it asked for: validated content, the one place of an edit replaced, or the version restored |
| Outcomes.RequestLandsIff | internal/write/pipeline.go:315-372 | A request lands exactly when its write does not fail and there is something it may leave, and leaves that; otherwise the file is as it was and unlocked |
| Outcomes.RewriteLandsIff | internal/lifecycle/io.go:73-104 | A rewrite lands exactly when the file is what the pass computed from, or gone, and nothing fails |
| Outcomes.MoveGoesAheadIff | internal/lifecycle/io.go:135-156 | A move goes ahead exactly when its destination is free and its source is what the pass computed from, or gone |
| Outcomes.FailingLetsGo | internal/lifecycle/io.go:131-163 | A failing call ends the writer with its locks released and the files as they are; waiting for a lock cannot fail |
| Writers.EveryRunIsSerial | internal/lifecycle/io.go:73-165 | Every interleaving, whichever calls fail in it, is a serial run of whole operations, moves and moves that failed halfway included |
| Writers.UnlockedIsSettled | internal/lifecycle/io.go:126-133 | A path nobody holds locked shows that serial state |
| Writers.MoveKeepsSourceIff | internal/lifecycle/io.go:102-165 | In every run, once the locks of a move that wrote its destination are released, the note is there, and still at its source exactly when its indexing or the removal failed and it was there to begin with |
| Writers.NeverAtNeither | internal/lifecycle/io.go:126-133 | At no moment of any run has a move that wrote its destination left the note at neither path |
| Writers.NoteAtBothPaths | internal/lifecycle/io.go:115-163 | A run whose move fails after writing ends with the note at both paths and no lock held |
| Writers.WaitsUpwards | internal/write/pathlocks.go:41-60 | Whoever waits while holding waits for something later in the global order, the git mutex last |
| Writers.NoDeadlock | internal/vault/history.go:136-139 | In every reachable state with an unfinished writer some writer can step |
| Curve.TenthsRounds | internal/lifecycle/lifecycle.go:74-83 | The squared comparison is round-half-up of ten times the curve, and t > 24 S is the curve below 0.2 |
| Curve.TenthsMonotone | internal/lifecycle/lifecycle.go:70-83 | Belief only falls with time and falls slower the more stable the note |
| LifecycleLaws.ReinforcedStays | internal/lifecycle/run.go:227-229 | A reinforced note is never archived in the same pass |
| LifecycleLaws.RoundsToNearest | internal/lifecycle/io.go:227-229 | Stored tenths and hundredths are the nearest ones, halves up |
| LifecycleGates.RejectedIff | internal/lifecycle/run.go:53-348 | A run is refused over a note exactly when a reason it gives is nothing but space, or it asks to graduate a note that stays, whose own write held, and that is canon already, paused, disputed and not reinforced, or not stable |
| LifecycleGates.ArchivesIff | internal/lifecycle/run.go:223-336 | A note moves exactly when it was due (24 stabilities or 180 days since, unless paused, canon, reinforced or cited within 180 days) and the move landed: into archive/ under its own name, stamped with why and when |
| LifecycleGates.NominatedIff | internal/lifecycle/run.go:374-376 | A note is a graduation candidate exactly when it stays, nobody asks for its graduation, its own write held, and it is stable, not paused and not canon |
| LifecycleGates.GraduatesIff | internal/lifecycle/run.go:335-372 | A graduation is reported exactly when it was asked for, the note stays and both its writes held; the note in the vault is then stable, neither paused nor disputed, and stamped |
| LifecycleGates.MarksAre | internal/lifecycle/run.go:52-100 | A falsified or disputed note carries its reason and time, and a replacement if given; nothing else of it changes |
| LifecycleLaws.StagedStory | internal/lifecycle/run.go:197-244 | The lines of a judged note are exactly the difference its staged frontmatter makes |
| LifecycleLaws.ReportIsTheDiff | internal/lifecycle/run.go:49-377 | Under any pattern of skipped writes the non-advisory, non-skipped lines are exactly those whose mutation landed, exactly unless the note is asked to be disputed for the reason and at the instant it already carries |
| LifecycleLaws.SkipEndsTheTurn | internal/lifecycle/run.go:245-274 | A skipped write is the last attempted, leaves one `skipped` line after whatever landed, and no line is reported twice |
| LifecycleLaws.AdviceGoesWithItsMove | internal/lifecycle/lifecycle.go:150-184 | Advice stands beside every terminal move that was advised on, and nowhere else |
| LifecycleLaws.DryRunForetells | internal/lifecycle/run.go:383-400 | A dry run reports and refuses what a run without conflicts would, and touches nothing |
| LifecycleLaws.InertNotes | internal/lifecycle/run.go:39-44 | Falsified notes and notes outside notes/ never change; graduated ones never move or decay; maturity never goes back; the id stays |
| LifecycleLaws.ArchivedKeepsItsName | internal/lifecycle/run.go:286-286 | A move into archive/ keeps the id and the basename links resolve by |
| LifecycleLaws.ReinforcesMatchHistory | internal/lifecycle/lifecycle.go:85-108 | Stability after any number of reinforces of a fresh note is what initStability rebuilds from count and maturity; the consolidation bump applies once, at the third |
| LifecycleLaws.PassTakesOneStep | internal/lifecycle/run.go:161-185 | A reinforcing pass takes one such step, stores it to two decimals, restarts the clock, returns belief to its peak unless frozen, clears a dispute, and changes nothing else |
| LifecycleSchedule.PassIs | internal/lifecycle/run.go:187-229 | An unasked pass archives exactly when due and otherwise only brings the stored tenth up to date |
| LifecycleSchedule.BeliefIsReadAtTheLastPass | internal/lifecycle/run.go:187-195 | Whatever passes and citations came before, confidence is the curve at the last pass and nothing else moved |
| LifecycleSchedule.RepeatChangesNothing | internal/lifecycle/run.go:197-197 | A second pass at the same time changes nothing |
| LifecycleSchedule.ArchivalIgnoresTheSchedule | internal/lifecycle/run.go:223-229 | An uncited note is in archive/ after a schedule exactly when one pass at its end would put it there |
| LifecycleSchedule.SchedulesAgree | internal/lifecycle/lifecycle.go:70-83 | Two schedules that end together end alike |
| LifecycleSchedule.FirstStoreTracks | internal/lifecycle/run.go:143-143 | After the first store of a reconstructed stability the laws above hold |
| LifecycleSchedule.UnstoredAgreesIff | internal/lifecycle/run.go:223-236 | Before that store a schedule of uncited passes puts the note where its last pass alone would exactly when there is no other pass, the first archives it, or it is frozen, ancient by then, or fades alike under the reconstructed and the rounded stability; kept by both, it is the same note exactly when there is no other pass, it is frozen, or the tenths agree |
| LifecycleSchedule.UnstoredDependsOnTheSchedule | internal/lifecycle/run.go:234-234 | A note that one extra pass keeps and a single pass archives |
| LifecycleRun.Engine.ReplaceSince | internal/lifecycle/report.go:56-61 | Truncates to the mark and appends one line; an out-of-range mark does nothing |
| LifecycleRun.Engine.Write | internal/lifecycle/run.go:246-264 | Landed, changed, broken and written-but-failed writes, with the bookkeeping each write site shares; a failed move also leaves the file at its old path |
| LifecycleRun.Engine.Weigh | internal/lifecycle/run.go:126-244 | The step-by-step mutation computes the specified verdict, lines and staged frontmatter |
| LifecycleRun.Engine.Graduate | internal/lifecycle/run.go:336-376 | The graduation's own write, its lines standing or falling after those already landed |
| LifecycleRun.Engine.RewriteInPlace | internal/lifecycle/run.go:231-275 | The in-place write re-seeds the mark, so a later skip keeps its lines |
| LifecycleRun.Engine.CarryOut | internal/lifecycle/run.go:231-380 | Archive or stay, report and disk as the specified turn |
| LifecycleRun.Engine.CompileNote | internal/lifecycle/run.go:38-381 | One iteration appends the turn's lines, lands its note and touches no other note |
| LifecycleRun.Engine.Run | internal/lifecycle/run.go:16-401 | The pass completes exactly when every turn does; then the report is the turns' lines in vault order and the disk what they landed; otherwise the first refusal ends it; every graduation reported is of a note the vault now holds stable, neither paused nor disputed, and stamped |
| LifecycleRun.ReportIs | internal/lifecycle/run.go:29-377 | A line is in the report exactly when some note's turn says it |
| LifecycleRun.CandidatesAre | internal/lifecycle/run.go:374-376 | A name is among the candidates exactly when some turn nominates its note |
| LifecycleRun.RunReportIsTheDiff | internal/lifecycle/run.go:29-377 | Over a whole run, where a name is one note's, the mutations reported under it are exactly the difference between the note found and the note left |
| LifecycleRun.SkipsAreLocal | internal/lifecycle/report.go:43-61 | However one note's writes fare, every other note's lines and turn are untouched |
| LifecyclePrecheck.LookupMap | internal/lifecycle/precheck.go:67-71 | The id and path lookup names the last note in walk order |
| LifecyclePrecheck.LiveKeys | internal/lifecycle/precheck.go:27-36 | Exactly the ids and paths of live decaying notes |
| LifecyclePrecheck.Record | internal/lifecycle/precheck.go:72-86 | Collects each note's operations once each, whatever the map order |
| LifecyclePrecheck.ResolveTargets | internal/lifecycle/precheck.go:15-101 | Accepts exactly when every key is known and no note is asked two contradictory things |
| LifecyclePrecheck.NoNoteIsPulledTwoWays | internal/lifecycle/precheck.go:64-99 | In an accepted run each note hears at most one of reinforce, falsify and dispute |
| LifecyclePrecheck.AcceptedIff | internal/lifecycle/precheck.go:15-101 | With distinct ids, a run whose keys are all known is accepted exactly when no note hears two of the three |
| LifecyclePrecheck.EveryKeyReachesANote | internal/lifecycle/precheck.go:27-62 | Every accepted key, of every list, names a live note that hears it, with the reason given for it or the replacement written as a link to the note it names |
| LifecyclePrecheck.NothingIsMadeUp | internal/lifecycle/run.go:61-160 | A note is asked only what some key that names it asks |
| LifecyclePrecheck.EveryRequestIsAnswered | internal/lifecycle/run.go:49-377 | A turn whose writes land does what was asked and only that; graduation alone is unheard exactly on a note this run also falsifies, disputes or archives |
| LifecyclePrecheck.RecentCitations | internal/lifecycle/precheck.go:107-136 | Cited means a body wikilink from another note updated within seven days, resolved to the first note of that name |
| Migration.ActiveId | internal/store/migration.go:64-75 | The in-progress row, or none exactly when there is none |
| Migration.FirstOf | internal/store/migration.go:216-234 | The first missing chunks in id order, as many as asked for |
| Migration.ActiveRef | internal/store/providers.go:105-117 | The registered provider that is active, or none |
| MigrationRuns.KeepsOneActive | internal/store/migration.go:318-329 | No transaction leaves two active providers |
| MigrationRuns.KeepsOneRunning | internal/store/migration.go:49-61 | No transaction leaves two migrations in progress |
| MigrationRuns.TerminalStays | internal/store/migration.go:107-122 | A finished row is never rewritten |
| MigrationRuns.KeepsCounters | internal/store/migration.go:140-196 | Counters stay equal to the rows their path inserted |
| MigrationRuns.KeepsCreditedOnce | internal/store/providers.go:147-162 | No chunk is credited twice to one migration |
| MigrationRuns.KeepsRetrievable | internal/store/providers.go:34-78 | Every chunk keeps a row in some registered provider's table, drops aside |
| MigrationRuns.KeepsCovered | internal/migrate/migrate.go:282-300 | A covered running migration stays covered by writes that include its to-table |
| MigrationRuns.EveryRunKeepsInv | internal/migrate/worker.go:71-110 | All of these hold in every state any interleaving reaches |
| MigrationResults.CreditsAreRows | internal/store/migration.go:168-196 | Under any interleaving and crashes the counters are the rows inserted, and together count distinct chunks while the to-table stands |
| MigrationResults.QuietRunConserves | internal/migrate/migrate.go:226-276 | With no index writes or deletions, backfill + lazy + missing never changes |
| MigrationResults.UnwrittenRunSheds | internal/migrate/migrate.go:226-276 | With deletions too it never rises, and falls exactly by the chunks deleted before they were embedded |
| MigrationResults.FlipIsCovered | internal/migrate/worker.go:83-93 | At a flip while the row is still in progress every chunk in the index has a row in the to-table, given no write committed during the migration with stale targets |
| MigrationResults.SpoiledOnlyByStaleTargets | internal/write/indexer.go:59-104 | Only a write that read its targets outside the migration, or a drop of the to-table, breaks that proviso |
| MigrationResults.NothingIsLost | internal/migrate/migrate.go:157-174 | In every run one provider at most is active and, without prunes, no embedded chunk is out of reach |
| MigrationResults.TerminalForever | internal/store/migration.go:107-122 | Terminal statuses never change in any run |
| MigrationResults.FlipServes | internal/migrate/worker.go:87-92 | An unspoiled flip to a registered provider leaves it active and covering the index |
| MigrationResults.RunStaysSettling | internal/write/indexer.go:59-104 | From the flip to the finish, with nothing stale under way, every write lands in the to-table and no prune drops it |
| MigrationResults.FinishSettles | internal/migrate/worker.go:93-98 | With no write still behind, the finish completes the row and leaves nobody who can write past the to-table or drop it |
| MigrationResults.PruneAfterCompletionLosesNothing | internal/store/migration.go:334-364 | From then on, until another provider is activated, by a rollback, a flip or a daemon's start, or a lookup fails, every chunk stays reachable through prunes of the others |
| MigrationResults.CompletedMigrationLosesNothing | internal/migrate/worker.go:71-99 | From a fresh daemon through any run with such a flip and finish the row stays complete and every chunk reachable |
| MigrationActors.StartOpensIff | internal/migrate/migrate.go:61-131 | Undisturbed, a migration starts exactly when none is in progress, the providers differ, the old one is registered and the new table is free: one running row owing every chunk, the new provider registered inactive |
| MigrationActors.LazyLands | internal/migrate/migrate.go:226-276 | A lazy batch lands and credits exactly the touched chunks the to-table lacks, paused or not, and nothing else changes |
| MigrationActors.LazyRests | internal/migrate/migrate.go:231-234 | Outside a migration it does nothing |
| MigrationActors.IndexLands | internal/migrate/migrate.go:278-300 | A write embeds into the active table and, during a migration, the to-table, and no other |
| MigrationActors.IndexRefuses | internal/migrate/migrate.go:282-286 | Without an active provider nothing is written |
| MigrationActors.DeletionLands | internal/store/notes.go:337-355 | A deletion takes its chunks out of every table |
| MigrationActors.RollbackEnds | internal/migrate/migrate.go:157-161 | During a migration a rollback ends the row and moves no flag |
| MigrationActors.RollbackReverts | internal/migrate/migrate.go:162-174 | After a completed one it makes the from-provider, and no other, active; with nothing to roll back it changes nothing |
| MigrationActors.PruneDropsIff | internal/cli/embeddings_cmds.go:130-149 | Undisturbed, a provider and its table are dropped exactly when it is registered, not active and on neither side of a migration in progress |
| MigrationActors.BootActivates | internal/daemon/daemon.go:128-140 | A start leaves its provider registered and the only active one, unless another has its table |
| MigrationActors.UnansweredIsNone | internal/migrate/migrate.go:81-83 | Where a failed lookup is taken for "there is none", an actor goes on exactly as if there were none |
| MigrationActors.FlipIs | internal/store/migration.go:318-329 | A flip sets every flag by whether it is the provider named, and fails when none is registered |
| MigrationPause.IdleIff | internal/migrate/worker.go:71-81 | A step is idle exactly when nothing fails it first and whatever is in progress is paused, and then changes nothing |
| MigrationPause.PausedOwesOneRound | internal/migrate/worker.go:79-81 | Until the next resume, whatever every other actor does, what a worker does for the paused row and may still do never exceeds the round it was in |
| MigrationPause.PausedIsLeftAlone | internal/migrate/migrate.go:133-141 | A worker that had not read the row when it was paused back-fills, flips and finishes nothing for it until it is resumed |
| MigrationPause.FlagIsSet | internal/store/migration.go:92-105 | Pause and resume set the flag of the row in progress and nothing else |
| MigrationPause.ResumedIsTakenUp | internal/migrate/migrate.go:143-150 | Resumed, a worker left alone back-fills the next batch, or flips and finishes when nothing is missing |
| MigrationProvisos.ActivateLeavesOneIff | internal/store/migration.go:318-329 | An active provider remains exactly when the name is registered |
| MigrationProvisos.PruneIsSafeIff | internal/store/migration.go:334-364 | A prune keeps every chunk reachable exactly when each has a row with another provider |
| MigrationProvisos.PruneDropsActiveIff | internal/cli/embeddings_cmds.go:130-149 | A prune that passed its checks, with anything of the others between its transactions, drops the active provider exactly when that one was activated since the first check, or that check failed unanswered with it active, and nothing has taken its flag since |
| MigrationProvisos.RolledBackIff | internal/store/migration.go:107-122 | In any run a row ends rolled back exactly when it began so or a rollback got in |
| MigrationProvisos.FinishCompletesIff | internal/migrate/worker.go:71-99 | Whatever others do between the four transactions of a round that finds the table covered and flips, the row ends complete exactly when no rollback got in since it was read and rolled back otherwise, and the to-provider is active exactly when it was registered at the flip or activated since and nothing has taken its flag |
| MigrationProvisos.ActiveIff | internal/store/migration.go:318-329 | In any run a provider is active at the end exactly when it was activated in the run, or active before it, and nothing has taken its flag since |
| MigrationScenarios.RollbackBetweenFlipAndFinish | internal/migrate/worker.go:90-93 | A run with a rollback between flip and finish ends rolled_back with the to-provider active |
| MigrationScenarios.RollbackBeforeFlip | internal/migrate/worker.go:83-90 | A run with the rollback wholly between the emptiness check and the flip ends the same |
| MigrationScenarios.FlipIsNotCovered | internal/migrate/worker.go:83-90 | With an index write after that rollback, the flip makes active a provider whose table lacks the chunk, nothing dropped or spoiled |
| MigrationScenarios.RollbackAfterPruneLeavesNone | internal/migrate/migrate.go:157-174 | A run that migrates, prunes the from-provider and rolls back ends with no provider active |
| MigrationScenarios.PruneAfterRollbackLoses | internal/cli/embeddings_cmds.go:130-149 | A run that migrates, writes, rolls back and prunes passes every check and loses the chunk written |
| MigrationScenarios.PruneInFlightDropsActive | internal/cli/embeddings_cmds.go:133-143 | A run in which a prune passes both answered checks, a rollback makes its provider active, and the drop leaves none |
| MigrationScenarios.RestartUndoesFlip | internal/daemon/daemon.go:128-140 | A run that migrates and then starts the daemon with the old provider configured ends with that one active |
| MigrationPace.SuccessesAreOwed | internal/migrate/worker.go:29-68 | Whatever lazy batches, deletions, pauses, crashes, rollbacks and other workers do in between, short of index writes and a drop of the to-table, a worker's successful steps and what it still owes never exceed what it owed |
| MigrationPace.FinishesWithinBound | internal/migrate/migrate.go:226-276 | From any reachable state with m chunks missing a worker succeeds at most ceil(m/32) + 1 times in such a run, and if it does so often nothing is missing and the row is finished |
| MigrationPace.AloneMeetsTheBound | internal/migrate/worker.go:71-99 | A worker left alone succeeds exactly that often, in three transactions a batch and four more, and the row is complete |
| MigrationWorker.InsertIfAbsent | internal/store/providers.go:147-162 | In any order, inserts exactly the absent live chunks and counts them; a deleted chunk fails all |
| MigrationWorker.Store.ActiveMigration | internal/store/migration.go:64-75 | Reads the in-progress row |
| MigrationWorker.Store.MissingChunkBatch | internal/store/migration.go:216-234 | At most one batch of missing chunks, ascending; none is passed over for a higher id or left out while there is room |
| MigrationWorker.FirstIsUnique | internal/store/migration.go:216-234 | That pins the batch down |
| MigrationWorker.Store.RecordMigratedBatch | internal/store/migration.go:168-196 | Rows and credit land together, or neither does |
| MigrationWorker.Store.SetActiveProvider | internal/store/migration.go:318-329 | Every provider's flag becomes whether it is the one named, and nothing else changes; it fails exactly when there is no provider |
| MigrationWorker.Store.FinishMigration | internal/store/migration.go:107-122 | Exactly when that row is in progress its status is set; no other row and nothing else of it changes |
| MigrationWorker.Worker.Step | internal/migrate/worker.go:71-110 | One step is the specified one, whichever of its calls fails |
| MigrationWorker.FaultsOnlyDelay | internal/migrate/worker.go:83-108 | A step fails exactly when a call it makes fails, and leaves all as it was or the flip alone done, to be taken up again |
| MigrationWorker.DrainProgress | internal/migrate/worker.go:29-68 | For the worker's steps one after another, whatever fails in between: after k steps that did not, exactly min(m, 32k) of m missing chunks have landed |
| MigrationWorker.FinishesInTime | internal/migrate/worker.go:71-99 | Of such steps exactly ceil(m/32) batches and one last complete the row with the to-provider active; failures only put that off, even one after the flip |
| MigrationWorker.AloneIsBatch | internal/migrate/migrate.go:253-276 | The interleaved worker left alone does one whole batch |
| MigrationWorker.AloneIsFlip | internal/migrate/worker.go:87-99 | The interleaved worker left alone flips and finishes |
| LinkText.WikilinksAre | internal/vault/links.go:33-65 | The left-to-right scan yields exactly the bracket-free names that stand in the body between double brackets |
| LinkText.FindsIff | internal/store/notes.go:254-275 | For a name without `%` and `_` the LIKE pattern finds exactly the bodies that hold the bracketed name, backslashes read as escapes |
| LinkText.FindsLiteral | internal/store/notes.go:254-275 | Without a backslash in the name, wildcards or not, no body that holds it literally is missed |
| LinkGraph.Resolve | internal/store/index.go:94-139 | A key resolves to the first note in path order that it names |
| LinkGraph.SameHitsResolveSame | internal/store/index.go:94-139 | Resolution depends only on the notes a key names |
| LinkNames.SpellingIsIgnored | internal/vault/links.go:90-100 | Delimiters, space, and any alias or anchor around a name leave the name |
| LinkNames.EdgesAre | internal/vault/links.go:37-69 | A note has an edge exactly to each other note that is the first of a name it writes, as a source or between double brackets |
| LinkNames.ReferenceLinks | internal/write/indexer.go:175-219 | However it is spelled, a reference gives an edge to the first note of its name once the note is indexed, unless that is the note itself |
| LinkNames.QualifiersAre | internal/store/index.go:94-139 | A plain name means notes of that basename, a qualified one only those of the project |
| LinkRepair.BatchIndexed | internal/watch/reconcile.go:185-201 | After any batch the rows are the batch's over the old ones, and other notes lose at most edges to disturbed notes |
| LinkRepair.RelinkSets | internal/write/indexer.go:118-128 | Relinking gives each named note exactly the edges its content implies |
| LinkRepair.OneIsEnough | internal/watch/reconcile.go:211-216 | A batch of one needs no second pass |
| LinkRepair.RepairRestores | internal/watch/reconcile.go:203-223 | From a clean audit any batch in any order, relinked and repaired, leaves a clean audit, provided every disturbed reference is found |
| LinkRepair.WantAfterDeleteIff | internal/store/notes.go:337-342 | Deleting any notes changes another's implied edges only by those notes exactly when its references to them have no other candidate it lacks |
| LinkRepair.DeleteKeepsCleanIff | internal/watch/reconcile.go:225-238 | Any deletions in any order keep the audit clean exactly when every reference to a deleted note is harmless once all are gone |
| LinkRepair.ReconcileRestoresIff | internal/watch/reconcile.go:185-238 | A whole run whose repair finds every disturbed reference ends clean exactly when its deletions are harmless to the index the first pass left |
| LinkVault.DeletionsKeepClean | internal/watch/reconcile.go:225-238 | With unique basenames any deletions keep the audit clean |
| LinkVault.ReconcileRestores | internal/watch/reconcile.go:185-238 | From a clean audit, any batch in any order, relinked and repaired, then any deletions, ends with nothing missing and nothing extra |
| LinkVault.MoveKeepsInbound | internal/store/notes.go:71-101 | A same-basename move keeps the id and every inbound edge |
| LinkVault.NewNoteRepairedIff | internal/store/notes.go:254-301 | One run repairs the graph for a new name exactly when the reverse lookup finds every referrer |
| LinkVault.ReplacedIsRelinkedIff | internal/watch/reconcile.go:203-238 | A run that sees a note gone and its name back at another path under a new id, basenames unique throughout, ends clean exactly when the new path comes first |
| LinkVault.AliasIsMissed | internal/vault/links.go:92-100 | Any reference written longer than its name, with an alias, an anchor or spaces, resolves like a plain one and is not found like one |
| LinkVault.BackslashIsMissed | internal/store/notes.go:265-275 | A name with a backslash is not found where it stands literally |
| LinkIndex.Index.ResolveBasenames | internal/store/index.go:94-139 | One ordered scan into two maps gives every name its first note |
| LinkIndex.Index.LinksFrom | internal/write/indexer.go:206-217 | The filtered references are exactly the implied edges |
| LinkIndex.Index.ResolveLinks | internal/write/indexer.go:175-189 | Resolving and filtering gives exactly the implied edges |
| LinkIndex.Index.IndexOne | internal/store/index.go:19-86 | One transaction upserts the note and replaces its edges, or a foreign key failure leaves all as it was |
| LinkIndex.Index.Relink | internal/write/indexer.go:118-128 | Relinking notes one by one in any order equals relinking them at once |
| LinkIndex.Index.Reconcile | internal/watch/reconcile.go:185-238 | The three passes and the deletions end in the specified index |
| LinkIndex.Index.CountGaps | internal/write/audit.go:44-117 | The two counters are the edges missing and the edges too many |
| LinkIndex.Index.AuditGraph | internal/write/audit.go:44-117 | The audit is OK exactly for a graph whose every edge set is what content implies |
| Sorting.SortStable | internal/query/query.go:443-443 | Sorts in place, stably |
| Sorting.StableSortIsUnique | internal/query/query.go:460-465 | There is only one stable sort of a list, so skipping or repeating a sort cannot be told apart |
| Fusion.Tally | internal/query/fuse.go:32-46 | After the loops each voted key holds its first item, its summed score and its order of appearance |
| Fusion.Collect | internal/query/fuse.go:47-50 | Empties the table in any order, each key once |
| Fusion.FuseRRF | internal/query/fuse.go:26-59 | Each key once with exactly its summed reciprocal-rank score, by score and then by first appearance |
| Fusion.FusionIsUnique | internal/query/fuse.go:48-57 | The result does not depend on the map's iteration order |
| Fusion.DominanceIsKept | internal/query/fuse.go:44-57 | Above in every leg that ranks the other is above in the result, ties included |
| Fusion.LegAdds | internal/query/fuse.go:32-44 | One more leg adds weight / (k + rank) to the key it ranks and nothing to any other |
| Fusion.ConsensusBeatsTopIff | internal/query/fuse.go:9-16 | An item two equal legs rank x-th and y-th stands above the one that tops the first leg alone exactly when 1/(k+x) + 1/(k+y) > 1/(k+1) |
| Ranking.Rescore | internal/query/query.go:466-477 | Equals an unconditional stable sort of the rescored list whenever the input is score-sorted or any factor is not 1 |
| Ranking.Demote | internal/query/query.go:435-442 | The walk scales a note's n-th chunk by decay^n |
| Ranking.ApplyDiversityPenalty | internal/query/query.go:431-444 | The stable sort of the penalized list; a decay of 1 or more changes nothing |
| Ranking.SiblingsKeepTheirOrder | internal/query/query.go:424-430 | A note's chunks keep their order |
| Ranking.BestNeverSinks | internal/query/query.go:424-430 | A note's best chunk never loses rank |
| Ranking.PassesIff | internal/query/query.go:431-444 | A chunk loses its place to a later one exactly when decay, once per earlier chunk of the same note, takes its score below the other's |
| Ranking.NoNoteIsPushedOut | internal/query/query.go:424-430 | For every cutoff a note in the old top K is in the new one |
| Ranking.DiversityNeverShrinks | internal/query/query.go:690-694 | For every cutoff the notes covered, and so their number, never fall; over the whole list they are the same |
| Ranking.CountSources | internal/query/query.go:480-486 | The distinct notes, counted |
| Ranking.DistinctNoteIDs | internal/query/query.go:448-458 | Each note once, in first-seen order |
| Ranking.FusedDescends | internal/query/fuse.go:52-57 | Fusion is score-sorted, and non-negative when the weights are |
| Ranking.ApplyPrior | internal/query/query.go:641-680 | A prior keeps the list score-sorted, so the next pass may skip its sort |
| Ranking.Answer | internal/query/query.go:636-694 | Fusion, each prior's stable sort in turn, the diversity sort, the cut; FusedSources and Sources are exactly the distinct notes before and after it |
| Ranking.AnswerCovers | internal/query/query.go:424-430 | Whatever the cutoff, the answer holds every note the undiversified answer would, and the whole list the same notes |
| Ranking.AnswerIsFull | internal/query/query.go:690-694 | The answer has at most topK entries, and with fewer holds every key some leg ranked |
| GraphReach.StepForward | internal/store/query_legs.go:365-371 | A conducting note extends a walk by one link |
| GraphReach.StepBack | internal/store/query_legs.go:365-371 | Every longer walk arises so |
| GraphReach.Reach | internal/store/query_legs.go:359-372 | On any graph the recursive query stops within maxDepth rounds with exactly the conducting walks of length up to maxDepth |
| GraphReach.RowsAreBounded | internal/store/query_legs.go:351-355 | At most seeds x notes x maxDepth rows |
| GraphReach.BestIsShortest | internal/store/query_legs.go:373-377 | min(dist) is the shortest conducting distance, when within the depth |
| GraphReach.ShortestIsSimple | internal/store/query_legs.go:355-357 | A shortest walk arrives nowhere twice, so cycles inflate nothing |
| GraphReach.DeepEnough | internal/store/query_legs.go:332-357 | As many hops as there are linked-to notes reach all that any walk can |
| GraphReach.DepthOneCountsSeeds | internal/store/query_legs.go:378-382 | At depth 1 the score is the count of distinct linking seeds, for every decay |
| GraphReach.SeedAdds | internal/store/query_legs.go:373-382 | One more seed adds decay^(d-1) for its shortest walk of length d within the depth, and nothing without one or when it was a seed before |
| GraphReach.SeedOrderIsIgnored | internal/store/query_legs.go:378-382 | Neither the order of the seeds nor a repetition changes a score |
| GraphReach.DeeperKeepsBest | internal/store/query_legs.go:332-338 | Deepening only adds rows and never changes a distance found |
| GraphReach.DeeperScoresMore | internal/store/query_legs.go:378-382 | Scores only grow with depth, for decay >= 0 |
| GraphReach.AsOfLooksBack | internal/store/query_legs.go:57-74 | Asking as of T is asking now with the statuses notes had at T, among notes that existed |
| GraphReach.NowShows | internal/store/query_legs.go:57-74 | Without an as-of time falsified, faded and archived notes show only on request, every other always |
| GraphReach.LegShows | internal/store/query_legs.go:359-391 | The multi-hop leg shows only chunks of visible notes some seed reaches through visible notes within the depth, and all of them when shorter than its limit |
| GraphReach.LegIsUnique | internal/store/query_legs.go:20-28 | The order by, with its tie-break, pins the leg down |
| GraphReach.PrecedesIsTotal | internal/store/query_legs.go:388-389 | Of two chunks at different places exactly one comes first: the heavier, else by path, else by ordinal |
| GraphReach.ShallowIsOneHop | internal/store/query_legs.go:406-425 | At depth 1 or less the multi-hop leg is the one-hop leg, entry for entry, for every decay |
| Metrics.NdcgIsNormalized | internal/query/retrievaleval/metrics.go:55-71 | For distinct ids and any positive strictly decreasing discount DCG never exceeds ideal DCG, and equals it exactly when the exact list is a prefix of the approximate one |
| Metrics.RecallIsAFraction | internal/query/retrievaleval/metrics.go:47-53 | Hits never exceed the exact list, and equal it exactly when nothing was missed |
| Metrics.TauIsACorrelation | internal/query/retrievaleval/metrics.go:77-105 | Tau stays in [-1, 1] and, with two or more common items, is 1 exactly when they are in exact order |
| Kendall.TauIs | internal/query/retrievaleval/metrics.go:77-105 | Tau is the pairs of common items both lists rank alike less those they rank otherwise, over all of them |
| Metrics.KendallTau | internal/query/retrievaleval/metrics.go:79-105 | The nested loops count concordant and discordant pairs |
| Metrics.Discounted | internal/query/retrievaleval/metrics.go:56-64 | The loop computes the discounted gain |
| Metrics.IdealDiscounted | internal/query/retrievaleval/metrics.go:65-68 | The loop computes the ideal, positive when there is anything to find |
| Metrics.Agree | internal/query/retrievaleval/metrics.go:34-75 | Recall, nDCG and tau of the truncated lists; zeros when there is no ground truth |
| Chunking.HardSplit | internal/chunk/chunk.go:182-203 | The builder loop is greedy packing |
| Chunking.SplitIsLosslessIff | internal/chunk/chunk.go:186-202 | Joining the pieces restores the content exactly when no paragraph was dropped, and is two bytes short for each |
| Chunking.NoEmptyNoneDropped | internal/chunk/chunk.go:186-202 | Content without an empty paragraph loses nothing |
| Chunking.BlankAtABoundaryIsDropped | internal/chunk/chunk.go:190-197 | A long paragraph, an empty one and a short one split into two pieces without the empty one |
| Chunking.PiecesFit | internal/chunk/chunk.go:180-203 | Every piece is within the cap or is a single paragraph |
| Chunking.NoSplitHasFewer | internal/chunk/chunk.go:180-203 | No order-preserving split meeting those limits has fewer pieces |
| Chunking.MergeSmall | internal/chunk/chunk.go:168-178 | The loop folds short sections into their predecessors |
| Chunking.MergedKeepsTheText | internal/chunk/chunk.go:166-178 | Merging keeps every section's text, in order |
| Chunking.MergedAreLarge | internal/chunk/chunk.go:166-178 | All merged sections but the first reach the minimum size; each keeps the heading it grew from |
| Chunking.MergedStartThere | internal/chunk/chunk.go:168-178 | Merged sections start exactly at the first section and at each that reaches the minimum by itself |
| Chunking.SplitSections | internal/chunk/chunk.go:58-70 | Chunks are the pieces of the merged sections, numbered by position |
| Chunking.ChunksKeepTheText | internal/chunk/chunk.go:41-71 | Where no paragraph is dropped, a note's chunks joined in order are its sections' text |
| Frontmatter.RoundTripIff | internal/vault/vault.go:137-158 | Serializing then splitting returns the same block and body exactly when no block line after the first is a bare fence |
| Frontmatter.SplitIs | internal/vault/vault.go:94-108 | A block is found exactly when the text opens with the fence and a closing one follows, the first such; otherwise all is body |
| Frontmatter.BlankIdIff | internal/write/pipeline.go:225-243 | An id line is blank exactly when nothing, an empty quotation or a YAML null stands before its comment |
| Frontmatter.ClassifyIdLine | internal/write/pipeline.go:225-243 | The first id line decides |
| Frontmatter.DropBlankIdKey | internal/write/pipeline.go:257-271 | Drops exactly the blank id lines of a terminated region |
| Frontmatter.SpliceLeavesOneId | internal/write/pipeline.go:178-198 | The block parsed next has one id line, on top, over the other lines in order and an unchanged body, exactly when its first line is no bare fence and no id line stands below a later line that begins with the fence |
| Frontmatter.OtherLinesStay | internal/write/pipeline.go:257-271 | Every line that is no id stays, in order |
| Frontmatter.SpliceKeepsTheBody | internal/write/pipeline.go:188-198 | The same of the whole file, body byte for byte |
| Frontmatter.UnclosedIsKept | internal/write/pipeline.go:257-262 | A region nothing closes only gets the id in front of it |
| Frontmatter.TwoIdsRemain | internal/write/pipeline.go:188-198 | A block with an id below such a line ends with two |
| Frontmatter.EnsureNoteId | internal/write/pipeline.go:124-199 | Disk, then index, then minting decides the id; existing ids, missing fences, malformed ids and a failing index are answered as specified |
| History.EveryRunKeepsInv | internal/vault/history.go:136-228 | In every run one commit is in progress at most, its base is HEAD, and HEAD holds some past content of each owned path |
| History.OwnedIff | internal/vault/history.go:271-277 | The owned paths are the owned root files and everything below an owned directory |
| History.EveryCommitIsASnapshot | internal/vault/history.go:123-134 | Each commit is one moment's working tree for the roots it scanned and its parent elsewhere; commits form one chain ending at HEAD |
| History.ForeignPathsAreNeverCommitted | internal/vault/history.go:115-121 | Nothing outside the owned paths is ever committed |
| History.ForeignStagingIsUntouched | internal/vault/history.go:220-226 | What another party staged is never altered |
| History.RecordedOnReturn | internal/vault/history.go:136-228 | A CommitAll that returns without error leaves each path of a scanned root in HEAD at the version it had when the call began, or later |
| History.ReturnMeansRecorded | internal/vault/history.go:131-134 | When a writer's own commit returns, whatever ran in between, HEAD holds its bytes or later ones for every scanned root; a path outside them has been removed since |
| HistoryIndex.SyncTakesTheWorkingTree | internal/vault/history.go:220-226 | In every run the last step of a call that committed takes the working tree of that moment into the real index, for the scanned roots only |
| HistoryIndex.IndexAgreesIff | internal/vault/history.go:136-228 | After an undisturbed call index and HEAD agree on the scanned roots exactly when it had something to commit or they agreed before; elsewhere the index is as it was |
| HistoryIndex.FailingEndsTheCall | internal/vault/history.go:136-228 | A git command that fails ends the call with an error and the mutex free, files, HEAD and index as they were |
| HistoryIndex.NothingToScan | internal/vault/history.go:145-147 | With nothing owned in sight a call ends at once without error and changes nothing |
| History.RemovalIsRecordedIff | internal/vault/history.go:279-312 | By a commit nobody disturbs a removal reaches HEAD exactly when its root is on disk, an empty directory included, or tracked by the real index |
| HistoryIndex.SecondCommitDropsIff | internal/vault/history.go:136-228 | Committed, removed and committed again, a file leaves HEAD exactly when the first call had something to commit, its root still stands, or the index listed something under it all along |
| HistoryIndex.WholeRootIsDropped | internal/vault/history.go:286-300 | A root that is committed and then removed, directory and all, is gone from HEAD after the next commit |
| HistoryIndex.FileRemovalIsRecorded | internal/vault/history.go:286-300 | Removing a file alone leaves its directory, so the next commit always records it |
| History.StaysForgotten | internal/vault/history.go:279-312 | In every run that makes nothing under a root out of sight, HEAD keeps showing it as it was |
| History.RemovalIsForgotten | internal/vault/history.go:207-226 | From any repository a run gets there: HEAD shows a file that is gone, until its root exists again |

## Left out

- Writers.NoLostUpdate: assumes every writer goes through the shared `PathLocks`; an external editor is outside the claim, and BLAKE3 is taken to be injective, so bytes are compared.
- Writers.EveryRunIsSerial: a missing file is not a conflict for a lifecycle rewrite, as in the code; validation and id filling are one parameter.
- LifecycleRun.Engine.Run: note order is the walk's; log.md, the commit and the dashboard that follow the loop are left out, as are the details inside report lines and timestamps that do not parse.
- Lifecycle.Compile: confidence is taken to be non-negative, where rounding half up and rounding half away from zero agree; maturity is one of the three known values.
- MigrationWorker.FinishesInTime: counts the steps of one worker; `MigrationPace.FinishesWithinBound` is the bound with everyone else running. The ticker and back-off delays and the error recorded on the row are left out, and a failed call is taken to have done nothing.
- LinkIndex.Index.CountGaps: counts destinations; link kinds are not modelled, so an edge stored or implied under two kinds counts once.
- LinkIndex.Index.AuditGraph: compares destinations, for the same reason.
- LinkIndex.Index.Reconcile: starts from the drift list; walking, hashing and timestamps before it are left out.
- Fusion.FuseRRF: scores are reals, so float rounding cannot make or break a tie.
- Ranking.AnswerCovers: assumes non-negative weights and factors; a negative category bias would turn the penalty into a boost.
- GraphReach.LegIsUnique: chunks are distinct by path and ordinal, as the table's unique constraint has it.
- Metrics.NdcgIsNormalized: the logarithmic discount is any positive strictly decreasing one.
- Chunking.SplitSections: sections come from the markdown parser, and content hashes are left out.
- Frontmatter.EnsureNoteId: YAML parsing is a parameter, the id the content yields.
- History.ReturnMeansRecorded: a failing git command ends the call with an error and leaves what the steps before it did; which command fails is a parameter.
- History.RemovalIsRecordedIff: a root is tracked when the real index holds something under it; the code looks for the root's name anywhere in the listing of the missing roots, so a tracked `archive/notes/x.md` also counts `notes` as present, and the `git add` that follows may then fail.
- Overlap and ClusterPrecision: easy beside what is proved.
- Embedding calls, vector and full-text ranking: each leg is any ranked list, each embed one vector per text or a failure.
- MCP server, commands, configuration, tokens, audit log, telemetry: plumbing.
- git internals, restore, purge, file watching, rename settling, process locks: operating-system behaviour.
