# keypool: a verified model of key selection, reporting and rotation

keypool hands out one API key from a channel's pool and uses reports on past calls to disable
or re-enable keys. This project models the logic of that service in Dafny and proves what it
keeps: the agreement of the three stored copies of "is this key usable", the locking and
idempotency protocol around them, the ledger of pre-charged and settled usage, the balance and
fairness of the choosers, time-band rotation in both of its implementations, the choice of a
channel, and the reading of the configuration.

`dafny verify dfyconfig.toml` checks everything.

## How the model is laid out

| file | what it covers |
|---|---|
| `Common.dfy`, `Windows.dfy`, `Text.dfy` | sums over finite maps, residues in windows, Go's string helpers |
| `ChannelModel.dfy`, `SettingsModel.dfy` | the channel row, the agreement of its copies, the settings and the guards on them |
| `KeyTransaction.dfy` | the transaction that enables or disables one key, as a `Store` class and as a function on databases |
| `Protocol.dfy`, `Runs.dfy` | reports, manual changes and usage-mode selections as processes of single remote steps over one shared state, and runs of them |
| `Safety.dfy`, `Ledger.dfy` | what every interleaving keeps |
| `Coverage.dfy`, `Expiry.dfy`, `Counterexamples.dfy` | the exact conditions under which counters stay non-negative and under which an expired lock or key costs something, and concrete runs |
| `RedisCells.dfy`, `Manager.dfy`, `Refinement.dfy` | the Redis commands and scripts, `Report` and `SetKeyStatus` updating state in place, and the proof that a straight-through call is a run of `Protocol` |
| `Outcomes.dfy` | what a report and a manual change come to from start to end, in terms of the request, the row, the settings and the fates of the calls |
| `Attempts.dfy`, `OncePerKey.dfy` | what one attempt at a report leaves behind, exactly when a retry is let in and settles again, and how often usage is settled under one key over every interleaving |
| `SelectScript.dfy`, `ScriptCalls.dfy`, `Balance.dfy`, `ScriptRuns.dfy` | the chooser: what one call does to the cells and which candidate it answers, the spacing of decays, the drift of the counters, and the fairness of polls |
| `Rotation.dfy`, `RotationApi.dfy`, `CandidateSet.dfy` | batches and bands, the copy of them behind the listing interface, the candidates of a channel |
| `Tiers.dfy`, `Selector.dfy`, `Selections.dfy` | priority tiers and weighted draws, `Select` as a whole, and what a selection and a run of selections come to in terms of requests, rows and settings |
| `CodeRanges.dfy`, `KeyColumn.dfy`, `SettingsHistory.dfy` | status-code lists, the key column, the settings snapshot over a history of polls |

Each remote call has one of three fates: it is carried out and answered, carried out with the
answer lost, or not carried out. Lock keys, idempotency keys and leases may expire at any step.
Clocks, settings seen, random draws, the result of the abilities query and the JSON decoders are
parameters, so every theorem holds for all of them. A report's lower-cased message is a parameter
beside the message. Lock tokens and lease ids come from a counter, which stands for random
128-bit numbers that are never drawn twice. A lease carries the key it was issued for as history
that no step reads; the program stores the estimate alone.

## What the results depend on

* The index of a report is found before the lock is taken and not looked up again inside it, so
  the key column of a channel is fixed during a run; the model has no step that changes it.
* Agreement of the copies is kept channel by channel, from states in which the channel's copies
  agree. Enabling a key sets the channel on whatever its status was, including a foreign status 2
  (`ApplyAgreement` gives the exact condition).
* Mutual exclusion and "a report enables only what was auto-disabled" need that no lock expires
  while the caller that took it is between lock and unlock. Locks left behind by a lost reply or
  a failed unlock may expire at any time. Exactly when a report that has read a key as
  auto-disabled can override a manual disabling is `OverridesIff`: the key is disabled by hand
  already, or the report's lock is no longer its own, or a manual disabling of that key that took
  the lock earlier is still to be written. `ExpiredLockLetsReportOverrideManual` is an instance.
* "At most one report per idempotency key is accepted" needs that this key does not expire while
  a report claims it, on its way or accepted. Other keys may expire at any time. After one report
  was accepted another can be, without the key expiring on the way, if and only if the key is not
  set any more or another report claims it by now (`AcceptedAgainIff`).
* A counter stays non-negative as long as its estimates and actuals are not negative, leases are
  settled on it only if issued for it, and each decay of its channel leaves it at least what is
  owed on it (`NoCounterNegative`); a fresh Redis starts so (`FreshIsCovered`). Owed is what is
  leased on the key, what is about to be leased, and what settlements under way take off beyond
  the actual usage they add. `SafeIffCovered` and `DecaySafeIff` show, for every state, that this
  is exact, and `DecayDrivesCounterNegative` is a run from a fresh Redis in which a decay the
  counter cannot afford takes it below zero.
* Usage is counted once per executed settlement, not once per idempotency key. Over every
  interleaving there are at most as many settlements under a key as rollbacks of it and expiries
  of it together, and one more while it is set (`SettledOncePerRelease`). Exactly when a retry in
  direct succession settles again is `RetrySettlesAgainIff`: the attempt settled, failed
  afterwards, and its rollback was carried out.
* A failed report frees its idempotency key unless the rollback is not carried out or setting
  the key was carried out with the reply lost (`KeyAfterFailure`). In the second case the program
  does not know that it holds the key; until it expires every report under it is answered
  `duplicate` although none was accepted (`OrphanedKeyBlocks`).
* Manual disabling is not sticky. Over every run in which no lock expires under its holder, it
  ends exactly by a manual change to another status or by a failing report that the settings let
  disable, never by a successful one (`ManualEndsIff`).
* The bound on the drift of usage counters is kept by exactly the decay factors that are at most
  1, or by any when initial spread and estimates are zero (`FactorKeepsIff`, `BoundKeptIff`). The
  configuration accepts larger factors, and with a factor of 2 a single selection breaks the
  bound (`DoublingBreaksBound`).

## Where the code and its documents differ

The model follows the code.

* The repository's design document lets the caller pass the estimate that is subtracted on a
  report; the code takes it from the stored lease.
* It lists an action `cooldown`; no code path answers it.
* It puts the event after the unlock; the code publishes while it still holds the lock.
* The comment on mode resolution says `auto` looks at the usage reported so far; the code treats
  it as `request`.
* A report answered `duplicate` is an ordinary answer of the state manager, not an error.
* The listing's rotation states follow the band only; the selector also looks ahead
  (`ActiveVersusSelectable` says exactly when they differ).
* A request with `AdvanceCursor` off is documented to leave the cursor alone; with a mode unknown
  to the script it still moves (`ProbeMovesCursorIff`). The HTTP layer refuses such modes.
* Two options that spell one channel number differently (`7` and `07`) leave the entry to the
  order in which a Go map is walked (`SpelledTwice`, `EntryDetermined`).

## Model

| member | source | states |
|---|---|---|
| ChannelModel.EnabledKeyIndexes | internal/store/types.go:131-144 | the enabled indexes, ascending, each exactly once; empty exactly when every key is dead |
| KeyTransaction.Store.ApplyKeyStatus | internal/store/store.go:142-246 | the new database is the one-step specification; a lost reply commits although the caller sees an error; `allDead` is what a fresh scan gives |
| KeyTransaction.ApplyAgreement | internal/store/store.go:184-216 | the copies agree afterwards if and only if the call enabled, killed the last key, was on a non-multi-key channel, or found the channel already on |
| KeyTransaction.ApplyKeepsConsistent | internal/store/store.go:142-246 | agreement of key statuses, channel status and ability rows is kept |
| KeyTransaction.ApplyKeepsAll | internal/store/store.go:142-246 | a transaction on one channel keeps the agreement of every channel |
| KeyTransaction.ApplyFrame | internal/store/store.go:121-140 | statuses, reasons and times of other keys, the id, mode, key column and epoch of the channel, all other channels and their ability rows are as before |
| KeyTransaction.ApplyReportsRecomputation | internal/store/store.go:182-202 | the returned status and `allDead` equal a recomputation from the stored keys |
| KeyTransaction.ApplyRow | internal/store/store.go:142-240 | for any row, agreeing or not: which calls are refused; afterwards the channel status is 3 with the last key, 1 after an enable and otherwise as it was, and the ability rows follow the first two and are otherwise as they were |
| KeyTransaction.ApplyOtherInfo | internal/store/store.go:188-232 | other_info changes exactly when the channel ends up dead, and then only its reason and time, merged into what was there |
| KeyTransaction.HistoryRefinesVector | internal/store/store.go:154-180 | after any calls, in range or not, each key's status, reason and time are what the last call on it wrote; the three maps keep one domain |
| KeyTransaction.HistoryKeepsConsistent | internal/store/store.go:142-246 | any history of calls from an agreeing database ends in one |
| SettingsModel.MatchCodeRange | internal/store/types.go:362-370 | membership in the union of the ranges |
| Protocol.LocateKeyIndex | internal/state/state.go:327-346 | an index found is in range and holds the key given; a given index is refused exactly when out of range or in conflict with the key; else the first match is found exactly when there is one |
| Protocol.FirstIndex | internal/state/state.go:338-344 | the first occurrence of the key, none only if it does not occur |
| RedisCells.Redis.IdemSet | internal/redisx/idem.go:5-12 | only the first of several callers is told it was first; a lost reply still sets the key |
| RedisCells.Redis.IdemDel | internal/redisx/idem.go:14-21 | exactly this key is freed |
| RedisCells.Redis.LeaseSet | internal/redisx/lease.go:16-22 | exactly this lease is stored, also when the reply is lost |
| RedisCells.Redis.DrawAndLease | internal/selector/selector.go:247-256 | the estimate is stored under an id never used before |
| RedisCells.Redis.LeaseTake | internal/redisx/lease.go:24-53 | the stored estimate is returned and gone in one step |
| RedisCells.Redis.UsageIncr | internal/redisx/usage.go:10-17 | one counter moves by delta, absent counting as zero |
| RedisCells.Redis.Lock | internal/redisx/lock.go:30-48 | a free lock is taken under a fresh token, a busy one is left alone |
| RedisCells.Redis.Unlock | internal/redisx/lock.go:13-19 | the lock goes only if it carries this token |
| RedisCells.Redis.SelectKey | internal/redisx/select_key.lua:14-75 | the answer is a candidate, or -1 when there is none; in usage mode the first least one, charged after any decay due, in random mode the one whose n-th part of [0, 1) holds the draw; only polling moves the cursor |
| RedisCells.Redis.DecayAll | internal/redisx/select_key.lua:26-31 | every counter of the channel is scaled once, whatever order the hash lists them in, and no other |
| RedisCells.Redis.LeastUsed | internal/redisx/select_key.lua:56-64 | the first position with the least effective count |
| RedisCells.DrawInRange | internal/redisx/select_key.lua:52-53 | a random number in [0, 1) picks a candidate position |
| ScriptCalls.Call | internal/redisx/select_key.lua:22-75 | one call for any cells and arguments: a decay fires if and only if the mode is usage, the interval positive and more than it has passed, and scales every counter of the channel; the chosen counter alone grows by the estimate; the cursor moves exactly in polling and unknown modes; and the place answered is that of the round, of the draw, or the first least count with its jitter |
| ScriptCalls.RandomShare | internal/redisx/select_key.lua:52-53 | in random mode each of n candidates owns the draws of one interval of length 1 / n |
| ScriptCalls.Run | internal/redisx/select_key.lua:22-75 | runs of calls, each doing what one call does |
| ScriptCalls.DecaysApart | internal/redisx/select_key.lua:22-34 | over any run, any two decays of one channel are more than the interval apart, whatever calls come between them and whatever the clocks say |
| ScriptCalls.DecaysTakeTime | internal/redisx/select_key.lua:22-34 | m decays of a channel take at least m - 1 intervals, so a stretch of time bounds their number |
| Manager.Manager.CountAction | internal/state/state.go:384-389 | the counter of this action grows by one and every other counter keeps its value |
| Manager.Manager.Locate | internal/state/state.go:327-346 | the scan finds what the specification names: index before key, conflicts refused |
| Manager.Manager.SettleUsage | internal/state/state.go:147-167 | the counter moves by actual less the estimate taken, and the lease is gone even if the increment fails |
| Manager.Manager.Decide | internal/state/state.go:189-232 | what is applied, counted and answered under the lock is the decision on the re-read row |
| Manager.Manager.WithLock | internal/state/state.go:169-187 | lock, re-read, decide, unlock on every path |
| Manager.Manager.Handle | internal/state/state.go:128-232 | the body of a report: stale epochs change nothing, usage is settled before the lock |
| Manager.Manager.Report | internal/state/state.go:103-232 | the whole state and outcome of a report, with the idempotency key given back on every error after it was set |
| Manager.Manager.Change | internal/state/state.go:266-292 | the locked part of a manual change |
| Manager.Manager.SetKeyStatus | internal/state/state.go:249-293 | the whole state and outcome of a manual change, refused unless the status is 1 or 2 and the index non-negative |
| Outcomes.ReportOutcome | internal/state/state.go:103-232 | for every state and every fate of the calls, the one answer of a report and the database it leaves: the first failure decides; else the key is switched off if and only if the switch is on, `auto_ban` is absent or 1, and the code lies in a range or a non-empty keyword occurs in the message, and on if and only if that switch is on and its status is 3; reason, time, channel status, ability rows and action follow |
| Outcomes.ReportStatus | internal/classifier/classifier.go:17-40 | the status of the addressed key after a report whose write is carried out: 3, 1 or unchanged by exactly those conditions on the settings' fields |
| Outcomes.CountersAfterReport | internal/state/state.go:147-167 | every counter after a report: the addressed one has grown by prompt plus completion tokens, or by the cost where the channel's entry says "cost" and the cost is positive, less the estimate of a lease still there; no other has moved |
| Outcomes.CellsAfterReport | internal/state/state.go:103-232 | the lease is gone once taking it was carried out; the lock is as it was found unless its reply or its unlock was lost; one action counter grows if there is an answer and none on an error |
| Outcomes.KeyAfterReport | internal/state/state.go:104-126 | the idempotency keys after any report: its key is added unless setting it was not carried out, or it failed and the rollback was |
| Outcomes.ChangeOutcome | internal/state/state.go:249-293 | for every state and every fate of the calls, the one answer of a manual change and the database it leaves: which status, the reason up to 256 characters, the time, and `enabled`, `key_disabled` or `channel_disabled` |
| Outcomes.CellsAfterChange | internal/state/state.go:257-292 | the lock as after a report, one action counter if there is an answer, and no other cell |
| Refinement.ReportIsRun | internal/state/state.go:103-232 | a report run to its end is a run of the interleaving model in which one caller moves |
| Refinement.SetIsRun | internal/state/state.go:249-293 | the same of a manual change |
| Refinement.SelectIsRun | internal/selector/selector.go:214-256 | the same of the remote calls of a usage-mode selection, so the ledger covers them |
| Safety.RunsKeepConsistent | internal/state/state.go:169-232 | over every interleaving of any number of callers, with locks expiring at any step, a channel whose copies agree goes on so, whatever is the matter with other channels |
| Safety.RunsKeepAllConsistent | internal/state/state.go:169-232 | from a database all of whose channels agree only such databases are reached |
| Safety.RunsKeepKeyColumns | internal/store/store.go:121-140 | no step of any caller adds or removes a channel or moves a key column, an epoch or the kind of a channel |
| Safety.StepDb | internal/state/state.go:189-293 | the database changes only by the transaction of a deciding report or manual change |
| Safety.RunsKeepTokensDistinct | internal/redisx/lock.go:35-48 | no two callers ever hold the same token, expiry or not |
| Safety.UnlockSparesOthers | internal/redisx/lock.go:13-19 | with locks expiring, no step of one caller removes a lock carrying another's token |
| Safety.RunsKeepLock | internal/state/state.go:169-187 | while no lock expires under its holder, a caller past the lock owns the lock cell and its re-read row is still the stored row |
| Safety.MutualExclusion | internal/state/state.go:169-179 | while no lock expires under its holder, at most one caller per channel is between lock and unlock |
| Safety.OnlyManualEnablesManual | internal/state/state.go:199-208 | while no lock expires under its holder, a status turns into enabled only by a manual change of that key to enabled or by a successful report on that key when it is auto-disabled |
| Expiry.OverridesIff | internal/state/state.go:169-208 | in every state in which a report has read a key as auto-disabled and is about to enable it: while it waits, with its own lock not expiring, it can be brought to enable a manually disabled key if and only if the key is disabled by hand now, or the lock is not its own, or a manual disabling of the key that took the lock earlier is still to be written |
| Expiry.FreeLockOverrides | internal/state/state.go:257-275 | from any state with the lock free, a manual change can come in between so that the waiting report then overrides it, without any lock expiring |
| Expiry.HoldersNeverOverride | internal/redisx/lock.go:13-48 | over runs in which no lock expires under its holder, every report about to enable owns its lock, has no such rival and cannot be brought to override |
| Safety.ManualEndsIff | internal/state/state.go:214-221 | on the same runs, a manual disabling ends if and only if the step is a carried-out manual change of that key to another status or a failing report on it that the settings let disable |
| Safety.StatusAfterStep | internal/state/state.go:189-293 | any step of any caller changes the status of a key exactly when it is a carried-out write to an index the transaction accepts, and then to the status written |
| Safety.RunsKeepClaims | internal/state/state.go:104-126 | while an idempotency key does not expire under a claim, at most one caller claims it and then it is set; other keys may expire at any step |
| Safety.AtMostOneAccepted | internal/state/state.go:104-126 | while an idempotency key does not expire under a claim, at most one report with it is ever accepted |
| Expiry.AcceptedAgainIff | internal/redisx/idem.go:5-21 | in every state in which a report was accepted under a key: a run that accepts another, without the key expiring on the way, exists if and only if the key is not set any more or another report claims it |
| Safety.RollbackReopensKey | internal/state/state.go:118-126 | for a report that knew it held its key and failed, the key not expiring under it: the next attempt is let in if the rollback was carried out, and answered `duplicate` if not |
| Safety.LostSetOrphans | internal/state/state.go:107-110 | a report whose key was set with the reply lost fails without a rollback, and leaves a key no caller will give back |
| Safety.OrphanedKeyBlocks | internal/state/state.go:106-115 | such a key blocks: over every run in which this key does not expire, no report is accepted under it and a fresh one is answered `duplicate` |
| Attempts.KeyAfterFailure | internal/state/state.go:104-126 | a failed report keeps its key if and only if setting it was carried out with the reply lost, or the rollback was not carried out |
| Attempts.LostSetBlocksRetry | internal/state/state.go:107-115 | from any state: a lost reply to setting the key fails the report, and its retry is answered `duplicate` |
| Safety.DuplicateIsInert | internal/state/state.go:106-115 | a report answered `duplicate` changes that counter and nothing else |
| Safety.StaleEpochIsInert | internal/state/state.go:133-138 | from every program point, `stale_epoch_ignored` becomes the final answer if and only if the report names an older key list, and only that counter changes |
| Safety.ChannelDisabledMeansAllDead | internal/state/state.go:214-231 | on a multi-key channel the answer is `channel_disabled` if and only if a disable was applied that left no enabled key; status and abilities are then off |
| Safety.MetricsCountAnswers | internal/state/state.go:384-389 | over every run, each action's counter has grown by the number of callers that got that answer |
| Ledger.LedgerConserved | internal/state/state.go:147-167 | over every interleaving and for any set of keys: counters grow by actuals, orphaned, unleased, decayed and misplaced amounts plus what is still leased or in flight |
| Ledger.StepConserves | internal/redisx/select_key.lua:54-67 | each single step moves counters, leases and amounts in flight by exactly its booking |
| Ledger.NothingMisplacedInTotal | internal/redisx/lease.go:24-31 | over all counters together no estimate is misplaced, although the program does not store the key of a lease |
| Ledger.DecayScales | internal/redisx/select_key.lua:25-31 | a decay takes off (1 - factor) of what the channel's counters hold |
| Ledger.LeaseTakenOnce | internal/redisx/lease.go:24-53 | once a report was handed a lease, no later step of any run hands it out again |
| Ledger.NoCounterNegative | internal/state/state.go:147-167 | a counter that covers what is owed on it goes on doing so and stays non-negative, over every run whose steps on that key are gentle; other keys and decays of other channels are free |
| Ledger.FreshIsCovered | internal/redisx/select_key.lua:22-34 | before any caller arrives and with nothing leased, every non-negative counter covers what is owed |
| Coverage.SafeIffCovered | internal/state/state.go:147-167 | in every state, no gentle run takes the counter of a key below zero if and only if it covers what is leased on it, about to be leased, and taken off by settlements under way |
| Coverage.UncoveredGoesNegative | internal/state/state.go:147-167 | a counter that does not cover what is owed is taken below zero by pending calls and by reports of no usage settling their own leases |
| Coverage.DecaySafeIff | internal/redisx/select_key.lua:22-34 | in every state, a selection that fires a decay leaves a key of the channel safe if and only if the decayed counter still covers what was owed |
| Counterexamples.ExpiredLockLetsReportOverrideManual | internal/redisx/lock.go:30-35 | an instance from a quiet start: the lock expires between re-read and write, and the report re-enables a manually disabled key |
| Counterexamples.DecayDrivesCounterNegative | internal/redisx/select_key.lua:22-34 | a run with a decay between charge and settlement that drives a counter below zero |
| Attempts.UsageAfterAttempt | internal/state/state.go:147-167 | for every state and every fate of the calls: actual less the leased estimate is added at the addressed key if and only if the attempt is let in, addresses a key, carries usage and has its increment carried out; nothing else moves |
| Attempts.SettledFailsIff | internal/state/state.go:164-220 | a settled attempt fails if and only if the increment is not answered, the lock is not got, the row is not re-read or a due write is not carried out and answered |
| Attempts.RetrySettlesAgainIff | internal/state/state.go:118-167 | of two attempts in direct succession under one key, the first having settled: the retry settles again if and only if the first failed, its rollback was carried out and the retry's own calls are |
| Attempts.TwiceSettled | internal/state/state.go:118-167 | two attempts in direct succession have added the actual usage once, or twice exactly in that case, less the leased estimate once |
| OncePerKey.SettledOncePerRelease | internal/state/state.go:104-167 | over every interleaving of any number of callers, settlements carried out under one idempotency key are at most its rollbacks carried out plus its expiries, plus one if the key is set at the end |
| OncePerKey.SettledOnce | internal/state/state.go:104-167 | usage is settled at most once under a key that is neither rolled back nor expires |
| Counterexamples.RetryChargesTwice | internal/state/state.go:118-126 | an instance: with the lock busy, two attempts under one key add the actual usage twice |
| Counterexamples.FailureOverwritesManual | internal/state/state.go:189-221 | a report that reads a manually disabled key makes it auto-disabled exactly when it is a failing one the settings let disable and the write is carried out, and leaves it alone otherwise |
| ScriptRuns.RunScripts | internal/redisx/select_key.lua:36-71 | the script run over any requests on any channels: its polls on a channel answer the round robin from the cursor, and each of n distinct candidates gets floor(k/n) or ceil(k/n) of k answers, whatever other calls come in between and whatever they offer |
| ScriptRuns.AnswersAreFair | internal/redisx/select_key.lua:44-47 | fairness of the polled answers, for any cursor and any calls in between |
| ScriptRuns.OnlyPollsMatter | internal/redisx/select_key.lua:44-53 | runs with as many polls answer their polls alike, whatever peeks and other calls are inserted or erased |
| Balance.ChosenNearMinimum | internal/redisx/select_key.lua:56-64 | the chosen count is at most 1 + jitter times any candidate's |
| Balance.SelectionsStayBalanced | internal/redisx/select_key.lua:22-34 | over any run of usage selections with harmless decays at any time, max - min is at most max(initial spread, jitter * min + largest estimate), and counters stay non-negative |
| Balance.FactorKeepsIff | internal/redisx/select_key.lua:22-34 | a factor keeps every pair of counts within the bound if and only if it is at most 1, or spread and estimates are zero |
| Balance.BoundKeptIff | internal/redisx/select_key.lua:22-67 | every selection that fires a decay by a factor keeps the bound if and only if the factor is at most 1, or spread and estimates are zero |
| Selector.DoublingBreaksBound | internal/selector/selector.go:434-451 | a configured factor of 2 is used as it stands, and one selection that charges nothing takes counts of 10 and 0 beyond the bound |
| ScriptRuns.RunUsage | internal/redisx/select_key.lua:22-67 | the script run over any requests in any modes on any channels keeps the counters of a channel's candidates within that bound, if its usage-mode requests offer these candidates with estimates and factors in bounds |
| Selector.SelectionIsBalanceStep | internal/selector/selector.go:214-217 | a usage-mode selection that reaches the script is one step of such a run, with the program's jitter and the channel's decay, whatever its factor |
| Rotation.Mod | internal/selector/batch.go:112-119 | the mathematical residue, also of negative bands |
| Rotation.SplitBatches | internal/selector/batch.go:15-35 | consecutive pieces of the given size; one piece for a size that is not positive |
| Rotation.DeterministicShuffle | internal/selector/batch.go:40-49 | the swaps applied in order to a copy |
| Rotation.BuildBatches | internal/selector/batch.go:53-65 | the pieces of the ordered or shuffled list of all key indexes |
| Rotation.ChunksCover | internal/selector/batch.go:17-35 | the pieces put together are the list, none is empty, all but the last are full, and there are ceil(n / size) |
| Rotation.BatchesPartition | internal/selector/batch.go:53-65 | for any swaps every key is in exactly one batch and nothing else is in any |
| Rotation.SwapsCarry | internal/selector/batch.go:40-49 | each element ends where the exchanges, one after another, carry it |
| Rotation.BatchHolds | internal/selector/batch.go:53-65 | batch p / activeCount holds, at place p % activeCount, key p, or in shuffle order the key carried to position p |
| Rotation.InBandByIndex | internal/selector/batch.go:67-90 | in index order key k is in the band if and only if (band - k / activeCount) mod B is at most the overlap |
| Rotation.BandCandidates | internal/selector/batch.go:67-90 | exactly the enabled keys of the band and its overlap, ascending, without duplicates |
| Rotation.Lookahead | internal/selector/batch.go:92-110 | the first live batch ahead with its distance, or nothing if no batch is live |
| Rotation.SortInts | internal/selector/batch.go:88-88 | a sorted permutation |
| Rotation.InBandIsHit | internal/selector/batch.go:79-87 | a key is in the band exactly when its batch is at most overlap bands behind |
| Rotation.RotationIsFair | internal/selector/batch.go:67-90 | for every key count, batch size, order and first band, a key is in the set of exactly min(overlap + 1, B) of any B consecutive bands |
| CandidateSet.Candidates | internal/selector/selector.go:360-408 | with the channel's entry of the snapshot, if its band length and batch size are positive: the enabled keys of the batches at now / bandSeconds - d for d up to the overlap, or of the first live batch ahead; else all enabled keys and no band. Empty exactly when no key is enabled. The band told is the one the keys were found in, and ends at the multiple of the band length that follows it |
| CandidateSet.Rotated | internal/selector/selector.go:375-395 | the band's live keys, or those of the first live batch ahead |
| CandidateSet.CandidateByIndex | internal/selector/selector.go:373-385 | in index order, with a live key in the window: key k is a candidate if and only if it is enabled and (now / bandSeconds - k / activeCount) mod B is at most the overlap |
| CandidateSet.CandidateIffLive | internal/selector/selector.go:382-389 | rotation never hides the last live key: some candidate exists if and only if some key is enabled |
| CandidateSet.StepMissesOverlap | internal/selector/batch.go:96-110 | a search that starts on a dead band ends before it comes round to the overlap: step + overlap < B |
| CandidateSet.SetOf | internal/selector/selector.go:377-380 | the members of the list |
| RotationApi.BuildBatchesAPI | internal/api/rotation.go:69-100 | the same batches as the selector's |
| RotationApi.BandSetAPI | internal/api/rotation.go:102-124 | exactly the keys of the band and its overlap, also for bands below zero |
| RotationApi.RotationStates | internal/api/rotation.go:22-67 | one state per key: empty unless the snapshot's entry of the channel has a positive band length and batch size; else active exactly for the enabled keys of the batches at now / bandSeconds - d for d up to its overlap, and standby |
| RotationApi.CompareRotations | internal/api/rotation.go:13-54 | both implementations carried out side by side: the states marked active are exactly the keys the selector's band computation returns, for any channel with a rotation, settings and clock |
| RotationApi.ActiveVersusSelectable | internal/api/rotation.go:13-21 | active keys can be selected; selectable keys are active if and only if the band holds a live key or no key is live |
| Tiers.PriorityTiers | internal/selector/batch.go:131-145 | the runs of equal priority, sorted as the lemmas below say |
| Tiers.TiersOfSorted | internal/selector/batch.go:129-145 | on priority-sorted input the tiers concatenate back to it, each has one priority, and priorities strictly fall |
| Tiers.SortSorts | internal/selector/batch.go:140-143 | on any input the tiers come out in descending order and none is lost |
| Tiers.SortIsStable | internal/selector/batch.go:140-143 | tiers of equal priority come out in the order in which they went in |
| Tiers.RetryNeverRaises | internal/selector/batch.go:147-159 | a larger retry never raises the priority and lowers it while tiers last |
| Tiers.TierOfRetry | internal/selector/batch.go:131-159 | on abilities listed highest priority first, a missing one counting as 0: the tier of a retry is all abilities of one priority in their order, with as many priorities above it as the retry says, or the lowest if there are not so many |
| Tiers.TiersDescend | internal/selector/batch.go:140-143 | on any input no ability of a later tier has a higher priority than one of an earlier tier |
| Tiers.TierIsListed | internal/selector/batch.go:147-159 | a tier holds only what the query listed |
| Tiers.TierWeights | internal/selector/batch.go:161-168 | one weight per member, ten above its own |
| Tiers.PickWeightedIndex | internal/selector/batch.go:170-192 | the entry that owns the draw; the return after the loop is unreachable |
| Tiers.OwnerUnique | internal/selector/batch.go:181-190 | a draw has one owner |
| Tiers.ExactWeighting | internal/selector/batch.go:161-192 | of all draws exactly weight + 10 choose a given member |
| Selector.FilterInPlace | internal/selector/selector.go:194-199 | the front of the array holds the survivors in order, though it is written while it is read |
| Selector.WithoutKeeps | internal/selector/selector.go:194-200 | the survivors are the members not excluded, still ascending |
| Selector.ExcludedOf | internal/selector/selector.go:188-193 | the excluded indexes of this channel, and of no other |
| Selector.DecayParams | internal/selector/selector.go:434-451 | interval and factor are positive whatever is configured |
| Selector.FoundIsStored | internal/selector/selector.go:307-340 | only a stored channel that is on is selected from |
| Selector.Selector.ResolveChannel | internal/selector/selector.go:307-340 | the channel asked for, or that of the tier member owning the draw; each failure with its own error |
| Selector.Selector.Offer | internal/selector/selector.go:176-205 | exactly the candidates the request does not exclude, ascending, with the band they come from; look-aheads are counted exactly when the band is dead and a key is live |
| Selector.Selector.RunScript | internal/selector/selector.go:207-220 | the script's answer is offered, chosen by round robin, draw or least use, and a lost reply still charges it |
| Selector.Selector.Choose | internal/selector/selector.go:207-260 | script, lease and answer for one offered key, with every effect on Redis |
| Selector.Selector.Select | internal/selector/selector.go:151-260 | a key is served only if it is enabled, let through by rotation and not excluded, and it is the key stored at that index; `NoKey` if and only if the channel is off or nothing is offered, whatever Redis does |
| Selector.ProbeMovesCursorIff | internal/selector/selector.go:207-212 | a request that must not advance the cursor does so exactly when it names a mode the script does not know |
| Selections.ChannelOf | internal/selector/selector.go:307-340 | the channel of a request: the one it names if stored with status 1, or the member of its retry's tier that owns the draw, each member owning weight + 10 of them; and which refusal otherwise |
| Selections.SelectTold | internal/selector/selector.go:151-260 | a selection in terms of the request, the row and the settings: polling that may advance takes the key at (cursor + 1) mod n and moves the cursor; a probe takes that at the cursor and moves nothing; random takes that of the draw; usage takes the first least count with up to a twentieth of jitter, after a decay by the configured or default interval and factor, charges it and leases the estimate; the answer names the mode and the lease |
| Selections.SelectAll | internal/selector/selector.go:207-220 | over any run of selections: those that run the script for a channel with the same n keys on offer take them in turn and tell them to their callers, each floor(k/n) or ceil(k/n) of k times, whatever probes, refusals and selections of other channels come in between |
| Selector.AgreementServes | internal/selector/selector.go:320-340 | when the copies agree, a multi-key channel found through its abilities is on and has a key to serve |
| CodeRanges.ParseCodeRanges | internal/store/types.go:329-360 | the ranges of the parts in order, or a refusal |
| Text.AtoiIff | internal/store/types.go:345-354 | a text is read as a number if and only if it is its decimal form, perhaps with a sign and zeros in front, within 64 bits |
| CodeRanges.ItemIsOrdered | internal/store/types.go:343-357 | an item that is read has 0 <= start <= end: a sign cannot get past the dash |
| CodeRanges.CoreText | internal/store/types.go:343-357 | reading an item undoes its printing, as one code or as a range |
| CodeRanges.RefusedIffBad | internal/store/types.go:338-358 | a text is refused if and only if one of its parts is neither blank nor readable |
| CodeRanges.AcceptedAreOrdered | internal/store/types.go:343-350 | every accepted range has 0 <= start <= end |
| CodeRanges.RefusedIff | internal/store/types.go:338-358 | a text is refused if and only if some part between commas is not blank and is neither a decimal code nor two of them in order with a dash between |
| CodeRanges.RangesIff | internal/store/types.go:338-358 | the ranges of an accepted text are exactly those its parts say |
| CodeRanges.DescendingRefused | internal/store/types.go:343-350 | two codes in descending order with a dash between are refused |
| CodeRanges.SpacesSkipped | internal/store/types.go:332-344 | each of the 25 characters of white space is skipped around a code or a range |
| CodeRanges.StrangerRefused | internal/store/types.go:343-357 | a text with any character but digits, signs, commas and white space is refused |
| CodeRanges.ParseIsCollect | internal/store/types.go:332-336 | trimming the whole text first and returning early on an empty one changes nothing |
| CodeRanges.ParseOfPrint | internal/store/types.go:329-360 | parsing undoes every printing of every list of ranges with 0 <= start <= end, with any white space around the items |
| CodeRanges.MatchOfPrint | internal/store/types.go:362-370 | what was printed is what is matched |
| KeyColumn.ReadBackIff | internal/store/types.go:106-123 | keys stored one per line are read back if and only if the last is not empty; otherwise exactly that one is lost |
| KeyColumn.TrailingNewline | internal/store/types.go:122-122 | with a newline at the end every list of line keys is read back |
| KeyColumn.KeysAreLines | internal/store/types.go:111-123 | the keys of any column in newline form hold no newline and join back to the column |
| SettingsHistory.ParseKeywords | internal/store/poller.go:215-225 | a word is kept exactly when it is not empty and is some line trimmed and lower-cased, in the order of the lines |
| SettingsHistory.ParseSettings | internal/store/poller.go:142-213 | the snapshot folds the options into the one before; only options naming a channel twice leave a choice |
| SettingsHistory.ParseEntries | internal/store/poller.go:176-211 | each entry comes from an option naming the channel, in whatever order the options are met; there is none only if none gives any |
| SettingsHistory.AddEntry | internal/store/poller.go:178-193 | one option settles its channel's entry and no other |
| SettingsHistory.OptionsPoller.Refresh | internal/store/poller.go:131-140 | a failed poll keeps the snapshot, a successful one replaces it |
| SettingsHistory.EntryDetermined | internal/store/poller.go:177-211 | an entry is independent of the order if and only if the options naming its channel give one value |
| SettingsHistory.SpelledTwice | internal/store/poller.go:177-192 | two spellings of one number: either value can end up in the snapshot |
| SettingsHistory.CanonicalEntry | internal/store/poller.go:177-211 | with canonical keys the entry is a function of the one option naming the channel |
| SettingsHistory.EntryIsLastSet | internal/store/poller.go:131-213 | over any polls with canonical keys, an entry is the last value that could be decoded since the option was last absent, and exists only if there is one |
| SettingsHistory.SnapshotEntries | internal/store/poller.go:131-213 | the same of the balance and rotation entries of the poller's snapshots |
| SettingsHistory.CodesAreLastParsed | internal/store/poller.go:152-165 | over any polls the codes are those of the last poll whose codes parsed; 401 if none did |
| SettingsHistory.BlankCodes | internal/store/poller.go:153-156 | an option that is unset or blank counts as "401", whatever was in force before |
| SettingsHistory.SwitchesAreLast | internal/store/poller.go:145-150 | over any polls both switches are those of the last poll that did not fail, on exactly where the option says "true" in any case of letters; off if every poll failed |
| SettingsHistory.KeywordsAreLastListed | internal/store/poller.go:167-174 | over any polls the keywords are the non-empty lines, trimmed and lower-cased, of the last poll that held the option; the defaults if none did, and also once the option is gone after a list without words |

## Left out

* HTTP routing, authentication, envelopes, error codes, key masking, metrics text and request logging.
* The direct selection by channel and key index: two guards and a lookup.
* gorm, SQL dialects and row locks: a transaction is one atomic step.
* JSON: `other_info` is a map of which only the two merged entries are read, the JSON form of the key column and the option values are decoded by parameters; a JSON null for `other_info` is not modelled.
* The channel metadata projection, base URL and the `catchup` setting: copied or unused fields.
* SHA-1: the epoch is a field of the channel, and the shuffle is an arbitrary sequence of swaps fixed by channel and key count.
* IEEE rounding and the conversion of floats to text in Redis: amounts are reals. A lease whose stored text is not a number is not modelled.
* Overflow of Go's 64-bit integers, except in the parsing of numbers.
* Bytes that are not valid UTF-8: strings are sequences of Unicode characters.
* Lower-casing of Unicode text: the lowered message and the lowering function are parameters.
* The event stream: events are best effort and promise nothing.
* Degraded mode of the Redis client: the same as a call that is not carried out.
* Failing random sources for lock tokens and lease ids: the same as a call that is not carried out.
* Forced resets of a counter and the reading of all counters: not part of the protocol.
* The race of the ticker with a manual reload: polls are sequential.
* The distinction between a nil and an empty slice or map, except that an empty keyword list is forgotten once its option is gone; a snapshot made by the poller never has a nil list of codes.
* Selection in polling, peek and random mode as steps of the interleaving model: it touches no cell the other callers use.
