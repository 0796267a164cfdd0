# A verified model of the c3api gateway core

c3api is a multi-tenant API gateway: every request leaves a usage row, workers settle the rows against prepaid balances, and
several instances share one database and one Redis. This project models five parts of it in Dafny and proves what they promise.

**Billing ledger cursor** (`Fefo`, `Ledger`, `Statements`, `LedgerRuns`, `Lanes`, `LaneProgress`, `BatchControl`, `Balances`, `Drain`).
Rows are born unbilled. A settlement statement fetches a batch of a bucket of users and, as a separate step, commits or rolls
back; temp credits are drawn first-expiry-first-out and the rest is debited. `Statements` says what the statements do in the
terms of their columns; `LedgerRuns` is the state machine of any number
of instances with a session lock that may be lost; `Lanes` is one lane with its buckets interleaved; `Drain` is the cycle with
its three lanes, its failure flags and the in-memory balance snapshot.

**Statistics planner** (`ZoneCube`, `Rollup`, `StatsPlan`, `PlannerProofs`). It decides whether a time window is served from
hourly UTC rollups or from raw rows. Instants are integers in nanoseconds; a zone is an arbitrary offset function.

**Continuation bindings** (`Fields`, `RoutingKeys`, `Decimal`, `Base16`, `FlatJson`, `Wire`, `BindingStore`, `BindingRuns`).
Injective key encodings, a canonical wire codec, and a compare-and-set store with a time to live and a batched form.

**Instance discovery** (`Names`, `Rendezvous`, `Members`, `Cluster`). A heartbeat protocol over a scored set, each command of
each heartbeat being a step of its own, with clocks that disagree; and highest-weight ownership.

**Prices and costs** (`Prices`, `Cost`). First-match variants, multiplier rounding and clamped 64-bit arithmetic, with
wrap-around written out.

`Options`, `Ints` and `Sums` hold shared definitions. `dafny verify dfyconfig.toml` checks everything.

## Assumptions

- User ids are not negative, a missing user id is user 0, and a user's account is not deleted while rows refer to it.
- Within one round the clock of the settlement statements stands still, so a user changes lane through settlement only.
- Credits with the same expiry are drawn in the order of their ids; the statement leaves that order open.
- A balance that leaves the 64-bit range makes the statement fail, which is one of the failures covered.
- `Steady`: a zone's offsets last at least an hour each. `ReadsLater`: the database reads a wall-clock time that occurs more than
  once as the last of its instants, as PostgreSQL does by taking standard time (the comment at
  internal/repository/stat_raw_expr.go:44-45 says the first). `WithinADay`: wall clocks are at most a day off. `SaneHost`: two
  offsets of one host differ by at most a day. Each is a hypothesis of the lemmas that need it.
- A Redis key is dead once the server's clock in milliseconds exceeds its deadline, and keys are not evicted before.
- Discovery clocks read true time plus an error from a band as wide as the skew, and no command reaches the server later than
  the gap after its heartbeat's reading.
- Hashes are arbitrary functions, none of them assumed to be free of collisions.

## Where the promises fail

- `CeilHourBound`: rounding up to the hour is exact from the epoch onward; before it, division towards zero overshoots, and the
  lemma gives the exact condition.
- `DurationWindow`: the comment at internal/domain/statsplan.go:372-375 promises two aligned ends; that holds only for durations
  of whole hours. The code is followed.
- `UngroupedCubePlan`: the kinds without grouping read the cube over the window as asked, which is exact only for ends on the hour.
- `StaleDiverges`: one reload after commits stop is enough only if nothing outdated was under way.
- `SetBackTwoHours`: grouping the cube by local hour is wrong just before a wall clock is set back by two hours, as at Antarctica/Troll;
  `HoursGroupExactlyIff` gives the exact condition, which the offsets of the two days after the window decide.
- `ShortSegmentMissed`: hourly sampling needs offsets that last an hour.
- `MultiplyExactIff`: above the price bound the multiplier wraps around.
- `BudgetIsExact`: membership is safe if and only if clock skew plus heartbeat gap is under 15 s.
- The header of internal/billing/batch_controller.go (line 11) says slow statements halve the batch; the code at lines 69-75
  holds it, and the code is followed.

## Model

| member | source | states |
|---|---|---|
| Fefo.TakeIsFefo | internal/repository/billing_settle_sql.go:94-107 | the cumulative-sum form of the takes draws at most each credit, leaves a later credit untouched until every earlier one is empty, and draws the whole charge or the whole pool |
| Fefo.FefoUnique | internal/billing/flusher_test.go:258-288 | first-expiry-first-out determines the takes: any two allocations with those three properties are equal, so the set form is the loop form |
| Fefo.TakeTotal | internal/repository/billing_settle_sql.go:102-116 | the takes add up to the smaller of charge and pool, which is what the spill is computed from |
| Fefo.TakeInOrder | internal/repository/billing_settle_sql.go:94-107 | for any order of the credits: one is touched only if all before it are drawn in full |
| Ledger.WindowCount | internal/repository/billing_settle_sql.go:20-28 | a batch holds min(eligible rows, limit) rows |
| Ledger.WindowOldest | internal/repository/billing_settle_sql.go:20-28 | no eligible row outside the batch has a smaller id than one inside it |
| Ledger.FetchCovered | internal/repository/billing_settle_sql.go:84-111 | the takes planned for a fetched batch never exceed any user's charge in it, for every lane, limit, bucket and clock |
| Ledger.TakesWithinDelta | internal/repository/billing_settle_sql.go:102-116 | what is earmarked from a user's credits is the smaller of the user's charge and the user's live credits, so no spill is negative |
| Ledger.CommitConserves | internal/repository/billing_settle_sql.go:108-126 | a commit lowers a real user's holdings by as much as it raises the user's billed cost; Statements.CommitCharges says how much in terms of the cost column |
| Ledger.CreditsFirst | internal/repository/billing_settle_sql.go:94-126 | the balance is touched last: a user whose balance a temp-lane settlement debits has no live credit left |
| Ledger.OverdraftIsDebt | internal/repository/billing_settle_sql.go:48-59 | a row is marked as overdraft if and only if its settlement moved its user's balance to below zero |
| Ledger.CommitWellFormed | internal/repository/billing_settle_sql.go:52-59 | a commit keeps billed rows inside the ledger, overdraft marks on billed rows, and credits non-negative |
| Ledger.CommitEquity | internal/repository/billing_settle_sql.go:84-146 | balance plus credits plus billed cost of every real user is unchanged by a commit that passes the guard |
| Ledger.MarkEquity | internal/repository/billing_cursor.go:96-106 | marking free rows changes no user's balance plus credits plus billed cost |
| Ledger.CoveredGrows | internal/repository/billing_settle.go:171-193 | takes planned within the charge stay within it while others only add to the ledger, so the guard on the marked count is the only recheck needed |
| Statements.BatchIs | internal/repository/billing_settle_sql.go:20-28 | a batch is the oldest rows that are unbilled, have a cost, belong to the bucket's users, and to users with a live credit in the temp lane and without one in the balance lane; all of them or as many as the limit |
| Statements.ExpiresFirst | internal/repository/billing_settle_sql.go:94-107 | once a credit is drawn on, every live credit of the user that expires sooner is drawn whole, and one that never expires comes last |
| Statements.TakesAre | internal/repository/billing_settle_sql.go:94-107 | only live credits of users in the batch are drawn on, none for more than it has |
| Statements.CommitCharges | internal/repository/billing_settle_sql.go:29-39 | a commit takes from each real user's balance and credits exactly the summed cost column of the user's rows in the batch |
| Statements.OneRowCharge | internal/repository/billing_settle_sql.go:29-39 | a settlement with a single row of a user takes exactly that row's cost from the user |
| Statements.OthersUntouched | internal/repository/billing_settle_sql.go:29-39 | a user without a row in the batch keeps the balance and every credit as they were |
| Statements.BalanceLanePays | internal/repository/billing_settle_sql.go:20-39 | in the balance lane the balance pays the whole cost and no credit changes; nobody with a live credit pays |
| Statements.ReportCounts | internal/repository/billing_settle_sql.go:64-76 | the counts reported: rows, users whose balance changed and stayed at or above zero, and users whose balance changed to below zero |
| Statements.QuarantinedRows | internal/repository/billing_settle_sql.go:147-157 | the rows reported as charged to nobody: of users without an account whose live credits do not pay for them |
| LedgerRuns.StepSafe | internal/billing/flusher.go:25-46 | every step of every instance and of the world outside keeps accounts exact, billed rows in one batch each and in-flight batches covered; billed rows stay billed |
| LedgerRuns.StepLocked | internal/billing/flusher.go:28-32 | while no session loses the lock, every step keeps at most one instance active and its open batches exclusive to their buckets |
| LedgerRuns.RunSafe | internal/billing/drain.go:36-127 | the same over whole runs, with lanes, parallel buckets, roll-backs, replays, truncated cycles and lost locks in any order |
| LedgerRuns.RunLocked | internal/billing/flusher.go:203-225 | the lock discipline over whole runs without lock loss |
| LedgerRuns.Turns | internal/billing/drain.go:68-74 | an instance takes a free lock, goes through balance lane, temp lane and sweep in turn, and gives back only its own lock |
| LedgerRuns.ExactlyOnce | internal/billing/flusher.go:25-46 | over every run of many instances, even with lost locks: committed batches are pairwise disjoint, and what each real user was paid in minus the user's balance and credits is the summed cost column of the user's billed rows |
| LedgerRuns.InFlightDisjoint | internal/billing/flusher.go:203-225 | without lock loss, any two open batches belong to one instance, are disjoint, and pass the guard when they commit |
| Lanes.FetchLocal | internal/repository/billing_settle_sql.go:11-15 | what a bucket fetches depends only on that bucket's users |
| Lanes.CommitElsewhere | internal/repository/billing_settle_sql.go:11-15 | a commit of one bucket changes nothing another bucket can see |
| Lanes.GuardPasses | internal/repository/billing_settle.go:185-191 | whatever the other buckets of a lane do between its fetch and its commit, a bucket's marked count equals its batch |
| Lanes.RunTracks | internal/billing/drain.go:88-124 | in every interleaving, each bucket's part of the ledger is what that bucket alone would have made of it |
| Lanes.SequenceReportsAlone | internal/billing/drain.go:88-124 | in a sequential run of the buckets every settlement reports what it would report alone |
| Lanes.ParallelIsSequential | internal/billing/drain.go:76-127 | every interleaving of the bucket settlements, with any of them rolled back, ends in the ledger, balances and credits of running them one after another, every bucket reports what it reports then, and the reports that reach the caller, merged in any order, make the sequential summary up to the order of its balance pairs |
| Lanes.MergeOrderIrrelevant | internal/billing/drain.go:115-121 | merging the reports in any order gives the same counts and the same balance pairs up to order |
| Lanes.MergedColumns | internal/billing/drain.go:115-121 | each count of the merged summary is the sum of that count over the reports, and its pairs are all of theirs |
| LaneProgress.ReportTrue | internal/repository/billing_settle_sql.go:64-76 | the balance pairs a settlement reports are the balances it left, all of users in its bucket |
| LaneProgress.ReportComplete | internal/repository/billing_settle_sql.go:64-76 | every user whose balance a commit changed is in its report |
| LaneProgress.EndInv | internal/billing/drain.go:98-122 | the end of a bucket's call, in all combinations of committed and reported, keeps totals, flags and ledger in step |
| LaneProgress.IdleBucket | internal/billing/drain.go:43-47 | a bucket that ended without error and marked nothing had no eligible row, and leaves none |
| LaneProgress.FailedBucketSkipped | internal/billing/drain.go:89-91 | no settlement of a lane concerns a bucket that was flagged before the lane began |
| BatchControl.BatchController.Limit | internal/billing/batch_controller.go:53-57 | a limit between 500 and 64000 |
| BatchControl.BatchController.Observe | internal/billing/batch_controller.go:66-81 | in numbers: a deadline error halves the size, not below 500; a success under a third of eight seconds that used up its limit doubles it, not above 64000; everything else leaves it |
| BatchControl.AdjustMoves | internal/billing/batch_controller.go:28-81 | the same for every size from 500 to 64000 and every observation |
| BatchControl.AdjustOnGrid | internal/billing/batch_controller.go:66-81 | one observation moves the exponent of 500*2^k by at most one and keeps it in 0..7 |
| BatchControl.LimitsStayOnGrid | internal/billing/batch_controller.go:28-81 | after every sequence of observations, in whatever order concurrent callers make them, the size is 500*2^k with k in 0..7 |
| BatchControl.SevenTimeouts | internal/billing/batch_controller.go:70-71 | seven timeouts in a row bring any reachable size to 500 |
| Balances.Balances.Reload | internal/billing/balances.go:72-103 | all three tables are replaced together, and any failed load changes neither snapshot |
| Balances.Balances.ReloadMultipliers | internal/billing/balances.go:109-126 | replaces multipliers only, and nothing on failure |
| Balances.Balances.Set | internal/billing/balances.go:132-138 | changes the balance of a user already in the snapshot and adds nobody |
| Balances.Balances.BalanceOf | internal/billing/balances.go:142-149 | an unknown user reads as absent, not as zero |
| Balances.Balances.EffectiveMultiplier | internal/billing/balances.go:156-168 | the assignment if there is one, else the group's, else 10000 |
| BalanceRuns.StepHonest | internal/billing/balances.go:63-103 | every step of loads, swaps, aims and stores keeps every value in memory one the store has held for that user |
| BalanceRuns.RunHonest | internal/billing/balances.go:63-149 | the same over every interleaving |
| BalanceRuns.SnapshotHonest | internal/billing/balances.go:63-149 | every balance a reader can see in any table it holds is one the store held earlier for that user |
| BalanceRuns.FreshConverges | internal/billing/balances.go:68-71 | once commits stop and nothing outdated is under way, one completed reload makes the snapshot equal the store for good |
| BalanceRuns.StaleDiverges | internal/billing/balances.go:68-71 | otherwise the promise fails: from any state with an outdated load or update under way there is a continuation in which a complete later reload is overwritten by it |
| Drain.ApplyTruePairs | internal/billing/drain.go:132-135 | pushing true pairs that name every changed user makes an agreeing snapshot agree again |
| Drain.FinishedLikeSequence | internal/billing/drain.go:82-127 | a finished lane leaves the ledger and the merged summary, up to the order of its pairs, of the buckets one after another |
| Drain.LogLane | internal/billing/drain.go:102-105 | a lane adds each failed call once, and a flag stays up if and only if its call failed |
| Drain.Flusher.Settle | internal/billing/flusher.go:37-43 | the store's answer: a report only after a commit, and an error either without one or, when the reply is lost, after one; errors are logged by lane and bucket |
| Drain.Flusher.EndBucket | internal/billing/drain.go:98-122 | one call's outcome for each of rolled back, committed, and committed but reported as an error: ledger, log, flag and total, and the batch size halved, doubled or left as the call's time, error and rows decide |
| Drain.Flusher.EndOne | internal/billing/drain.go:98-122 | the same inside a lane, with the controller fed one observation per call |
| Drain.Flusher.RunBuckets | internal/billing/drain.go:88-124 | the lane ends with every bucket finished or flagged, the total being the merge of the successful reports and, up to order, that of the sequential run; failed calls are logged; every call got the limit the controller stood at, and the controller saw exactly one observation per call |
| Drain.Flusher.SettleLaneParallel | internal/billing/drain.go:82-127 | returns the rows marked, and the snapshot is the old one updated with exactly the pairs reported |
| Drain.Flusher.ApplySettlement | internal/billing/drain.go:132-148 | the snapshot after all pairs, and the quarantine count |
| Drain.Flusher.SettleLanes | internal/billing/drain.go:70-71 | the balance lane and then the temp lane on what it left, each with its own controller |
| Drain.Flusher.SweepZeroCost | internal/billing/drain.go:153-177 | marks the free rows among the oldest 2000 and nothing that costs, and returns how many |
| Drain.Flusher.FindFreeRows | internal/billing/drain.go:161-166 | finds exactly the free rows of the fetched window |
| Drain.Flusher.ConsumeBatchFiltered | internal/billing/drain.go:68-74 | balance lane, temp lane, sweep in turn, and the rows they report marked; a round advances the ledger soundly, and with no failure the count is the growth of the billed rows; a round without progress leaves only rows of failed buckets to pay for; no lane and bucket that failed before fails again |
| Drain.Flusher.DrainLoop | internal/billing/drain.go:36-54 | ends within unbilled rows + 1 rounds; each lane and bucket fails at most once, and a flag is up if and only if that call returned an error; on a standstill every remaining row with a cost is in a bucket that failed this cycle; with no failure, sweep included, the ledger is empty; with no failure an agreeing snapshot agrees with the store at the end; a bucket that panics is excluded, see Left out |
| Drain.Flusher.ConsumeCycle | internal/billing/flusher.go:203-225 | without the lock nothing happens; with it the outcome of the drain loop holds: which calls failed, what may remain, and when the ledger is empty; either way accounts stay exact |
| Drain.Flusher.CloseDrain | internal/billing/flusher.go:321-342 | ends within unbilled rows + 1 cycles; if the last cycle came to a standstill, only rows of buckets that failed in it remain to be paid for, and with no failure the ledger is empty |
| Drain.IdleLanes | internal/billing/drain.go:43-47 | two lanes that mark nothing leave no row of an unfailed bucket to pay for, whichever lane its user belongs to |
| Drain.SweepFoundNothing | internal/billing/drain.go:153-169 | a sweep that finds nothing leaves a free row only behind a full window of older rows that cost |
| Drain.LedgerEmpty | internal/billing/drain.go:33-54 | no failed bucket and no free row found imply an empty cursor |
| ZoneCube.ZoneCubeVerdict | internal/domain/statszone.go:45-66 | the sampling loop computes the verdict |
| ZoneCube.AlignedIsMultiple | internal/domain/statszone.go:70-72 | aligned means a whole multiple of an hour from the epoch, also before it |
| ZoneCube.VerdictMeaning | internal/domain/statszone.go:9-66 | each verdict if and only if its cause: ends first, then the first sample that is off the hour, then the first that differs |
| ZoneCube.SamplingSound | internal/domain/statszone.go:28-66 | for a zone whose offsets last at least an hour each, a reusable verdict fixes one whole-hour offset at every instant of the window |
| ZoneCube.ShortSegmentMissed | internal/domain/statszone.go:28-29 | without that condition sampling is unsound: a zone with a half-hour segment between samples gets a reusable verdict |
| Rollup.SameBucket | internal/repository/stat_raw_expr.go:39-60 | in a reusable window a row and the start of its UTC hour fall into the same local day, and into the same local hour if the start of that hour is read back as itself |
| Rollup.ReadBack | internal/repository/stat_raw_expr.go:39-60 | the wall clock of an instant is read back as that instant if and only if no later instant shows it |
| Rollup.RollupAnswers | internal/repository/stat_repo.go:132-142 | hourly totals answer every question that cannot tell a row from its hour as the rows do |
| Rollup.TotalsAre | internal/repository/stat_raw_expr.go:62-70 | raw totals are the number of rows, their summed cost and the largest of their times |
| Rollup.BucketIsLocal | internal/repository/stat_raw_expr.go:39-60 | for any fixed offset a bucket starts on the local hour or at local midnight and holds what comes within the hour or the day |
| Rollup.DaysGroupExactly | internal/domain/statszone.go:9-66 | by day: in every reusable window, for every list of rows and every local bucket, regrouped hourly totals and raw grouping give the same count, sum and maximum |
| Rollup.HoursGroupExactlyIff | internal/domain/statszone.go:9-66 | by hour: the same if and only if the wall clock is not set back after the window so far that the start of one of its hours shows again |
| Rollup.HoursGroupExactly | internal/domain/statszone.go:9-66 | by hour: the same in every zone that is never set back by more than an hour |
| Rollup.RollupRefinesRaw | internal/domain/statszone.go:9-66 | the three together, for every zone whose offsets last an hour and every reusable window |
| Rollup.SetBackTwoHours | internal/domain/statszone.go:21-26 | the promise fails: in a zone set back by two hours an hour before the change is reusable and is regrouped two hours later |
| Rollup.UngroupedExactIff | internal/domain/statsplan.go:203-226 | without grouping, hourly totals serve a window exactly for all rows if and only if both ends are on the hour |
| StatsPlan.ComputeCoverageDays | internal/domain/statsplan.go:403-415 | the least positive retention among the tables, and whether there is one |
| StatsPlan.KindCapability | internal/domain/statsplan.go:453-466 | caps and days reported for a kind are the ones admission compares with |
| StatsPlan.StatsCapabilities | internal/domain/statsplan.go:448-469 | exactly the known kinds are reported, each honestly, on an hourly grid |
| PlannerProofs.CeilHourBound | internal/domain/statsplan.go:361-370 | the end moves later by less than an hour if and only if its second is not before -3600 or is among the first two of its hour |
| PlannerProofs.CeilHourOvershoots | internal/domain/statsplan.go:361-370 | at -3601 s the result is 0, not -3600 s |
| PlannerProofs.ShiftBounds | internal/domain/statsplan.go:321-343 | from the epoch onward and for an hour or more: each end moves later by less than an hour, the candidate is not empty, fits every whole-hour cap the request fits, and is never unaligned |
| PlannerProofs.PlanIsStable | internal/domain/statsplan.go:330-343 | a planned window asked for again gets the same plan, exact if on the cube |
| PlannerProofs.RawReason | internal/domain/statsplan.go:321-352 | each reason if and only if its cause, for all windows; only shifted plans move the window, from the epoch onward each end later by less than an hour |
| PlannerProofs.FloorAntitone | internal/domain/statsplan.go:392-394 | a longer retention never has a later floor |
| PlannerProofs.FloorBounds | internal/domain/statsplan.go:385-394 | a floor is the UTC midnight before the instant whose host wall clock is that many days back |
| PlannerProofs.CoverageGuard | internal/domain/statsplan.go:396-415 | one comparison with the least retention decides for all tables read |
| PlannerProofs.PlanIff | internal/domain/statsplan.go:273-319 | a plan is returned if and only if kind and window are valid, the requested span fits the reported cap of the chosen storage, and the effective start is not before the floor of any enabled table read |
| PlannerProofs.PlanCarries | internal/domain/statsplan.go:228-240 | a plan carries the request's zone; kinds without grouping keep the window and read the storage of their kind |
| PlannerProofs.PlanInNumbers | internal/domain/statsplan.go:145-226 | the same condition in hours per kind and storage and in the three retention settings |
| PlannerProofs.RejectedWhy | internal/domain/statsplan.go:284-319 | each rejection reason if and only if its cause, cost before coverage, with the storage, window, limit, retention and cutoff it names; a cutoff is the latest floor of the tables read |
| PlannerProofs.ShorterRetention | internal/domain/statsplan.go:442-469 | shortening retention changes an answer only into a horizon rejection with the same storage and window |
| PlannerProofs.DurationWindow | internal/domain/statsplan.go:372-383 | a relative window has its duration, ends at the next hour, and starts on the hour if and only if its duration is whole hours |
| PlannerProofs.CubePlanRefinesRaw | internal/domain/statsplan.go:330-343 | whenever a zoned query is planned on the cube, in the plan's zone, which is the request's, every local day of the effective window has the totals of the raw rows; every local hour has them if and only if no hour of that window shows again after it |
| PlannerProofs.UngroupedCubePlan | internal/domain/statsplan.go:203-226 | for the kinds without grouping the cube plan is exact if and only if both ends of the request are on the hour |
| Fields.EncodeUvarint | internal/domain/routing.go:64-68 | the ten-byte buffer is never overrun and holds the base-128 form |
| Fields.UvarintRoundTrip | internal/domain/routing.go:64-68 | a number is read back from its varint whatever bytes follow |
| Fields.FieldsRoundTrip | internal/domain/routing.go:70-80 | the fields of every field sequence are read back from its encoding |
| Fields.FieldsInjective | internal/domain/routing.go:70-80 | different field sequences have different encodings |
| Fields.Int64Injective | internal/domain/routing.go:82-86 | different 64-bit integers, negative ones included, have different big-endian fields |
| Fields.Int64Bytes | internal/domain/routing.go:82-86 | the field is the eight bytes, most significant first, of the value modulo 2^64 |
| RoutingKeys.WriteFields | internal/domain/routing.go:70-80 | the bytes fed to the hasher are the version and the encoded fields |
| RoutingKeys.TextIsUtf8 | internal/domain/routing.go:94-99 | the fixed names always pass the UTF-8 check, so the errors ignored for them cannot occur |
| RoutingKeys.ValidUtf8Sound | internal/domain/routing.go:94-99 | a string that passes the UTF-8 check is the encoding of some code points (section 3 of RFC 3629) |
| RoutingKeys.ValidUtf8Complete | internal/domain/routing.go:94-99 | the encoding of any code points passes the check |
| RoutingKeys.CallerIsNotEightBytes | internal/domain/routing.go:44-62 | no caller kind is eight bytes long |
| RoutingKeys.RouteClassIff | internal/domain/routing.go:166-175 | an identity if and only if the format and operation are known and the model name is UTF-8 |
| RoutingKeys.QualityClassIff | internal/domain/routing.go:184-196 | an identity if and only if the caller, format and operation are known and the model name is UTF-8 |
| RoutingKeys.DigestIs | internal/domain/routing.go:205-234 | which secret identifies a candidate, and that there is none without it |
| RoutingKeys.CandidateIff | internal/domain/routing.go:258-292 | when a candidate has an identity at all |
| RoutingKeys.RouteClassInjective | internal/domain/routing.go:166-182 | equal hash inputs mean equal group, format, model and operation |
| RoutingKeys.QualityClassInjective | internal/domain/routing.go:184-203 | equal hash inputs mean equal caller, format, model and operation |
| RoutingKeys.CandidateInjective | internal/domain/routing.go:258-302 | equal hash inputs mean equal account, template, credential type, origin, digest, flag and codex identity |
| RoutingKeys.InputsDisjoint | internal/domain/routing.go:166-302 | no two of route class, quality class, candidate and continuation tuple share a hash input |
| RoutingKeys.CanonicalTuple | internal/continuation/store.go:137-151 | the tuple is the version and its five fields |
| RoutingKeys.TupleInjective | internal/continuation/store.go:137-151 | different continuation tuples have different encodings |
| Decimal.IntRoundTrip | internal/continuation/store.go:47-57 | every 64-bit integer is read back from its decimal form |
| Base16.RoundTrip | internal/continuation/store.go:47-57 | every byte string is read back from its base-16 form (section 8 of RFC 4648) |
| FlatJson.ObjectRoundTrip | internal/continuation/store.go:40-57 | every object of plain strings and booleans is read back from its text (section 4 of RFC 8259) |
| Wire.CheckAccepts | internal/continuation/store.go:83-116 | the record of a valid binding passes all checks |
| Wire.CheckSound | internal/continuation/store.go:83-116 | whatever record was decoded, an accepted binding is valid and the bytes are its encoding |
| Wire.WireText | internal/continuation/store.go:40-57 | the stored text byte by byte: the four members in order, without white space |
| Wire.WireRoundTrip | internal/continuation/store.go:47-117 | parsing the encoding of any valid binding returns it |
| Wire.WireCanonical | internal/continuation/store.go:112-116 | any bytes the parser accepts are exactly the encoding of the binding it returns |
| Wire.WireInjective | internal/continuation/store.go:47-57 | different valid bindings have different payloads |
| Wire.AnyReaderWillDo | internal/continuation/store.go:58-117 | every JSON reader that reads canonical texts yields the same parser on all bytes |
| BindingStore.Store.CreateOrRefresh | internal/continuation/store.go:232-252 | the effect and status of one request; refused requests send nothing; a lost reply leaves either the old state or the bound one |
| BindingStore.Store.CreateOrRefreshBatch | internal/continuation/store.go:282-326 | a successful batch leaves the state and the index-aligned results of its requests one at a time in order, whatever others do in between; a failed one leaves the state of a prefix of them |
| BindingStore.Store.Queue | internal/continuation/store.go:290-306 | exactly the commands of the requests that are not refused, in order |
| BindingStore.Store.Exec | internal/continuation/store.go:307-309 | the server runs the commands in order, each after what others did before it |
| BindingStore.Store.Collect | internal/continuation/store.go:310-325 | every reply ends at the index of its request |
| BindingStore.Store.Lookup | internal/continuation/store.go:328-376 | refused, missed or hit as the stored entry, its remaining life and the two clock samples decide |
| BindingStore.ExecuteAll | internal/continuation/store.go:307-309 | the pipeline ends in the state of the requests one at a time |
| BindingStore.ExecutePrefix | internal/continuation/store.go:307-309 | a pipeline cut short ends in the state of a prefix of the requests |
| BindingStore.ReplyOf | internal/continuation/store.go:310-325 | the reply of request i is the one after as many as were queued before it |
| BindingRuns.RunSane | internal/continuation/store.go:190-202 | over every run, stored values are encodings of valid bindings and no deadline is further off than the time to live |
| BindingRuns.CasOutcome | internal/continuation/store.go:190-202 | created if and only if nothing was alive, conflict if and only if something else was and then nothing changes, otherwise held for 86400 s; other keys untouched |
| BindingRuns.CommandsAreValid | internal/continuation/store.go:219-230 | a command is sent if and only if the binding is valid and both names are non-empty |
| BindingRuns.HeldToDeadline | internal/continuation/store.go:190-202 | until its deadline a binding keeps its payload and no earlier a deadline through every interleaving of clients |
| BindingRuns.NeverRewritten | internal/continuation/store.go:190-202 | a binding that has not expired has the payload it was created with, however often refreshed |
| BindingRuns.FirstWriterWins | internal/continuation/store.go:190-202 | for the whole time to live after a successful write, another binding gets a conflict and alters neither value nor deadline, and the same one is refreshed |
| BindingRuns.HitIsFresh | internal/continuation/store.go:333-375 | every hit is a validated binding that the server still holds unexpired at the completion sample, under any constant skew of the client's clock |
| BindingRuns.HitIff | internal/continuation/store.go:328-376 | a lookup hits if and only if the entry is alive and would still be at the completion sample; its deadline arithmetic stays in 64 bits |
| BindingRuns.KeysIndependent | internal/continuation/store.go:174-184 | two continuations share a key if and only if the key hash agrees on their tuples, so they are equal or their tuples are a collision |
| BindingRuns.RefusedTouchesNothing | internal/continuation/store.go:292-303 | an invalid item touches nothing and blocks nobody: the batch leaves the state, and gives the others the results, of the batch without it |
| Names.Sort | internal/discovery/discovery.go:252-255 | the listing is sorted, free of repetitions and has exactly the members |
| Names.LessIs | internal/discovery/discovery.go:252-255 | the order is that of bytes: a proper prefix first, else the smaller byte where two names first differ |
| Rendezvous.RendezvousOwner | internal/discovery/discovery.go:200-218 | the owner has the greatest weight, the first name among equals, for any hash |
| Rendezvous.OwnerUnique | internal/discovery/discovery.go:198-218 | equal member sets have exactly one owner, ties included |
| Rendezvous.RemoveKeepsOwner | internal/discovery/discovery.go:198-218 | removing a member that is not the owner never moves the key |
| Rendezvous.AddMovesOnlyToNew | internal/discovery/discovery.go:198-218 | adding a member moves a key to that member or not at all |
| Rendezvous.MovesOnlyWhenNeeded | internal/discovery/discovery.go:198-218 | over any change of membership a key moves only if its owner left or its new owner is new |
| Members.Discovery.Tick | internal/discovery/discovery.go:234-261 | success sets the count to the members counted and refreshes the sorted listing; failure changes neither and counts one error |
| Members.Discovery.OnTickError | internal/discovery/discovery.go:266-268 | counts the error and touches nothing else |
| Members.UndisturbedTick | internal/discovery/discovery.go:238-243 | a heartbeat nobody interferes with leaves the members that are not 15 s old by its reading and itself, in a key that lives 20 s |
| Members.Discovery.ClusterInstances | internal/discovery/discovery.go:172-177 | the count if there is one, and never below 1 |
| Members.Discovery.LiveMembers | internal/discovery/discovery.go:181-189 | the last successful listing, empty before the first |
| Members.Discovery.Close | internal/discovery/discovery.go:146-167 | an instance that had started is gone from the set as soon as the command arrives |
| Cluster.StepInv | internal/discovery/discovery.go:48-72 | every command of every heartbeat, also of one given up that arrives late, every stop, crash and wait keeps the live instances in the set and every pruned view fresh, if skew plus gap is under 15 s |
| Cluster.LiveNeverPruned | internal/discovery/discovery.go:54-66 | at every moment of every such run all live instances are in the set and the key has not expired |
| Cluster.TickSeesTheLiving | internal/discovery/discovery.go:231-256 | every tick counts and lists all live instances, and lists nobody whose score is 15 s older than its reading |
| Cluster.StoppedScoreStays | internal/discovery/discovery.go:146-167 | once a stopped instance has no command on its way, its score never changes, it can only vanish |
| Cluster.StoppedNotListed | internal/discovery/discovery.go:54-63 | a stopped member is absent from every tick at least 15 s past its last score |
| Cluster.BudgetIsExact | internal/discovery/discovery.go:54-63 | the 15 s budget is exact: once skew and gap add up to it there is a run, on time throughout, in which a tick prunes a live instance |
| Prices.MatchesFits | internal/domain/price_resolve.go:89-145 | a variant matches if and only if every condition set on it holds of the request: tier, prompt bounds, time of day, weekday |
| Prices.ResolveEntryPrices | internal/domain/price_resolve.go:18-76 | the first variant that fits the request is applied and only it; without one the entry's prices stand, as when all name another tier; one without conditions always applies; no entry, no prices |
| Prices.ResolvesToOne | internal/domain/price_resolve.go:15-17 | the outcome is unique and nothing after the first match matters |
| Prices.ApplyAt | internal/domain/price_resolve.go:39-73 | component by component: an override wins, else the rounded product, else the entry's price; what neither has stays absent |
| Prices.TimesSplitTheDay | internal/domain/price_resolve.go:113-145 | the spans between two times, one of which may wrap midnight, cover every minute exactly once; start inclusive, end exclusive |
| Prices.ContextsMeet | internal/domain/price_resolve.go:93-98 | context ranges that meet at a bound never both match |
| Prices.OneDayMask | internal/domain/price_resolve.go:104-109 | a mask of one bit matches that weekday and no other |
| Prices.MultiplyExact | internal/domain/price_resolve.go:39-54 | up to (MaxInt64-5000)/100000 no multiplier overflows and the price is rounded half up |
| Prices.HalfUpIs | internal/domain/price_resolve.go:47-54 | rounded half up means the nearest multiple, the greater of two |
| Prices.MultiplyExactIff | internal/domain/price_resolve.go:47-54 | the price is rounded half up if and only if its product fits, or the multiplier is neutral and the overflow is negative |
| Prices.BoundIsTight | internal/domain/price_resolve.go:47-54 | one unit past the bound the greatest multiplier gives a wrong price |
| Cost.SegmentBound | internal/billing/cost.go:79-95 | a component never overflows, is within its budget, never above the exact product, and equal to it if and only if that is within the budget |
| Cost.TokenCost | internal/billing/cost.go:99-125 | in [0, MaxInt64/100000], never above the exact amount, and the exact sum rounded half up whenever no product exceeds the budget |
| Cost.TokenCostMonotone | internal/billing/cost.go:106-125 | monotone in all four token counts |
| Cost.CallCost | internal/billing/cost.go:160-174 | in range, monotone, and count times price if and only if that is within the cap |
| Cost.ImageCostIs | internal/billing/cost.go:128-157 | in range and free of overflow: rounded tokens plus images up to the cap |
| Cost.ImageCostMonotone | internal/billing/cost.go:128-157 | monotone in both token counts and in the number of images |
| Cost.ImageCostExact | internal/billing/cost.go:128-157 | the exact amount whenever no product exceeds its bound and the total is within the cap |
| Cost.PriceToCost | internal/billing/cost.go:68-174 | from entry to amount: with prices in bound and whichever variant matches, all three costs lie in [0, MaxInt64/100000] |

## Left out

- internal/ent and cmd/server: generated builders and wiring.
- PostgreSQL, Redis and driver internals: represented by the statements' text and by one atomic step per script or command.
- SHA-256, HMAC, HKDF and FNV-1a: arbitrary functions; the credential digest is computed by one.
- CanonicalOrigin and the time zone database: parameters.
- The `error_type` filter: only rows it lets through are modelled.
- Balance warnings and their thresholds: reported beside the settlement and without effect on it.
- Logging, lag probes, statistics structs, tickers and wall-clock throttling: they observe and do not decide.
- Auth, config, settings, email, supplier settlement and retention drops: they admit requests, hold parameters, send mail, pay
  suppliers and drop old partitions; nothing modelled here depends on them.
- Drain.Flusher.ConsumeCycle: does not state the lag probe, which only observes; instances excluding each other is LedgerRuns.
- Drain.Flusher.DrainLoop: excludes a bucket whose goroutine panics. The panic is caught (internal/billing/drain.go:94) without
  flag or report, so on a standstill that bucket may have rows left to pay for although nothing is flagged.
- Drain.Flusher.CloseDrain: waiting for the loop and for the cycle in flight is not modelled, only the draining loop after it.
- Rollup.RollupRefinesRaw: three of the thirteen measures, a count, a sum and a maximum, stand for all of them; group and model
  columns are left out because they only split the rows.
- StatsPlan.StatsCapabilities: the ten kinds are visited in a fixed order, the source's map in any.
- Wire.WireRoundTrip: the concrete reader knows no escapes, numbers or nesting; Wire.AnyReaderWillDo shows that no such text is
  accepted by any reader.
- RoutingKeys.CandidateInjective: which error a rejected candidate gets is not modelled.
- BindingStore.Store.CreateOrRefresh: an unexpected script result cannot occur in the model, whose script has three results.
- BindingRuns.HitIsFresh: the client's clock runs at the rate of the server's; it may be off by any constant.
- Members.Discovery.Tick: the recovery message is not modelled; the score is an integer, exact as a float below 2^53.
- Prices.ResolveEntryPrices: times of day are given in minutes, their parsing is left out; mode and provider are carried through
  unchanged; pointers are values, because the code never writes through one.
