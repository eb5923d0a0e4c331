# Verified model of the panel ledger, the NAV policy publication and the resumable loaders

This project models, in Dafny, the parts of the repository that decide what the
application is served and what its receipts certify, and proves properties of
those models for every input, every run and every interleaving.

* **The publication ledger of `bond_panel_v1`** (`Panel`, `LedgerSteps`, `PanelDb`).
  Publications form parent chains; the served surface is the nearest-depth overlay
  along the chain, and tombstones hide returns. Every writer's committed
  transaction is a `DdlStep`: what the schema's triggers let through.
* **Three repair protocols over that ledger**, each a sequence of transactions
  (prepare, copy, bounded batches, finalize with a pointer compare-and-swap):
  the coupon-PIT repair (`CouponPit*`), the dollar-volume unit repair (`UnitRepair*`)
  and the legacy return-tail repair (`TailRepair*`). Each transaction is specified
  as a guarded step (`...Allowed` and the ledger it leaves), performed statement by
  statement by a method on the database class (`...Db`) that commits exactly when the
  specification allows it and otherwise restores everything, and then followed over
  whole runs in which every step may be replayed, refused, or interleaved with other
  writers' transactions. The month-summary gates are in `MonthGates` and `MonthScans`.
  `CouponPitGates`, `CouponPitChecks`, `UnitRepairGates` and `TailRepairGates`, over the
  shared `SurfaceRules`, say what the gates amount to: in columns and key sets, exactly
  when each transaction commits, and what the served rows keep and satisfy afterwards.
* **Governed NAV policy publication** (`NavPolicy*`): one publishing transaction at a
  time, statement by statement under READ COMMITTED, interleaved with foreign evidence
  appends, pointer moves and version writes at any moment; `NavPolicyStore` is the apply
  as imperative code for the case that nobody interferes, and `NavPolicyGuards` the guard of
  every statement in the columns it reads. `Access` and `Calendar` are its companions: the
  access-profile classifier and the calendar-stamp maintenance.
* **Resumable, immutable loaders**: the staged merge and its sequential preflight
  (`ImmutableBatch`), the liquidity stream and loader (`Liquidity`, `LiquidityRun`), the
  COPY CSV payload (`CopyCsv`) and the bounded crawler (`Crawler`).
* **Aggregation and comparison kernels**: the metric canonicalizer and the tolerant
  comparator (`Metrics`, `MetricRows`), the N-PORT rollups (`Nport`), the prospectus scan
  (`Cover`) and the evidence caches (`EvidenceCache`).

## What the proofs found

Where the code and its own comments differ, the model follows the code.

* The coupon-PIT row gate allows a dropped key to be absent from the child, but it also
  compares the exit columns of the absent side, so it refuses a dropped key that the head
  serves in a gated month (`RowGateExactly` says exactly when the two readings agree,
  `DroppedKeyRefusedExample` gives the input). As a consequence a plan that drops any key
  never commits when the head serves returns in the closed window only
  (`OnlyDropFreePlansCommit`). The served keys are still the head's minus the dropped ones in
  every commit (`CommitKeepsKeys`).
* A foreign evidence row ends publication of its version, except when it lands between a
  publication's recount and its commit: that one commit goes through beside it and its
  receipt leaves the row out (`ForeignRowEndsPublication`, `RecountWindow`). A literal run from
  the empty database goes through that window (`WindowIsReached`).
* No COPY record is the end-of-data mark, but a physical line of the payload is exactly when
  some text has the mark as a line of its own, ended by a newline or by CR LF
  (`TerminatorLinesExactly`, `TerminatorLineExample`).
* The liquidity row equality includes the artifact cursor, so one pass accepts an artifact
  exactly when no key occurs twice in it and each stored row under one of its keys is that very
  row (`OnePassAcceptsExactly`); with a repeated key no session reaches the end
  (`RepeatedKeyNeverCompletes`). A resumed session reports checkpoint 0 until its first commit
  (`LiquidityRun.Run`).
* Equal canonical metric rows do not always compare without mismatches. Among cells whose texts
  carry what the parser makes of them, the promise holds exactly for scalars, JSON texts with no
  JSON-looking text inside, and arrays or objects that hold neither numbers nor JSON-looking
  texts (`ComparableExactly`); the texts `["[1]"]` and `["[1] "]` have one canonical form and
  compare unequal (`IncomparablePair`).

The premises of these results can hold: `PanelWitness`, `CouponPitWitness`, `UnitRepairWitness`
and `TailRepairWitness` give a small ledger on which each finalize commits, `NavPolicyWitness` a
run into the recount window, and `MetricsWitness` a printer and a parser that meet the laws
asked of JSON.

## Conventions

* A calendar date is coded as 372 * year + 31 * (month - 1) + (day - 1), which keeps calendar
  order and makes the next month start an addition of 31.
* A digest is modelled by the content it digests, so equal digests mean equal contents.
* Numeric columns, tolerances and sums are reals; SQL nulls are `Option` values, and SQL's
  `sum`, `+` and `IS DISTINCT FROM` on nulls are written out.
* A guard that a transaction and its specification share is also stated apart from both, over
  the fields of the tables: lemmas named `...Exactly` prove the two readings equivalent.
* `DdlStep(l, m, mine)` says that a transaction of anybody obeys the triggers and leaves the
  publications in `mine` alone. Runs assume that other writers do not write rows, tombstones,
  attestations or status of the child publication of the plan itself; they may do anything
  else the triggers allow, the pointer included.
* A clock reading, a server-given row identity, a service's answer and the moment a process
  dies are parameters, or are chosen by the step relation.

## Model

| member | source | states |
|---|---|---|
| Panel.OverlayIsProjection | scripts/backfill_bond_panel_coupon_pit_repair.py:802-813 | The recursive overlay "own tombstone hides, else own row, else the row below" is the declarative projection: a key is served iff some depth shows it under no tombstone at the same or a nearer depth, and then with the nearest depth's row; for chains of any length |
| Panel.ProjectionUnique | scripts/backfill_bond_panel_coupon_pit_repair.py:802-813 | Only one map satisfies the declarative projection, so the equality above fixes what is served |
| Panel.GuardIsInert | scripts/backfill_bond_panel_coupon_pit_repair.py:424-431 | In a sound ledger the path guard of every ancestry walk never cuts: parents are validated before children, so chains cannot cycle |
| Panel.SourceWalkIsView | scripts/backfill_bond_panel_coupon_pit_repair.py:907-918 | The finalize gates' source walk, which does not look at status, meets the same ancestors as the served view's walk, which does |
| Panel.ServedByParent | schemas/bond_panel_v1.sql:761-803 | What a validated publication serves is its own rows over what its parent serves across an allowed configuration edge, minus its tombstones |
| Panel.EdgeCrossed | schemas/bond_panel_v1.sql:761-803 | By configuration: a child serves its parent's rows under its own if both are legacy, or the child is dual-series and the parent not of the retired configuration; across any other edge it serves its own only |
| Panel.DdlStepKeepsSound | schemas/bond_panel_v1.sql:260-331 | Every transaction the triggers let through keeps parents existing, validated and acyclic, and rows and tombstones of one publication apart |
| LedgerSteps.OthersMay | schemas/bond_panel_v1.sql:260-331 | Whatever single statement the triggers admit on another publication, a new header, an end of its preparation, a row, a tombstone, or a pointer move to any validated publication, is a step that the runs of every repair reckon with |
| Panel.RowsStay | schemas/bond_panel_v1.sql:296-331 | Under the triggers no row is changed or removed, no tombstone lifted, and a publication no longer prepared takes neither |
| Panel.ServedFrozen | schemas/bond_panel_v1.sql:296-331 | What a validated publication serves never changes again, whatever other publications, repairs or pointer moves commit |
| PanelDb.Database.InsertTombstones | schemas/bond_panel_v1.sql:317-331 | Tombstones are added one by one; all succeed iff the publication is prepared and owns none of the keys, and then exactly they are added |
| PanelDb.Database.InsertRows | schemas/bond_panel_v1.sql:296-315 | The fact insert with its trigger, row by row: it succeeds iff nothing is proposed or the publication is prepared and no proposed key, inserted or already there, is one of its tombstones; then the table is the old rows and the proposed missing ones |
| CouponPitDb.PrepareTransaction | scripts/backfill_bond_panel_coupon_pit_repair.py:461-545 | The prepare commits exactly when guards, re-check and tombstone checks hold, leaves the prepared child with exactly the dropped keys as tombstones, and otherwise leaves the database as it was |
| CouponPitDb.CopyTransaction | scripts/backfill_bond_panel_coupon_pit_repair.py:567-630 | The copy commits exactly when order, conflict, count and verbatim gates hold, adds the missing filled head rows of one surface, and otherwise leaves no trace |
| CouponPitDb.BatchTransaction | scripts/backfill_bond_panel_coupon_pit_repair.py:680-722 | A batch commits exactly when its staged slice agrees with itself, the loaded rows and the tombstones, and merges exactly that slice |
| CouponPitDb.MonthLoop | scripts/backfill_bond_panel_coupon_pit_repair.py:959-966 | The month loop accepts iff every gated month passes coverage and row gates, and its accumulator then holds the per-year totals of all repriced rows |
| CouponPitDb.FinalizeTransaction | scripts/backfill_bond_panel_coupon_pit_repair.py:881-1023 | The finalize commits exactly when every gate holds before and after the switch, leaves child validated and pointer on it, and otherwise leaves the database as it was |
| CouponPitCarry.UpsertKeepsAccumulated | scripts/backfill_bond_panel_coupon_pit_repair.py:848-856 | Adding one month's sums to the year table keeps every year's total right, null as soon as one month's sum is null |
| CouponPitCarry.YearsMatchIsCarryGate | scripts/backfill_bond_panel_coupon_pit_repair.py:968-982 | Comparing the accumulated table with the expected years decides the same as the direct per-year gate |
| CouponPitCarry.SumCarry | scripts/backfill_bond_panel_coupon_pit_repair.py:848-853 | The loop returns SQL's null-skipping sum of the carry column |
| CouponPitRuns.RunKeeps | scripts/backfill_bond_panel_coupon_pit_repair.py:461-722 | In every run with replays, refusals, any slices and foreign transactions, the child declares the head's counts, its tombstones are the dropped keys, each copied surface is whole or empty, and its early returns are staged artifact rows |
| CouponPitOutcome.WholeArtifact | scripts/backfill_bond_panel_coupon_pit_repair.py:633-676 | A table of staged artifact rows as large as the selection is the whole selection, and the selection then repeats no key |
| CouponPitOutcome.ReturnsComplete | scripts/backfill_bond_panel_coupon_pit_repair.py:1010-1019 | The returns count gate leaves no room: all artifact rows and the whole filled tail are loaded |
| CouponPitOutcome.ServedIsOwn | scripts/backfill_bond_panel_coupon_pit_repair.py:1010-1019 | After a commit the served returns are exactly the child's own rows, and no dropped key is served, whatever the ancestors and their tombstones hold |
| CouponPitOutcome.CommitServesThePlan | scripts/backfill_bond_panel_coupon_pit_repair.py:726-1023 | A commit leaves the pointer serving the pinned artifact up to the cutoff and the head's rows after it, and on the other surfaces the head's rows with identities filled |
| CouponPitOutcome.CommitKeepsKeys | scripts/backfill_bond_panel_coupon_pit_repair.py:923-942 | The served returns keys are the head's minus the dropped ones, in every month |
| CouponPitOutcome.CommitRelatesRows | scripts/backfill_bond_panel_coupon_pit_repair.py:815-847 | Every served return keeps the head's price return and typed exit; after the cutoff it is the head's row in full, up to it the payload is kept and the carry identity and suspect rule hold |
| CouponPitOutcome.RowGateExactly | scripts/backfill_bond_panel_coupon_pit_repair.py:815-847 | The coded row gate accepts iff the intended one does and the head serves no dropped key that the child lacks in that month |
| CouponPitOutcome.DroppedKeyRefusedExample | scripts/backfill_bond_panel_coupon_pit_repair.py:815-847 | One dropped key served by the head: the intended gate accepts, the coded gate refuses |
| CouponPitOutcome.DroppedKeyBlocksFinalize | scripts/backfill_bond_panel_coupon_pit_repair.py:815-847 | A committed finalize means the head served no dropped key in a month of the window |
| CouponPitOutcome.OnlyDropFreePlansCommit | scripts/backfill_bond_panel_coupon_pit_repair.py:815-847 | When the head serves returns in the window only, a plan commits only if it drops nothing |
| CouponPitOutcome.RunServesThePlan | scripts/backfill_bond_panel_coupon_pit_repair.py:726-1023 | In every run, from the commit on the child serves the plan in every later state, whatever is committed afterwards |
| CouponPitGates.FinalizeExactly | scripts/backfill_bond_panel_coupon_pit_repair.py:881-1023 | The finalize commits iff the child is the plan's own, the pointer may go on, dropped keys are apart, sizes, months and identities are right, the four tables cover each other under one identity, the returns of the gated months have the head's keys and keep what they must, and each year's carry is the plan's: the month loops, counts and full joins decide just that |
| CouponPitGates.CommitAgrees | scripts/backfill_bond_panel_coupon_pit_repair.py:774-790 | After a commit every served return and rating has a served snapshot row and every served signal an included one, all under the snapshot row's identity; snapshot and ratings have the same keys; every identity obeys the 144A and Reg S rules |
| CouponPitGates.CommitFillsIdentities | scripts/backfill_bond_panel_coupon_pit_repair.py:546-559 | Every row served from the head is the head's row with only its identity changed: a present rule keeps its decision, a present reference stays, an absent rule becomes 144A without a decision, an absent reference the row's own cusip |
| CouponPitGates.CommitLoadsArtifact | scripts/backfill_bond_panel_coupon_pit_repair.py:633-676 | Every served return up to the cutoff is a row of the pinned artifact, absent or empty rule, reference and exit basis filled, the payload kept under the plan's marker |
| CouponPitGates.CommitBalances | scripts/backfill_bond_panel_coupon_pit_repair.py:968-982 | Year by year the served observed returns up to the cutoff are as many as planned, all have a carry, and their carry is the planned sum within a millionth; there are none in any other year |
| CouponPitChecks.CopyExactly | scripts/backfill_bond_panel_coupon_pit_repair.py:567-630 | The copy commits iff the child is in place and, when prepared, has no row of the copied range that the head does not serve and withdraws none that it does, the declaration fits, and shared rows differ in nothing but the identity |
| CouponPitWitness.FinalizeCanCommit | scripts/backfill_bond_panel_coupon_pit_repair.py:881-1023 | A concrete loaded child satisfies the invariant and every gate of the finalize |
| UnitRepairDb.PrepareTransaction | scripts/backfill_bond_panel_history.py:1579-1674 | The prepare commits exactly when its guards and re-check hold, adds at most the prepared child, and otherwise changes nothing |
| UnitRepairDb.CopyTransaction | scripts/backfill_bond_panel_history.py:1677-1790 | The copy commits exactly when order, count, verbatim, marker, per-row, null and per-year gates hold, and adds the missing repaired rows of one surface |
| UnitRepairDb.OsbapYearsMatch | scripts/backfill_bond_panel_history.py:1742-1759 | The full join of the two grouped yearly sums accepts iff every year's sum is the head's times the scale, an absent year reading as null |
| UnitRepairDb.AggregateSurface | scripts/backfill_bond_panel_history.py:2097-2136 | The artifact gate computed from month summaries accepts iff the years present are the expected ones and each matches in rows, nulls and tolerated sum |
| UnitRepairDb.FinalizeTransaction | scripts/backfill_bond_panel_history.py:1812-2174 | The finalize commits exactly when all gates hold, leaves child validated and pointer on it, and otherwise leaves the database as it was |
| UnitRepairRuns.RunKeeps | scripts/backfill_bond_panel_history.py:1579-2174 | In every run each surface of the child is empty or exactly the head's rows repaired once, under the header the prepare made |
| UnitRepairOutcome.RowGateImpliesSums | scripts/backfill_bond_panel_history.py:1742-1759 | On a surface with volumes, the per-row and verbatim gates imply the null-count gate and the per-year `osbap` sum gate, all nulls included |
| UnitRepairOutcome.CommitServesRepaired | scripts/backfill_bond_panel_history.py:1934-1959 | A commit leaves every surface serving exactly the head's rows, repaired |
| UnitRepairOutcome.CommitScalesOnce | scripts/backfill_bond_panel_history.py:1498-1503 | Among the rows served after a commit an `osbap` volume is the head's times 1000000 once, every other volume and every null is kept, and the keys are the head's |
| UnitRepairGates.CommitRepairsRows | scripts/backfill_bond_panel_history.py:1498-1530 | Column by column, each served row is the head's: a present rule, decision and reference stay and absent ones are filled, the volume is scaled if `osbap`, lineage and payload gain the marker, and nothing else differs |
| UnitRepairGates.CommitAgrees | scripts/backfill_bond_panel_history.py:1886-1932 | After a commit the served surfaces cover each other under one identity per key, and every identity obeys the dual-series rules |
| UnitRepairGates.CopyExactly | scripts/backfill_bond_panel_history.py:1677-1790 | The copy commits iff the child is in place, withdraws no served key, and the table it leaves has the planned size, the served keys on the repaired surfaces and fitting rows; the null and yearly sum gates never decide |
| UnitRepairGates.FinalizeExactly | scripts/backfill_bond_panel_history.py:1812-2174 | The finalize commits iff header, pointer, root, sizes, contiguous months, identities, coverage, repaired volumes against the head and the artifact's yearly rows, nulls and totals are right, all over whole tables |
| UnitRepairOutcome.ValidatedIsFinal | scripts/backfill_bond_panel_history.py:1579-1674 | Once validated the child's header, rows and served surfaces never change and its prepare is refused for good |
| UnitRepairOutcome.CopyAfterSwitch | scripts/backfill_bond_panel_history.py:1764-1789 | A copy that is accepted while the child is validated needs the pointer on the head and inserts nothing |
| UnitRepairOutcome.PointerMovesOnce | schemas/bond_panel_v1.sql:721-729 | The pointer goes from head to child at most once: afterwards it stays on the child or its descendants, and every later prepare and copy is refused, under the direct-extension rule and the authorized legacy replacement |
| UnitRepairOutcome.NoReplacementBelow | schemas/bond_panel_v1.sql:586-718 | Once the pointer is at or below a child with a parent, the authorized legacy replacement cannot fire: no publication there is parentless |
| UnitRepairWitness.FinalizeCanCommit | scripts/backfill_bond_panel_history.py:1812-2174 | A concrete repaired child satisfies the invariant and every gate of the finalize |
| UnitRepairOutcome.AnnualIsDirect | scripts/backfill_bond_panel_history.py:2097-2136 | Annual rows, nulls and sums taken from monthly partials equal a direct annual grouping |
| UnitRepairOutcome.ContinuityIsCoverage | scripts/backfill_bond_panel_history.py:2070-2079 | Minimum, maximum and count of month starts accept iff the returns start and end right and miss no month between |
| MonthGates.MonthStarts | scripts/backfill_bond_panel_history.py:490-497 | The loop lists exactly the series of first days, across year ends |
| MonthGates.MonthSeriesIsWindow | scripts/backfill_bond_panel_history.py:490-497 | A date is in the series iff it is the first of a month between the bounds |
| MonthGates.CountIsCoverage | scripts/backfill_bond_panel_history.py:2070-2079 | Counting first-of-month months in the window accepts iff every month of the series is present |
| MonthGates.PartialsEqualDirect | scripts/backfill_bond_panel_history.py:2097-2136 | Row counts, null counts and null-skipping sums over months add up to those of the whole column |
| MonthScans.CountGate | scripts/backfill_bond_panel_history.py:1882-1888 | The sum of the monthly counts decides the exact row count |
| MonthScans.ContinuityChecks | scripts/backfill_bond_panel_history.py:2064-2079 | The scan for minimum, maximum and month starts decides the continuity gate |
| TailRepairDb.PrepareTransaction | scripts/backfill_bond_panel_history.py:795-816 | The prepare adds the parentless prepared child or attests the identical one, and otherwise changes nothing |
| TailRepairDb.CopyTransaction | scripts/backfill_bond_panel_history.py:996-1080 | The copy commits exactly when source, conflict and count checks hold, and adds the old root's missing rows of one surface unchanged |
| TailRepairDb.BatchTransaction | scripts/backfill_bond_panel_history.py:889-993 | A batch commits exactly when order, count, conflict and attestation checks hold, and loads and attests exactly its slice |
| TailRepairDb.FinalizeTransaction | scripts/backfill_bond_panel_history.py:1083-1145 | The finalize commits exactly when header, counts, coverage, terminal attestation, source and pointer hold, and otherwise changes nothing |
| TailRepair.PartitionCovers | schemas/bond_panel_v1.sql:42-58 | Attestations that cut [0, end) into consecutive slices have one around every position below end |
| TailRepair.PartitionBounds | schemas/bond_panel_v1.sql:42-58 | Each attested slice is non-empty and inside the range, and no two slices end at the same position |
| TailRepairRuns.BatchExtendsOrReplays | scripts/backfill_bond_panel_history.py:889-993 | An accepted batch starts where the loaded prefix ends and extends it to its own end, or repeats the last slice and changes nothing |
| TailRepairRuns.RunKeeps | scripts/backfill_bond_panel_history.py:889-1080 | In every run the attestations partition [0, m) from cursor 0 and the child's returns are the copied history and exactly the first m tail rows |
| TailRepairRuns.CommitHasWholeTail | scripts/backfill_bond_panel_history.py:1092-1109 | A finalize's terminal attestation means the whole tail is loaded over the whole history, without a repeated or historical key |
| TailRepairRuns.CommitServes | scripts/backfill_bond_panel_history.py:1083-1145 | After the switch the views serve the history, the whole tail and the old root's other surfaces |
| TailRepairGates.CommitCovers | schemas/bond_panel_v1.sql:699-715 | A commit that moves the pointer leaves served returns inside the plan's window and over served snapshot rows, signals on included snapshot rows, and ratings for exactly the snapshot's keys |
| TailRepairGates.FinalizeExactly | scripts/backfill_bond_panel_history.py:1083-1145 | The finalize commits iff header, sizes, every month of the window, an attestation ending at the tail's end, the legacy source and pointer are right, and a pointer still on the source admits the new root's tables |
| TailRepairGates.CopyExactly | scripts/backfill_bond_panel_history.py:996-1080 | The copy commits iff the order holds, no row disagrees with the history and, when prepared, the new root has no other row in the copied range and withdraws none |
| TailRepairGates.BatchExactly | scripts/backfill_bond_panel_history.py:889-993 | A batch commits iff its slice starts at an attested end, fits the number of rows before or after it, agrees with itself and the rows there, and is attested as this very slice or new |
| TailRepairWitness.FinalizeCanCommit | scripts/backfill_bond_panel_history.py:1083-1145 | A concrete loaded replacement root, with a snapshot key that has no return, satisfies the invariant and every gate of the finalize |
| NavPolicyRuns.StepKeeps | scripts/fund_nav_readiness_schema.py:1562-1675 | Every statement of a publication, its commit or rollback, and every foreign append, pointer move or version write keeps the invariant about receipts, partitions and the open transaction |
| NavPolicyRuns.RunKeeps | scripts/fund_nav_readiness_schema.py:3446-3530 | The invariant holds in every state of every interleaving from an empty history |
| NavPolicyOutcome.ReceiptCertifiesPublished | scripts/fund_nav_readiness_schema.py:3100-3158 | In every reachable state each receipt certifies exactly the union of the documents its version had published by then, no foreign row, and rows that are all still there unchanged |
| NavPolicyOutcome.PublishedRowsPersist | schemas/fund_nav_readiness_v1.sql:163-196 | Every row of every published document stays in the partition with the document's content |
| NavPolicyOutcome.PlanPublishesOnce | scripts/fund_nav_readiness_schema.py:3208-3222 | Over any run a plan digest publishes at most once |
| NavPolicyOutcome.ForeignRowEndsPublication | scripts/fund_nav_readiness_schema.py:3100-3158 | Once a foreign row is in a version's partition and no publication of it is past its recount, no later receipt of that version is ever written |
| NavPolicyOutcome.RecountWindow | scripts/fund_nav_readiness_schema.py:3201-3205 | From every reachable state past the recount a foreign row can land, the publication commits beside it, and its receipt leaves the row out |
| NavPolicyWitness.WindowIsReached | scripts/fund_nav_readiness_schema.py:3490-3515 | A literal run from the empty database publishes up to the recount, takes the foreign row and commits: one receipt, and a foreign row of its version that it does not certify |
| NavPolicyGuards.StatementExactly | scripts/fund_nav_readiness_schema.py:3475-3505 | Each statement of a publication goes through iff its guard holds of the tables right then; the plan check iff the plan is not stale, the pointer has the recorded version and hash, and the target is absent or has the hash it was recorded with |
| NavPolicyGuards.PassedGuard | scripts/fund_nav_readiness_schema.py:3446-3530 | In every run, a transaction past a statement ran it at an earlier moment, for the same operation, when its guard held |
| NavPolicyGuards.CommitWasCurrent | scripts/fund_nav_readiness_schema.py:2005-2013 | In every run, every commit's plan was current when it was checked: not stale, the recorded policy under the pointer, the target as recorded; and no row contradicted its document when that was checked |
| NavPolicyOutcome.NotCertifyingIsOutdated | scripts/fund_nav_readiness_schema.py:3046-3097 | A receipt stops certifying exactly when the pointer was stamped again or a row joined its partition |
| NavPolicyOutcome.InterferenceEndsReplay | scripts/fund_nav_readiness_schema.py:3046-3097 | Any append to a receipt's partition and any pointer move or re-stamp ends the replays it proves |
| NavPolicyOutcome.ReplayNeverReturns | scripts/fund_nav_readiness_schema.py:2234-2267 | A receipt that no longer certifies proves no replay in any later state |
| NavPolicyOutcome.ReplayLeavesTables | scripts/fund_nav_readiness_schema.py:3475-3498 | Over a run, an apply that ends as a replay found its operation's receipt, of its own plan if stale, certifying before it began; from its begin to its end the receipts, the pointer with its stamp and the whole partition are the same |
| NavPolicyStore.PolicyStore.InsertEvidence | scripts/fund_nav_readiness_schema.py:1663-1675 | The set-based insert adds exactly the document's missing rows with fresh identities and leaves existing ones alone |
| NavPolicyStore.PolicyStore.Publish | scripts/fund_nav_readiness_schema.py:1562-1675 | Version, evidence, publication, pointer and receipt end as specified iff hash, conflicts and stamp allow, and the recount then never fails when nobody else writes |
| NavPolicyStore.PolicyStore.Apply | scripts/fund_nav_readiness_schema.py:3446-3530 | An apply publishes iff publishable, reports unchanged iff a replay is proven, and otherwise leaves every table as it was |
| NavPolicyGuards.PublishableExactly | scripts/fund_nav_readiness_schema.py:3475-3505 | An undisturbed apply publishes iff the audited previous policy is current and the target is not, the target's rows are what its last receipt certified, the plan is unused, not stale and not overtaken, hash and rows agree with the document, and the clock goes on |
| Access.ClassesExactly | scripts/fund_nav_readiness_schema.py:1247-1287 | Each class exactly: missing iff the role is, exact iff equal, repairable iff different but short only by absent objects and the permitted grants, incomplete iff short besides of schema USAGE only |
| Access.SurplusIsUnsafe | scripts/fund_nav_readiness_schema.py:1247-1287 | An existing role with any privilege, object or membership beyond the expected profile is unsafe |
| Access.ScriptReachesExactly | schemas/fund_nav_readiness_v1.sql:1836-1846 | The script's grants and object creations, applied one by one in any order and with any repetitions, leave the expected profile iff the one before was short of permitted things only |
| Access.RepairMakesExact | scripts/fund_nav_readiness_schema.py:1266-1286 | For an existing role the script makes a profile exact iff it is classified exact or repairable, and makes it exact after an outside USAGE grant, which it lacked, iff it is classified incomplete |
| Access.ClassifyAccess | scripts/fund_nav_readiness_schema.py:1247-1287 | The bucket-by-bucket edit of the private copy decides the same class as the specification |
| Calendar.LatestLifecycle | scripts/fund_nav_readiness_schema.py:1755-1765 | The loop keeps an instrument iff it has a row known and effective by now, and the latest such row by effective and known time, the first among equals |
| Calendar.CandidatesAreEligible | scripts/fund_nav_readiness_schema.py:1767-1827 | A row identity is a candidate iff some row of that identity is unstamped and meets every policy condition |
| Calendar.StampsExactlyEligible | scripts/fund_nav_readiness_schema.py:1767-1833 | Maintenance writes the policy's id, version and source into exactly the unstamped adjusted USD rows without repair whose value is the source's, on a session day, of a daily instrument with all facts verified, and changes nothing else |
| Calendar.SecondRunIsNoOp | scripts/fund_nav_readiness_schema.py:1879-1945 | For the same policy and instant the result has no candidates, so a second application changes nothing |
| Calendar.NavTable.Apply | scripts/fund_nav_readiness_schema.py:1879-1945 | The transaction reports a stale plan, a no-op or completion exactly, never fails its own verification, and leaves exactly the stamped rows or the old ones |
| ImmutableBatch.Preflight | scripts/backfill_bond_liquidity_monthly.py:138-157 | The one-pass preflight with its growing `seen` map accepts iff the staged checks do, and inserting what it leaves pending gives the same table |
| ImmutableBatch.Persist | scripts/backfill_bond_liquidity_monthly.py:191-202 | A direct batch is the staged merge, and its counts add up to the batch |
| ImmutableBatch.MergeExactly | scripts/backfill_psql_transport.py:112-143 | The merge is accepted iff no key comes with two different rows, in the batch or against the table, and then leaves the old rows, the batch's row under every other key of the batch, and nothing else |
| ImmutableBatch.MergeIsIdempotent | scripts/backfill_psql_transport.py:112-143 | Merging an accepted batch again is accepted and changes nothing |
| ImmutableBatch.MergeIsSequential | scripts/backfill_psql_transport.py:112-143 | Two batches in a row are accepted iff their concatenation is, with the same table |
| ImmutableBatch.MergesCommute | scripts/backfill_psql_transport.py:112-143 | Mutually consistent batches give the same table in either order |
| ImmutableBatch.InsertedAndExisting | scripts/backfill_psql_transport.py:130-143 | The inserted count is the number of new keys and never exceeds the staged count |
| Liquidity.PanelRowStream.Next | scripts/backfill_bond_liquidity_monthly.py:87-124 | Each call yields the next resolvable artifact row after the resume cursor, or ends at the slice end, with all counters consistent |
| Liquidity.AccountingAddsUp | scripts/backfill_bond_liquidity_monthly.py:87-124 | Source rows are the skipped and the attempted ones, and attempted rows are the yielded and the rejected ones |
| Liquidity.CountersAddUp | scripts/backfill_bond_liquidity_monthly.py:87-124 | At any moment of a stream every consumed row is counted as skipped or attempted, and every attempted one as yielded or rejected under its reason |
| Liquidity.YieldsExactly | scripts/backfill_bond_liquidity_monthly.py:87-124 | A stream yields exactly the resolved rows of its range, each as resolved and with the position of its artifact row |
| Liquidity.ResumeAtCursor | scripts/backfill_bond_liquidity_monthly.py:87-124 | Resuming at the cursor of any yielded row yields exactly the rows after it |
| LiquidityRun.Run | scripts/backfill_bond_liquidity_monthly.py:299-356 | However a session ends, the table is the merge of exactly the committed batches; a conflict names the first batch that cannot merge, completion has committed everything, and the checkpoint is the last committed cursor |
| LiquidityRun.SessionsMergeAPrefix | scripts/backfill_bond_liquidity_monthly.py:299-356 | After any stops and resumptions at reported checkpoints the table is the merge of a prefix of the artifact that covers every session |
| LiquidityRun.CompletedSessionsAreOnePass | scripts/backfill_bond_liquidity_monthly.py:299-356 | Once a session completes, the table is that of one pass, for any batch sizes; if one pass would conflict, none ever completes |
| LiquidityRun.OnePassAcceptsExactly | scripts/backfill_bond_liquidity_monthly.py:138-157 | One pass accepts an artifact iff no key occurs twice among its rows and every stored row under one of its keys equals its row |
| LiquidityRun.RepeatedKeyNeverCompletes | scripts/backfill_bond_liquidity_monthly.py:299-356 | When a key occurs twice, no session of any chain of stops and resumptions gets to the end |
| CopyCsv.PayloadReadsBack | scripts/backfill_psql_transport.py:37-46 | Reading the CSV payload back gives the same rows for all texts and nulls: quotes, commas, newlines and the null mark as text survive, null stays apart |
| CopyCsv.SqlStringReadsBack | scripts/backfill_psql_transport.py:25-26 | A quoted SQL literal and the text after it read back exactly |
| CopyCsv.NoRecordTerminates | scripts/backfill_psql_transport.py:37-46 | No record is the bare end-of-data mark |
| CopyCsv.TerminatorLinesExactly | scripts/backfill_psql_transport.py:37-46 | A physical line is the end-of-data mark, with newline or CR LF after it, iff some text holds such a line after a newline of its own |
| CopyCsv.TerminatorLineExample | scripts/backfill_psql_transport.py:37-46 | Payloads with such a line exist, one ended by a newline and one by CR LF |
| Crawler.BudgetsAdd | scripts/backfill_bond_distribution_series.py:402-469 | Two bounded calls with budgets a and then b reach the cursor and metadata of one call with a + b |
| Crawler.MetadataIsFirst | scripts/backfill_bond_distribution_series.py:300-310 | Known entries stay, and otherwise the first document with an accession under a key decides it |
| Crawler.CompletedSweepIsComplete | scripts/backfill_bond_distribution_series.py:402-469 | A completed sweep has met every page before the first empty one of every reference and variant, and its metadata are exactly what those documents add |
| Crawler.EndIsUnique | scripts/backfill_bond_distribution_series.py:402-469 | The first empty page of a query is determined by the answers |
| Crawler.Checkpoint.Discover | scripts/backfill_bond_distribution_series.py:402-469 | The loop ends in the specified state within its request limit, reports exactly the added entries, and stops early only on completion or failure |
| Metrics.CanonicalTwice | qc-a3-parity/qc_a3_core.py:638-656 | Canonicalization is idempotent on every cell, through nested JSON texts |
| Metrics.SameRoundIsClose | qc-a3-parity/qc_a3_core.py:522-548 | Numbers that round alike at 12 decimals are equal under the tolerance |
| Metrics.CloseExactly | qc-a3-parity/qc_a3_core.py:522-533 | Numbers are close iff they differ by at most 1e-12, or by at most that part of the size of one of them |
| Metrics.EquivalentExactly | qc-a3-parity/qc_a3_core.py:522-567 | Two cells are equivalent iff they are close numbers, or JSON texts whose values agree along every path of indices and names, in shape and in scalars with numbers only close, or otherwise agree along every path exactly, where a truth value also equals 1 or 0 |
| Metrics.CanonicalCoheres | qc-a3-parity/qc_a3_core.py:638-656 | Canonicalization maps cells the parser can produce to such cells: every printed text parses to what was printed |
| Metrics.ComparableExactly | qc-a3-parity/qc_a3_core.py:522-567 | A cell the parser can produce equals every such cell with its canonical form iff it is a scalar, a JSON text without JSON-looking text inside, or an array or object without numbers and JSON-looking texts |
| Metrics.IncomparableTwin | qc-a3-parity/qc_a3_core.py:522-567 | Every other cell has a twin that the parser can produce too, with the same canonical form, that compares unequal |
| Metrics.IncomparablePair | qc-a3-parity/qc_a3_core.py:522-567 | The texts `["[1]"]` and `["[1] "]` have one canonical form and compare unequal |
| MetricsWitness.LawsCanHold | qc-a3-parity/qc_a3_core.py:638-656 | Some printer and parser meet the laws asked of JSON, and with them there are cells that do not compare exactly |
| MetricRows.CompareRows | qc-a3-parity/qc_a3_core.py:376-407 | One mismatch per disagreeing field of either row, marked missing iff a side lacks it; none iff the rows agree |
| MetricRows.EqualCanonicalRowsAgree | qc-a3-parity/qc_a3_core.py:631-656 | Rows of comparable cells with equal canonical rows compare without a mismatch |
| MetricRows.ByFold | qc-a3-parity/qc_a3_core.py:336-340 | Rows are grouped by fold in order, and only folds with rows appear |
| MetricRows.CompareExpected | qc-a3-parity/qc_a3_core.py:265-325 | The comparison passes iff every fold of either side passes |
| Nport.Select | scripts/backfill_nport_holding_attributes.py:200-222 | Per report date and series the kept accession is the maximum by last-filing flag, filing date and accession |
| Nport.SelectionIgnoresOrder | scripts/backfill_nport_holding_attributes.py:200-222 | Any file order of the same submissions gives the same selection |
| Nport.SelectionInverts | scripts/backfill_nport_holding_attributes.py:200-222 | With one submission row per accession no accession stands for two reports |
| Nport.KeptIsHighest | scripts/backfill_nport_holding_attributes.py:200-222 | In plain terms: the kept filing is a submission of that series and date, and no other one of them has a higher last-filing flag, then filing date, then accession |
| Nport.SelectedReports | scripts/backfill_nport_holding_attributes.py:200-222 | The returned map from accession to report inverts the kept priorities when the file has one row per accession, and always names kept reports only |
| Nport.BuildRollups | scripts/backfill_nport_holding_attributes.py:225-295 | The in-place accumulation over holding rows looked up by accession equals the row-by-row specification over the reports they stand for |
| Nport.SummariesStandForKept | scripts/backfill_nport_holding_attributes.py:225-295 | For each report and its kept filing, in all three tables: gross is the sum of the absolute percentages of the filing's equity rows that have one; net counts LONG rows up, SHORT rows down and the others as filed; the same per country and per holding key, which appear iff some row has them |
| Nport.BuildEquityRollups | scripts/backfill_nport_holding_attributes.py:200-295 | Selection and accumulation together: the summarized reports are the selected ones, and every table row of each is what its kept filing's rows add up to |
| Nport.RollupsConserve | scripts/backfill_nport_holding_attributes.py:225-295 | Country sums equal net equity, net never exceeds gross, and holding sums fall short of both totals by exactly the rows without a key |
| Nport.KeyedHoldingsConserve | scripts/backfill_nport_holding_attributes.py:225-295 | When every row has a key, holding sums equal both totals |
| Nport.DetailsSummarized | scripts/backfill_nport_holding_attributes.py:225-295 | Every detail row belongs to a summarized report, and every selected report is summarized |
| Nport.Tables.Upsert | scripts/backfill_nport_holding_attributes.py:466-516 | Summary, country rows and holding rows of each loaded report end as loaded, nothing stale left, and those of every other report are as they were |
| Nport.UpsertReplacesLoaded | scripts/backfill_nport_holding_attributes.py:466-516 | Replacing exactly the loaded reports is all there is to it: tables are the upsert's result iff they agree report by report with the load on its reports and with the old tables on the others |
| Nport.UpsertTwice | scripts/backfill_nport_holding_attributes.py:466-516 | Loading the same quarter again changes nothing |
| Cover.ReadPhrase | scripts/collect_fund_identity_sec_evidence.py:393-418 | Reading page by page records every hit of a phrase, first accession winning, and fails iff the phrase has more pages than the limit |
| Cover.CoverLoop | scripts/collect_fund_identity_sec_evidence.py:419-446 | A hit is kept iff it is the first in the order to cover some targeted series, early stop included |
| Cover.FirstIsNewest | scripts/collect_fund_identity_sec_evidence.py:420-424 | The first covering hit of the sorted list has the latest filing date among all hits that cover the series |
| Cover.Scan | scripts/collect_fund_identity_sec_evidence.py:385-448 | Of everything the phrases find, each kept filing is the newest for some targeted series and each targeted series that any filing covers has a newest one kept; the scan fails iff a phrase has too many pages |
| EvidenceCache.CollectSec | scripts/collect_fund_identity_sec_evidence.py:290-324 | Success fills every needed SEC answer, cached answers stay, and nothing is asked iff nothing was needed |
| EvidenceCache.CollectNcen | scripts/collect_fund_identity_sec_evidence.py:327-365 | Success answers every registrant and each wanted series its filing does not list; nothing is asked iff that was already so |
| EvidenceCache.CollectProspectus | scripts/collect_fund_identity_sec_evidence.py:385-448 | Success records a search covering every registrant's wanted series; nothing is asked iff the recorded searches covered them |
| EvidenceCache.CollectTiingo | scripts/collect_fund_identity_sec_evidence.py:451-478 | Success observes every ticker; without refresh nothing is asked iff all were observed, with refresh every ticker is asked |
| EvidenceCache.MissingCacheEntries | scripts/collect_fund_identity_sec_evidence.py:481-503 | The list holds exactly the lacking answers and is empty iff all four collectors are satisfied |
| EvidenceCache.LacksNothingExactly | scripts/collect_fund_identity_sec_evidence.py:481-503 | Nothing is lacking iff the SEC, N-CEN, prospectus and Tiingo caches are all complete |
| EvidenceCache.CollectOnline | scripts/collect_fund_identity_sec_evidence.py:566-582 | An online collection that succeeds leaves nothing missing, asks nothing iff nothing was missing, and a failed one keeps the cached SEC and N-CEN answers |

## Left out

- The text of the SQL, roles, lock modes and timeouts, notices, elapsed-time reports, materialized-view refresh and the evidence row a transaction prints: each transaction is modelled by its meaning.
- The presence check for the tombstone DDL, and the `validated_counts`, `live_counts` and coverage keys of the gate evidence: no later guard reads them.
- JSON containment is modelled on the top-level members of lineage, payload and evidence documents.
- The pinned hashes, counts, identifiers and cutoffs of the plans are fields of the plan; the builders that compute them from artifacts are not part of this model.
- The cast of annual sums to six decimals before the 1 USD tolerance of the unit repair.
- Of the pointer trigger, the rules each protocol relies on are modelled; the remaining month-extreme checks of the one authorized root replacement are not.
- UnitRepairOutcome.PointerMovesOnce: assumes that nobody deletes the pointer row; the trigger guards inserts and updates only.
- CouponPitOutcome.OnlyDropFreePlansCommit: the condition on the head's returns is what a finalize of the head itself enforces; it is stated as a requirement because the head may come from outside the modelled protocols.
- NavPolicyStore.PolicyStore.Apply: one transaction without interference; the interleavings are in `NavPolicyRuns` and `NavPolicyOutcome`.
- One apply that carries both a policy and calendar maintenance: the two are modelled apart, in `NavPolicy` and `Calendar`.
- The replay decision of an apply is one snapshot; the model does not split it into its separate reads.
- Trading sessions of a policy version are a flag that they changed; receipt ledgers of older shapes, an absent receipts table, deletion of the pointer row, and the audit window's clock are not modelled.
- The introspection queries that build an access profile, and the JSON normalization of its lists: a profile is taken as sets.
- Floating point: metric cells, N-PORT values and liquidity values are reals; NaN, infinities and the decimal-to-float conversions are not modelled.
- Metrics.ComparableExactly: the laws asked of `json.dumps` and of the cell parser (a printed array or object parses back, a blank at the end of a text is stripped) are requirements; the JSON grammar is not part of this model.
- CopyCsv.PayloadReadsBack: rows without columns are excluded, a target always has key columns.
- The conversion of Python values to COPY texts, and everything but quoting in the emitted COPY block.
- Country resolution, holding-key derivation and identifier joins of the N-PORT loader: each row arrives with its resolved country and key.
- A kill inside one bounded crawl call, and answers of the crawled service that change between calls.
- Cover.Scan: assumes that the search reports one accession with the same date and header every time, and pages a fixed result list with its true total.
- The document download, quote extraction, retries and pauses of the evidence collectors, and the order in which sorted keys are visited: the collectors are proved for every order.
- The resolvers behind the coupon-PIT artifact and the default events, HTTP clients, argument parsing, custody files, notebooks, manifests and object storage.
