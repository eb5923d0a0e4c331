/** What the unit repair guarantees over every run: volumes are rescaled exactly
    once, a committed child is final, and the cheap gates decide what the
    expensive ones do. */
module UnitRepairOutcome {
  import opened Prelude
  import opened Panel
  import opened MonthGates
  import opened LedgerSteps
  import opened UnitRepair
  import opened UnitRepairRuns

  // ------------------------------------------------------------ the implied gates

  ghost function ScaledMap<K>(m: map<K, real>): map<K, real> { map k | k in m :: m[k] * SCALE }

  lemma {:induction false} ScaleSum<K(!new)>(m: map<K, real>)
    ensures MapSum(ScaledMap(m)) == MapSum(m) * SCALE
    decreases |m|
  {
    if m == map[] {
      assert ScaledMap(m) == map[];
    } else {
      var k :| k in m;
      ScaleSum(m - {k});
      MapSumRemove(m, k);
      MapSumRemove(ScaledMap(m), k);
      assert ScaledMap(m) - {k} == ScaledMap(m - {k});
    }
  }

  lemma PresentScaled<K(!new)>(column: map<K, Option<real>>, scaled: map<K, Option<real>>)
    requires scaled.Keys == column.Keys && forall k :: k in column ==> scaled[k] == Scaled(column[k])
    ensures Present(scaled) == ScaledMap(Present(column))
  {
  }

  lemma ScaledSqlSum<K(!new)>(column: map<K, Option<real>>, scaled: map<K, Option<real>>)
    requires scaled.Keys == column.Keys && forall k :: k in column ==> scaled[k] == Scaled(column[k])
    ensures SqlSum(scaled) == Scaled(SqlSum(column))
  {
    PresentScaled(column, scaled);
    ScaleSum(Present(column));
    if Present(column) == map[] {
      assert ScaledMap(Present(column)) == map[];
    } else {
      var k := Pick(Present(column).Keys);
      assert k in ScaledMap(Present(column));
    }
  }

  lemma OsbapRows(rows: map<Key, Row>, source: map<Key, Row>, y: int)
    requires VolumeGate(rows, source)
    requires forall k :: k in rows && k in source ==> rows[k].priceSource == source[k].priceSource
    ensures OsbapVolumes(rows, y).Keys == OsbapVolumes(source, y).Keys
    ensures forall k :: k in OsbapVolumes(source, y) ==> OsbapVolumes(rows, y)[k] == Scaled(OsbapVolumes(source, y)[k])
  {
    hide YearOf;
  }

  /** On an affected surface the per-row volume gate and the verbatim gate imply
      the null-count gate and the per-year `osbap` sum gate: the copy accepts
      exactly what it would accept without those two. */
  lemma RowGateImpliesSums(plan: Plan, s: Surface, rows: map<Key, Row>, source: map<Key, Row>)
    requires Affected(s) && CopyGates(plan, s, rows, source)
    ensures NullGate(rows, source) && OsbapGate(rows, source)
  {
    hide MarkersKept, Verbatim, VolumeGate, OsbapVolumes, SqlSum, NullGate, ExpectedVolume;
    forall k | k in rows && k in source ensures rows[k].priceSource == source[k].priceSource {
      SamePriceSource(s, rows[k], source[k]);
    }
    forall y ensures SqlSum(OsbapVolumes(rows, y)) == Scaled(SqlSum(OsbapVolumes(source, y))) {
      OsbapRows(rows, source, y);
      ScaledSqlSum(OsbapVolumes(source, y), OsbapVolumes(rows, y));
    }
    SameNulls(rows, source);
  }

  lemma SamePriceSource(s: Surface, row: Row, source: Row)
    requires Verbatim(s, row) == Verbatim(s, source)
    ensures row.priceSource == source.priceSource
  {
  }

  lemma SameNulls(rows: map<Key, Row>, source: map<Key, Row>)
    requires VolumeGate(rows, source)
    ensures NullGate(rows, source)
  {
    assert NullKeys(Volumes(rows)) == NullKeys(Volumes(source));
  }

  // ------------------------------------------------------ what a commit serves

  lemma CommitLoads(l: Ledger, plan: Plan, s: Surface)
    requires ChildHolds(l, plan) && plan.child in l.pubs && CountGates(l, plan)
    ensures Own(l, s, plan.child) == Expected(l, plan, s)
  {
    hide HeadWindow, MarkedFor, Own, Served, RepairedRows, Tombs;
    assert CopiedWhole(l, plan, s);
    assert |Own(l, s, plan.child)| == plan.counts.Of(s);
    assert |Served(l, s, plan.head)| == plan.counts.Of(s);
    if Own(l, s, plan.child) == map[] {
      NothingExpected(plan, s, Served(l, s, plan.head));
    }
  }

  lemma NothingExpected(plan: Plan, s: Surface, rows: map<Key, Row>)
    requires |rows| == 0
    ensures RepairedRows(plan, s, rows) == map[]
  {
  }

  /** A committed finalize leaves every surface serving exactly the head's rows,
      repaired: no other row shows through, none is missing. */
  lemma CommitServesRepaired(l: Ledger, plan: Plan, s: Surface)
    requires Sound(l) && ChildHolds(l, plan) && FinalizeCommits(l, plan)
    ensures plan.child in l.pubs && Current(Switched(l, plan), s) == RepairedRows(plan, s, Served(l, s, plan.head))
  {
    hide Sound, ChildHolds, FinalizeCommits, DdlStep, Served, Own, Tombs, HeadWindow, MarkedFor, CountGates, ContinuityGate, SwitchTo, SameRows, SameTombs, RepairedRows;
    CommittingChild(l, plan);
    CommitLoads(l, plan, s);
    MarkOf(l, plan);
    SwitchIsDdlStep(l, plan);
    SwitchedChild(l, plan.child, Validation(plan));
    var m := Switched(l, plan);
    DdlStepKeepsSound(l, m, {});
    HeadFrozen(l, m, plan, {});
    ServedAfterSwitch(m, plan, s);
    SwitchedRows(l, plan, s);
    RepairedCovers(plan, s, Served(l, s, plan.head), Tombs(l, s, plan.child));
  }

  lemma SwitchedRows(l: Ledger, plan: Plan, s: Surface)
    requires plan.child in l.pubs && ChildHolds(l, plan)
    ensures Own(Switched(l, plan), s, plan.child) == Own(l, s, plan.child)
    ensures Tombs(Switched(l, plan), s, plan.child) == Tombs(l, s, plan.child) == {}
    ensures Switched(l, plan).pubs[plan.child].parent == Some(plan.head) && Switched(l, plan).pubs[plan.child].config.Dual?
  {
    hide HeadWindow, MarkedFor, Served, CopiedWhole;
  }

  lemma ServedAfterSwitch(m: Ledger, plan: Plan, s: Surface)
    requires Sound(m) && plan.child in m.pubs && m.pubs[plan.child].status.Validated? && m.pubs[plan.child].config.Dual?
    requires m.pubs[plan.child].parent == Some(plan.head) && HeadWindow(m, plan)
    ensures Served(m, s, plan.child) == (Served(m, s, plan.head) + Own(m, s, plan.child)) - Tombs(m, s, plan.child)
  {
    hide Sound, Served, Own, Tombs;
    ServedByParent(m, s, plan.child);
  }

  lemma RepairedCovers(plan: Plan, s: Surface, rows: map<Key, Row>, tombs: set<Key>)
    requires tombs == {}
    ensures (rows + RepairedRows(plan, s, rows)) - tombs == RepairedRows(plan, s, rows)
  {
    hide Repaired;
  }

  /** `now` is the row `before` with the volume rescaled once if its source asks
      for it, nulls kept, and the price source unchanged. */
  predicate RescaledOnce(s: Surface, now: Row, before: Row) {
    && now.priceSource == before.priceSource
    && now.volume.Some? == before.volume.Some?
    && (before.volume.Some? ==>
          if Affected(s) && before.priceSource == Some(RESCALED_SOURCE)
          then now.volume.value == before.volume.value * 1000000.0
          else now.volume == before.volume)
  }

  lemma RepairedVolume(plan: Plan, s: Surface, k: Key, row: Row)
    ensures RescaledOnce(s, Repaired(plan, s, k, row), row)
  {
  }

  /** In the served surfaces after a commit, an `osbap` row's volume is the head's
      times the scale, once; every other volume and every null is kept. */
  lemma CommitScalesOnce(l: Ledger, plan: Plan, s: Surface, k: Key)
    requires Sound(l) && ChildHolds(l, plan) && FinalizeCommits(l, plan)
    ensures plan.child in l.pubs && (k in Current(Switched(l, plan), s) <==> k in Served(l, s, plan.head))
    ensures k in Served(l, s, plan.head) ==> RescaledOnce(s, Current(Switched(l, plan), s)[k], Served(l, s, plan.head)[k])
  {
    hide Sound, ChildHolds, FinalizeCommits, Served, Current, Switched, Repaired, RescaledOnce;
    CommitServesRepaired(l, plan, s);
    if k in Served(l, s, plan.head) {
      RepairedVolume(plan, s, k, Served(l, s, plan.head)[k]);
    }
  }

  // -------------------------------------------------------------------- finality

  /** Once validated the child is final: in every later state its header and rows
      are the same, and no prepare is allowed again for this head. */
  lemma {:induction false} ValidatedIsFinal(states: seq<Ledger>, plan: Plan, i: nat, j: nat)
    requires Run(states, plan) && i <= j < |states|
    requires plan.child in states[i].pubs && states[i].pubs[plan.child].status.Validated?
    ensures plan.child in states[j].pubs && states[j].pubs[plan.child] == states[i].pubs[plan.child]
    ensures forall s :: Own(states[j], s, plan.child) == Own(states[i], s, plan.child)
    ensures forall s :: Served(states[j], s, plan.child) == Served(states[i], s, plan.child)
    ensures !PrepareAllowed(states[j], plan)
    decreases j
  {
    hide Sound, ChildHolds, Step, DdlStep, Served, Own, MarkedFor, HeadWindow, ChildHeader, PrepareAllowed;
    RunKeeps(states, plan, j);
    if j > i {
      ValidatedIsFinal(states, plan, i, j - 1);
      RunKeeps(states, plan, j - 1);
      StepIsDdlStep(states[j - 1], states[j], plan);
      var mine :| DdlStep(states[j - 1], states[j], mine);
      FinalStep(states[j - 1], states[j], plan.child, mine);
    }
    MarkOf(states[j], plan);
    NotAgain(states[j], plan);
  }

  lemma FinalStep(l: Ledger, m: Ledger, child: Id, mine: set<Id>)
    requires Sound(l) && DdlStep(l, m, mine) && child in l.pubs && l.pubs[child].status.Validated?
    ensures child in m.pubs && m.pubs[child] == l.pubs[child]
    ensures forall s :: Own(m, s, child) == Own(l, s, child) && Served(m, s, child) == Served(l, s, child)
  {
    hide Sound, Served, Own, FactsSound, Tombs;
    forall s ensures Own(m, s, child) == Own(l, s, child) && Served(m, s, child) == Served(l, s, child) {
      ClosedFrozen(l, m, s, child, mine);
      ServedFrozen(l, m, s, child, mine);
    }
    ServedFrozen(l, m, Returns, child, mine);
  }

  lemma NotAgain(l: Ledger, plan: Plan)
    requires plan.child in l.pubs && l.pubs[plan.child].status.Validated? && MarkedFor(l.pubs[plan.child].evidence, plan)
    ensures !PrepareAllowed(l, plan)
  {
    hide HeadWindow, FrozenRoot, Current, MarkedFor;
  }

  /** A copy needs the pointer on the head: after the switch it is refused, and if
      another writer puts the pointer back, it inserts nothing. */
  lemma CopyAfterSwitch(l: Ledger, plan: Plan, s: Surface)
    requires plan.child in l.pubs && l.pubs[plan.child].status.Validated? && CopyAllowed(l, plan, s)
    ensures l.pointer == Some(plan.head)
    ensures Own(Copy(l, plan, s), s, plan.child) == Own(l, s, plan.child)
  {
    CopyParts(l, plan, s);
    hide CopyAllowed, Current;
  }

  /** The trigger's one authorized replacement, at its weakest: from a parentless legacy
      publication to another one. */
  predicate LegacyReplacement(l: Ledger, m: Ledger) {
    && l.pointer.Some? && m.pointer.Some? && l.pointer.value in l.pubs && m.pointer.value in m.pubs
    && l.pubs[l.pointer.value].parent.None? && l.pubs[l.pointer.value].config.Legacy?
    && m.pubs[m.pointer.value].parent.None? && m.pubs[m.pointer.value].config.Legacy?
  }

  /** The pointer trigger: a first pointer is free, and an update must go to a direct
      child of the publication it leaves, or be the authorized replacement. */
  ghost predicate PointerTrigger(l: Ledger, m: Ledger) {
    || m.pointer == l.pointer || l.pointer.None?
    || (m.pointer.Some? && m.pointer.value in m.pubs && m.pubs[m.pointer.value].parent == l.pointer)
    || LegacyReplacement(l, m)
  }

  ghost predicate TriggeredRun(states: seq<Ledger>, plan: Plan) {
    && Run(states, plan)
    && forall i :: 0 <= i < |states| - 1 && DdlStep(states[i], states[i + 1], {plan.child}) ==> PointerTrigger(states[i], states[i + 1])
  }

  /** The pointer is on a validated publication whose lineage has the child. */
  ghost predicate PointsBelow(l: Ledger, child: Id) {
    && l.pointer.Some? && l.pointer.value in l.pubs && l.pubs[l.pointer.value].status.Validated?
    && child in Chain(l.pubs, l.pointer.value, {}, Walk.Lineage)
  }

  /** Ranks fall along a lineage. */
  lemma {:induction false} LineageFalls(pubs: map<Id, Publication>, rank: map<Id, nat>, p: Id, path: set<Id>, q: Id)
    requires Ranked(pubs, rank) && p in pubs && p !in path
    requires q in Chain(pubs, p, path, Walk.Lineage)
    ensures q in pubs && rank[q] <= rank[p]
    decreases rank[p]
  {
    if q != p {
      LineageFalls(pubs, rank, pubs[p].parent.value, path + {p}, q);
    }
  }

  /** A pointer below the child is not on the child's parent. */
  lemma BelowIsNotHead(l: Ledger, child: Id, head: Id)
    requires Sound(l) && PointsBelow(l, child) && child in l.pubs && l.pubs[child].parent == Some(head)
    ensures l.pointer != Some(head)
  {
    hide FactsSound;
    var rank :| Ranked(l.pubs, rank);
    LineageFalls(l.pubs, rank, l.pointer.value, {}, child);
  }

  /** Below a child with a parent the replacement cannot fire: no publication there is
      parentless. */
  lemma NoReplacementBelow(l: Ledger, m: Ledger, child: Id)
    requires PointsBelow(l, child) && child in l.pubs && l.pubs[child].parent.Some?
    ensures !LegacyReplacement(l, m)
  {
  }

  /** The publication under the pointer keeps its lineage. */
  lemma LineageKept(l: Ledger, m: Ledger, child: Id, mine: set<Id>)
    requires Sound(l) && DdlStep(l, m, mine) && PointsBelow(l, child)
    ensures l.pointer.value in m.pubs && m.pubs[l.pointer.value].status.Validated?
    ensures child in Chain(m.pubs, l.pointer.value, {}, Walk.Lineage)
  {
    hide FactsStep, FactsSound, Chain;
    var rank :| Ranked(l.pubs, rank);
    ChainFrozen(l.pubs, m.pubs, rank, l.pointer.value, {}, Walk.Lineage, mine);
    Evolved(l, m, mine, l.pointer.value);
  }

  /** A direct child inherits the lineage. */
  lemma ChildInherits(m: Ledger, p: Id, q: Id, child: Id)
    requires Sound(m) && p in m.pubs && m.pubs[p].parent == Some(q) && q in m.pubs
    requires child in Chain(m.pubs, q, {}, Walk.Lineage)
    ensures child in Chain(m.pubs, p, {}, Walk.Lineage)
  {
    hide FactsSound, Chain;
    var rank :| Ranked(m.pubs, rank);
    ChainByParent(m.pubs, rank, p, Walk.Lineage);
  }

  /** Every step keeps the pointer below the child. */
  lemma StepStaysBelow(l: Ledger, m: Ledger, child: Id, mine: set<Id>)
    requires Sound(l) && DdlStep(l, m, mine) && PointsBelow(l, child) && PointerTrigger(l, m)
    requires child in l.pubs && l.pubs[child].parent.Some?
    ensures PointsBelow(m, child)
  {
    hide Sound, PubsStep, FactsStep, FactsSound, Attested, Chain, LegacyReplacement;
    NoReplacementBelow(l, m, child);
    DdlStepKeepsSound(l, m, mine);
    LineageKept(l, m, child, mine);
    if m.pointer != l.pointer {
      ChildInherits(m, m.pointer.value, l.pointer.value, child);
    }
  }

  lemma StepTrigger(l: Ledger, m: Ledger, plan: Plan)
    requires Step(l, m, plan)
    requires DdlStep(l, m, {plan.child}) ==> PointerTrigger(l, m)
    ensures PointerTrigger(l, m)
  {
    hide DdlStep, PrepareAllowed, CopyAllowed, FinalizeCommits;
    if plan.child in l.pubs && FinalizeCommits(l, plan) && m == Switched(l, plan) {
      CommittingChild(l, plan);
    }
  }

  /** The pointer goes from the head to the child at most once: once it is on the
      child it stays on the child or its descendants, so it is never on the head
      again, and every later prepare and copy is refused. */
  lemma {:induction false} PointerMovesOnce(states: seq<Ledger>, plan: Plan, i: nat, j: nat)
    requires TriggeredRun(states, plan) && i <= j < |states|
    requires plan.child in states[i].pubs && states[i].pubs[plan.child].status.Validated? && states[i].pointer == Some(plan.child)
    ensures PointsBelow(states[j], plan.child) && states[j].pointer != Some(plan.head)
    ensures !PrepareAllowed(states[j], plan) && forall s: Surface :: !CopyAllowed(states[j], plan, s)
    decreases j
  {
    hide Sound, DdlStep, Step, ChildHolds, PrepareAllowed, CopyAllowed, PointsBelow, ChildHeader, HeadWindow, MarkedFor;
    RunKeeps(states, plan, j);
    ValidatedIsFinal(states, plan, i, j);
    MarkOf(states[j], plan);
    if j == i {
      SelfInLineage(states[i], plan.child);
    } else {
      PointerMovesOnce(states, plan, i, j - 1);
      RunKeeps(states, plan, j - 1);
      ValidatedIsFinal(states, plan, i, j - 1);
      MarkOf(states[j - 1], plan);
      StepTrigger(states[j - 1], states[j], plan);
      StepIsDdlStep(states[j - 1], states[j], plan);
      var mine :| DdlStep(states[j - 1], states[j], mine);
      StepStaysBelow(states[j - 1], states[j], plan.child, mine);
    }
    BelowIsNotHead(states[j], plan.child, plan.head);
    forall s: Surface ensures !CopyAllowed(states[j], plan, s) {
      if CopyAllowed(states[j], plan, s) { CopyParts(states[j], plan, s); }
    }
  }

  lemma SelfInLineage(l: Ledger, p: Id)
    requires p in l.pubs && l.pubs[p].status.Validated? && l.pointer == Some(p)
    ensures PointsBelow(l, p)
  {
  }

  // ---------------------------------------------------- summaries decide directly

  /** The aggregate of a year as a direct scan would take it. */
  ghost function DirectYear(s: Surface, rows: map<Key, Row>, cutoff: Date, y: int): YearTotal {
    var column := EarlyYear(rows, cutoff, y);
    YearTotal(|column|, if Affected(s) then Some(NullCount(column)) else None, if Affected(s) then SqlSum(column) else None)
  }

  lemma AnnualIsDirect(s: Surface, rows: map<Key, Row>, cutoff: Date, y: int)
    ensures ActualYear(s, rows, cutoff, y) == DirectYear(s, rows, cutoff, y)
  {
    var column := EarlyYear(rows, cutoff, y);
    forall k | k in column ensures k.month in EarlyMonths(rows, cutoff, y) {}
    PartialsEqualDirect(column, EarlyMonths(rows, cutoff, y));
  }

  /** The counted continuity gate accepts exactly the returns that start in the
      month after the first, end in the last closed month and miss none between. */
  lemma ContinuityIsCoverage(l: Ledger, plan: Plan)
    requires FirstOfMonth(plan.first)
    ensures ContinuityGate(l, plan)
      <==> (var months := Months(Own(l, Returns, plan.child));
            && NextMonth(plan.first) in months && plan.lastClosed in months
            && (forall m :: m in months ==> NextMonth(plan.first) <= m <= plan.lastClosed)
            && forall m :: InWindow(m, NextMonth(plan.first), plan.lastClosed) ==> m in months)
  {
    hide Months, Own, InWindow, MonthSeries;
    var months := Months(Own(l, Returns, plan.child));
    CountIsCoverage(months, NextMonth(plan.first), plan.lastClosed);
  }
}
