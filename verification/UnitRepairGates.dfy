/** The transactions of the unit repair as conditions on columns, key sets and sums, and
    what each served row keeps of the head's row. */
module UnitRepairGates {
  import opened Prelude
  import opened Panel
  import opened MonthGates
  import opened LedgerSteps
  import opened SurfaceRules
  import opened UnitRepair
  import opened UnitRepairRuns
  import opened UnitRepairOutcome

  // ----------------------------------------------------------------- one served row

  /** A document with the repair's marker put in. */
  ghost predicate MarkedCopy(plan: Plan, now: Doc, before: Doc) {
    && (forall member :: member in now <==> member == "unit_repair" || member in before)
    && now["unit_repair"] == Mark(Marker(plan.contract, plan.head, plan.pins))
    && (forall member :: member in before && member != "unit_repair" ==> now[member] == before[member])
  }

  /** What a repaired row is: the head's row with its identity filled; on the snapshot and
      signal surfaces an `osbap` volume a million times as large and the marker in
      lineage and payload; every other column as it was. */
  ghost predicate RowRepaired(plan: Plan, s: Surface, k: Key, now: Row, before: Row) {
    && IdentityFilled(k, now.identity, before.identity)
    && now.included == before.included && now.priceSource == before.priceSource
    && now.total == before.total && now.price == before.price && now.carry == before.carry
    && now.exitBasis == before.exitBasis && now.exitReason == before.exitReason && now.suspect == before.suspect && now.rest == before.rest
    && (if s.Snapshot? || s.RvSignal?
        then VolumeRepaired(now, before) && MarkedCopy(plan, now.lineage, before.lineage) && MarkedCopy(plan, now.payload, before.payload)
        else now.volume == before.volume && now.lineage == before.lineage && now.payload == before.payload)
  }

  predicate VolumeRepaired(now: Row, before: Row) {
    && (now.volume.Some? <==> before.volume.Some?)
    && (before.volume.Some? ==>
          now.volume.value == if before.priceSource.Some? && before.priceSource.value == "osbap" then before.volume.value * 1000000.0 else before.volume.value)
  }

  lemma VolumeExactly(now: Row, before: Row)
    ensures now.volume == ExpectedVolume(before) <==> VolumeRepaired(now, before)
  {
  }

  lemma MarkedExactly(plan: Plan, now: Doc, before: Doc)
    ensures now == before[REPAIR := MarkerOf(plan)] <==> MarkedCopy(plan, now, before)
  {
    var marked := before[REPAIR := MarkerOf(plan)];
    if MarkedCopy(plan, now, before) {
      assert now.Keys == marked.Keys;
      forall member | member in now ensures now[member] == marked[member] {}
    }
  }

  lemma RepairedExactly(plan: Plan, s: Surface, k: Key, now: Row, before: Row)
    ensures now == Repaired(plan, s, k, before) <==> RowRepaired(plan, s, k, now, before)
  {
    FilledExactly(k, now.identity, before.identity);
    VolumeExactly(now, before);
    MarkedExactly(plan, now.lineage, before.lineage);
    MarkedExactly(plan, now.payload, before.payload);
    hide IdentityFilled, FilledIdentity, VolumeRepaired, ExpectedVolume, MarkedCopy, MarkerOf;
  }

  /** After a commit each surface serves the head's keys, every row repaired: identity
      filled and nothing of it replaced, volume scaled once, all else kept. */
  lemma CommitRepairsRows(l: Ledger, plan: Plan, s: Surface, k: Key)
    requires Sound(l) && ChildHolds(l, plan) && FinalizeCommits(l, plan)
    ensures plan.child in l.pubs && (k in Current(Switched(l, plan), s) <==> k in Served(l, s, plan.head))
    ensures k in Served(l, s, plan.head) ==> RowRepaired(plan, s, k, Current(Switched(l, plan), s)[k], Served(l, s, plan.head)[k])
  {
    hide Sound, ChildHolds, FinalizeCommits, Current, Switched, Served, RowRepaired, Repaired;
    CommitServesRepaired(l, plan, s);
    if k in Served(l, s, plan.head) {
      RepairedExactly(plan, s, k, Repaired(plan, s, k, Served(l, s, plan.head)[k]), Served(l, s, plan.head)[k]);
    }
  }

  // ----------------------------------------------------------------------- prepare

  predicate HasContract(evidence: Doc, contract: string, head: Id) {
    && "unit_repair" in evidence && evidence["unit_repair"].Mark?
    && evidence["unit_repair"].marker.contract == contract && evidence["unit_repair"].marker.fromHead == head
  }

  predicate HeadReady(l: Ledger, plan: Plan) {
    && plan.head in l.pubs && l.pubs[plan.head].status == Validated && l.pubs[plan.head].config == Dual
    && l.pubs[plan.head].first == plan.first && l.pubs[plan.head].lastClosed == plan.lastClosed && l.pubs[plan.head].open == Some(plan.open)
  }

  predicate RootReady(l: Ledger, plan: Plan) {
    && plan.root in l.pubs && l.pubs[plan.root].parent == None && l.pubs[plan.root].status == Validated
    && l.pubs[plan.root].config == Legacy && l.pubs[plan.root].revision == plan.rootRevision
  }

  /** The child's header: the head's window, the planned counts and the marks. */
  predicate ChildOfPlan(c: Publication, plan: Plan) {
    && (c.status.Prepared? || c.status.Validated?) && c.parent == Some(plan.head) && c.config == Dual
    && c.fingerprint == plan.fingerprint && c.revision == plan.revision
    && c.first == plan.first && c.lastClosed == plan.lastClosed && c.open == Some(plan.open) && c.declared == plan.counts
    && "source_sha256" in c.lineage && c.lineage["source_sha256"] == plan.sources
    && "unit_repair" in c.lineage && c.lineage["unit_repair"] == Mark(Marker(plan.contract, plan.head, plan.pins))
  }

  lemma ChildExactly(c: Publication, plan: Plan)
    ensures SameHeader(c, plan) <==> ChildOfPlan(c, plan)
  {
    var marks := LineageMarks(plan);
    assert marks.Keys == {SOURCES, REPAIR} && marks[SOURCES] == plan.sources && marks[REPAIR] == MarkerOf(plan);
  }

  ghost predicate MayPrepare(l: Ledger, plan: Plan) {
    && l.pointer == Some(plan.head) && HeadReady(l, plan) && RootReady(l, plan)
    && plan.root in Chain(l.pubs, plan.head, {}, Walk.Lineage)
    && "source_sha256" in l.pubs[plan.root].lineage && l.pubs[plan.root].lineage["source_sha256"] == plan.rootSources
    && (forall p :: p in l.pubs && l.pubs[p].status == Validated ==> !HasContract(l.pubs[p].evidence, plan.contract, plan.head))
    && |Current(l, Snapshot)| == plan.counts.snapshotRows && |Current(l, RvSignal)| == plan.counts.signalRows
    && |Current(l, Returns)| == plan.counts.returnRows && |Current(l, RatingPit)| == plan.counts.ratingRows
    && (if plan.child in l.pubs
        then
          && ChildOfPlan(l.pubs[plan.child], plan) && "unit_repair" in l.pubs[plan.child].evidence
          && l.pubs[plan.child].evidence["unit_repair"] == Mark(Marker(plan.contract, plan.head, plan.pins))
        else
          && (forall p :: p in l.pubs ==> l.pubs[p].fingerprint != plan.fingerprint)
          && NothingEmpty(plan.counts) && plan.first <= plan.lastClosed)
  }

  lemma HeadExactly(l: Ledger, plan: Plan)
    ensures HeadWindow(l, plan) <==> HeadReady(l, plan)
    ensures IsRoot(l, plan) <==> RootReady(l, plan)
  {
  }

  lemma ContractExactly(evidence: Doc, plan: Plan)
    ensures MarkedFor(evidence, plan) <==> HasContract(evidence, plan.contract, plan.head)
  {
  }

  lemma AdmittedExactly(l: Ledger, plan: Plan)
    ensures ChildAdmitted(l, plan)
      <==> (if plan.child in l.pubs
        then
          && ChildOfPlan(l.pubs[plan.child], plan) && "unit_repair" in l.pubs[plan.child].evidence
          && l.pubs[plan.child].evidence["unit_repair"] == Mark(Marker(plan.contract, plan.head, plan.pins))
        else
          && (forall p :: p in l.pubs ==> l.pubs[p].fingerprint != plan.fingerprint)
          && NothingEmpty(plan.counts) && plan.first <= plan.lastClosed)
  {
    hide SameHeader, ChildOfPlan, NothingEmpty;
    NothingEmptyExactly(plan.counts);
    if plan.child in l.pubs { ChildExactly(l.pubs[plan.child], plan); }
  }

  lemma ServedCounts(l: Ledger, c: Counts)
    ensures (forall s: Surface :: |Current(l, s)| == c.Of(s))
      <==> (|Current(l, Snapshot)| == c.snapshotRows && |Current(l, RvSignal)| == c.signalRows
        && |Current(l, Returns)| == c.returnRows && |Current(l, RatingPit)| == c.ratingRows)
  {
    hide Current;
    if forall s: Surface :: |Current(l, s)| == c.Of(s) {
      assert |Current(l, Snapshot)| == c.Of(Snapshot) && |Current(l, RvSignal)| == c.Of(RvSignal);
      assert |Current(l, Returns)| == c.Of(Returns) && |Current(l, RatingPit)| == c.Of(RatingPit);
    }
  }

  /** The prepare commits exactly when head, frozen root, counts and child are as planned. */
  lemma PrepareExactly(l: Ledger, plan: Plan)
    ensures PrepareAllowed(l, plan) <==> MayPrepare(l, plan)
  {
    hide HeadWindow, HeadReady, IsRoot, RootReady, Chain, MarkedFor, HasContract, Current, ChildAdmitted, ChildOfPlan, NothingEmpty;
    HeadExactly(l, plan);
    ServedCounts(l, plan.counts);
    AdmittedExactly(l, plan);
    forall p | p in l.pubs ensures MarkedFor(l.pubs[p].evidence, plan) <==> HasContract(l.pubs[p].evidence, plan.contract, plan.head) {
      ContractExactly(l.pubs[p].evidence, plan);
    }
    if HeadReady(l, plan) || HeadWindow(l, plan) { HeadThere(l, plan); }
    if RootReady(l, plan) { RootThere(l, plan); }
  }

  lemma HeadThere(l: Ledger, plan: Plan)
    requires HeadReady(l, plan)
    ensures plan.head in l.pubs
  {
  }

  lemma RootThere(l: Ledger, plan: Plan)
    requires RootReady(l, plan)
    ensures plan.root in l.pubs
  {
  }

  /** The header a prepare writes for a new child, and the only thing it writes. */
  lemma MadeExactly(l: Ledger, plan: Plan)
    requires plan.head in l.pubs && plan.child !in l.pubs
    ensures var m := Prepare(l, plan);
      && m.facts == l.facts && m.tombs == l.tombs && m.attested == l.attested && m.pointer == l.pointer
      && m.pubs.Keys == l.pubs.Keys + {plan.child} && (forall p :: p in l.pubs ==> m.pubs[p] == l.pubs[p])
      && m.pubs[plan.child].status == Prepared && ChildOfPlan(m.pubs[plan.child], plan)
      && m.pubs[plan.child].evidence == map["unit_repair" := Mark(Marker(plan.contract, plan.head, plan.pins))]
      && (forall member :: member in l.pubs[plan.head].lineage && member !in {"unit_repair", "source_sha256"} ==>
            member in m.pubs[plan.child].lineage && m.pubs[plan.child].lineage[member] == l.pubs[plan.head].lineage[member])
  {
    var marks := LineageMarks(plan);
    assert marks.Keys == {SOURCES, REPAIR} && marks[SOURCES] == plan.sources && marks[REPAIR] == MarkerOf(plan);
  }

  // -------------------------------------------------------------------------- copy

  predicate ChildInPlace(l: Ledger, plan: Plan) {
    && l.pointer == Some(plan.head) && plan.child in l.pubs
    && (l.pubs[plan.child].status.Prepared? || l.pubs[plan.child].status.Validated?)
    && l.pubs[plan.child].parent == Some(plan.head) && l.pubs[plan.child].config == Dual
    && l.pubs[plan.child].fingerprint == plan.fingerprint && l.pubs[plan.child].revision == plan.revision
    && HasContract(l.pubs[plan.child].evidence, plan.contract, plan.head)
  }

  lemma InPlaceExactly(l: Ledger, plan: Plan)
    ensures (l.pointer == Some(plan.head) && ChildIdentity(l, plan)) <==> ChildInPlace(l, plan)
  {
  }

  /** A document that holds another one and the repair's marker. */
  ghost predicate MarkedOver(plan: Plan, now: Doc, before: Doc) {
    && (forall member :: member in before ==> member in now && now[member] == before[member])
    && "unit_repair" in now && now["unit_repair"] == Mark(Marker(plan.contract, plan.head, plan.pins))
  }

  /** What the gates ask of a row that is there against the served row. */
  ghost predicate RowFits(plan: Plan, s: Surface, now: Row, before: Row) {
    && now.included == before.included && now.priceSource == before.priceSource
    && now.total == before.total && now.price == before.price && now.carry == before.carry
    && now.exitBasis == before.exitBasis && now.exitReason == before.exitReason && now.suspect == before.suspect && now.rest == before.rest
    && (if s.Snapshot? || s.RvSignal?
        then VolumeRepaired(now, before) && MarkedOver(plan, now.lineage, before.lineage) && MarkedOver(plan, now.payload, before.payload)
        else now.volume == before.volume && now.lineage == before.lineage && now.payload == before.payload)
  }

  lemma RowGatesExactly(plan: Plan, s: Surface, now: Row, before: Row)
    ensures (Verbatim(s, now) == Verbatim(s, before)
        && (Affected(s) ==> MarkersKept(plan, now, before) && now.volume == ExpectedVolume(before)))
      <==> RowFits(plan, s, now, before)
  {
    VolumeExactly(now, before);
    OverExactly(plan, now.lineage, before.lineage);
    OverExactly(plan, now.payload, before.payload);
    hide ExpectedVolume, VolumeRepaired, MarkedOver, Contains;
  }

  lemma OverExactly(plan: Plan, now: Doc, before: Doc)
    ensures (Contains(now, before) && Contains(now, map[REPAIR := MarkerOf(plan)])) <==> MarkedOver(plan, now, before)
  {
  }

  /** The table a copy leaves fits the served rows: as many as planned, every shared row
      fits, and on the two repaired surfaces the keys are the same. */
  ghost predicate TableFits(plan: Plan, s: Surface, rows: map<Key, Row>, served: map<Key, Row>) {
    && |rows| == plan.counts.Of(s)
    && (forall k :: k in rows && k in served ==> RowFits(plan, s, rows[k], served[k]))
    && (s.Snapshot? || s.RvSignal? ==> forall k :: k in rows <==> k in served)
  }

  lemma RowsFitExactly(plan: Plan, s: Surface, rows: map<Key, Row>, served: map<Key, Row>)
    ensures (forall k :: k in rows && k in served ==> RowFits(plan, s, rows[k], served[k]))
      <==> ((forall k :: k in rows && k in served ==> Verbatim(s, rows[k]) == Verbatim(s, served[k]))
        && (Affected(s) ==> forall k :: k in rows && k in served ==> MarkersKept(plan, rows[k], served[k]))
        && (Affected(s) ==> forall k :: k in rows && k in served ==> rows[k].volume == ExpectedVolume(served[k])))
  {
    hide Verbatim, MarkersKept, ExpectedVolume, RowFits, Affected;
    forall k | k in rows && k in served
      ensures RowFits(plan, s, rows[k], served[k])
        <==> (Verbatim(s, rows[k]) == Verbatim(s, served[k])
          && (Affected(s) ==> MarkersKept(plan, rows[k], served[k]) && rows[k].volume == ExpectedVolume(served[k])))
    {
      RowGatesExactly(plan, s, rows[k], served[k]);
    }
  }

  lemma SameKeys(a: map<Key, Row>, b: map<Key, Row>)
    ensures a.Keys == b.Keys <==> forall k :: k in a <==> k in b
  {
    if forall k :: k in a <==> k in b { assert a.Keys == b.Keys; }
  }

  lemma CopyGatesExactly(plan: Plan, s: Surface, rows: map<Key, Row>, served: map<Key, Row>)
    ensures CopyGates(plan, s, rows, served) <==> TableFits(plan, s, rows, served)
  {
    hide Verbatim, MarkersKept, ExpectedVolume, RowFits;
    RowsFitExactly(plan, s, rows, served);
    SameKeys(rows, served);
  }

  /** What a copy leaves of one key: the row already there, or the served row repaired. */
  lemma CopiedExactly(l: Ledger, plan: Plan, s: Surface, k: Key)
    requires plan.child in l.pubs && l.pubs[plan.child].status.Prepared?
    ensures var own, served, rows := Own(l, s, plan.child), Current(l, s), CopiedRows(l, plan, s);
      && (k in rows <==> k in own || k in served)
      && (k in own ==> rows[k] == own[k])
      && (k !in own && k in served ==> RowRepaired(plan, s, k, rows[k], served[k]))
  {
    hide Own, Current, RowRepaired, Repaired;
    if k in Current(l, s) { RepairedExactly(plan, s, k, Repaired(plan, s, k, Current(l, s)[k]), Current(l, s)[k]); }
  }

  /** The copy commits exactly when the child is in place, has withdrawn no served key, and
      the table it leaves fits the served rows; the null and sum gates add nothing. */
  lemma CopyExactly(l: Ledger, plan: Plan, s: Surface)
    ensures CopyAllowed(l, plan, s)
      <==> (ChildInPlace(l, plan)
        && (l.pubs[plan.child].status.Prepared? ==> forall k :: k in Current(l, s) ==> k !in Tombs(l, s, plan.child))
        && TableFits(plan, s, CopiedRows(l, plan, s), Current(l, s)))
  {
    hide ChildIdentity, ChildInPlace, Current, Tombs, CopyGates, TableFits, CopiedRows, NullGate, OsbapGate;
    InPlaceExactly(l, plan);
    if ChildInPlace(l, plan) {
      InPlaceThere(l, plan);
      CopyGatesExactly(plan, s, CopiedRows(l, plan, s), Current(l, s));
      if Affected(s) && CopyGates(plan, s, CopiedRows(l, plan, s), Current(l, s)) {
        ImpliedGates(plan, s, CopiedRows(l, plan, s), Current(l, s));
      }
    }
  }

  lemma InPlaceThere(l: Ledger, plan: Plan)
    requires ChildInPlace(l, plan)
    ensures plan.child in l.pubs
  {
  }

  lemma ImpliedGates(plan: Plan, s: Surface, rows: map<Key, Row>, served: map<Key, Row>)
    requires Affected(s) && CopyGates(plan, s, rows, served)
    ensures NullGate(rows, served) && OsbapGate(rows, served)
  {
    hide NullGate, OsbapGate;
    RowGateImpliesSums(plan, s, rows, served);
  }

  // ---------------------------------------------------------------------- finalize

  /** Within some months two tables have the same keys and the expected volumes. */
  ghost predicate VolumesFit(months: set<Date>, now: map<Key, Row>, before: map<Key, Row>) {
    && (forall k :: k in now && k.month in months ==> k in before)
    && (forall k :: k in before && k.month in months ==> k in now)
    && (forall k :: k in now && k in before && k.month in months ==> VolumeRepaired(now[k], before[k]))
  }

  lemma MonthVolumesExactly(now: map<Key, Row>, before: map<Key, Row>, m: Date)
    ensures VolumeGate(InMonthRows(now, m), InMonthRows(before, m)) <==> VolumesFit({m}, now, before)
  {
    forall k | k in now && k in before ensures now[k].volume == ExpectedVolume(before[k]) <==> VolumeRepaired(now[k], before[k]) {
      VolumeExactly(now[k], before[k]);
    }
    hide ExpectedVolume, VolumeRepaired;
    var a, b := InMonthRows(now, m), InMonthRows(before, m);
    assert forall k :: k in a <==> k in now && k.month == m;
    assert forall k :: k in b <==> k in before && k.month == m;
    if VolumesFit({m}, now, before) {
      assert a.Keys == b.Keys;
    }
    if VolumeGate(a, b) {
      forall k | k in now && k.month in {m} ensures k in before { assert k in a.Keys; }
      forall k | k in before && k.month in {m} ensures k in now { assert k in b.Keys; }
    }
  }

  /** The volume gates of all months together. */
  lemma VolumesExactly(months: set<Date>, now: map<Key, Row>, before: map<Key, Row>)
    ensures (forall m :: m in months ==> VolumeGate(InMonthRows(now, m), InMonthRows(before, m))) <==> VolumesFit(months, now, before)
  {
    hide VolumeGate, InMonthRows, VolumeRepaired;
    forall m ensures VolumeGate(InMonthRows(now, m), InMonthRows(before, m)) <==> VolumesFit({m}, now, before) { MonthVolumesExactly(now, before, m); }
    if forall m :: m in months ==> VolumesFit({m}, now, before) {
      forall k | k in now && k.month in months ensures k in before && VolumeRepaired(now[k], before[k]) { assert VolumesFit({k.month}, now, before); }
      forall k | k in before && k.month in months ensures k in now { assert VolumesFit({k.month}, now, before); }
    }
  }

  /** The rows of one year up to the cutoff. */
  ghost function YearRows(rows: map<Key, Row>, cutoff: Date, y: int): map<Key, Row> {
    map k | k in rows && k.month <= cutoff && k.month / 372 == y :: rows[k]
  }

  /** The artifact's figures for one surface and year: rows, and on the two repaired
      surfaces null volumes and the total of the others, within one dollar. */
  ghost predicate YearFits(expected: YearTotal, s: Surface, rows: map<Key, Row>) {
    && expected.rows == |rows|
    && (if s.Snapshot? || s.RvSignal?
        then
          && expected.nulls == Some(|set k | k in rows && rows[k].volume.None?|)
          && (expected.total.Some? <==> exists k :: k in rows && rows[k].volume.Some?)
          && (expected.total.Some? ==>
                -1.0 <= expected.total.value - MapSum(map k | k in rows && rows[k].volume.Some? :: rows[k].volume.value) <= 1.0)
        else expected.nulls.None? && expected.total.None?)
  }

  lemma YearExactly(expected: YearTotal, s: Surface, rows: map<Key, Row>, cutoff: Date, y: int)
    ensures YearMatches(expected, ActualYear(s, rows, cutoff, y)) <==> YearFits(expected, s, YearRows(rows, cutoff, y))
  {
    AnnualIsDirect(s, rows, cutoff, y);
    DirectExactly(s, rows, cutoff, y);
    hide ActualYear, DirectYear, MapSum, YearRows;
  }

  lemma DirectExactly(s: Surface, rows: map<Key, Row>, cutoff: Date, y: int)
    ensures var of, direct := YearRows(rows, cutoff, y), DirectYear(s, rows, cutoff, y);
      && direct.rows == |of|
      && direct.nulls == (if s.Snapshot? || s.RvSignal? then Some(|set k | k in of && of[k].volume.None?|) else None)
      && (direct.total.Some? <==> (s.Snapshot? || s.RvSignal?) && exists k :: k in of && of[k].volume.Some?)
      && (direct.total.Some? ==> direct.total.value == MapSum(map k | k in of && of[k].volume.Some? :: of[k].volume.value))
  {
    var of, column := YearRows(rows, cutoff, y), EarlyYear(rows, cutoff, y);
    assert column.Keys == of.Keys;
    assert NullKeys(column) == set k | k in of && of[k].volume.None?;
    PresentVolumes(of, column);
  }

  lemma PresentVolumes(of: map<Key, Row>, column: map<Key, Option<real>>)
    requires column.Keys == of.Keys && forall k :: k in of ==> column[k] == of[k].volume
    ensures SqlSum(column).Some? <==> exists k :: k in of && of[k].volume.Some?
    ensures SqlSum(column).Some? ==> SqlSum(column).value == MapSum(map k | k in of && of[k].volume.Some? :: of[k].volume.value)
  {
    hide MapSum;
    assert Present(column) == map k | k in of && of[k].volume.Some? :: of[k].volume.value;
    if k :| k in of && of[k].volume.Some? { assert k in Present(column); }
    if Present(column) != map[] {
      var k :| k in Present(column);
      assert k in of && of[k].volume.Some?;
    }
  }

  /** Every surface and year with rows up to the cutoff is planned, none else, and fits. */
  ghost predicate AggregatesFit(l: Ledger, plan: Plan) {
    && (forall s: Surface, y ::
          SurfaceYear(s, y) in plan.perYear <==> exists k :: k in Own(l, s, plan.child) && k.month <= plan.cutoff && k.month / 372 == y)
    && (forall sy :: sy in plan.perYear ==>
          YearFits(plan.perYear[sy], sy.surface, YearRows(Own(l, sy.surface, plan.child), plan.cutoff, sy.year)))
  }

  lemma AggregatesExactly(l: Ledger, plan: Plan)
    ensures AggregateGate(l, plan) <==> AggregatesFit(l, plan)
  {
    hide Own, EarlyMonths, YearMatches, ActualYear, YearFits, YearRows;
    forall s: Surface, y
      ensures EarlyMonths(Own(l, s, plan.child), plan.cutoff, y) != {}
        <==> exists k :: k in Own(l, s, plan.child) && k.month <= plan.cutoff && k.month / 372 == y
    {
      EarlyExactly(Own(l, s, plan.child), plan.cutoff, y);
    }
    YearsFitExactly(l, plan);
  }

  lemma YearsFitExactly(l: Ledger, plan: Plan)
    ensures (forall sy :: sy in plan.perYear ==>
          YearMatches(plan.perYear[sy], ActualYear(sy.surface, Own(l, sy.surface, plan.child), plan.cutoff, sy.year)))
      <==> forall sy :: sy in plan.perYear ==>
          YearFits(plan.perYear[sy], sy.surface, YearRows(Own(l, sy.surface, plan.child), plan.cutoff, sy.year))
  {
    hide Own, YearMatches, ActualYear, YearFits, YearRows;
    forall sy | sy in plan.perYear
      ensures YearMatches(plan.perYear[sy], ActualYear(sy.surface, Own(l, sy.surface, plan.child), plan.cutoff, sy.year))
        <==> YearFits(plan.perYear[sy], sy.surface, YearRows(Own(l, sy.surface, plan.child), plan.cutoff, sy.year))
    {
      YearExactly(plan.perYear[sy], sy.surface, Own(l, sy.surface, plan.child), plan.cutoff, sy.year);
    }
  }

  lemma EarlyExactly(rows: map<Key, Row>, cutoff: Date, y: int)
    ensures EarlyMonths(rows, cutoff, y) != {} <==> exists k :: k in rows && k.month <= cutoff && k.month / 372 == y
  {
    if k :| k in rows && k.month <= cutoff && k.month / 372 == y { assert k.month in EarlyMonths(rows, cutoff, y); }
    if EarlyMonths(rows, cutoff, y) != {} {
      var m :| m in EarlyMonths(rows, cutoff, y);
    }
  }

  /** The pointer is on the head, which is dual-series, with nothing declared empty, or on
      the validated child. */
  ghost predicate PointerReady(l: Ledger, plan: Plan)
    requires plan.head in l.pubs && plan.child in l.pubs
  {
    && l.pointer.Some? && (l.pointer.value == plan.head || l.pointer.value == plan.child)
    && (l.pointer.value == plan.child ==> l.pubs[plan.child].status == Validated)
    && (l.pointer.value == plan.head ==> l.pubs[plan.head].config == Dual && NothingEmpty(l.pubs[plan.child].declared))
  }

  lemma PointerExactly(l: Ledger, plan: Plan)
    requires plan.head in l.pubs && plan.child in l.pubs
    ensures (PointerPreflight(l, plan) && (l.pointer == Some(plan.head) ==> PointerAdmits(l, plan))) <==> PointerReady(l, plan)
  {
    NothingEmptyExactly(l.pubs[plan.child].declared);
    hide NothingEmpty;
  }

  lemma CoverageExactly(l: Ledger, plan: Plan)
    ensures IdentityAndCoverage(l, plan) <==> SoundAndAgreeing(l, plan.child) && HasOwn144A(Own(l, Snapshot, plan.child))
  {
    AllSoundExactly(l, plan.child);
    Own144AExactly(Own(l, Snapshot, plan.child));
    AgreeExactly(l, plan);
    hide Own, IdentityValid, AllSound, HasOwn144A, SurfacesAgree;
  }

  lemma AgreeExactly(l: Ledger, plan: Plan)
    ensures SurfacesAgree(Own(l, Snapshot, plan.child), Own(l, RvSignal, plan.child), Own(l, Returns, plan.child), Own(l, RatingPit, plan.child))
      <==> (var snapshot := Own(l, Snapshot, plan.child);
        && (forall k :: k in Own(l, RvSignal, plan.child) ==> k in snapshot && snapshot[k].included)
        && (forall k :: k in Own(l, Returns, plan.child) ==> k in snapshot)
        && snapshot.Keys == Own(l, RatingPit, plan.child).Keys
        && (forall s: Surface, k :: k in Own(l, s, plan.child) && k in snapshot ==> Own(l, s, plan.child)[k].identity == snapshot[k].identity))
  {
    hide Own;
    var snapshot := Own(l, Snapshot, plan.child);
    if SurfacesAgree(snapshot, Own(l, RvSignal, plan.child), Own(l, Returns, plan.child), Own(l, RatingPit, plan.child)) {
      forall s: Surface, k | k in Own(l, s, plan.child) && k in snapshot ensures Own(l, s, plan.child)[k].identity == snapshot[k].identity {
        match s case Snapshot => case RvSignal => case Returns => case RatingPit =>
      }
    }
  }

  /** What makes a repaired child fit to be served. */
  ghost predicate FitToServe(l: Ledger, plan: Plan) {
    && plan.head in l.pubs && plan.child in l.pubs && ChildOfPlan(l.pubs[plan.child], plan) && PointerReady(l, plan)
    && plan.root in Chain(l.pubs, plan.head, {}, Source) && RootReady(l, plan)
    && Sized(l, plan.child, plan.counts)
    && Contiguous(Months(Own(l, Returns, plan.child)), plan.first + 31, plan.lastClosed)
    && SoundAndAgreeing(l, plan.child) && HasOwn144A(Own(l, Snapshot, plan.child))
    && VolumesFit(GatedMonths(l, plan.child), Own(l, Snapshot, plan.child), SourceProjection(l, plan, Snapshot))
    && VolumesFit(GatedMonths(l, plan.child), Own(l, RvSignal, plan.child), SourceProjection(l, plan, RvSignal))
    && AggregatesFit(l, plan)
  }

  lemma ContinuityExactly(l: Ledger, plan: Plan)
    requires plan.first % 31 == 0
    ensures ContinuityGate(l, plan) <==> Contiguous(Months(Own(l, Returns, plan.child)), plan.first + 31, plan.lastClosed)
  {
    hide Own, Months, MonthSeries, Contiguous;
    ContiguousExactly(Months(Own(l, Returns, plan.child)), plan.first + 31, plan.lastClosed);
  }

  lemma GatedVolumes(l: Ledger, plan: Plan)
    requires plan.head in l.pubs
    ensures (forall m :: m in GatedMonths(l, plan.child) ==> MonthVolumes(l, plan, Snapshot, m) && MonthVolumes(l, plan, RvSignal, m))
      <==> (VolumesFit(GatedMonths(l, plan.child), Own(l, Snapshot, plan.child), SourceProjection(l, plan, Snapshot))
        && VolumesFit(GatedMonths(l, plan.child), Own(l, RvSignal, plan.child), SourceProjection(l, plan, RvSignal)))
  {
    hide Own, GatedMonths, SourceProjection, VolumeGate, InMonthRows, VolumesFit;
    VolumesExactly(GatedMonths(l, plan.child), Own(l, Snapshot, plan.child), SourceProjection(l, plan, Snapshot));
    VolumesExactly(GatedMonths(l, plan.child), Own(l, RvSignal, plan.child), SourceProjection(l, plan, RvSignal));
  }

  /** The finalize commits exactly the children that are fit to be served. */
  lemma FinalizeExactly(l: Ledger, plan: Plan)
    requires plan.first % 31 == 0
    ensures FinalizeCommits(l, plan) <==> FitToServe(l, plan)
  {
    hide SameHeader, ChildOfPlan, PointerPreflight, PointerAdmits, PointerReady, Chain, IsRoot, RootReady, Sized, ContinuityGate, Contiguous, Months, Own,
      IdentityAndCoverage, SoundAndAgreeing, HasOwn144A, GatedMonths, MonthVolumes, VolumesFit, SourceProjection, AggregateGate, AggregatesFit;
    if plan.head in l.pubs && plan.child in l.pubs {
      ChildExactly(l.pubs[plan.child], plan);
      PointerExactly(l, plan);
      HeadExactly(l, plan);
      SizedExactly(l, plan.child, plan.counts);
      ContinuityExactly(l, plan);
      CoverageExactly(l, plan);
      GatedVolumes(l, plan);
      AggregatesExactly(l, plan);
    }
  }

  /** What the views serve after a commit fits together. */
  lemma CommitAgrees(l: Ledger, plan: Plan)
    requires Sound(l) && ChildHolds(l, plan) && FinalizeCommits(l, plan)
    ensures plan.child in l.pubs
    ensures var m := Switched(l, plan);
      && SurfacesAgree(Current(m, Snapshot), Current(m, RvSignal), Current(m, Returns), Current(m, RatingPit))
      && AllSound(Current(m, Snapshot)) && AllSound(Current(m, RvSignal)) && AllSound(Current(m, Returns)) && AllSound(Current(m, RatingPit))
  {
    hide Sound, FinalizeCommits, ChildHolds, Current, Switched, SurfacesAgree, AllSound, Own, HasOwn144A, CountGates, RepairedRows;
    CommittingChild(l, plan);
    forall s: Surface ensures Current(Switched(l, plan), s) == Own(l, s, plan.child) {
      CommitServesRepaired(l, plan, s);
      CommitLoads(l, plan, s);
    }
    Coverage(l, plan);
    CoverageExactly(l, plan);
  }

  lemma Coverage(l: Ledger, plan: Plan)
    requires FinalizeCommits(l, plan)
    ensures IdentityAndCoverage(l, plan)
  {
    hide SameHeader, SourceReaches, CountGates, ContinuityGate, IdentityAndCoverage, MonthVolumes, AggregateGate, GatedMonths;
  }

  /** All a commit writes: the pointer, and of a prepared child the status and one more
      member of its evidence. */
  lemma CommitWrites(l: Ledger, plan: Plan)
    requires plan.child in l.pubs
    ensures var m, before, after := Switched(l, plan), l.pubs[plan.child], Switched(l, plan).pubs[plan.child];
      && m == l.(pubs := l.pubs[plan.child := after], pointer := Some(plan.child))
      && (before.status != Prepared ==> after == before)
      && (before.status == Prepared ==>
            && after == before.(status := Validated, evidence := after.evidence)
            && after.evidence == before.evidence["unit_repair_validated" := Mark(Marker(plan.contract, plan.head, plan.pins))])
  {
  }
}
