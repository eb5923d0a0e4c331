/** A copied unit-repair child that satisfies every gate: one `osbap` bond in one month. */
module UnitRepairWitness {
  import opened Prelude
  import opened Panel
  import opened MonthGates
  import opened LedgerSteps
  import opened UnitRepair
  import opened UnitRepairRuns
  import opened UnitRepairOutcome
  import opened PanelWitness

  const FIRST: Date := MakeDate(2002, 7, 1)
  const MONTH: Date := NextMonth(FIRST)
  const YEAR := 2002
  const KEY := Key(MONTH, "C")
  const BEFORE := Row(
    Identity(None, None, None), true, Some(RESCALED_SOURCE), Some(2.0), 0.3, Some(0.1), Some(0.2), "observed", None, false, map[], map[], "")
  const HEAD_ROWS: map<Key, Row> := map[KEY := BEFORE]
  const COUNTS := Counts(1, 1, 1, 1)
  const VOLUMES := YearTotal(1, Some(0), Some(2000000.0))
  const ROWS := YearTotal(1, None, None)
  const PER_YEAR: map<SurfaceYear, YearTotal> := map[
    SurfaceYear(Snapshot, YEAR) := VOLUMES, SurfaceYear(RvSignal, YEAR) := VOLUMES,
    SurfaceYear(Returns, YEAR) := ROWS, SurfaceYear(RatingPit, YEAR) := ROWS]

  const PLAN := Plan(
    CHILD, HEAD, ROOT, "fingerprint", "contract", "revision", "root", Text("root"), Text("sources"),
    FIRST, MONTH, NextMonth(MONTH), MONTH, COUNTS, PER_YEAR, "pins")

  const MARKS: Doc := LineageMarks(PLAN)

  function Pub(parent: Option<Id>, status: Status, config: Config, fingerprint: string, revision: string): Publication {
    Publication(parent, status, config, fingerprint, revision, FIRST, MONTH, Some(NextMonth(MONTH)), COUNTS, MARKS, MARKS)
  }

  function ChildRows(s: Surface): map<Key, Row> { RepairedRows(PLAN, s, HEAD_ROWS) }

  const LEDGER := Ledger(
    map[ROOT := Pub(None, Validated, Legacy, "root", "root"), HEAD := Pub(Some(ROOT), Validated, Dual, "head", "head"),
        CHILD := Pub(Some(HEAD), Prepared, Dual, "fingerprint", "revision")],
    Some(HEAD),
    map[Slot(Snapshot, HEAD) := HEAD_ROWS, Slot(RvSignal, HEAD) := HEAD_ROWS, Slot(Returns, HEAD) := HEAD_ROWS, Slot(RatingPit, HEAD) := HEAD_ROWS,
        Slot(Snapshot, CHILD) := ChildRows(Snapshot), Slot(RvSignal, CHILD) := ChildRows(RvSignal),
        Slot(Returns, CHILD) := ChildRows(Returns), Slot(RatingPit, CHILD) := ChildRows(RatingPit)],
    map[], map[])

  lemma Shape()
    ensures ThreeDeep(LEDGER)
  {
    hide ChildRows, HEAD_ROWS;
  }

  lemma RootIsEmpty(s: Surface)
    ensures Own(LEDGER, s, ROOT) == map[] && Tombs(LEDGER, s, CHILD) == {}
  {
    hide ChildRows, HEAD_ROWS;
  }

  lemma HeadTables(s: Surface)
    ensures Own(LEDGER, s, HEAD) == HEAD_ROWS
  {
    hide ChildRows, HEAD_ROWS;
    assert Slot(s, HEAD) in LEDGER.facts;
  }

  lemma ChildTables(s: Surface)
    ensures Own(LEDGER, s, CHILD) == ChildRows(s)
  {
    hide ChildRows, HEAD_ROWS;
    assert Slot(s, CHILD) in LEDGER.facts;
  }

  lemma ChildRow(s: Surface)
    ensures ChildRows(s).Keys == {KEY} && |ChildRows(s)| == 1 && |HEAD_ROWS| == 1 && HEAD_ROWS.Keys == {KEY} && HEAD_ROWS[KEY] == BEFORE
    ensures ChildRows(s)[KEY] == Repaired(PLAN, s, KEY, BEFORE)
  {
    assert ChildRows(s).Keys == {KEY};
  }

  lemma RepairedRow(s: Surface)
    ensures var r := Repaired(PLAN, s, KEY, BEFORE);
      && r.identity == Identity(Some("rule_144a"), Some("C"), None) && r.included && IdentityValid(KEY, r.identity)
      && (Affected(s) ==> r.volume == Some(2000000.0))
  {
    assert "C"[0] == 'C' && 'C' in "C";
  }

  lemma HeadServesIts(s: Surface)
    ensures Served(LEDGER, s, HEAD) == HEAD_ROWS && PLAN.head in LEDGER.pubs && SourceProjection(LEDGER, PLAN, s) == HEAD_ROWS
    ensures PLAN.head == HEAD && PLAN.child == CHILD
  {
    Shape();
    RootIsEmpty(s);
    HeadTables(s);
    hide LEDGER, HEAD_ROWS;
    HeadServes(LEDGER, s);
  }

  lemma HeaderIsRight()
    ensures CHILD in LEDGER.pubs && HEAD in LEDGER.pubs && SameHeader(LEDGER.pubs[CHILD], PLAN) && HeadWindow(LEDGER, PLAN)
    ensures LEDGER.pubs[CHILD].parent == Some(HEAD) && LEDGER.pubs[CHILD].config.Dual? && MarkedFor(LEDGER.pubs[CHILD].evidence, PLAN)
    ensures PointerPreflight(LEDGER, PLAN) && PointerAdmits(LEDGER, PLAN) && IsRoot(LEDGER, PLAN)
    ensures PLAN.counts == COUNTS && PLAN.first == FIRST && PLAN.lastClosed == MONTH && PLAN.cutoff == MONTH && PLAN.perYear == PER_YEAR
  {
    hide ChildRows, HEAD_ROWS, PER_YEAR;
  }

  /** The child is what a run leaves: every surface copied whole. */
  lemma CopiedChild()
    ensures Sound(LEDGER) && ChildHolds(LEDGER, PLAN)
  {
    hide LEDGER, PLAN, Served, SourceProjection, Own, Tombs, HeadWindow, SameHeader, MarkedFor, PointerPreflight, PointerAdmits, IsRoot, Sound, HEAD_ROWS,
      RepairedRows, Repaired, COUNTS;
    Shape();
    IsSound(LEDGER);
    HeaderIsRight();
    RootIsEmpty(Returns);
    forall s: Surface ensures |Served(LEDGER, s, HEAD)| == COUNTS.Of(s) {
      HeadServesIts(s);
      ChildRow(s);
      CountOf(s);
    }
    forall s: Surface ensures CopiedWhole(LEDGER, PLAN, s) {
      HeadServesIts(s);
      ChildTables(s);
    }
    HeadServesIts(Returns);
  }

  lemma CountOf(s: Surface)
    ensures COUNTS.Of(s) == 1
  {
  }

  // ------------------------------------------------------------------- its gates

  lemma SourcePasses()
    ensures PLAN.head in LEDGER.pubs && SourceReaches(LEDGER, PLAN)
  {
    HeaderIsRight();
    Shape();
    hide LEDGER, HEAD_ROWS, SameHeader, HeadWindow, PointerPreflight, PointerAdmits, MarkedFor, IsRoot, Chain;
    HeadChain(LEDGER, {}, Source);
    HeadServesIts(Returns);
    assert PLAN.root == ROOT && ROOT in [HEAD, ROOT];
  }

  lemma CountsPass()
    ensures CountGates(LEDGER, PLAN)
  {
    hide LEDGER, PLAN, Own, COUNTS, HEAD_ROWS, ChildRows, Repaired, SameHeader, HeadWindow, PointerPreflight, PointerAdmits, MarkedFor, IsRoot;
    HeaderIsRight();
    HeadServesIts(Returns);
    forall s: Surface ensures |Own(LEDGER, s, PLAN.child)| == PLAN.counts.Of(s) {
      ChildTables(s);
      ChildRow(s);
      CountOf(s);
    }
  }

  lemma OneMonth(s: Surface)
    ensures Months(ChildRows(s)) == {MONTH}
  {
    hide ChildRows, HEAD_ROWS, PLAN;
    ChildRow(s);
    assert KEY in ChildRows(s) && KEY.month == MONTH;
  }

  lemma ContinuityPasses()
    ensures ContinuityGate(LEDGER, PLAN)
  {
    hide LEDGER, PLAN, Own, HEAD_ROWS, ChildRows, SameHeader, HeadWindow, PointerPreflight, PointerAdmits, MarkedFor, IsRoot, Months, MonthSeries;
    HeaderIsRight();
    HeadServesIts(Returns);
    ChildTables(Returns);
    OneMonth(Returns);
    CountIsCoverage({MONTH}, MONTH, MONTH);
  }

  lemma IdentityPasses()
    ensures IdentityAndCoverage(LEDGER, PLAN)
  {
    hide LEDGER, PLAN, Own, HEAD_ROWS, ChildRows, Repaired, IdentityValid, SourceProjection, Served;
    HeadServesIts(Returns);
    forall s: Surface
      ensures Own(LEDGER, s, CHILD).Keys == {KEY} && IdentityValid(KEY, Own(LEDGER, s, CHILD)[KEY].identity) && Own(LEDGER, s, CHILD)[KEY].included
        && Own(LEDGER, s, CHILD)[KEY].identity == Identity(Some("rule_144a"), Some("C"), None)
    {
      ChildTables(s);
      ChildRow(s);
      RepairedRow(s);
    }
    assert KEY.cusip == "C";
  }

  lemma VolumesPass(s: Surface, m: Date)
    requires Affected(s)
    ensures PLAN.head in LEDGER.pubs && MonthVolumes(LEDGER, PLAN, s, m)
  {
    hide LEDGER, PLAN, Own, HEAD_ROWS, ChildRows, Repaired, SourceProjection, Served;
    HeadServesIts(s);
    ChildTables(s);
    ChildRow(s);
    RepairedRow(s);
    BeforeVolume();
    hide BEFORE;
    var rows, source := InMonthRows(ChildRows(s), m), InMonthRows(HEAD_ROWS, m);
    assert rows.Keys == (if m == KEY.month then {KEY} else {}) == source.Keys;
  }

  lemma BeforeVolume()
    ensures ExpectedVolume(BEFORE) == Some(2000000.0)
  {
  }

  lemma DirectTotals(s: Surface)
    ensures DirectYear(s, ChildRows(s), MONTH, YEAR) == if Affected(s) then VOLUMES else ROWS
  {
    ChildRow(s);
    RepairedRow(s);
    hide ChildRows, Repaired, HEAD_ROWS, PLAN, BEFORE;
    var column := EarlyYear(ChildRows(s), MONTH, YEAR);
    assert YearOf(KEY.month) == YEAR;
    assert column.Keys == {KEY} && |column| == 1;
    if Affected(s) {
      assert column == map[KEY := Some(2000000.0)];
      OneVolume();
    }
  }

  lemma OneVolume()
    ensures var one: map<Key, Option<real>> := map[KEY := Some(2000000.0)];
      SqlSum(one) == Some(2000000.0) && NullCount(one) == 0
  {
    var one: map<Key, Option<real>> := map[KEY := Some(2000000.0)];
    assert Present(one) == map[][KEY := 2000000.0];
    assert KEY in Present(one);
    MapSumAdd(map[], KEY, 2000000.0);
    assert NullKeys(one) == {};
  }

  lemma YearsPresent(s: Surface, y: int)
    ensures SurfaceYear(s, y) in PER_YEAR <==> EarlyMonths(ChildRows(s), MONTH, y) != {}
    ensures y == YEAR ==> SurfaceYear(s, y) in PER_YEAR && PER_YEAR[SurfaceYear(s, y)] == if Affected(s) then VOLUMES else ROWS
    ensures SurfaceYear(s, y) in PER_YEAR ==> y == YEAR
  {
    ChildRow(s);
    hide ChildRows, Repaired, HEAD_ROWS, PLAN, BEFORE;
    assert YearOf(KEY.month) == YEAR;
    if y == YEAR { assert KEY in ChildRows(s) && KEY.month in EarlyMonths(ChildRows(s), MONTH, y); }
  }

  lemma AggregatesPass()
    ensures AggregateGate(LEDGER, PLAN)
  {
    hide LEDGER, PLAN, Own, HEAD_ROWS, ChildRows, PER_YEAR, ActualYear, DirectYear, EarlyMonths, SourceProjection, Served, SameHeader, HeadWindow,
      PointerPreflight, PointerAdmits, MarkedFor, IsRoot;
    HeaderIsRight();
    HeadServesIts(Returns);
    forall s: Surface, y ensures Own(LEDGER, s, CHILD) == ChildRows(s)
        && (SurfaceYear(s, y) in PER_YEAR <==> EarlyMonths(ChildRows(s), MONTH, y) != {})
    {
      ChildTables(s);
      YearsPresent(s, y);
    }
    forall sy | sy in PER_YEAR ensures YearMatches(PER_YEAR[sy], ActualYear(sy.surface, Own(LEDGER, sy.surface, CHILD), MONTH, sy.year)) {
      var s := sy.surface;
      assert sy == SurfaceYear(s, sy.year);
      YearsPresent(s, sy.year);
      ChildTables(s);
      AnnualIsDirect(s, ChildRows(s), MONTH, YEAR);
      DirectTotals(s);
    }
  }

  /** The gates of the finalize can all hold. */
  lemma FinalizeCanCommit()
    ensures Sound(LEDGER) && ChildHolds(LEDGER, PLAN) && FinalizeCommits(LEDGER, PLAN)
  {
    hide LEDGER, PLAN, Own, Sound, ChildHolds, PointerPreflight, SameHeader, SourceReaches, CountGates, ContinuityGate, IdentityAndCoverage, MonthVolumes,
      GatedMonths, AggregateGate, PointerAdmits, HeadWindow, MarkedFor, IsRoot, SourceProjection, Served, HEAD_ROWS, PER_YEAR, COUNTS;
    CopiedChild();
    HeaderIsRight();
    SourcePasses();
    CountsPass();
    ContinuityPasses();
    IdentityPasses();
    AggregatesPass();
    HeadServesIts(Returns);
    forall m ensures MonthVolumes(LEDGER, PLAN, Snapshot, m) && MonthVolumes(LEDGER, PLAN, RvSignal, m) {
      VolumesPass(Snapshot, m);
      VolumesPass(RvSignal, m);
    }
  }
}
