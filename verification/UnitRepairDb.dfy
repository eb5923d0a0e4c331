/** The emitted unit-repair transactions, statement by statement: each commits
    exactly when its guards and gates hold, leaves the ledger the specification
    names, and otherwise leaves the database as it was. */
module UnitRepairDb {
  import opened Prelude
  import opened Panel
  import opened MonthGates
  import opened MonthScans
  import opened LedgerSteps
  import opened UnitRepair
  import opened PanelDb

  lemma MadeIsSame(l: Ledger, plan: Plan)
    requires plan.head in l.pubs
    ensures SameHeader(ChildPublication(l, plan), plan)
    ensures Contains(ChildPublication(l, plan).evidence, map[REPAIR := MarkerOf(plan)])
  {
  }

  lemma HeadExists(l: Ledger, plan: Plan)
    requires PrepareGuards(l, plan)
    ensures plan.head in l.pubs
  {
    hide Current, MarkedFor, FrozenRoot;
  }

  method PrepareTransaction(db: Database, plan: Plan) returns (committed: bool)
    modifies db
    ensures committed <==> PrepareAllowed(old(db.State()), plan)
    ensures db.State() == if committed then Prepare(old(db.State()), plan) else old(db.State())
  {
    hide SameHeader, ChildPublication, Contains;
    var l := db.State();
    committed := PrepareGuards(l, plan);
    if !committed { return; }
    HeadExists(l, plan);
    hide PrepareGuards;
    if plan.child !in l.pubs
    {
      committed := (forall p :: p in l.pubs ==> l.pubs[p].fingerprint != plan.fingerprint)
        && (forall s: Surface :: plan.counts.Of(s) > 0) && plan.first <= plan.lastClosed;
      if !committed { return; }
    }
    MadeIsSame(l, plan);
    db.InsertPublication(plan.child, ChildPublication(l, plan));
    committed := SameHeader(db.pubs[plan.child], plan) && Contains(db.pubs[plan.child].evidence, map[REPAIR := MarkerOf(plan)]);
    if !committed { db.Restore(l); }
  }

  // ---------------------------------------------------------------------- copy

  function Year(sums: map<int, Option<real>>, y: int): Option<real> { if y in sums then sums[y] else None }

  ghost predicate Grouped(sums: map<int, Option<real>>, rows: map<Key, Row>) {
    forall y :: Year(sums, y) == SqlSum(OsbapVolumes(rows, y))
  }

  lemma NothingGrouped()
    ensures Grouped(map[], map[])
  {
    forall y ensures Year(map[], y) == SqlSum(OsbapVolumes(map[], y)) {
      assert OsbapVolumes(map[], y) == map[];
      assert Present(OsbapVolumes(map[], y)) == map[];
    }
  }

  lemma OsbapOneMore(rows: map<Key, Row>, k: Key, row: Row, y: int)
    requires k !in rows
    ensures SqlSum(OsbapVolumes(rows[k := row], y))
      == if row.priceSource == Some(RESCALED_SOURCE) && YearOf(k.month) == y
         then PlusNull(SqlSum(OsbapVolumes(rows, y)), row.volume) else SqlSum(OsbapVolumes(rows, y))
  {
    hide SqlSum;
    if row.priceSource == Some(RESCALED_SOURCE) && YearOf(k.month) == y {
      SqlSumAddOne(OsbapVolumes(rows, y), k, row.volume);
      assert OsbapVolumes(rows[k := row], y) == OsbapVolumes(rows, y)[k := row.volume];
    } else {
      assert OsbapVolumes(rows[k := row], y) == OsbapVolumes(rows, y);
    }
  }

  function AddOsbap(sums: map<int, Option<real>>, k: Key, row: Row): map<int, Option<real>> {
    if row.priceSource == Some(RESCALED_SOURCE)
    then sums[YearOf(k.month) := PlusNull(Year(sums, YearOf(k.month)), row.volume)] else sums
  }

  lemma GroupsOneMore(sums: map<int, Option<real>>, rows: map<Key, Row>, k: Key, row: Row)
    requires k !in rows && Grouped(sums, rows)
    ensures Grouped(AddOsbap(sums, k, row), rows[k := row])
  {
    hide SqlSum, OsbapVolumes, YearOf, PlusNull;
    forall y ensures Year(AddOsbap(sums, k, row), y) == SqlSum(OsbapVolumes(rows[k := row], y)) {
      OsbapOneMore(rows, k, row, y);
      assert Year(sums, y) == SqlSum(OsbapVolumes(rows, y));
    }
  }

  /** `sum(dollar_volume) ... WHERE price_source = 'osbap' GROUP BY year`. */
  method OsbapYears(rows: map<Key, Row>) returns (sums: map<int, Option<real>>)
    ensures Grouped(sums, rows)
  {
    hide Grouped;
    var left, done: map<Key, Row> := rows.Keys, map[];
    sums := map[];
    NothingGrouped();
    while left != {}
      invariant left + done.Keys == rows.Keys && left !! done.Keys
      invariant forall k :: k in done ==> done[k] == rows[k]
      invariant Grouped(sums, done)
      decreases left
    {
      var k :| k in left;
      GroupsOneMore(sums, done, k, rows[k]);
      sums := AddOsbap(sums, k, rows[k]);
      left, done := left - {k}, done[k := rows[k]];
    }
    assert done == rows;
  }

  /** The full join of the two yearly groupings. */
  method OsbapYearsMatch(rows: map<Key, Row>, source: map<Key, Row>) returns (ok: bool)
    ensures ok <==> OsbapGate(rows, source)
  {
    var ours := OsbapYears(rows);
    var theirs := OsbapYears(source);
    hide SqlSum, OsbapVolumes;
    ok := forall y :: y in ours.Keys + theirs.Keys ==> Year(ours, y) == Scaled(Year(theirs, y));
    if ok {
      forall y ensures Year(ours, y) == Scaled(Year(theirs, y)) {
        if y !in ours.Keys + theirs.Keys { assert Year(ours, y) == None && Year(theirs, y) == None; }
      }
    }
  }

  method CountNulls(column: map<Key, Option<real>>) returns (n: nat)
    ensures n == NullCount(column)
  {
    n := |set k | k in column && column[k].None?|;
  }

  lemma ChildExists(l: Ledger, plan: Plan)
    requires ChildIdentity(l, plan)
    ensures plan.child in l.pubs
  {
  }

  /** What the insert's `WHERE EXISTS` lets it propose: nothing for a validated child. */
  function Proposed(l: Ledger, plan: Plan, rows: map<Key, Row>): map<Key, Row> {
    if plan.child in l.pubs && l.pubs[plan.child].status.Prepared? then rows else map[]
  }

  lemma ProposedIsCopied(l: Ledger, plan: Plan, s: Surface)
    ensures InsertMissing(Own(l, s, plan.child), Proposed(l, plan, RepairedRows(plan, s, Current(l, s)))) == CopiedRows(l, plan, s)
    ensures RepairedRows(plan, s, Current(l, s)).Keys == Current(l, s).Keys
  {
    hide Current, Own, Repaired;
  }

  method CopyTransaction(db: Database, plan: Plan, s: Surface) returns (committed: bool)
    modifies db
    ensures committed <==> CopyAllowed(old(db.State()), plan, s)
    ensures db.State() == if committed then Copy(old(db.State()), plan, s) else old(db.State())
  {
    hide ChildIdentity, Current, Own, Tombs, CopiedRows, CopyGates, NullGate, OsbapGate, Volumes, NullCount,
      RepairedRows, InsertMissing;
    var l := db.State();
    committed := l.pointer == Some(plan.head) && ChildIdentity(l, plan);
    if !committed { return; }
    ChildExists(l, plan);
    var source := Current(l, s);
    ProposedIsCopied(l, plan, s);
    committed := db.InsertRows(Slot(s, plan.child), Proposed(l, plan, RepairedRows(plan, s, source)));
    if !committed { db.Restore(l); return; }
    var rows := db.facts[Slot(s, plan.child)];
    committed := CopyGates(plan, s, rows, source);
    if committed && Affected(s) {
      var ours := CountNulls(Volumes(rows));
      var theirs := CountNulls(Volumes(source));
      var years := OsbapYearsMatch(rows, source);
      committed := ours == theirs && years;
      NullsCompared(rows, source);
    }
    if !committed { db.Restore(l); }
  }

  lemma NullsCompared(rows: map<Key, Row>, source: map<Key, Row>)
    ensures NullGate(rows, source) <==> NullCount(Volumes(rows)) == NullCount(Volumes(source))
  {
  }

  // ------------------------------------------------------------------ finalize

  method StatsOf(column: map<Key, Option<real>>) returns (stat: MonthStat)
    ensures stat == StatOf(column)
  {
    var nulls := CountNulls(column);
    var total := SumColumn(column);
    stat := MonthStat(|column|, nulls, total);
  }

  /** The month summary table of one surface. */
  method MonthSummary(rows: map<Key, Row>) returns (stats: map<Date, MonthStat>)
    ensures stats == Summarize(Volumes(rows), Months(rows))
  {
    hide StatOf;
    var column, left := Volumes(rows), Months(rows);
    stats := map[];
    while left != {}
      invariant left <= Months(rows)
      invariant stats == Summarize(column, Months(rows) - left)
      decreases left
    {
      ghost var any := Pick(left);
      var m :| m in left;
      var stat := StatsOf(map k | k in column && k.month == m :: column[k]);
      assert stat == StatOf(InMonth(column, m));
      ghost var before := Months(rows) - left;
      stats, left := stats[m := stat], left - {m};
      assert Months(rows) - left == before + {m};
    }
    assert Months(rows) - left == Months(rows);
  }

  /** The months one actual-year row sums over. */
  lemma YearOfSummary(rows: map<Key, Row>, stats: map<Date, MonthStat>, cutoff: Date, y: int)
    requires stats == Summarize(Volumes(rows), Months(rows))
    ensures (map m | m in stats && m <= cutoff && YearOf(m) == y :: stats[m])
      == Summarize(EarlyYear(rows, cutoff, y), EarlyMonths(rows, cutoff, y))
  {
    hide StatOf;
    forall m | m in Months(rows) && m <= cutoff && YearOf(m) == y
      ensures InMonth(EarlyYear(rows, cutoff, y), m) == InMonth(Volumes(rows), m)
    {}
    assert EarlyMonths(rows, cutoff, y) == set m | m in Months(rows) && m <= cutoff && YearOf(m) == y;
  }

  ghost function TotalsOver(s: Surface, stats: map<Date, MonthStat>): YearTotal {
    YearTotal(
      NatSum(RowColumn(stats)), if Affected(s) then Some(NatSum(NullColumn(stats))) else None,
      if Affected(s) then SqlSum(Partials(stats)) else None)
  }

  lemma ActualFromMonths(s: Surface, rows: map<Key, Row>, stats: map<Date, MonthStat>, cutoff: Date, y: int)
    requires stats == Summarize(Volumes(rows), Months(rows))
    ensures ActualYear(s, rows, cutoff, y) == TotalsOver(s, map m | m in stats && m <= cutoff && YearOf(m) == y :: stats[m])
  {
    hide Summarize, EarlyYear, EarlyMonths, NatSum, SqlSum;
    YearOfSummary(rows, stats, cutoff, y);
  }

  method YearFromMonths(s: Surface, stats: map<Date, MonthStat>) returns (t: YearTotal)
    ensures t == TotalsOver(s, stats)
  {
    var count := SumCounts(map m | m in stats :: stats[m].rows);
    var nulls := SumCounts(map m | m in stats :: stats[m].nulls);
    var total := SumColumn(map m | m in stats :: stats[m].total);
    t := YearTotal(count, if Affected(s) then Some(nulls) else None, if Affected(s) then total else None);
  }

  ghost predicate SurfaceAggregates(plan: Plan, s: Surface, rows: map<Key, Row>) {
    && (forall y :: SurfaceYear(s, y) in plan.perYear <==> EarlyMonths(rows, plan.cutoff, y) != {})
    && (forall y :: SurfaceYear(s, y) in plan.perYear ==>
          YearMatches(plan.perYear[SurfaceYear(s, y)], ActualYear(s, rows, plan.cutoff, y)))
  }

  lemma EverySurfaceAggregates(l: Ledger, plan: Plan)
    ensures AggregateGate(l, plan) <==> forall s: Surface :: SurfaceAggregates(plan, s, Own(l, s, plan.child))
  {
    hide YearMatches, ActualYear, EarlyMonths, Own;
    if forall s: Surface :: SurfaceAggregates(plan, s, Own(l, s, plan.child)) {
      forall sy | sy in plan.perYear
        ensures YearMatches(plan.perYear[sy], ActualYear(sy.surface, Own(l, sy.surface, plan.child), plan.cutoff, sy.year))
      {
        assert SurfaceAggregates(plan, sy.surface, Own(l, sy.surface, plan.child));
        assert sy == SurfaceYear(sy.surface, sy.year);
      }
    }
  }

  /** Every expected year against its total from the monthly partials. */
  method YearsAgree(plan: Plan, s: Surface, rows: map<Key, Row>, stats: map<Date, MonthStat>, years: set<int>) returns (ok: bool)
    requires stats == Summarize(Volumes(rows), Months(rows))
    requires forall y :: y in years ==> SurfaceYear(s, y) in plan.perYear
    ensures ok <==> forall y :: y in years ==> YearMatches(plan.perYear[SurfaceYear(s, y)], ActualYear(s, rows, plan.cutoff, y))
  {
    hide YearMatches, Summarize, SqlSum, NatSum, ActualYear, EarlyMonths, Volumes, Months;
    var left := years;
    while left != {}
      invariant left <= years
      invariant forall y :: y in years - left ==> YearMatches(plan.perYear[SurfaceYear(s, y)], ActualYear(s, rows, plan.cutoff, y))
      decreases left
    {
      ghost var any := Pick(left);
      var y :| y in left;
      ActualFromMonths(s, rows, stats, plan.cutoff, y);
      var total := YearFromMonths(s, map m | m in stats && m <= plan.cutoff && YearOf(m) == y :: stats[m]);
      if !YearMatches(plan.perYear[SurfaceYear(s, y)], total) { return false; }
      left := left - {y};
    }
    return true;
  }

  /** The full join of the expected with the actual years of one surface. */
  method AggregateSurface(plan: Plan, s: Surface, rows: map<Key, Row>) returns (ok: bool)
    ensures ok <==> SurfaceAggregates(plan, s, rows)
  {
    hide YearMatches, Summarize, SqlSum, NatSum, ActualYear, EarlyMonths, Volumes, Months;
    var stats := MonthSummary(rows);
    var expected := set sy | sy in plan.perYear && sy.surface == s :: sy.year;
    var actual := set m | m in stats && m <= plan.cutoff :: YearOf(m);
    ActualYears(plan, rows, stats, actual);
    assert forall y :: y in expected <==> SurfaceYear(s, y) in plan.perYear by {
      forall y | SurfaceYear(s, y) in plan.perYear ensures y in expected {
        assert SurfaceYear(s, y).year == y;
      }
    }
    if expected != actual {
      assert exists y :: !(y in expected <==> y in actual);
      return false;
    }
    ok := YearsAgree(plan, s, rows, stats, expected);
  }

  lemma ActualYears(plan: Plan, rows: map<Key, Row>, stats: map<Date, MonthStat>, actual: set<int>)
    requires stats == Summarize(Volumes(rows), Months(rows))
    requires actual == set m | m in stats && m <= plan.cutoff :: YearOf(m)
    ensures forall y :: y in actual <==> EarlyMonths(rows, plan.cutoff, y) != {}
  {
    hide StatOf;
    forall y ensures y in actual <==> EarlyMonths(rows, plan.cutoff, y) != {} {
      if EarlyMonths(rows, plan.cutoff, y) != {} {
        var m := Pick(EarlyMonths(rows, plan.cutoff, y));
        assert m in stats;
      }
      if m :| m in stats && m <= plan.cutoff && YearOf(m) == y {
        assert m in EarlyMonths(rows, plan.cutoff, y);
      }
    }
  }

  method CountsMatch(l: Ledger, plan: Plan) returns (ok: bool)
    ensures ok <==> CountGates(l, plan)
  {
    hide Own;
    var a := CountGate(Own(l, Snapshot, plan.child), plan.counts.Of(Snapshot));
    var b := CountGate(Own(l, RvSignal, plan.child), plan.counts.Of(RvSignal));
    var c := CountGate(Own(l, Returns, plan.child), plan.counts.Of(Returns));
    var d := CountGate(Own(l, RatingPit, plan.child), plan.counts.Of(RatingPit));
    ok := a && b && c && d;
  }

  method AggregatesMatch(l: Ledger, plan: Plan) returns (ok: bool)
    ensures ok <==> AggregateGate(l, plan)
  {
    hide Own, SurfaceAggregates;
    EverySurfaceAggregates(l, plan);
    hide AggregateGate;
    var a := AggregateSurface(plan, Snapshot, Own(l, Snapshot, plan.child));
    var b := AggregateSurface(plan, RvSignal, Own(l, RvSignal, plan.child));
    var c := AggregateSurface(plan, Returns, Own(l, Returns, plan.child));
    var d := AggregateSurface(plan, RatingPit, Own(l, RatingPit, plan.child));
    ok := a && b && c && d;
    if ok {
      forall s: Surface ensures SurfaceAggregates(plan, s, Own(l, s, plan.child)) {
        match s
        case Snapshot =>
        case RvSignal =>
        case Returns =>
        case RatingPit =>
      }
    }
  }

  predicate MonthPasses(l: Ledger, plan: Plan, m: Date)
    requires plan.head in l.pubs
  {
    MonthVolumes(l, plan, Snapshot, m) && MonthVolumes(l, plan, RvSignal, m)
  }

  /** The volume comparison, month by month. */
  method MonthLoop(l: Ledger, plan: Plan) returns (ok: bool)
    requires plan.head in l.pubs
    ensures ok <==> forall m :: m in GatedMonths(l, plan.child) ==> MonthPasses(l, plan, m)
  {
    hide MonthPasses, GatedMonths;
    var left := GatedMonths(l, plan.child);
    ghost var seen: set<Date> := {};
    while left != {}
      invariant seen + left == GatedMonths(l, plan.child)
      invariant forall m :: m in seen ==> MonthPasses(l, plan, m)
      decreases left
    {
      ghost var any := Pick(left);
      var m :| m in left;
      if !MonthPasses(l, plan, m) { return false; }
      seen, left := seen + {m}, left - {m};
    }
    return true;
  }

  lemma SwitchReached(l: Ledger, m: Ledger, plan: Plan)
    requires plan.child in l.pubs && PointerPreflight(l, plan)
    requires m.facts == l.facts && m.tombs == l.tombs && m.attested == l.attested
    requires m.pubs == l.pubs[plan.child :=
      if l.pubs[plan.child].status.Prepared?
      then l.pubs[plan.child].(status := Validated, evidence := l.pubs[plan.child].evidence + Validation(plan))
      else l.pubs[plan.child]]
    requires m.pointer == if l.pointer == Some(plan.head) then Some(plan.child) else l.pointer
    ensures m == Switched(l, plan)
  {
  }

  /** `returns_first` is the month after the first snapshot month. */
  method Continuous(l: Ledger, plan: Plan) returns (ok: bool)
    requires FirstOfMonth(plan.first)
    ensures ok <==> ContinuityGate(l, plan)
  {
    ok := ContinuityChecks(Months(Own(l, Returns, plan.child)), NextMonth(plan.first), plan.lastClosed);
  }

  method FinalizeTransaction(db: Database, plan: Plan) returns (committed: bool)
    requires FirstOfMonth(plan.first)
    modifies db
    ensures committed <==> FinalizeCommits(old(db.State()), plan)
    ensures db.State() == if committed then Switched(old(db.State()), plan) else old(db.State())
  {
    hide PointerPreflight, SameHeader, SourceReaches, CountGates, ContinuityGate, IdentityAndCoverage, MonthVolumes,
      GatedMonths, AggregateGate, PointerAdmits, Own, SourceProjection;
    var l := db.State();
    if !PointerPreflight(l, plan) || plan.head !in l.pubs || plan.child !in l.pubs { return false; }
    if !SameHeader(l.pubs[plan.child], plan) || !SourceReaches(l, plan) { return false; }
    var counted := CountsMatch(l, plan);
    if !counted { return false; }
    var continuous := Continuous(l, plan);
    if !continuous || !IdentityAndCoverage(l, plan) { return false; }
    var months := MonthLoop(l, plan);
    if !months { return false; }
    var aggregates := AggregatesMatch(l, plan);
    if !aggregates { return false; }
    db.Validate(plan.child, Validation(plan));
    if db.pointer == Some(plan.head) && !PointerAdmits(l, plan) { db.Restore(l); return false; }
    var updated := db.CompareAndSwap(plan.head, plan.child);
    SwitchReached(l, db.State(), plan);
    committed := true;
  }
}
