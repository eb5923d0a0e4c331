/** The dollar-volume unit repair of `bond_panel_v1`: what its prepare, copy and
    finalize transactions require and leave behind. */
module UnitRepair {
  import opened Prelude
  import opened Panel
  import opened MonthGates
  import opened LedgerSteps

  const REPAIR := "unit_repair"
  const SOURCES := "source_sha256"
  const SCALE := 1000000.0
  const SUM_TOLERANCE := 1.0
  const RESCALED_SOURCE := "osbap"

  /** Expected rows, nulls and volume of one surface and year, from the artifact. */
  datatype YearTotal = YearTotal(rows: nat, nulls: Option<nat>, total: Option<real>)
  datatype SurfaceYear = SurfaceYear(surface: Surface, year: int)

  datatype Plan = Plan(
    child: Id, head: Id, root: Id, fingerprint: string, contract: string, revision: string,
    rootRevision: string, rootSources: Value, sources: Value,
    first: Date, lastClosed: Date, open: Date, cutoff: Date,
    counts: Counts, perYear: map<SurfaceYear, YearTotal>, pins: string)

  function MarkerOf(plan: Plan): Value { Mark(Marker(plan.contract, plan.head, plan.pins)) }

  function LineageMarks(plan: Plan): Doc { map[SOURCES := plan.sources, REPAIR := MarkerOf(plan)] }

  predicate Affected(s: Surface) { s.Snapshot? || s.RvSignal? }

  /** The declared predicate: an `osbap` row's volume is in the wrong unit. */
  function ExpectedVolume(row: Row): Option<real> {
    if row.priceSource == Some(RESCALED_SOURCE) then
      match row.volume
      case None => None
      case Some(v) => Some(v * SCALE)
    else row.volume
  }

  /** The row a copy inserts for a served row. */
  function Repaired(plan: Plan, s: Surface, k: Key, row: Row): Row {
    var filled := row.(identity := FilledIdentity(k, row.identity));
    if Affected(s)
    then filled.(
      volume := ExpectedVolume(row),
      lineage := row.lineage[REPAIR := MarkerOf(plan)], payload := row.payload[REPAIR := MarkerOf(plan)])
    else filled
  }

  function RepairedRows(plan: Plan, s: Surface, rows: map<Key, Row>): map<Key, Row> {
    map k | k in rows :: Repaired(plan, s, k, rows[k])
  }

  // -------------------------------------------------------------------- guards

  predicate MarkedFor(evidence: Doc, plan: Plan) {
    && REPAIR in evidence && evidence[REPAIR].Mark?
    && evidence[REPAIR].marker.contract == plan.contract && evidence[REPAIR].marker.fromHead == plan.head
  }

  predicate HeadWindow(l: Ledger, plan: Plan) {
    && plan.head in l.pubs
    && var head := l.pubs[plan.head];
    && head.status.Validated? && head.config.Dual?
    && head.first == plan.first && head.lastClosed == plan.lastClosed && head.open == Some(plan.open)
  }

  predicate IsRoot(l: Ledger, plan: Plan) {
    && plan.root in l.pubs
    && var root := l.pubs[plan.root];
    && root.parent.None? && root.status.Validated? && root.config.Legacy? && root.revision == plan.rootRevision
  }

  predicate FrozenRoot(l: Ledger, plan: Plan)
    requires plan.head in l.pubs
  {
    && plan.root in Chain(l.pubs, plan.head, {}, Walk.Lineage) && IsRoot(l, plan)
    && SOURCES in l.pubs[plan.root].lineage && l.pubs[plan.root].lineage[SOURCES] == plan.rootSources
  }

  /** The header every phase compares the child with. */
  predicate SameHeader(c: Publication, plan: Plan) {
    && !c.status.Failed? && c.parent == Some(plan.head) && c.config.Dual?
    && c.fingerprint == plan.fingerprint && c.revision == plan.revision
    && c.first == plan.first && c.lastClosed == plan.lastClosed && c.open == Some(plan.open)
    && c.declared == plan.counts
    && Contains(c.lineage, LineageMarks(plan))
  }

  // ------------------------------------------------------------------- prepare

  predicate PrepareGuards(l: Ledger, plan: Plan) {
    && l.pointer == Some(plan.head)
    && HeadWindow(l, plan) && FrozenRoot(l, plan)
    && (forall p :: p in l.pubs && l.pubs[p].status.Validated? ==> !MarkedFor(l.pubs[p].evidence, plan))
    && (forall s: Surface :: |Current(l, s)| == plan.counts.Of(s))
  }

  function ChildPublication(l: Ledger, plan: Plan): Publication
    requires plan.head in l.pubs
  {
    Publication(
      Some(plan.head), Prepared, Dual, plan.fingerprint, plan.revision, plan.first, plan.lastClosed, Some(plan.open),
      plan.counts, l.pubs[plan.head].lineage + LineageMarks(plan), map[REPAIR := MarkerOf(plan)])
  }

  predicate ChildAdmitted(l: Ledger, plan: Plan) {
    if plan.child in l.pubs
    then SameHeader(l.pubs[plan.child], plan) && Contains(l.pubs[plan.child].evidence, map[REPAIR := MarkerOf(plan)])
    else
      && (forall p :: p in l.pubs ==> l.pubs[p].fingerprint != plan.fingerprint)
      && (forall s: Surface :: plan.counts.Of(s) > 0) && plan.first <= plan.lastClosed
  }

  predicate PrepareAllowed(l: Ledger, plan: Plan) { PrepareGuards(l, plan) && ChildAdmitted(l, plan) }

  function Prepare(l: Ledger, plan: Plan): Ledger
    requires plan.head in l.pubs
  {
    l.(pubs := if plan.child in l.pubs then l.pubs else l.pubs[plan.child := ChildPublication(l, plan)])
  }

  // ---------------------------------------------------------------------- copy

  predicate ChildIdentity(l: Ledger, plan: Plan) {
    && plan.child in l.pubs
    && var c := l.pubs[plan.child];
    && !c.status.Failed? && c.parent == Some(plan.head) && c.config.Dual?
    && c.fingerprint == plan.fingerprint && c.revision == plan.revision && MarkedFor(c.evidence, plan)
  }

  /** The columns a copy must keep exactly. */
  function Verbatim(s: Surface, row: Row): Row {
    var bare := row.(identity := Identity(None, None, None));
    if Affected(s) then bare.(volume := None, lineage := map[], payload := map[]) else bare
  }

  predicate MarkersKept(plan: Plan, row: Row, source: Row) {
    && Contains(row.lineage, source.lineage) && Contains(row.payload, source.payload)
    && Contains(row.lineage, map[REPAIR := MarkerOf(plan)]) && Contains(row.payload, map[REPAIR := MarkerOf(plan)])
  }

  /** The full join of the child's rows with the source finds no missing side and
      no volume other than the expected one. */
  predicate VolumeGate(rows: map<Key, Row>, source: map<Key, Row>) {
    && rows.Keys == source.Keys
    && forall k :: k in rows && k in source ==> rows[k].volume == ExpectedVolume(source[k])
  }

  function Volumes(rows: map<Key, Row>): map<Key, Option<real>> { map k | k in rows :: rows[k].volume }

  /** The `osbap` volumes of one year: `None` when the year has no such row. */
  ghost function OsbapVolumes(rows: map<Key, Row>, y: int): map<Key, Option<real>> {
    map k | k in rows && rows[k].priceSource == Some(RESCALED_SOURCE) && YearOf(k.month) == y :: rows[k].volume
  }

  function Scaled(total: Option<real>): Option<real> {
    match total
    case None => None
    case Some(v) => Some(v * SCALE)
  }

  ghost predicate NullGate(rows: map<Key, Row>, source: map<Key, Row>) {
    NullCount(Volumes(rows)) == NullCount(Volumes(source))
  }

  /** A year absent from one side of the full join reads as null there. */
  ghost predicate OsbapGate(rows: map<Key, Row>, source: map<Key, Row>) {
    forall y :: SqlSum(OsbapVolumes(rows, y)) == Scaled(SqlSum(OsbapVolumes(source, y)))
  }

  function CopiedRows(l: Ledger, plan: Plan, s: Surface): map<Key, Row> {
    if plan.child in l.pubs && l.pubs[plan.child].status.Prepared?
    then InsertMissing(Own(l, s, plan.child), RepairedRows(plan, s, Current(l, s)))
    else Own(l, s, plan.child)
  }

  /** The gates that stay when the two implied ones are dropped. */
  predicate CopyGates(plan: Plan, s: Surface, rows: map<Key, Row>, source: map<Key, Row>) {
    && |rows| == plan.counts.Of(s)
    && (forall k :: k in rows && k in source ==> Verbatim(s, rows[k]) == Verbatim(s, source[k]))
    && (Affected(s) ==>
          && (forall k :: k in rows && k in source ==> MarkersKept(plan, rows[k], source[k]))
          && VolumeGate(rows, source))
  }

  ghost predicate CopyAllowed(l: Ledger, plan: Plan, s: Surface) {
    && l.pointer == Some(plan.head) && ChildIdentity(l, plan)
    && (l.pubs[plan.child].status.Prepared? ==> Current(l, s).Keys !! Tombs(l, s, plan.child))
    && CopyGates(plan, s, CopiedRows(l, plan, s), Current(l, s))
    && (Affected(s) ==>
          && NullGate(CopiedRows(l, plan, s), Current(l, s))
          && OsbapGate(CopiedRows(l, plan, s), Current(l, s)))
  }

  function Copy(l: Ledger, plan: Plan, s: Surface): Ledger { WithFacts(l, Slot(s, plan.child), CopiedRows(l, plan, s)) }

  // ------------------------------------------------------------------ finalize

  predicate PointerPreflight(l: Ledger, plan: Plan) {
    && (l.pointer == Some(plan.head) || l.pointer == Some(plan.child))
    && (l.pointer == Some(plan.child) ==> plan.child in l.pubs && l.pubs[plan.child].status.Validated?)
  }

  /** The head projection the per-row gate compares with: no tombstones here, the
      two surfaces it reads have none. */
  function SourceProjection(l: Ledger, plan: Plan, s: Surface): map<Key, Row>
    requires plan.head in l.pubs
  {
    Overlay(l, s, Chain(l.pubs, plan.head, {}, Source))
  }

  predicate SourceReaches(l: Ledger, plan: Plan)
    requires plan.head in l.pubs
  {
    plan.root in Chain(l.pubs, plan.head, {}, Source) && IsRoot(l, plan)
  }

  function InMonthRows(rows: map<Key, Row>, m: Date): map<Key, Row> { map k | k in rows && k.month == m :: rows[k] }

  predicate MonthVolumes(l: Ledger, plan: Plan, s: Surface, m: Date)
    requires plan.head in l.pubs
  {
    VolumeGate(InMonthRows(Own(l, s, plan.child), m), InMonthRows(SourceProjection(l, plan, s), m))
  }

  predicate CountGates(l: Ledger, plan: Plan) { forall s: Surface :: |Own(l, s, plan.child)| == plan.counts.Of(s) }

  predicate ContinuityGate(l: Ledger, plan: Plan) {
    var months, start := Months(Own(l, Returns, plan.child)), NextMonth(plan.first);
    && start in months && plan.lastClosed in months
    && (forall m :: m in months ==> start <= m <= plan.lastClosed)
    && |set m | m in months && InWindow(m, start, plan.lastClosed)| == |MonthSeries(start, plan.lastClosed)|
  }

  /** Identity, coverage and cross-surface gates, as in every dual-series finalize. */
  predicate IdentityAndCoverage(l: Ledger, plan: Plan) {
    var snapshot := Own(l, Snapshot, plan.child);
    && (forall s: Surface, k :: k in Own(l, s, plan.child) ==> IdentityValid(k, Own(l, s, plan.child)[k].identity))
    && (exists k :: k in snapshot && snapshot[k].identity == Identity(Some("rule_144a"), Some(k.cusip), None))
    && (forall k :: k in Own(l, RvSignal, plan.child) ==> k in snapshot && snapshot[k].included)
    && (forall k :: k in Own(l, Returns, plan.child) ==> k in snapshot)
    && snapshot.Keys == Own(l, RatingPit, plan.child).Keys
    && (forall s: Surface, k :: k in Own(l, s, plan.child) && k in snapshot ==> Own(l, s, plan.child)[k].identity == snapshot[k].identity)
  }

  // ------------------------------------------------- annual aggregates, as coded

  ghost function EarlyYear(rows: map<Key, Row>, cutoff: Date, y: int): map<Key, Option<real>> {
    map k | k in rows && k.month <= cutoff && YearOf(k.month) == y :: rows[k].volume
  }

  ghost function EarlyMonths(rows: map<Key, Row>, cutoff: Date, y: int): set<Date> {
    set k | k in rows && k.month <= cutoff && YearOf(k.month) == y :: k.month
  }

  /** One row of the actual-year table: sums of the monthly partials. */
  ghost function ActualYear(s: Surface, rows: map<Key, Row>, cutoff: Date, y: int): YearTotal {
    var stats := Summarize(EarlyYear(rows, cutoff, y), EarlyMonths(rows, cutoff, y));
    YearTotal(
      NatSum(RowColumn(stats)),
      if Affected(s) then Some(NatSum(NullColumn(stats))) else None,
      if Affected(s) then SqlSum(Partials(stats)) else None)
  }

  predicate YearMatches(expected: YearTotal, actual: YearTotal) {
    && expected.rows == actual.rows && expected.nulls == actual.nulls
    && expected.total.Some? == actual.total.Some?
    && (expected.total.Some? ==> Abs(expected.total.value - actual.total.value) <= SUM_TOLERANCE)
  }

  ghost predicate AggregateGate(l: Ledger, plan: Plan) {
    && (forall s: Surface, y ::
          SurfaceYear(s, y) in plan.perYear <==> EarlyMonths(Own(l, s, plan.child), plan.cutoff, y) != {})
    && (forall sy :: sy in plan.perYear ==>
          YearMatches(plan.perYear[sy], ActualYear(sy.surface, Own(l, sy.surface, plan.child), plan.cutoff, sy.year)))
  }

  /** What the pointer trigger still asks of a switch from the head to the child. */
  predicate PointerAdmits(l: Ledger, plan: Plan)
    requires plan.head in l.pubs && plan.child in l.pubs
  {
    l.pubs[plan.head].config.Dual? && forall s: Surface :: l.pubs[plan.child].declared.Of(s) > 0
  }

  ghost predicate FinalizeCommits(l: Ledger, plan: Plan) {
    && PointerPreflight(l, plan)
    && plan.head in l.pubs && plan.child in l.pubs && SameHeader(l.pubs[plan.child], plan)
    && SourceReaches(l, plan)
    && CountGates(l, plan) && ContinuityGate(l, plan) && IdentityAndCoverage(l, plan)
    && (forall m :: m in GatedMonths(l, plan.child) ==>
          MonthVolumes(l, plan, Snapshot, m) && MonthVolumes(l, plan, RvSignal, m))
    && AggregateGate(l, plan)
    && (l.pointer == Some(plan.head) ==> PointerAdmits(l, plan))
  }

  function Validation(plan: Plan): Doc { map["unit_repair_validated" := MarkerOf(plan)] }

  function Switched(l: Ledger, plan: Plan): Ledger
    requires plan.child in l.pubs
  {
    SwitchTo(l, plan.child, Validation(plan))
  }
}
