/** The coupon-PIT repair child of `bond_panel_v1`: what each emitted
    transaction (prepare, copy, batch, finalize) requires and leaves behind. */
module CouponPit {
  import opened Prelude
  import opened Panel
  import opened ImmutableBatch
  import opened MonthGates
  import opened LedgerSteps

  const CONTRACT := "coupon_pit_repair"
  const UNIT_REPAIR := "unit_repair"
  const FIRST_MONTH: Date := MakeDate(2002, 7, 1)
  const RETURNS_FIRST_MONTH: Date := MakeDate(2002, 8, 1)
  const IDENTITY_TOLERANCE := 0.000000000001
  const CARRY_SUM_TOLERANCE := 0.000001
  const SUSPECT_ABS_RETURN := 0.5
  const OBSERVED := "observed"

  datatype YearSum = YearSum(rows: nat, before: real, after: real)

  /** The authorized plan: identities, pinned counts, the pinned dropped keys and
      the rows of the pinned artifact in key order. */
  datatype Plan = Plan(
    child: Id, head: Id, unitChild: Id, root: Id, fingerprint: string, contract: string, revision: string,
    unitContract: string, rootRevision: string, rootSources: Value, cutoff: Date,
    rowsBefore: int, dropped: seq<Key>, artifact: seq<Entry<Key, Row>>, perYear: map<int, YearSum>,
    pins: string)

  function MarkerOf(plan: Plan): Value { Mark(Marker(plan.contract, plan.head, plan.pins)) }

  function Dropped(plan: Plan): set<Key> { set k | k in plan.dropped }

  /** How many artifact rows the plan loads. */
  function Loaded(plan: Plan): int { plan.rowsBefore - |plan.dropped| }

  function Earlier(entries: seq<Entry<Key, Row>>, cutoff: Date): seq<Entry<Key, Row>> {
    if entries == [] then []
    else (if entries[0].key.month <= cutoff then [entries[0]] else []) + Earlier(entries[1..], cutoff)
  }

  /** The artifact rows at or before the cutoff, which alone are loaded. */
  function Selected(plan: Plan): seq<Entry<Key, Row>> { Earlier(plan.artifact, plan.cutoff) }

  function UpTo(rows: map<Key, Row>, cutoff: Date): map<Key, Row> { map k | k in rows && k.month <= cutoff :: rows[k] }
  function After(rows: map<Key, Row>, cutoff: Date): map<Key, Row> { map k | k in rows && k.month > cutoff :: rows[k] }

  // -------------------------------------------------------------------- guards

  /** The marker test of the identity checks: contract and head only. */
  predicate MarkedFor(evidence: Doc, plan: Plan) {
    && CONTRACT in evidence && evidence[CONTRACT].Mark?
    && evidence[CONTRACT].marker.contract == plan.contract
    && evidence[CONTRACT].marker.fromHead == plan.head
  }

  predicate HeadWindow(l: Ledger, plan: Plan) {
    && plan.head in l.pubs
    && var head := l.pubs[plan.head];
    && head.status.Validated? && head.config.Dual?
    && head.first == FIRST_MONTH && head.lastClosed > plan.cutoff
    && head.open == Some(NextMonth(head.lastClosed))
  }

  predicate LineageReaches(l: Ledger, plan: Plan)
    requires plan.head in l.pubs
  {
    var line := Chain(l.pubs, plan.head, {}, Lineage);
    && plan.unitChild in line && plan.unitChild in l.pubs
    && l.pubs[plan.unitChild].status.Validated?
    && (UNIT_REPAIR in l.pubs[plan.unitChild].evidence
        && l.pubs[plan.unitChild].evidence[UNIT_REPAIR].Mark?
        && l.pubs[plan.unitChild].evidence[UNIT_REPAIR].marker.contract == plan.unitContract)
    && plan.root in line && plan.root in l.pubs
    && var root := l.pubs[plan.root];
    && root.parent.None? && root.status.Validated? && root.config.Legacy? && root.revision == plan.rootRevision
    && "source_sha256" in root.lineage && root.lineage["source_sha256"] == plan.rootSources
  }

  predicate ChildIdentity(l: Ledger, plan: Plan) {
    && plan.child in l.pubs
    && var c := l.pubs[plan.child];
    && !c.status.Failed? && c.parent == Some(plan.head) && c.config.Dual?
    && c.fingerprint == plan.fingerprint && c.revision == plan.revision && MarkedFor(c.evidence, plan)
  }

  function Fill(k: Key, row: Row): Row { row.(identity := FilledIdentity(k, row.identity)) }

  /** The columns a copy must keep exactly: all but the identity. */
  function Verbatim(row: Row): Row { row.(identity := Identity(None, None, None)) }

  // ------------------------------------------------------------------- prepare

  function ChildPublication(l: Ledger, plan: Plan): Publication
    requires plan.head in l.pubs
  {
    var head := l.pubs[plan.head];
    Publication(
      Some(plan.head), Prepared, Dual, plan.fingerprint, plan.revision, head.first, head.lastClosed, head.open,
      Counts(
        |Current(l, Snapshot)|, |Current(l, RvSignal)|,
        Loaded(plan) + |After(Current(l, Returns), plan.cutoff)|, |Current(l, RatingPit)|),
      head.lineage[CONTRACT := MarkerOf(plan)], map[CONTRACT := MarkerOf(plan)])
  }

  /** The re-check after the insert: an existing child must be this very child. */
  predicate SameChild(c: Publication, made: Publication, plan: Plan) {
    && !c.status.Failed? && c.parent == made.parent && c.config == made.config
    && c.fingerprint == made.fingerprint && c.revision == made.revision
    && c.first == made.first && c.lastClosed == made.lastClosed && c.open == made.open
    && c.declared == made.declared
    && Contains(c.lineage, map[CONTRACT := MarkerOf(plan)])
    && Contains(c.evidence, map[CONTRACT := MarkerOf(plan)])
  }

  /** Column and uniqueness checks of the publications table for a new row. */
  predicate InsertAdmitted(pubs: map<Id, Publication>, c: Publication) {
    && (forall p :: p in pubs ==> pubs[p].fingerprint != c.fingerprint)
    && c.declared.snapshotRows > 0 && c.declared.signalRows > 0 && c.declared.returnRows > 0 && c.declared.ratingRows > 0
    && c.first <= c.lastClosed
  }

  /** Pointer, head, lineage, no validated child of this head yet, pinned count. */
  predicate PrepareGuards(l: Ledger, plan: Plan) {
    && l.pointer == Some(plan.head)
    && HeadWindow(l, plan) && LineageReaches(l, plan)
    && (forall p :: p in l.pubs && l.pubs[p].status.Validated? ==> !MarkedFor(l.pubs[p].evidence, plan))
    && |UpTo(Current(l, Returns), plan.cutoff)| == plan.rowsBefore
  }

  predicate ChildAdmitted(pubs: map<Id, Publication>, made: Publication, plan: Plan) {
    if plan.child in pubs then SameChild(pubs[plan.child], made, plan) else InsertAdmitted(pubs, made)
  }

  predicate TombstonesAdmitted(l: Ledger, plan: Plan) {
    && Own(l, Returns, plan.child).Keys !! Dropped(plan)
    && Tombs(l, Returns, plan.child) <= Dropped(plan)
    && |Dropped(plan)| == |plan.dropped|
  }

  predicate PrepareAllowed(l: Ledger, plan: Plan) {
    PrepareGuards(l, plan) && ChildAdmitted(l.pubs, ChildPublication(l, plan), plan) && TombstonesAdmitted(l, plan)
  }

  /** The ledger a committed prepare leaves. */
  function Prepare(l: Ledger, plan: Plan): Ledger
    requires PrepareAllowed(l, plan)
  {
    l.(pubs := if plan.child in l.pubs then l.pubs else l.pubs[plan.child := ChildPublication(l, plan)],
       tombs := l.tombs[plan.child := Tombs(l, Returns, plan.child) + Dropped(plan)])
  }

  // ---------------------------------------------------------------------- copy

  function CopySource(l: Ledger, plan: Plan, s: Surface): map<Key, Row> {
    if s.Returns? then After(Current(l, s), plan.cutoff) else Current(l, s)
  }

  function Filled(rows: map<Key, Row>): map<Key, Row> { map k | k in rows :: Fill(k, rows[k]) }

  /** The child's rows of a surface once the copy's insert has run. */
  function CopiedRows(l: Ledger, plan: Plan, s: Surface): map<Key, Row> {
    if plan.child in l.pubs && l.pubs[plan.child].status.Prepared?
    then InsertMissing(Own(l, s, plan.child), Filled(CopySource(l, plan, s)))
    else Own(l, s, plan.child)
  }

  function InScope(rows: map<Key, Row>, plan: Plan, s: Surface): map<Key, Row> {
    if s.Returns? then After(rows, plan.cutoff) else rows
  }

  predicate CopyAllowed(l: Ledger, plan: Plan, s: Surface)
  {
    && l.pointer == Some(plan.head) && ChildIdentity(l, plan)
    && var source := CopySource(l, plan, s);
    && var rows := CopiedRows(l, plan, s);
    && (s.Returns? && l.pubs[plan.child].status.Prepared? ==> source.Keys !! Tombs(l, Returns, plan.child))
    && |InScope(rows, plan, s)| == |source|
    && l.pubs[plan.child].declared.Of(s) == |source| + (if s.Returns? then Loaded(plan) else 0)
    && (forall k :: k in source && k in rows ==> Verbatim(rows[k]) == Verbatim(source[k]))
  }

  function Copy(l: Ledger, plan: Plan, s: Surface): Ledger {
    WithFacts(l, Slot(s, plan.child), CopiedRows(l, plan, s))
  }

  // --------------------------------------------------------------------- batch

  function Slice<T>(items: seq<T>, start: nat, limit: nat): seq<T> {
    if start >= |items| then [] else if start + limit >= |items| then items[start..] else items[start..start + limit]
  }

  /** Python's `value or default` on an optional text. */
  function Truthy(value: Option<string>, default: string): string {
    if value.None? || value.value == "" then default else value.value
  }

  /** An artifact row as it is staged: identity filled, payload marked. */
  function Staged(plan: Plan, e: Entry<Key, Row>): Entry<Key, Row> {
    Entry(e.key, e.row.(
      identity := Identity(
        Some(Truthy(e.row.identity.rule, "rule_144a")),
        Some(Truthy(e.row.identity.reference, e.key.cusip)),
        if e.row.identity.rule.None? then None else e.row.identity.decision),
      exitBasis := if e.row.exitBasis == "" then OBSERVED else e.row.exitBasis,
      payload := e.row.payload[CONTRACT := MarkerOf(plan)]))
  }

  function StagedRows(plan: Plan, slice: seq<Entry<Key, Row>>): seq<Entry<Key, Row>>
    ensures |StagedRows(plan, slice)| == |slice|
    ensures forall i :: 0 <= i < |slice| ==> StagedRows(plan, slice)[i] == Staged(plan, slice[i])
  {
    if slice == [] then [] else [Staged(plan, slice[0])] + StagedRows(plan, slice[1..])
  }

  function BatchRows(plan: Plan, start: nat, limit: nat): seq<Entry<Key, Row>> {
    StagedRows(plan, Slice(Selected(plan), start, limit))
  }

  /** The count every batch checks before it is emitted. */
  predicate ArtifactCounted(plan: Plan) { |Selected(plan)| == Loaded(plan) }

  predicate BatchAllowed(l: Ledger, plan: Plan, start: nat, limit: nat) {
    && limit > 0 && ArtifactCounted(plan)
    && l.pointer == Some(plan.head) && ChildIdentity(l, plan)
    && StagedMerge(Own(l, Returns, plan.child), BatchRows(plan, start, limit)).Some?
    && (l.pubs[plan.child].status.Prepared? ==> RowsOf(BatchRows(plan, start, limit)).Keys !! Tombs(l, Returns, plan.child))
  }

  function Batch(l: Ledger, plan: Plan, start: nat, limit: nat): Ledger
    requires BatchAllowed(l, plan, start, limit)
  {
    if l.pubs[plan.child].status.Prepared?
    then WithFacts(l, Slot(Returns, plan.child), StagedMerge(Own(l, Returns, plan.child), BatchRows(plan, start, limit)).value)
    else l
  }

  // ------------------------------------------------------------ finalize gates

  /** Each key of `rows` in month `m` is a key of `others`. */
  predicate Covered(rows: map<Key, Row>, others: map<Key, Row>, m: Date) {
    forall k :: k in rows && k.month == m ==> k in others
  }

  predicate SameIdentity(rows: map<Key, Row>, snapshot: map<Key, Row>, m: Date) {
    forall k :: k in rows && k.month == m && k in snapshot ==> rows[k].identity == snapshot[k].identity
  }

  predicate CoverageGate(l: Ledger, child: Id, m: Date) {
    var snapshot, signal, returned, rating := Own(l, Snapshot, child), Own(l, RvSignal, child), Own(l, Returns, child), Own(l, RatingPit, child);
    && (forall k :: k in signal && k.month == m ==> k in snapshot && snapshot[k].included)
    && Covered(returned, snapshot, m) && Covered(snapshot, rating, m) && Covered(rating, snapshot, m)
    && SameIdentity(signal, snapshot, m) && SameIdentity(returned, snapshot, m) && SameIdentity(rating, snapshot, m)
  }

  function Lookup(rows: map<Key, Row>, k: Key): Option<Row> { if k in rows then Some(rows[k]) else None }

  /** A repriced row of the full join that breaks the carry identities. */
  predicate RepriceRefused(plan: Plan, c: Row, s: Row) {
    || !Contains(c.payload, map[CONTRACT := MarkerOf(plan)])
    || !Contains(c.payload, s.payload - {CONTRACT})
    || (c.exitBasis != OBSERVED && (c.total != s.total || c.carry != s.carry || c.suspect != s.suspect))
    || (c.exitBasis == OBSERVED
        && (c.carry.None? || c.price.None?
            || Abs(c.total - (c.price.value + c.carry.value)) > IDENTITY_TOLERANCE
            || c.suspect != (Abs(c.total) > SUSPECT_ABS_RETURN)))
  }

  // One column of a full-join side: an absent side reads as null.
  function PriceOf(side: Option<Row>): Option<real> { if side.Some? then side.value.price else None }
  function ExitOf(side: Option<Row>): Option<string> { if side.Some? then Some(side.value.exitBasis) else None }
  function ReasonOf(side: Option<Row>): Option<string> { if side.Some? then side.value.exitReason else None }
  function TotalOf(side: Option<Row>): Option<real> { if side.Some? then Some(side.value.total) else None }
  function CarryOf(side: Option<Row>): Option<real> { if side.Some? then side.value.carry else None }
  function SuspectOf(side: Option<Row>): Option<bool> { if side.Some? then Some(side.value.suspect) else None }
  function PayloadOf(side: Option<Row>): Option<Doc> { if side.Some? then Some(side.value.payload) else None }

  /** The row gate's `WHERE` over one row of the full join of the child's rows
      with the head projection. */
  predicate RowRefused(plan: Plan, k: Key, cand: Option<Row>, source: Option<Row>) {
    || (cand.None? && k !in plan.dropped)
    || source.None?
    || PriceOf(cand) != PriceOf(source)
    || ExitOf(cand) != ExitOf(source)
    || ReasonOf(cand) != ReasonOf(source)
    || (k.month > plan.cutoff
        && (TotalOf(cand) != TotalOf(source) || CarryOf(cand) != CarryOf(source)
            || SuspectOf(cand) != SuspectOf(source) || PayloadOf(cand) != PayloadOf(source)))
    || (k.month <= plan.cutoff && cand.Some? && source.Some? && RepriceRefused(plan, cand.value, source.value))
  }

  predicate RowGate(plan: Plan, cand: map<Key, Row>, source: map<Key, Row>, m: Date) {
    forall k :: k in cand.Keys + source.Keys && k.month == m ==> !RowRefused(plan, k, Lookup(cand, k), Lookup(source, k))
  }

  /** The head projection the gates compare with. */
  function SourceProjection(l: Ledger, plan: Plan): map<Key, Row>
    requires plan.head in l.pubs
  {
    Overlay(l, Returns, Chain(l.pubs, plan.head, {}, Source))
  }

  // ------------------------------------------------------- per-year carry gate

  /** The repriced keys the carry gate sums: observed rows up to the cutoff that
      the head projection holds too. */
  function Repriced(plan: Plan, cand: map<Key, Row>, source: map<Key, Row>): set<Key> {
    set k | k in cand && k in source && k.month <= plan.cutoff && cand[k].exitBasis == OBSERVED
  }

  ghost function Carry(keys: set<Key>, rows: map<Key, Row>): map<Key, Option<real>>
    requires keys <= rows.Keys
  {
    map k | k in keys :: rows[k].carry
  }

  ghost function YearKeys(keys: set<Key>, y: int): set<Key> { set k | k in keys && YearOf(k.month) == y }
  ghost function MonthKeys(keys: set<Key>, m: Date): set<Key> { set k | k in keys && k.month == m }

  datatype YearCarry = YearCarry(rows: nat, before: Option<real>, after: Option<real>)

  /** Some month of the year whose carry column is all null. */
  ghost predicate Poisoned(keys: set<Key>, rows: map<Key, Row>, y: int)
    requires keys <= rows.Keys
  {
    exists k :: k in keys && YearOf(k.month) == y && SqlSum(Carry(MonthKeys(keys, k.month), rows)).None?
  }

  /** The running total is null as soon as one month's sum is null. */
  ghost function YearTotal(keys: set<Key>, rows: map<Key, Row>, y: int): Option<real>
    requires keys <= rows.Keys
  {
    if Poisoned(keys, rows, y) then None else Some(MapSum(Present(Carry(YearKeys(keys, y), rows))))
  }

  ghost function YearCarryOf(plan: Plan, cand: map<Key, Row>, source: map<Key, Row>, y: int): YearCarry {
    var keys := Repriced(plan, cand, source);
    YearCarry(|YearKeys(keys, y)|, YearTotal(keys, source, y), YearTotal(keys, cand, y))
  }

  ghost predicate CarryGate(plan: Plan, cand: map<Key, Row>, source: map<Key, Row>) {
    var keys := Repriced(plan, cand, source);
    && (forall k :: k in keys ==> YearOf(k.month) in plan.perYear)
    && (forall y :: y in plan.perYear ==>
          && YearKeys(keys, y) != {}
          && YearMatches(plan.perYear[y], YearCarryOf(plan, cand, source, y)))
  }

  predicate YearMatches(expected: YearSum, actual: YearCarry) {
    && expected.rows == actual.rows
    && Abs(expected.before - actual.before.GetOr(0.0)) <= CARRY_SUM_TOLERANCE
    && Abs(expected.after - actual.after.GetOr(0.0)) <= CARRY_SUM_TOLERANCE
  }

  // ------------------------------------------------------------------ finalize

  predicate FinalizeIdentity(l: Ledger, plan: Plan) {
    && plan.head in l.pubs && plan.child in l.pubs
    && var head, c := l.pubs[plan.head], l.pubs[plan.child];
    && !c.status.Failed? && c.parent == Some(plan.head) && c.config.Dual?
    && c.fingerprint == plan.fingerprint && c.revision == plan.revision
    && c.first == head.first && c.lastClosed == head.lastClosed && c.open == head.open && head.open.Some?
    && Contains(c.lineage, map[CONTRACT := MarkerOf(plan)])
    && Contains(c.evidence, map[CONTRACT := MarkerOf(plan)])
  }

  predicate PointerPreflight(l: Ledger, plan: Plan) {
    && (l.pointer == Some(plan.head) || l.pointer == Some(plan.child))
    && (l.pointer == Some(plan.child) ==> plan.child in l.pubs && l.pubs[plan.child].status.Validated?)
  }

  predicate SourceReaches(l: Ledger, plan: Plan)
    requires plan.head in l.pubs
  {
    var chain := Chain(l.pubs, plan.head, {}, Source);
    plan.unitChild in chain && plan.root in chain
  }

  predicate DroppedGate(l: Ledger, plan: Plan) {
    && |Dropped(plan)| == |plan.dropped|
    && Own(l, Returns, plan.child).Keys !! Dropped(plan)
    && Tombs(l, Returns, plan.child) == Dropped(plan)
  }

  predicate CountGates(l: Ledger, plan: Plan)
    requires plan.child in l.pubs
  {
    forall s :: |Own(l, s, plan.child)| == l.pubs[plan.child].declared.Of(s)
  }

  /** First and last returns month, and as many month starts between them as the series has. */
  predicate ContinuityGate(l: Ledger, plan: Plan)
    requires plan.head in l.pubs
  {
    var months := Months(Own(l, Returns, plan.child));
    var last := l.pubs[plan.head].lastClosed;
    && RETURNS_FIRST_MONTH in months && last in months
    && (forall m :: m in months ==> RETURNS_FIRST_MONTH <= m <= last)
    && |set m | m in months && InWindow(m, RETURNS_FIRST_MONTH, last)| == |MonthSeries(RETURNS_FIRST_MONTH, last)|
  }

  predicate IdentityGates(l: Ledger, plan: Plan) {
    forall s, k :: k in Own(l, s, plan.child) ==> IdentityValid(k, Own(l, s, plan.child)[k].identity)
  }

  /** What the pointer trigger still asks of a switch from the head to the child. */
  predicate PointerAdmits(l: Ledger, plan: Plan)
    requires plan.head in l.pubs && plan.child in l.pubs
  {
    && l.pubs[plan.head].config.Dual?
    && (forall s: Surface :: l.pubs[plan.child].declared.Of(s) > 0)
    && exists k :: k in Own(l, Snapshot, plan.child) && Own(l, Snapshot, plan.child)[k].identity == Identity(Some("rule_144a"), Some(k.cusip), None)
  }

  /** What one pass of the month loop checks. */
  predicate MonthPasses(l: Ledger, plan: Plan, m: Date)
    requires plan.head in l.pubs
  {
    CoverageGate(l, plan.child, m) && RowGate(plan, Own(l, Returns, plan.child), SourceProjection(l, plan), m)
  }

  ghost predicate FinalizeGates(l: Ledger, plan: Plan) {
    && PointerPreflight(l, plan) && FinalizeIdentity(l, plan) && SourceReaches(l, plan)
    && DroppedGate(l, plan) && CountGates(l, plan) && ContinuityGate(l, plan) && IdentityGates(l, plan)
    && (forall m :: m in GatedMonths(l, plan.child) ==> MonthPasses(l, plan, m))
    && CarryGate(plan, Own(l, Returns, plan.child), SourceProjection(l, plan))
    && (l.pointer == Some(plan.head) ==> PointerAdmits(l, plan))
  }

  function Validation(plan: Plan): Doc { map["coupon_pit_repair_validated" := MarkerOf(plan)] }

  /** Status transition and compare-and-swap. */
  function Switched(l: Ledger, plan: Plan): Ledger
    requires plan.child in l.pubs
  {
    SwitchTo(l, plan.child, Validation(plan))
  }

  /** The last checks, on the surface served after the switch. */
  predicate ServedGates(m: Ledger, plan: Plan)
    requires plan.child in m.pubs
  {
    && Current(m, Returns).Keys !! Dropped(plan)
    && |Current(m, Returns)| == m.pubs[plan.child].declared.returnRows
  }

  ghost predicate FinalizeCommits(l: Ledger, plan: Plan) {
    FinalizeGates(l, plan) && ServedGates(Switched(l, plan), plan)
  }
}
