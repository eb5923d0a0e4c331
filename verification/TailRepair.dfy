/** The legacy return-tail repair of `bond_panel_v1`: a parentless replacement
    root that copies the old root inside the database and loads the missing tail
    of returns in bounded batches, each attested by its cursor. */
module TailRepair {
  import opened Prelude
  import opened Panel
  import opened ImmutableBatch
  import opened MonthGates
  import opened LedgerSteps

  const BASE_REPAIR := "base_repair"
  const SOURCES := "source_sha256"

  datatype Plan = Plan(
    child: Id, source: Id, fingerprint: string, revision: string, sources: Value, baseRepair: Value,
    first: Date, lastClosed: Date, returnsFirst: Date, counts: Counts, tail: seq<Entry<Key, Row>>)

  /** The rows of the old root on one surface. */
  function Historical(l: Ledger, plan: Plan, s: Surface): map<Key, Row> { Own(l, s, plan.source) }

  predicate SameHeader(c: Publication, plan: Plan) {
    && !c.status.Failed? && c.config.Legacy?
    && c.fingerprint == plan.fingerprint && c.revision == plan.revision
    && c.first == plan.first && c.lastClosed == plan.lastClosed && c.open.None?
    && SOURCES in c.lineage && c.lineage[SOURCES] == plan.sources
    && BASE_REPAIR in c.evidence && c.evidence[BASE_REPAIR] == plan.baseRepair
  }

  // ------------------------------------------------------------------- prepare

  function ChildPublication(plan: Plan): Publication {
    Publication(
      None, Prepared, Legacy, plan.fingerprint, plan.revision, plan.first, plan.lastClosed, None, plan.counts,
      map["scope" := Text("frozen_osbap_trace_panel_scope"), SOURCES := plan.sources], map[BASE_REPAIR := plan.baseRepair])
  }

  predicate PrepareAllowed(l: Ledger, plan: Plan) {
    if plan.child in l.pubs
    then SameHeader(l.pubs[plan.child], plan) && l.pubs[plan.child].declared == plan.counts
    else
      && (forall p :: p in l.pubs ==> l.pubs[p].fingerprint != plan.fingerprint)
      && (forall s: Surface :: plan.counts.Of(s) > 0) && plan.first <= plan.lastClosed
  }

  function Prepare(l: Ledger, plan: Plan): Ledger {
    l.(pubs := if plan.child in l.pubs then l.pubs else l.pubs[plan.child := ChildPublication(plan)])
  }

  // ---------------------------------------------------------------------- copy

  predicate LegacyRoot(l: Ledger, p: Id) {
    p in l.pubs && l.pubs[p].status.Validated? && l.pubs[p].parent.None? && l.pubs[p].config.Legacy?
  }

  predicate CopyOrder(l: Ledger, plan: Plan) {
    && LegacyRoot(l, plan.source)
    && plan.child in l.pubs && l.pubs[plan.child].parent.None?
    && BASE_REPAIR in l.pubs[plan.child].evidence && l.pubs[plan.child].evidence[BASE_REPAIR] == plan.baseRepair
    && ((l.pubs[plan.child].status.Prepared? && l.pointer == Some(plan.source))
        || (l.pubs[plan.child].status.Validated? && l.pointer == Some(plan.child)))
  }

  /** The rows up to the last month of the old root: the copied range. */
  predicate InRange(k: Key, source: map<Key, Row>) { exists j :: j in source && k.month <= j.month }

  function CopiedRange(rows: map<Key, Row>, source: map<Key, Row>, s: Surface): map<Key, Row> {
    if s.Returns? then map k | k in rows && InRange(k, source) :: rows[k] else rows
  }

  function CopiedRows(l: Ledger, plan: Plan, s: Surface): map<Key, Row> {
    if plan.child in l.pubs && l.pubs[plan.child].status.Prepared?
    then InsertMissing(Own(l, s, plan.child), Historical(l, plan, s))
    else Own(l, s, plan.child)
  }

  predicate CopyAllowed(l: Ledger, plan: Plan, s: Surface) {
    && CopyOrder(l, plan)
    && (forall k :: k in Historical(l, plan, s) && k in Own(l, s, plan.child) ==> Own(l, s, plan.child)[k] == Historical(l, plan, s)[k])
    && (l.pubs[plan.child].status.Prepared? ==> Historical(l, plan, s).Keys !! Tombs(l, s, plan.child))
    && |CopiedRange(CopiedRows(l, plan, s), Historical(l, plan, s), s)| == |Historical(l, plan, s)|
  }

  function Copy(l: Ledger, plan: Plan, s: Surface): Ledger { WithFacts(l, Slot(s, plan.child), CopiedRows(l, plan, s)) }

  // --------------------------------------------------------------- tail batches

  function EndOf(plan: Plan, start: nat, limit: nat): nat {
    if start + limit < |plan.tail| then start + limit else |plan.tail|
  }

  function Slice(plan: Plan, start: nat, limit: nat): seq<Entry<Key, Row>>
    requires start < |plan.tail|
  {
    plan.tail[start..EndOf(plan, start, limit)]
  }

  predicate PreparedCurrent(l: Ledger, plan: Plan) {
    plan.child in l.pubs && l.pubs[plan.child].status.Prepared? && l.pointer == Some(plan.source)
  }

  predicate ValidatedTerminal(l: Ledger, plan: Plan, end: nat) {
    end == |plan.tail| && plan.child in l.pubs && l.pubs[plan.child].status.Validated? && l.pointer == Some(plan.child)
  }

  function LoadedRows(l: Ledger, plan: Plan, start: nat, limit: nat): map<Key, Row>
    requires start < |plan.tail|
  {
    if plan.child in l.pubs && l.pubs[plan.child].status.Prepared?
    then RowsOf(Slice(plan, start, limit)) + Own(l, Returns, plan.child)
    else Own(l, Returns, plan.child)
  }

  /** Inserting the attestation keeps both unique keys, and then it is there. */
  predicate AttestationAdmitted(attested: map<nat, nat>, start: nat, end: nat, inserts: bool) {
    if start in attested then attested[start] == end
    else inserts && forall c :: c in attested ==> attested[c] != end
  }

  predicate BatchAllowed(l: Ledger, plan: Plan, start: nat, limit: nat) {
    && limit > 0 && start < |plan.tail|
    && var end, own, base := EndOf(plan, start, limit), Own(l, Returns, plan.child), |Historical(l, plan, Returns)|;
    && (PreparedCurrent(l, plan) || ValidatedTerminal(l, plan, end))
    && (start > 0 ==> exists c :: c in Attested(l, plan.child) && Attested(l, plan.child)[c] == start)
    && (|own| == base + start || |own| == base + end)
    && StagedMerge(own, Slice(plan, start, limit)).Some?
    && (PreparedCurrent(l, plan) ==> RowsOf(Slice(plan, start, limit)).Keys !! Tombs(l, Returns, plan.child))
    && |LoadedRows(l, plan, start, limit)| == base + end
    && AttestationAdmitted(Attested(l, plan.child), start, end, PreparedCurrent(l, plan))
  }

  function Batch(l: Ledger, plan: Plan, start: nat, limit: nat): Ledger
    requires start < |plan.tail|
  {
    var att := Attested(l, plan.child);
    l.(facts := l.facts[Slot(Returns, plan.child) := LoadedRows(l, plan, start, limit)],
       attested := l.attested[plan.child := if start in att then att else att[start := EndOf(plan, start, limit)]])
  }

  // ------------------------------------------------------------------ finalize

  predicate ContiguousReturns(l: Ledger, plan: Plan) {
    forall m :: m in MonthSeries(plan.returnsFirst, plan.lastClosed) ==> m in Months(Own(l, Returns, plan.child))
  }

  predicate TerminalAttested(l: Ledger, plan: Plan) {
    exists c :: c in Attested(l, plan.child) && Attested(l, plan.child)[c] == |plan.tail|
  }

  /** What the pointer trigger re-checks of the one authorized root replacement. */
  predicate PointerAdmits(l: Ledger, plan: Plan) {
    var snapshot, signal, returned, rating :=
      Own(l, Snapshot, plan.child), Own(l, RvSignal, plan.child), Own(l, Returns, plan.child), Own(l, RatingPit, plan.child);
    && plan.child in l.pubs && l.pubs[plan.child].parent.None?
    && (forall k :: k in returned ==> plan.first <= k.month <= plan.lastClosed)
    && (forall k :: k in signal ==> k in snapshot && snapshot[k].included)
    && (forall k :: k in returned ==> k in snapshot)
    && snapshot.Keys == rating.Keys
  }

  predicate FinalizeCommits(l: Ledger, plan: Plan) {
    && plan.child in l.pubs && SameHeader(l.pubs[plan.child], plan)
    && (forall s: Surface :: |Own(l, s, plan.child)| == plan.counts.Of(s))
    && ContiguousReturns(l, plan) && TerminalAttested(l, plan)
    && LegacyRoot(l, plan.source)
    && ((l.pointer == Some(plan.source) && PointerAdmits(l, plan)) || l.pointer == Some(plan.child))
  }

  function Validation(plan: Plan): Doc { map[SOURCES := plan.sources] }

  function Switched(l: Ledger, plan: Plan): Ledger
    requires plan.child in l.pubs
  {
    SwitchTo(l, plan.child, Validation(plan))
  }

  // -------------------------------------------------------- the attested prefix

  /** The attestations cut [0, end) into consecutive slices, the last one ending
      at `end`. */
  ghost predicate Partition(attested: map<nat, nat>, end: nat)
    decreases end
  {
    if attested == map[] then end == 0
    else exists c: nat :: c < end && c in attested && attested[c] == end && Partition(attested - {c}, c)
  }

  lemma {:induction false} PartitionBounds(attested: map<nat, nat>, end: nat)
    requires Partition(attested, end)
    ensures forall c :: c in attested ==> c < attested[c] <= end
    ensures forall c, d :: c in attested && d in attested && attested[c] == attested[d] ==> c == d
    decreases end
  {
    if attested != map[] {
      var c: nat :| c < end && c in attested && attested[c] == end && Partition(attested - {c}, c);
      PartitionBounds(attested - {c}, c);
      forall d | d in attested ensures d < attested[d] <= end && (d != c ==> attested[d] <= c) {
        if d != c {
          assert d in attested - {c} && (attested - {c})[d] == attested[d];
        }
      }
      forall d, e | d in attested && e in attested && attested[d] == attested[e] ensures d == e {
        if d != c && e != c {
          assert d in attested - {c} && e in attested - {c};
        }
      }
    }
  }

  /** The next slice extends the partition. */
  lemma PartitionExtends(attested: map<nat, nat>, end: nat, next: nat)
    requires Partition(attested, end) && end < next
    ensures end !in attested && Partition(attested[end := next], next)
  {
    PartitionBounds(attested, end);
    var more := attested[end := next];
    assert more - {end} == attested;
    assert end < next && end in more && more[end] == next && Partition(more - {end}, end);
  }

  /** The end of a non-empty partition is attested. */
  lemma PartitionEnd(attested: map<nat, nat>, end: nat)
    requires Partition(attested, end) && end > 0
    ensures exists c :: c in attested && attested[c] == end
  {
  }

  /** Every point of [0, end) lies in exactly one attested slice. */
  lemma {:induction false} PartitionCovers(attested: map<nat, nat>, end: nat, x: nat)
    requires Partition(attested, end) && x < end
    ensures exists c :: c in attested && c <= x < attested[c]
    decreases end
  {
    var c: nat :| c < end && c in attested && attested[c] == end && Partition(attested - {c}, c);
    if x < c {
      PartitionCovers(attested - {c}, c, x);
      var d :| d in attested - {c} && d <= x < (attested - {c})[d];
      assert d in attested && d <= x < attested[d];
    }
  }
}
