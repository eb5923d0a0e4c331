/** Governed publication of a NAV policy: one publishing transaction at a time
    (the writer locks), read statement by statement under READ COMMITTED, while
    other writers append lifecycle evidence and move the pointer at any moment.
    A digest is modelled by what it digests. */
module NavPolicy {
  import opened Prelude

  type Version = nat
  type Hash = string
  type Digest = string
  type Stamp = nat

  datatype EvidenceKey = EvidenceKey(instrument: string, knownAt: int, effectiveAt: int)
  type Content = string
  type Document = map<EvidenceKey, Content>

  /** A persisted lifecycle row: the document's content and the identity the
      server gave it. */
  datatype Fact = Fact(content: Content, id: nat)
  type Partition = map<EvidenceKey, Fact>

  datatype VersionRow = VersionRow(hash: Hash, published: bool)
  datatype Pointer = Pointer(version: Version, stamp: Stamp)

  /** The operation a receipt binds: policy bytes, whole document, audit hashes. */
  datatype Identity = Identity(artifact: Digest, document: Document, audit: Digest, dossier: Digest, manifest: Digest, capture: Digest)

  datatype Receipt = Receipt(version: Version, hash: Hash, identity: Identity, plan: Digest, pointerStamp: Stamp, certified: Partition)

  /** The committed database. `foreign` remembers which row identities were
      written outside a governed publication; no code reads it. */
  datatype Database = Database(
    versions: map<Version, VersionRow>, pointer: Option<Pointer>, evidence: map<Version, Partition>,
    receipts: seq<Receipt>, nextId: nat, foreign: set<nat>)

  datatype Target = Target(version: Version, hash: Hash)

  /** What a plan binds of a publication. */
  datatype Operation = Operation(
    target: Target, identity: Identity, plan: Digest, previous: Option<Target>,
    beforePointer: Option<Target>, beforeHash: Option<Hash>)

  datatype Phase =
    Locked | PointerRead | Baselined | Current | PlanUnused | VersionReady | NoConflict | RowsInserted | Published | Pointed | Stamped | Recounted

  /** A publishing transaction: its position and its own uncommitted writes.
      `seen` is the partition whose size is the baseline count. */
  datatype Transaction = Transaction(
    phase: Phase, op: Operation, stale: bool, before: nat, changed: bool,
    newVersion: bool, publishes: bool, own: Partition, pointer: Option<Pointer>, receipt: Option<Receipt>, seen: Partition)

  datatype State = State(db: Database, txn: Option<Transaction>)

  function PartitionOf(db: Database, v: Version): Partition { if v in db.evidence then db.evidence[v] else map[] }

  /** What the latest receipt of a version certifies: nothing when there is none. */
  function Certified(receipts: seq<Receipt>, v: Version): Partition {
    if receipts == [] then map[]
    else if receipts[|receipts| - 1].version == v then receipts[|receipts| - 1].certified
    else Certified(receipts[..|receipts| - 1], v)
  }

  predicate HasReceipt(receipts: seq<Receipt>, v: Version) { exists r :: r in receipts && r.version == v }

  function HashOf(db: Database, v: Version): Option<Hash> { if v in db.versions then Some(db.versions[v].hash) else None }

  function PointerTarget(db: Database): Option<Target> {
    match db.pointer
    case None => None
    case Some(p) => if p.version in db.versions then Some(Target(p.version, db.versions[p.version].hash)) else None
  }

  predicate BeforeHolds(db: Database, op: Operation) {
    PointerTarget(db) == op.beforePointer && HashOf(db, op.target.version) == op.beforeHash
  }

  // ------------------------------------------------------------------- replays

  /** The receipt still certifies the current pointer event of its version and the
      whole partition as it is now. */
  predicate Certifies(r: Receipt, db: Database) {
    && db.pointer == Some(Pointer(r.version, r.pointerStamp))
    && r.version in db.versions && db.versions[r.version] == VersionRow(r.hash, true)
    && PartitionOf(db, r.version) == r.certified
  }

  predicate SameOperation(r: Receipt, op: Operation) {
    r.version == op.target.version && r.hash == op.target.hash && r.identity == op.identity
  }

  predicate ReceiptExact(db: Database, op: Operation, plan: Option<Digest>) {
    exists r :: r in db.receipts && SameOperation(r, op) && (plan.Some? ==> r.plan == plan.value) && Certifies(r, db)
  }

  predicate FactsExact(db: Database, op: Operation) {
    && PointerTarget(db) == Some(op.target) && db.versions[op.target.version].published
    && forall k :: k in op.identity.document ==>
         k in PartitionOf(db, op.target.version) && PartitionOf(db, op.target.version)[k].content == op.identity.document[k]
  }

  /** When an apply may report the operation as already done: at the target only,
      proven by a receipt, and by this very plan's receipt if the plan is stale. */
  predicate ReplayReported(db: Database, op: Operation, stale: bool) {
    && FactsExact(db, op) && ReceiptExact(db, op, None)
    && (stale || !BeforeHolds(db, op) ==> ReceiptExact(db, op, Some(op.plan)))
  }

  // ------------------------------------------- the statements of one publication

  /** The target partition is what the latest receipt certified, or empty. */
  predicate CertifiedOrEmpty(db: Database, v: Version) {
    if HasReceipt(db.receipts, v) then PartitionOf(db, v) == Certified(db.receipts, v) else PartitionOf(db, v) == map[]
  }

  predicate DocumentAgrees(document: Document, p: Partition) {
    forall k :: k in document && k in p ==> p[k].content == document[k]
  }

  /** `own` are the document's missing rows, with new server identities. */
  predicate MissingRows(db: Database, document: Document, p: Partition, own: Partition, nextId: nat) {
    && db.nextId <= nextId
    && own.Keys == document.Keys - p.Keys
    && forall k :: k in own ==> own[k].content == document[k] && db.nextId <= own[k].id < nextId
  }

  /** The pointer as the transaction sees it. */
  function SeenPointer(db: Database, t: Transaction): Option<Pointer> { if t.pointer.Some? then t.pointer else db.pointer }

  function StampOf(db: Database): nat { if db.pointer.Some? then db.pointer.value.stamp + 1 else 0 }

  /** The receipt guard's server fields and unique keys. */
  predicate ReceiptAdmitted(db: Database, t: Transaction, r: Receipt) {
    && SeenPointer(db, t) == Some(Pointer(t.op.target.version, r.pointerStamp))
    && r == Receipt(t.op.target.version, t.op.target.hash, t.op.identity, t.op.plan, r.pointerStamp, PartitionOf(db, t.op.target.version) + t.own)
    && forall q :: q in db.receipts ==> q.plan != r.plan && (q.version != r.version || q.pointerStamp != r.pointerStamp)
  }

  /** The pointer is the audited previous policy, not yet the target. */
  predicate ReadsPointer(db: Database, t: Transaction, t': Transaction) {
    && PointerTarget(db) != Some(t.op.target) && PointerTarget(db) == t.op.previous
    && t' == t.(phase := PointerRead)
  }

  predicate TakesBaseline(db: Database, t: Transaction, t': Transaction) {
    var p := PartitionOf(db, t.op.target.version);
    CertifiedOrEmpty(db, t.op.target.version) && t' == t.(phase := Baselined, before := |p|, seen := p)
  }

  predicate ChecksBefore(db: Database, t: Transaction, t': Transaction) {
    !t.stale && BeforeHolds(db, t.op) && t' == t.(phase := Current)
  }

  predicate ChecksPlan(db: Database, t: Transaction, t': Transaction) {
    (forall r :: r in db.receipts ==> r.plan != t.op.plan) && t' == t.(phase := PlanUnused)
  }

  /** The version row, and the sessions, which only matter as a change. */
  predicate WritesVersion(db: Database, t: Transaction, t': Transaction) {
    var v := t.op.target.version;
    && (v in db.versions ==> db.versions[v].hash == t.op.target.hash)
    && (v !in db.versions ==> t'.changed)
    && t' == t.(phase := VersionReady, newVersion := v !in db.versions, changed := t'.changed)
  }

  predicate ChecksEvidence(db: Database, t: Transaction, t': Transaction) {
    DocumentAgrees(t.op.identity.document, PartitionOf(db, t.op.target.version)) && t' == t.(phase := NoConflict)
  }

  predicate InsertsRows(db: Database, t: Transaction, t': Transaction, nextId: nat) {
    && MissingRows(db, t.op.identity.document, PartitionOf(db, t.op.target.version), t'.own, nextId)
    && t' == t.(phase := RowsInserted, own := t'.own, changed := t.changed || t'.own != map[])
  }

  predicate Publishes(db: Database, t: Transaction, t': Transaction) {
    var v := t.op.target.version;
    var needed := t.newVersion || (v in db.versions && !db.versions[v].published);
    t' == t.(phase := Published, publishes := needed, changed := t.changed || needed)
  }

  predicate MovesPointer(db: Database, t: Transaction, t': Transaction) {
    var v := t.op.target.version;
    var moves := db.pointer.None? || db.pointer.value.version != v;
    && (moves ==> t'.pointer.Some? && t'.pointer.value.version == v && t'.pointer.value.stamp >= StampOf(db))
    && t' == t.(phase := Pointed, pointer := if moves then t'.pointer else None, changed := t.changed || moves)
  }

  predicate StampsReceipt(db: Database, t: Transaction, t': Transaction) {
    && (t.changed ==> t'.receipt.Some? && ReceiptAdmitted(db, t, t'.receipt.value))
    && t' == t.(phase := Stamped, receipt := if t.changed then t'.receipt else None)
  }

  predicate Recounts(db: Database, t: Transaction, t': Transaction) {
    |PartitionOf(db, t.op.target.version) + t.own| == t.before + |t.own| && t' == t.(phase := Recounted)
  }

  /** The order of the statements. */
  function Following(p: Phase): Phase {
    match p
    case Locked => PointerRead
    case PointerRead => Baselined
    case Baselined => Current
    case Current => PlanUnused
    case PlanUnused => VersionReady
    case VersionReady => NoConflict
    case NoConflict => RowsInserted
    case RowsInserted => Published
    case Published => Pointed
    case Pointed => Stamped
    case Stamped => Recounted
    case Recounted => Recounted
  }

  /** The next statement of the publishing transaction succeeds. Before the commit
      the committed database does not change, but for the row identities the
      server hands out. */
  predicate Statement(db: Database, t: Transaction, db': Database, t': Transaction) {
    && db' == db.(nextId := db'.nextId)
    && (!t.phase.NoConflict? ==> db'.nextId == db.nextId)
    && t'.op == t.op && t'.phase == Following(t.phase)
    && match t.phase
       case Locked => ReadsPointer(db, t, t')
       case PointerRead => TakesBaseline(db, t, t')
       case Baselined => ChecksBefore(db, t, t')
       case Current => ChecksPlan(db, t, t')
       case PlanUnused => WritesVersion(db, t, t')
       case VersionReady => ChecksEvidence(db, t, t')
       case NoConflict => InsertsRows(db, t, t', db'.nextId)
       case RowsInserted => Publishes(db, t, t')
       case Published => MovesPointer(db, t, t')
       case Pointed => StampsReceipt(db, t, t')
       case Stamped => Recounts(db, t, t')
       case Recounted => false
  }

  /** The committed database after the transaction's writes become visible. */
  function Committed(db: Database, t: Transaction): Database {
    var v := t.op.target.version;
    db.(
      versions := if t.newVersion || t.publishes
        then db.versions[v := VersionRow(t.op.target.hash, t.publishes || (v in db.versions && db.versions[v].published))] else db.versions,
      pointer := SeenPointer(db, t),
      evidence := db.evidence[v := PartitionOf(db, v) + t.own],
      receipts := if t.receipt.Some? then db.receipts + [t.receipt.value] else db.receipts)
  }

  // ------------------------------------------------------------- other writers

  /** A row of the transaction that would collide blocks the other writer. */
  predicate AppendBlocked(txn: Option<Transaction>, v: Version, k: EvidenceKey) {
    txn.Some? && txn.value.op.target.version == v && (k in txn.value.own || txn.value.newVersion)
  }

  ghost predicate ForeignAppend(s: State, s': State, v: Version, k: EvidenceKey, content: Content) {
    && v in s.db.versions && k !in PartitionOf(s.db, v) && !AppendBlocked(s.txn, v, k)
    && s' == s.(db := s.db.(
         evidence := s.db.evidence[v := PartitionOf(s.db, v)[k := Fact(content, s.db.nextId)]],
         nextId := s.db.nextId + 1, foreign := s.db.foreign + {s.db.nextId}))
  }

  /** A pointer move or re-stamp: its target is published, its stamp is later. */
  ghost predicate ForeignPoint(s: State, s': State, v: Version, stamp: Stamp) {
    && v in s.db.versions && s.db.versions[v].published && stamp >= StampOf(s.db)
    && !(s.txn.Some? && (s.txn.value.pointer.Some? || s.txn.value.receipt.Some?))
    && s' == s.(db := s.db.(pointer := Some(Pointer(v, stamp))))
  }

  /** A version another writer inserts unpublished, or publishes. */
  ghost predicate ForeignVersion(s: State, s': State, v: Version, hash: Hash) {
    && !(s.txn.Some? && s.txn.value.op.target.version == v && (s.txn.value.newVersion || s.txn.value.publishes))
    && (v in s.db.versions ==> s.db.versions[v].hash == hash)
    && s' == s.(db := s.db.(versions := s.db.versions[v := VersionRow(hash, v in s.db.versions)]))
  }

  function Begun(op: Operation, stale: bool): Transaction {
    Transaction(Locked, op, stale, 0, false, false, false, map[], None, None, map[])
  }

  datatype Event =
    | Begin(op: Operation, stale: bool) | Execute | GiveUp | ReportReplay | Commit
    | Append(v: Version, k: EvidenceKey, content: Content) | Point(v: Version, stamp: Stamp) | Insert(v: Version, hash: Hash)

  /** One step of the database: a statement of the publishing transaction, its
      end, or another writer's committed statement. */
  ghost predicate Step(s: State, e: Event, s': State) {
    match e
    case Begin(op, stale) => s.txn.None? && s' == s.(txn := Some(Begun(op, stale)))
    case Execute => s.txn.Some? && s'.txn.Some? && Statement(s.db, s.txn.value, s'.db, s'.txn.value)
    case GiveUp => s.txn.Some? && s' == s.(txn := None)
    case ReportReplay =>
      && s.txn.Some? && s.txn.value.phase.Locked? && ReplayReported(s.db, s.txn.value.op, s.txn.value.stale)
      && s' == s.(txn := None)
    case Commit =>
      && s.txn.Some? && s.txn.value.phase.Recounted? && s.txn.value.changed
      && s' == State(Committed(s.db, s.txn.value), None)
    case Append(v, k, content) => ForeignAppend(s, s', v, k, content)
    case Point(v, stamp) => ForeignPoint(s, s', v, stamp)
    case Insert(v, hash) => ForeignVersion(s, s', v, hash)
  }
}
