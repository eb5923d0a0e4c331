/** Safety of governed publication over whole runs: whatever other writers
    commit between any two statements, a receipt certifies exactly what its
    version's publications have published, and nothing else. */
module NavPolicyRuns {
  import opened Prelude
  import opened NavPolicy

  // -------------------------------------------------------------- what is certified

  /** The rows without the server's identities. */
  function Contents(p: Partition): Document { map k | k in p :: p[k].content }

  /** The union of the documents published for a version, in order. */
  function PublishedDocuments(receipts: seq<Receipt>, v: Version): Document {
    if receipts == [] then map[]
    else
      var last := receipts[|receipts| - 1];
      var before := PublishedDocuments(receipts[..|receipts| - 1], v);
      if last.version == v then before + last.identity.document else before
  }

  predicate Within(a: Partition, b: Partition) { forall k :: k in a ==> k in b && b[k] == a[k] }

  predicate NoForeign(p: Partition, foreign: set<nat>) { forall k :: k in p ==> p[k].id !in foreign }

  predicate Used(p: Partition, nextId: nat) { forall k :: k in p ==> p[k].id < nextId }

  /** A partition that is its certified part and foreign rows beyond it. */
  predicate Split(p: Partition, c: Partition, foreign: set<nat>, nextId: nat) {
    && Within(c, p) && NoForeign(c, foreign) && Used(p, nextId)
    && forall k :: k in p && k !in c ==> p[k].id in foreign
  }

  /** A version's partition: what is certified, and beyond it foreign rows only. */
  predicate PartitionHolds(db: Database, v: Version) {
    Split(PartitionOf(db, v), Certified(db.receipts, v), db.foreign, db.nextId)
  }

  /** Each receipt, when it was written, certified the union of its version's documents. */
  ghost predicate ReceiptsHold(db: Database) {
    forall i :: 0 <= i < |db.receipts| ==> ReceiptHolds(db, i)
  }

  predicate ReceiptHolds(db: Database, i: nat)
    requires i < |db.receipts|
  {
    && Contents(db.receipts[i].certified) == PublishedDocuments(db.receipts[..i + 1], db.receipts[i].version)
    && NoForeign(db.receipts[i].certified, db.foreign) && Used(db.receipts[i].certified, db.nextId)
  }

  /** Stamps of receipts never exceed the pointer's, and one stamp is one event. */
  predicate StampsHold(db: Database) {
    forall r :: r in db.receipts ==>
      && db.pointer.Some? && r.pointerStamp <= db.pointer.value.stamp
      && (r.pointerStamp == db.pointer.value.stamp ==> r.version == db.pointer.value.version)
  }

  predicate PlansUnique(receipts: seq<Receipt>) {
    forall i, j :: 0 <= i < j < |receipts| ==> receipts[i].plan != receipts[j].plan
  }

  predicate ForeignUsed(db: Database) { forall id :: id in db.foreign ==> id < db.nextId }

  // ------------------------------------------------------ the transaction's promise

  function Rank(p: Phase): nat {
    match p
    case Locked => 0
    case PointerRead => 1
    case Baselined => 2
    case Current => 3
    case PlanUnused => 4
    case VersionReady => 5
    case NoConflict => 6
    case RowsInserted => 7
    case Published => 8
    case Pointed => 9
    case Stamped => 10
    case Recounted => 11
  }

  /** The baseline is the certified partition, and only foreign rows came since. */
  predicate BaselineHolds(db: Database, t: Transaction) {
    && t.seen == Certified(db.receipts, t.op.target.version)
    && t.before == |t.seen|
  }

  /** The rows the transaction inserted: of its document, new, and if nobody else
      added a row then all that were missing. */
  predicate OwnHolds(db: Database, t: Transaction) {
    var p, document := PartitionOf(db, t.op.target.version), t.op.identity.document;
    && (forall k :: k in t.own ==> k in document && t.own[k].content == document[k] && k !in p)
    && NoForeign(t.own, db.foreign) && Used(t.own, db.nextId)
    && (forall k :: k in document && k !in t.own ==> k in p)
  }

  predicate Stampable(db: Database, t: Transaction, r: Receipt) {
    && r.version == t.op.target.version && r.hash == t.op.target.hash && r.identity == t.op.identity && r.plan == t.op.plan
    && SeenPointer(db, t) == Some(Pointer(r.version, r.pointerStamp))
    && (forall q :: q in db.receipts ==> q.plan != r.plan)
  }

  /** The stamped receipt certifies the partition as it then was. */
  predicate ReceiptPromise(db: Database, t: Transaction, r: Receipt) {
    && Stampable(db, t, r)
    && Within(t.seen, r.certified) && Within(t.own, r.certified)
    && Within(r.certified, PartitionOf(db, t.op.target.version) + t.own)
  }

  predicate PointerPromise(db: Database, t: Transaction) {
    t.pointer.Some? ==> t.pointer.value.version == t.op.target.version && t.pointer.value.stamp >= StampOf(db)
  }

  predicate TxnHolds(db: Database, t: Transaction) {
    && (Rank(t.phase) >= 2 ==> BaselineHolds(db, t))
    && (Rank(t.phase) == 6 ==> DocumentAgrees(t.op.identity.document, t.seen))
    && (Rank(t.phase) < 7 ==> t.own == map[])
    && (Rank(t.phase) >= 7 ==> OwnHolds(db, t) && DocumentAgrees(t.op.identity.document, t.seen))
    && PointerPromise(db, t) && (Rank(t.phase) < 9 ==> t.pointer.None?)
    && (Rank(t.phase) < 10 ==> t.receipt.None?)
    && (Rank(t.phase) >= 10 && t.changed ==> t.receipt.Some?)
    && (t.receipt.Some? ==> ReceiptPromise(db, t, t.receipt.value))
    && (Rank(t.phase) >= 11 ==> PastRecountHolds(t))
  }

  /** The recount has found no row but the baseline's and the transaction's own. */
  predicate PastRecountHolds(t: Transaction) {
    && t.own.Keys == t.op.identity.document.Keys - t.seen.Keys
    && (t.receipt.Some? ==> t.receipt.value.certified == t.seen + t.own)
  }

  ghost predicate DbHolds(db: Database) {
    && (forall v :: PartitionHolds(db, v))
    && ReceiptsHold(db) && StampsHold(db) && PlansUnique(db.receipts) && ForeignUsed(db)
  }

  ghost predicate Holds(s: State) {
    DbHolds(s.db) && (s.txn.Some? ==> TxnHolds(s.db, s.txn.value))
  }

  // ------------------------------------------------------------- other writers keep it

  /** What a foreign row changes in the committed database. */
  ghost predicate Appended(db: Database, db': Database, v: Version, k: EvidenceKey) {
    && k !in PartitionOf(db, v) && k in PartitionOf(db', v) && PartitionOf(db', v)[k].id == db.nextId
    && db'.receipts == db.receipts && db'.versions == db.versions && db'.pointer == db.pointer
    && db'.nextId == db.nextId + 1 && db'.foreign == db.foreign + {db.nextId}
    && (forall w :: PartitionOf(db', w) == if w == v then PartitionOf(db, v)[k := PartitionOf(db', v)[k]] else PartitionOf(db, w))
  }

  lemma AppendIsAppended(s: State, s': State, v: Version, k: EvidenceKey, content: Content)
    requires ForeignAppend(s, s', v, k, content)
    ensures Appended(s.db, s'.db, v, k) && s'.txn == s.txn && !AppendBlocked(s.txn, v, k)
  {
  }

  lemma AppendKeepsPartition(db: Database, db': Database, v: Version, k: EvidenceKey, w: Version)
    requires Appended(db, db', v, k) && PartitionHolds(db, w) && ForeignUsed(db)
    ensures PartitionHolds(db', w)
  {
    hide PartitionOf, Certified;
    var c := Certified(db.receipts, w);
    assert forall j :: j in c ==> c[j].id < db.nextId;
  }

  lemma AppendKeepsDb(db: Database, db': Database, v: Version, k: EvidenceKey)
    requires Appended(db, db', v, k) && DbHolds(db)
    ensures DbHolds(db')
  {
    forall w ensures PartitionHolds(db', w) { AppendKeepsPartition(db, db', v, k, w); }
    hide PartitionOf, Certified, PartitionHolds, PublishedDocuments, Contents;
    forall i | 0 <= i < |db'.receipts| ensures ReceiptHolds(db', i) { assert ReceiptHolds(db, i); }
  }

  lemma AppendKeepsTxn(db: Database, db': Database, t: Transaction, v: Version, k: EvidenceKey)
    requires Appended(db, db', v, k) && TxnHolds(db, t) && ForeignUsed(db)
    requires !AppendBlocked(Some(t), v, k)
    ensures TxnHolds(db', t)
  {
    hide PartitionOf, Certified, PastRecountHolds;
    if Rank(t.phase) >= 7 { AppendKeepsOwn(db, db', t, v, k); }
    if t.receipt.Some? { AppendKeepsReceipt(db, db', t, v, k); }
    hide OwnHolds, ReceiptPromise, Rank;
  }

  lemma AppendKeepsOwn(db: Database, db': Database, t: Transaction, v: Version, k: EvidenceKey)
    requires Appended(db, db', v, k) && OwnHolds(db, t) && ForeignUsed(db)
    requires !AppendBlocked(Some(t), v, k)
    ensures OwnHolds(db', t)
  {
    hide PartitionOf, Certified;
  }

  lemma AppendKeepsReceipt(db: Database, db': Database, t: Transaction, v: Version, k: EvidenceKey)
    requires Appended(db, db', v, k) && t.receipt.Some? && ReceiptPromise(db, t, t.receipt.value)
    requires !AppendBlocked(Some(t), v, k)
    ensures ReceiptPromise(db', t, t.receipt.value)
  {
    hide PartitionOf;
  }

  /** A change of pointer or versions only. */
  lemma SameTablesKeepDb(db: Database, db': Database)
    requires DbHolds(db) && db'.evidence == db.evidence && db'.receipts == db.receipts && db'.foreign == db.foreign
    requires db.nextId <= db'.nextId
    requires StampsHold(db')
    ensures DbHolds(db')
  {
    forall w ensures PartitionHolds(db', w) { assert PartitionHolds(db, w); SameTablesKeepPartition(db, db', w); }
    hide Certified, PartitionHolds, PublishedDocuments, Contents, StampsHold;
    forall i | 0 <= i < |db'.receipts| ensures ReceiptHolds(db', i) { assert ReceiptHolds(db, i); }
  }

  lemma SameTablesKeepPartition(db: Database, db': Database, w: Version)
    requires PartitionHolds(db, w) && db'.evidence == db.evidence && db'.receipts == db.receipts && db'.foreign == db.foreign
    requires db.nextId <= db'.nextId
    ensures PartitionHolds(db', w)
  {
    hide Certified;
  }

  /** The transaction's promise only reads evidence, receipts, identities and, once
      a pointer is in play, the pointer. */
  lemma SameTablesKeepTxn(db: Database, db': Database, t: Transaction)
    requires TxnHolds(db, t) && db'.evidence == db.evidence && db'.receipts == db.receipts && db'.foreign == db.foreign
    requires db.nextId <= db'.nextId
    requires t.pointer.Some? || t.receipt.Some? ==> db'.pointer == db.pointer
    ensures TxnHolds(db', t)
  {
    hide Certified, OwnHolds, PastRecountHolds, ReceiptPromise, PointerPromise, PartitionOf;
    if Rank(t.phase) >= 7 { SameTablesKeepOwn(db, db', t); }
    if t.receipt.Some? { SameTablesKeepReceipt(db, db', t); }
    if t.pointer.Some? { assert PointerPromise(db', t) by { SameStampOf(db, db', t); } } else { assert PointerPromise(db', t) by { NoPointer(db', t); } }
    hide DocumentAgrees;
  }

  lemma SameStampOf(db: Database, db': Database, t: Transaction)
    requires PointerPromise(db, t) && db'.pointer == db.pointer
    ensures PointerPromise(db', t)
  {
  }

  lemma NoPointer(db: Database, t: Transaction)
    requires t.pointer.None?
    ensures PointerPromise(db, t)
  {
  }

  lemma SameTablesKeepOwn(db: Database, db': Database, t: Transaction)
    requires OwnHolds(db, t) && db'.evidence == db.evidence && db'.foreign == db.foreign && db.nextId <= db'.nextId
    ensures OwnHolds(db', t)
  {
    assert PartitionOf(db', t.op.target.version) == PartitionOf(db, t.op.target.version);
    hide PartitionOf;
  }

  lemma SameTablesKeepReceipt(db: Database, db': Database, t: Transaction)
    requires t.receipt.Some? && ReceiptPromise(db, t, t.receipt.value)
    requires db'.evidence == db.evidence && db'.receipts == db.receipts && db'.pointer == db.pointer
    ensures ReceiptPromise(db', t, t.receipt.value)
  {
    assert PartitionOf(db', t.op.target.version) == PartitionOf(db, t.op.target.version);
    hide PartitionOf;
  }

  lemma PointKeeps(s: State, s': State, v: Version, stamp: Stamp)
    requires ForeignPoint(s, s', v, stamp) && Holds(s)
    ensures Holds(s')
  {
    hide DbHolds, TxnHolds;
    assert StampsHold(s'.db) by { LaterStamp(s.db, s'.db); }
    SameTablesKeepDb(s.db, s'.db);
    if s.txn.Some? { SameTablesKeepTxn(s.db, s'.db, s.txn.value); }
  }

  lemma LaterStamp(db: Database, db': Database)
    requires DbHolds(db) && db'.receipts == db.receipts && db'.pointer.Some? && db'.pointer.value.stamp >= StampOf(db)
    ensures StampsHold(db')
  {
    hide PartitionHolds, ReceiptsHold, PlansUnique;
  }

  lemma InsertKeeps(s: State, s': State, v: Version, hash: Hash)
    requires ForeignVersion(s, s', v, hash) && Holds(s)
    ensures Holds(s')
  {
    hide DbHolds, TxnHolds;
    assert StampsHold(s'.db) by { SameStamps(s.db, s'.db); }
    SameTablesKeepDb(s.db, s'.db);
    if s.txn.Some? { SameTablesKeepTxn(s.db, s'.db, s.txn.value); }
  }

  lemma SameStamps(db: Database, db': Database)
    requires DbHolds(db) && db'.receipts == db.receipts && db'.pointer == db.pointer
    ensures StampsHold(db')
  {
    hide PartitionHolds, ReceiptsHold, PlansUnique;
  }

  // --------------------------------------------------- the transaction's statements

  lemma StatementKeepsDb(db: Database, t: Transaction, db': Database, t': Transaction)
    requires Statement(db, t, db', t') && DbHolds(db)
    ensures DbHolds(db') && db' == db.(nextId := db'.nextId) && db.nextId <= db'.nextId
  {
    hide DbHolds, ReadsPointer, TakesBaseline, ChecksBefore, ChecksPlan, WritesVersion, ChecksEvidence, Publishes, MovesPointer, StampsReceipt, Recounts;
    SameStamps(db, db');
    SameTablesKeepDb(db, db');
  }

  lemma CertifiedMeans(db: Database, v: Version)
    requires CertifiedOrEmpty(db, v)
    ensures PartitionOf(db, v) == Certified(db.receipts, v)
  {
    if !HasReceipt(db.receipts, v) { NoReceiptCertifiesNothing(db.receipts, v); }
  }

  lemma {:induction false} NoReceiptCertifiesNothing(receipts: seq<Receipt>, v: Version)
    requires !HasReceipt(receipts, v)
    ensures Certified(receipts, v) == map[]
    decreases |receipts|
  {
    if receipts != [] {
      var rest := receipts[..|receipts| - 1];
      assert receipts[|receipts| - 1] in receipts;
      assert forall r :: r in rest ==> r in receipts;
      NoReceiptCertifiesNothing(rest, v);
    }
  }

  /** Inserting the missing rows. */
  lemma InsertedOwn(db: Database, t: Transaction, db': Database, t': Transaction)
    requires db' == db.(nextId := db'.nextId) && InsertsRows(db, t, t', db'.nextId) && ForeignUsed(db)
    ensures OwnHolds(db', t')
  {
    assert PartitionOf(db', t.op.target.version) == PartitionOf(db, t.op.target.version);
    hide PartitionOf;
  }

  /** The receipt stamps the partition as the transaction sees it. */
  lemma StampedReceipt(db: Database, t: Transaction, r: Receipt)
    requires PartitionHolds(db, t.op.target.version) && BaselineHolds(db, t) && OwnHolds(db, t)
    requires ReceiptAdmitted(db, t, r)
    ensures ReceiptPromise(db, t, r)
  {
    hide PartitionOf, Certified, PartitionHolds, Within, OwnHolds;
    var p := PartitionOf(db, t.op.target.version);
    SeenWithin(db, t);
    OwnApart(db, t);
    WithinUnion(t.seen, p, t.own);
  }

  lemma SeenWithin(db: Database, t: Transaction)
    requires PartitionHolds(db, t.op.target.version) && BaselineHolds(db, t)
    ensures Within(t.seen, PartitionOf(db, t.op.target.version))
  {
    hide PartitionOf, Certified, Within, NoForeign, Used;
  }

  lemma OwnApart(db: Database, t: Transaction)
    requires OwnHolds(db, t)
    ensures forall k :: k in t.own ==> k !in PartitionOf(db, t.op.target.version)
  {
    hide PartitionOf, NoForeign, Used;
  }

  lemma WithinUnion(seen: Partition, p: Partition, own: Partition)
    requires Within(seen, p) && forall k :: k in own ==> k !in p
    ensures Within(seen, p + own) && Within(own, p + own) && Within(p + own, p + own)
  {
  }

  /** A count of baseline plus own rows leaves room for no other row. */
  lemma RecountFindsNoOther(p: Partition, seen: Partition, own: Partition, before: nat)
    requires Within(seen, p) && before == |seen| && (forall k :: k in own ==> k !in p)
    requires |p + own| == before + |own|
    ensures p == seen
  {
    assert (p + own).Keys == p.Keys + own.Keys;
    assert |p.Keys + own.Keys| == |p.Keys| + |own.Keys| by { assert p.Keys !! own.Keys; }
    assert seen.Keys <= p.Keys;
    SameSizeSubset(seen.Keys, p.Keys);
  }

  lemma RecountedTxn(db: Database, t: Transaction)
    requires PartitionHolds(db, t.op.target.version) && TxnHolds(db, t) && t.phase.Stamped?
    requires |PartitionOf(db, t.op.target.version) + t.own| == t.before + |t.own|
    ensures PastRecountHolds(t) && PartitionOf(db, t.op.target.version) == t.seen
  {
    hide PartitionOf, Certified, TxnHolds, NoForeign, Used, Stampable, Within, OwnHolds, ReceiptPromise, PartitionHolds;
    RecountParts(db, t);
    RecountFindsNoOther(PartitionOf(db, t.op.target.version), t.seen, t.own, t.before);
    OwnIsMissing(db, t);
    if t.receipt.Some? {
      ReceiptIsSqueezed(db, t, t.receipt.value);
    }
  }

  lemma RecountParts(db: Database, t: Transaction)
    requires PartitionHolds(db, t.op.target.version) && TxnHolds(db, t) && t.phase.Stamped?
    ensures Within(t.seen, PartitionOf(db, t.op.target.version)) && t.before == |t.seen|
    ensures OwnHolds(db, t) && forall k :: k in t.own ==> k !in PartitionOf(db, t.op.target.version)
    ensures t.receipt.Some? ==> ReceiptPromise(db, t, t.receipt.value)
  {
    hide PartitionOf, Certified, Within, ReceiptPromise, PastRecountHolds, DocumentAgrees, NoForeign, Used, PointerPromise;
  }

  lemma OwnIsMissing(db: Database, t: Transaction)
    requires OwnHolds(db, t) && PartitionOf(db, t.op.target.version) == t.seen
    ensures t.own.Keys == t.op.identity.document.Keys - t.seen.Keys
  {
    hide PartitionOf, NoForeign, Used;
  }

  lemma ReceiptIsSqueezed(db: Database, t: Transaction, r: Receipt)
    requires ReceiptPromise(db, t, r) && PartitionOf(db, t.op.target.version) == t.seen
    ensures r.certified == t.seen + t.own
  {
    hide PartitionOf, Stampable;
    SqueezedPartition(t.seen, t.own, r.certified);
  }

  lemma SqueezedPartition(seen: Partition, own: Partition, c: Partition)
    requires Within(seen, c) && Within(own, c) && Within(c, seen + own)
    ensures c == seen + own
  {
    assert c.Keys == (seen + own).Keys;
  }

  /** The statements up to the version row: nothing of the promise is due but the baseline. */
  lemma EarlyStatement(db: Database, t: Transaction, t': Transaction)
    requires TxnHolds(db, t) && Rank(t.phase) < 5
    requires t' == t.(phase := t'.phase, newVersion := t'.newVersion, changed := t'.changed) && Rank(t'.phase) == Rank(t.phase) + 1
    requires !t.phase.PointerRead?
    ensures TxnHolds(db, t')
  {
    hide Certified, PartitionOf, OwnHolds, ReceiptPromise, DocumentAgrees, PastRecountHolds, PointerPromise;
    assert PointerPromise(db, t') by { SamePointer(db, t, t'); }
  }

  lemma SamePointer(db: Database, t: Transaction, t': Transaction)
    requires PointerPromise(db, t) && t'.pointer == t.pointer && t'.op == t.op
    ensures PointerPromise(db, t')
  {
  }

  lemma BaselineTxn(db: Database, t: Transaction, t': Transaction)
    requires TxnHolds(db, t) && t.phase.PointerRead? && TakesBaseline(db, t, t')
    ensures TxnHolds(db, t')
  {
    CertifiedMeans(db, t.op.target.version);
    hide Certified, PartitionOf, OwnHolds, ReceiptPromise, DocumentAgrees, PastRecountHolds, CertifiedOrEmpty;
  }

  lemma CheckedTxn(db: Database, t: Transaction, t': Transaction)
    requires PartitionHolds(db, t.op.target.version) && TxnHolds(db, t) && t.phase.VersionReady? && ChecksEvidence(db, t, t')
    ensures TxnHolds(db, t')
  {
    hide Certified, PartitionOf, OwnHolds, ReceiptPromise, PastRecountHolds;
  }

  /** The parts of the promise once the rows are inserted. */
  ghost predicate LateParts(db: Database, t: Transaction) {
    && BaselineHolds(db, t) && OwnHolds(db, t) && DocumentAgrees(t.op.identity.document, t.seen) && PointerPromise(db, t)
    && (t.receipt.Some? ==> ReceiptPromise(db, t, t.receipt.value))
  }

  lemma LatePartsOf(db: Database, t: Transaction)
    requires TxnHolds(db, t) && Rank(t.phase) >= 7
    ensures LateParts(db, t)
    ensures (Rank(t.phase) < 9 ==> t.pointer.None?) && (Rank(t.phase) < 10 ==> t.receipt.None?)
    ensures Rank(t.phase) >= 10 && t.changed ==> t.receipt.Some?
  {
    hide BaselineHolds, OwnHolds, DocumentAgrees, PointerPromise, ReceiptPromise, PastRecountHolds;
  }

  lemma LateHolds(db: Database, t: Transaction)
    requires LateParts(db, t) && Rank(t.phase) >= 7
    requires (Rank(t.phase) < 9 ==> t.pointer.None?) && (Rank(t.phase) < 10 ==> t.receipt.None?)
    requires Rank(t.phase) >= 10 && t.changed ==> t.receipt.Some?
    requires Rank(t.phase) >= 11 ==> PastRecountHolds(t)
    ensures TxnHolds(db, t)
  {
    hide BaselineHolds, OwnHolds, DocumentAgrees, PointerPromise, ReceiptPromise, PastRecountHolds;
  }

  /** A statement that leaves rows, baseline, pointer and receipt alone. */
  lemma SameParts(db: Database, t: Transaction, t': Transaction)
    requires LateParts(db, t)
    requires t'.op == t.op && t'.own == t.own && t'.seen == t.seen && t'.before == t.before && t'.pointer == t.pointer && t'.receipt == t.receipt
    ensures LateParts(db, t')
  {
    SameBaseline(db, t, t');
    SameOwn(db, t, t');
    SamePointer(db, t, t');
    if t.receipt.Some? { SamePromise(db, t, t', t.receipt.value); }
    hide BaselineHolds, OwnHolds, DocumentAgrees, PointerPromise, ReceiptPromise;
  }

  lemma SameBaseline(db: Database, t: Transaction, t': Transaction)
    requires BaselineHolds(db, t) && t'.op == t.op && t'.seen == t.seen && t'.before == t.before
    ensures BaselineHolds(db, t')
  {
  }

  lemma BaselineInserted(db: Database, t: Transaction, db': Database, t': Transaction)
    requires db' == db.(nextId := db'.nextId) && TxnHolds(db, t) && t.phase.NoConflict?
    requires InsertsRows(db, t, t', db'.nextId)
    ensures BaselineHolds(db', t') && DocumentAgrees(t'.op.identity.document, t'.seen) && t'.pointer.None? && t'.receipt.None?
  {
    hide Certified, PartitionOf, OwnHolds, ReceiptPromise, PastRecountHolds, MissingRows, DocumentAgrees;
  }

  lemma InsertedTxn(db: Database, t: Transaction, db': Database, t': Transaction)
    requires db' == db.(nextId := db'.nextId) && ForeignUsed(db)
    requires TxnHolds(db, t) && t.phase.NoConflict? && InsertsRows(db, t, t', db'.nextId)
    ensures TxnHolds(db', t')
  {
    hide TxnHolds, BaselineHolds, OwnHolds, DocumentAgrees, ReceiptPromise, MissingRows, ForeignUsed;
    InsertedOwn(db, t, db', t');
    BaselineInserted(db, t, db', t');
    LateHolds(db', t');
  }

  lemma LateStatement(db: Database, t: Transaction, t': Transaction)
    requires TxnHolds(db, t) && 7 <= Rank(t.phase) < 9 && Rank(t'.phase) == Rank(t.phase) + 1
    requires t' == t.(phase := t'.phase, publishes := t'.publishes, pointer := t'.pointer, changed := t'.changed)
    requires PointerPromise(db, t') && (Rank(t'.phase) < 9 ==> t'.pointer.None?)
    ensures TxnHolds(db, t')
  {
    SameOwn(db, t, t');
    hide Certified, PartitionOf, OwnHolds, ReceiptPromise, PastRecountHolds, DocumentAgrees, PointerPromise;
  }

  lemma StampedTxn(db: Database, t: Transaction, t': Transaction)
    requires PartitionHolds(db, t.op.target.version) && TxnHolds(db, t) && t.phase.Pointed? && StampsReceipt(db, t, t')
    ensures TxnHolds(db, t')
  {
    hide TxnHolds, LateParts, BaselineHolds, OwnHolds, DocumentAgrees, PointerPromise, ReceiptPromise, ReceiptAdmitted, PartitionHolds;
    LatePartsOf(db, t);
    SameParts(db, t, t'.(receipt := t.receipt));
    if t.changed { StampedReceipt(db, t, t'.receipt.value) by { PartsAt(db, t); } }
    ReceiptJoins(db, t, t');
    LateHolds(db, t');
  }

  lemma PartsAt(db: Database, t: Transaction)
    requires LateParts(db, t)
    ensures BaselineHolds(db, t) && OwnHolds(db, t)
  {
    hide BaselineHolds, OwnHolds, DocumentAgrees, PointerPromise, ReceiptPromise;
  }

  lemma ReceiptJoins(db: Database, t: Transaction, t': Transaction)
    requires LateParts(db, t'.(receipt := t.receipt)) && t' == t.(phase := t'.phase, receipt := t'.receipt)
    requires t'.receipt.Some? ==> ReceiptPromise(db, t, t'.receipt.value)
    ensures LateParts(db, t')
  {
    var u := t'.(receipt := t.receipt);
    hide BaselineHolds, OwnHolds, DocumentAgrees, PointerPromise, ReceiptPromise;
    SameBaseline(db, u, t');
    SameOwn(db, u, t');
    SamePointer(db, u, t');
    if t'.receipt.Some? { SamePromise(db, t, t', t'.receipt.value); }
  }

  lemma RecountedKeeps(db: Database, t: Transaction, t': Transaction)
    requires PartitionHolds(db, t.op.target.version) && TxnHolds(db, t) && t.phase.Stamped? && Recounts(db, t, t')
    ensures TxnHolds(db, t')
  {
    hide TxnHolds, LateParts, PartitionHolds, PartitionOf, PastRecountHolds, Recounts;
    RecountLeaves(db, t, t');
    LatePartsOf(db, t);
    SameParts(db, t, t');
    SameRecount(t, t');
    LateHolds(db, t');
  }

  lemma RecountLeaves(db: Database, t: Transaction, t': Transaction)
    requires PartitionHolds(db, t.op.target.version) && TxnHolds(db, t) && t.phase.Stamped? && Recounts(db, t, t')
    ensures t' == t.(phase := Recounted) && PastRecountHolds(t)
  {
    hide TxnHolds, PartitionHolds, PartitionOf, PastRecountHolds;
    RecountedTxn(db, t);
  }

  lemma SameRecount(t: Transaction, t': Transaction)
    requires PastRecountHolds(t) && t'.own == t.own && t'.op == t.op && t'.seen == t.seen && t'.receipt == t.receipt
    ensures PastRecountHolds(t')
  {
  }

  lemma EarlyTxn(db: Database, t: Transaction, t': Transaction)
    requires TxnHolds(db, t)
    requires (t.phase.Locked? && ReadsPointer(db, t, t')) || (t.phase.Baselined? && ChecksBefore(db, t, t'))
      || (t.phase.Current? && ChecksPlan(db, t, t')) || (t.phase.PlanUnused? && WritesVersion(db, t, t'))
    ensures TxnHolds(db, t')
  {
    hide TxnHolds, PointerTarget, BeforeHolds;
    EarlyStatement(db, t, t');
  }

  lemma LateTxn(db: Database, t: Transaction, t': Transaction)
    requires TxnHolds(db, t)
    requires (t.phase.RowsInserted? && Publishes(db, t, t')) || (t.phase.Published? && MovesPointer(db, t, t'))
    ensures TxnHolds(db, t')
  {
    if t.phase.RowsInserted? { NotYetPointed(db, t, t'); }
    hide TxnHolds;
    LateStatement(db, t, t');
  }

  lemma StatementKeepsTxn(db: Database, t: Transaction, db': Database, t': Transaction)
    requires Statement(db, t, db', t') && DbHolds(db) && TxnHolds(db, t)
    ensures TxnHolds(db', t')
  {
    hide TxnHolds, PartitionHolds, ReceiptsHold, StampsHold, PlansUnique, ReadsPointer, TakesBaseline, ChecksBefore, ChecksPlan,
      WritesVersion, ChecksEvidence, InsertsRows, Publishes, MovesPointer, StampsReceipt, Recounts;
    assert PartitionHolds(db, t.op.target.version);
    match t.phase
    case PointerRead => BaselineTxn(db, t, t');
    case VersionReady => CheckedTxn(db, t, t');
    case NoConflict => InsertedTxn(db, t, db', t');
    case RowsInserted => LateTxn(db, t, t');
    case Published => LateTxn(db, t, t');
    case Pointed => StampedTxn(db, t, t');
    case Stamped => RecountedKeeps(db, t, t');
    case _ => EarlyTxn(db, t, t');
  }

  lemma NotYetPointed(db: Database, t: Transaction, t': Transaction)
    requires TxnHolds(db, t) && t.phase.RowsInserted? && t'.pointer == t.pointer
    ensures t'.pointer.None?
  {
    hide Certified, PartitionOf, OwnHolds, ReceiptPromise, PastRecountHolds, DocumentAgrees, PointerPromise;
  }

  lemma SameOwn(db: Database, t: Transaction, t': Transaction)
    requires OwnHolds(db, t) && t'.op == t.op && t'.own == t.own && t'.seen == t.seen
    ensures OwnHolds(db, t')
  {
  }

  lemma SamePromise(db: Database, t: Transaction, t': Transaction, r: Receipt)
    requires ReceiptPromise(db, t, r) && t'.op == t.op && t'.own == t.own && t'.seen == t.seen && t'.pointer == t.pointer
    ensures ReceiptPromise(db, t', r)
  {
  }

  // -------------------------------------------------------------------- the commit

  lemma CertifiedOfNew(receipts: seq<Receipt>, r: Receipt, v: Version)
    ensures Certified(receipts + [r], v) == if r.version == v then r.certified else Certified(receipts, v)
  {
    assert (receipts + [r])[..|receipts|] == receipts;
  }

  lemma DocumentsOfNew(receipts: seq<Receipt>, r: Receipt, v: Version)
    ensures PublishedDocuments(receipts + [r], v)
      == if r.version == v then PublishedDocuments(receipts, v) + r.identity.document else PublishedDocuments(receipts, v)
  {
    assert (receipts + [r])[..|receipts|] == receipts;
  }

  /** The latest receipt of a version certifies all documents published for it. */
  lemma {:induction false} CertifiedIsPublished(db: Database, n: nat, v: Version)
    requires ReceiptsHold(db) && n <= |db.receipts|
    ensures Contents(Certified(db.receipts[..n], v)) == PublishedDocuments(db.receipts[..n], v)
    decreases n
  {
    if n > 0 {
      var last := db.receipts[n - 1];
      assert db.receipts[..n][..n - 1] == db.receipts[..n - 1];
      assert db.receipts[..n][n - 1] == last;
      assert ReceiptHolds(db, n - 1);
      CertifiedIsPublished(db, n - 1, v);
    }
  }

  lemma ContentsOfUnion(seen: Partition, own: Partition, document: Document)
    requires own.Keys == document.Keys - seen.Keys
    requires forall k :: k in own ==> own[k].content == document[k]
    requires DocumentAgrees(document, seen)
    ensures Contents(seen + own) == Contents(seen) + document
  {
  }

  /** What the promise gives at the commit. */
  lemma CommitParts(db: Database, t: Transaction)
    requires TxnHolds(db, t) && t.phase.Recounted? && t.changed
    ensures t.receipt.Some?
    ensures ReceiptPromise(db, t, t.receipt.value) && BaselineHolds(db, t) && OwnHolds(db, t) && PastRecountHolds(t) && PointerPromise(db, t)
    ensures DocumentAgrees(t.op.identity.document, t.seen)
  {
    hide PartitionOf, Certified, ReceiptPromise, OwnHolds, PastRecountHolds, PointerPromise, DocumentAgrees;
  }

  lemma CommittedPartition(db: Database, t: Transaction, w: Version)
    ensures PartitionOf(Committed(db, t), w) == if w == t.op.target.version then PartitionOf(db, w) + t.own else PartitionOf(db, w)
  {
  }

  lemma SplitGrows(p: Partition, c: Partition, own: Partition, foreign: set<nat>, nextId: nat)
    requires Split(p, c, foreign, nextId) && NoForeign(own, foreign) && Used(own, nextId)
    requires forall k :: k in own ==> k !in p
    ensures Split(p + own, c + own, foreign, nextId)
  {
  }

  lemma CommitKeepsPartition(db: Database, t: Transaction, w: Version)
    requires PartitionHolds(db, w) && BaselineHolds(db, t) && OwnHolds(db, t) && PastRecountHolds(t) && t.receipt.Some?
    requires t.receipt.value.version == t.op.target.version
    ensures PartitionHolds(Committed(db, t), w)
  {
    hide PartitionOf, Certified, Within, NoForeign, Used;
    CommittedPartition(db, t, w);
    CertifiedOfNew(db.receipts, t.receipt.value, w);
    assert Split(PartitionOf(db, w), Certified(db.receipts, w), db.foreign, db.nextId);
    if w == t.op.target.version {
      SplitGrows(PartitionOf(db, w), t.seen, t.own, db.foreign, db.nextId);
    }
  }

  lemma NewReceiptHolds(db: Database, t: Transaction)
    requires ReceiptsHold(db) && PartitionHolds(db, t.op.target.version) && ForeignUsed(db)
    requires BaselineHolds(db, t) && OwnHolds(db, t) && PastRecountHolds(t) && t.receipt.Some?
    requires DocumentAgrees(t.op.identity.document, t.seen) && Stampable(db, t, t.receipt.value)
    ensures ReceiptHolds(Committed(db, t), |db.receipts|)
  {
    var r, v := t.receipt.value, t.op.target.version;
    var db' := Committed(db, t);
    assert db'.receipts == db.receipts + [r];
    assert db'.receipts[..|db.receipts| + 1] == db.receipts + [r];
    assert db.receipts[..|db.receipts|] == db.receipts;
    CertifiedIsPublished(db, |db.receipts|, v);
    DocumentsOfNew(db.receipts, r, v);
    ContentsOfUnion(t.seen, t.own, t.op.identity.document);
    hide Certified, PublishedDocuments, Contents, ReceiptsHold, Committed;
    NewReceiptIds(db, t);
  }

  lemma NewReceiptIds(db: Database, t: Transaction)
    requires PartitionHolds(db, t.op.target.version) && BaselineHolds(db, t) && OwnHolds(db, t)
    ensures NoForeign(t.seen + t.own, db.foreign) && Used(t.seen + t.own, db.nextId)
  {
    hide PartitionOf, Certified;
  }

  lemma OldReceiptHolds(db: Database, t: Transaction, i: nat)
    requires i < |db.receipts| && ReceiptHolds(db, i) && t.receipt.Some?
    ensures ReceiptHolds(Committed(db, t), i)
  {
    assert (db.receipts + [t.receipt.value])[..i + 1] == db.receipts[..i + 1];
    hide PublishedDocuments, Contents;
  }

  lemma CommitKeepsStamps(db: Database, t: Transaction)
    requires StampsHold(db) && PointerPromise(db, t) && t.receipt.Some? && Stampable(db, t, t.receipt.value)
    ensures StampsHold(Committed(db, t))
  {
  }

  lemma CommitKeepsPlans(db: Database, t: Transaction)
    requires PlansUnique(db.receipts) && t.receipt.Some? && Stampable(db, t, t.receipt.value)
    ensures PlansUnique(Committed(db, t).receipts)
  {
  }

  lemma CommitKeeps(db: Database, t: Transaction)
    requires DbHolds(db) && TxnHolds(db, t) && t.phase.Recounted? && t.changed
    ensures DbHolds(Committed(db, t))
  {
    CommitParts(db, t);
    var db' := Committed(db, t);
    hide TxnHolds, PartitionOf, PartitionHolds, BaselineHolds, OwnHolds, PastRecountHolds, PointerPromise, DocumentAgrees, Stampable,
      StampsHold, PlansUnique, ReceiptHolds;
    forall w ensures PartitionHolds(db', w) {
      assert PartitionHolds(db, w);
      assert t.receipt.value.version == t.op.target.version by { StampedVersion(db, t, t.receipt.value); }
      CommitKeepsPartition(db, t, w);
    }
    CommitKeepsStamps(db, t);
    CommitKeepsPlans(db, t);
    forall i | 0 <= i < |db'.receipts| ensures ReceiptHolds(db', i) {
      if i < |db.receipts| {
        assert ReceiptHolds(db, i);
        OldReceiptHolds(db, t, i);
      } else {
        assert PartitionHolds(db, t.op.target.version);
        NewReceiptHolds(db, t);
      }
    }
    assert ForeignUsed(db');
  }

  lemma StampedVersion(db: Database, t: Transaction, r: Receipt)
    requires Stampable(db, t, r)
    ensures r.version == t.op.target.version
  {
  }

  lemma BegunHolds(db: Database, op: Operation, stale: bool)
    ensures TxnHolds(db, Begun(op, stale))
  {
  }

  /** Every step of every writer keeps the ledger and the promise of a running
      publication. */
  lemma StepKeeps(s: State, e: Event, s': State)
    requires Holds(s) && Step(s, e, s')
    ensures Holds(s')
  {
    hide DbHolds, TxnHolds, Statement, ForeignAppend, ForeignPoint, ForeignVersion, Committed, ReplayReported;
    match e
    case Begin(op, stale) => BegunHolds(s.db, op, stale);
    case Execute =>
      StatementKeepsDb(s.db, s.txn.value, s'.db, s'.txn.value);
      StatementKeepsTxn(s.db, s.txn.value, s'.db, s'.txn.value);
    case GiveUp =>
    case ReportReplay =>
    case Commit => CommitKeeps(s.db, s.txn.value);
    case Append(v, k, content) =>
      AppendIsAppended(s, s', v, k, content);
      AppendKeepsDb(s.db, s'.db, v, k);
      assert ForeignUsed(s.db) by { IdsUsed(s.db); }
      if s.txn.Some? { AppendKeepsTxn(s.db, s'.db, s.txn.value, v, k); }
    case Point(v, stamp) => PointKeeps(s, s', v, stamp);
    case Insert(v, hash) => InsertKeeps(s, s', v, hash);
  }

  lemma IdsUsed(db: Database)
    requires DbHolds(db)
    ensures ForeignUsed(db)
  {
    hide PartitionHolds, ReceiptsHold, StampsHold, PlansUnique;
  }

  /** A run from a database with no evidence and no receipts: versions, documents,
      plans and interference are arbitrary. */
  ghost predicate Run(states: seq<State>, events: seq<Event>) {
    && |states| == |events| + 1
    && states[0].txn.None? && states[0].db.receipts == [] && states[0].db.evidence == map[] && states[0].db.foreign == {}
    && forall i :: 0 <= i < |events| ==> Step(states[i], events[i], states[i + 1])
  }

  lemma StartHolds(s: State)
    requires s.txn.None? && s.db.receipts == [] && s.db.evidence == map[] && s.db.foreign == {}
    ensures Holds(s)
  {
  }

  lemma {:induction false} RunKeeps(states: seq<State>, events: seq<Event>, i: nat)
    requires Run(states, events) && i < |states|
    ensures Holds(states[i])
    decreases i
  {
    hide Holds, Step;
    if i == 0 {
      StartHolds(states[0]);
    } else {
      RunKeeps(states, events, i - 1);
      StepKeeps(states[i - 1], events[i - 1], states[i]);
    }
  }
}
