/** What a publication receipt means over a whole run: what it certifies, what
    ends further publication, and what ends a replay. */
module NavPolicyOutcome {
  import opened Prelude
  import opened NavPolicy
  import opened NavPolicyRuns

  // ---------------------------------------------------------- settled publications

  /** A receipt's version is published with its hash, and its rows are still there. */
  predicate ReceiptSettled(db: Database, r: Receipt) {
    && r.version in db.versions && db.versions[r.version] == VersionRow(r.hash, true)
    && Within(r.certified, PartitionOf(db, r.version))
  }

  predicate VersionPromise(db: Database, t: Transaction) {
    var v := t.op.target.version;
    && (Rank(t.phase) < 5 ==> !t.newVersion && !t.publishes)
    && (Rank(t.phase) >= 5 ==> (t.newVersion <==> v !in db.versions) && (v in db.versions ==> db.versions[v].hash == t.op.target.hash))
    && (Rank(t.phase) >= 8 ==> t.publishes || (v in db.versions && db.versions[v].published))
  }

  ghost predicate Settled(s: State) {
    && (forall r :: r in s.db.receipts ==> ReceiptSettled(s.db, r))
    && (s.txn.Some? ==> VersionPromise(s.db, s.txn.value))
  }

  lemma EarlySettles(db: Database, t: Transaction, db': Database, t': Transaction)
    requires Statement(db, t, db', t') && VersionPromise(db, t) && Rank(t.phase) < 4
    ensures VersionPromise(db', t')
  {
    hide WritesVersion, ChecksEvidence, InsertsRows, Publishes, MovesPointer, StampsReceipt, Recounts, PointerTarget, CertifiedOrEmpty, BeforeHolds, PartitionOf;
  }

  lemma MiddleSettles(db: Database, t: Transaction, db': Database, t': Transaction)
    requires Statement(db, t, db', t') && VersionPromise(db, t) && 4 <= Rank(t.phase) < 8
    ensures VersionPromise(db', t')
  {
    hide ReadsPointer, TakesBaseline, ChecksBefore, ChecksPlan, WritesVersion, ChecksEvidence, InsertsRows, Publishes, MovesPointer, StampsReceipt, Recounts,
      VersionPromise;
    match t.phase
    case PlanUnused => WrittenPromise(db, t, db', t');
    case VersionReady => KeptPromise(db, t, db', t') by { CheckLeaves(db, t, t'); }
    case NoConflict => KeptPromise(db, t, db', t') by { InsertLeavesVersion(db, t, t', db'.nextId); }
    case RowsInserted => PublishedPromise(db, t, db', t');
  }

  lemma WrittenPromise(db: Database, t: Transaction, db': Database, t': Transaction)
    requires WritesVersion(db, t, t') && VersionPromise(db, t) && t.phase.PlanUnused? && db'.versions == db.versions
    ensures VersionPromise(db', t')
  {
  }

  lemma PublishedPromise(db: Database, t: Transaction, db': Database, t': Transaction)
    requires Publishes(db, t, t') && VersionPromise(db, t) && t.phase.RowsInserted? && db'.versions == db.versions
    ensures VersionPromise(db', t')
  {
  }

  /** A statement that leaves what the transaction does to its version row alone. */
  lemma KeptPromise(db: Database, t: Transaction, db': Database, t': Transaction)
    requires VersionPromise(db, t) && db'.versions == db.versions
    requires t'.op == t.op && t'.newVersion == t.newVersion && t'.publishes == t.publishes
    requires (Rank(t'.phase) >= 5 ==> Rank(t.phase) >= 5) && (Rank(t'.phase) >= 8 ==> Rank(t.phase) >= 8) && Rank(t.phase) <= Rank(t'.phase)
    ensures VersionPromise(db', t')
  {
  }

  lemma CheckLeaves(db: Database, t: Transaction, t': Transaction)
    requires ChecksEvidence(db, t, t')
    ensures t' == t.(phase := t'.phase)
  {
    hide DocumentAgrees, PartitionOf;
  }

  lemma InsertLeavesVersion(db: Database, t: Transaction, t': Transaction, nextId: nat)
    requires InsertsRows(db, t, t', nextId)
    ensures t'.op == t.op && t'.newVersion == t.newVersion && t'.publishes == t.publishes
  {
    hide MissingRows, PartitionOf;
  }

  lemma MoveLeaves(db: Database, t: Transaction, t': Transaction)
    requires MovesPointer(db, t, t')
    ensures t'.op == t.op && t'.newVersion == t.newVersion && t'.publishes == t.publishes
  {
    hide StampOf;
  }

  lemma StampLeaves(db: Database, t: Transaction, t': Transaction)
    requires StampsReceipt(db, t, t')
    ensures t'.op == t.op && t'.newVersion == t.newVersion && t'.publishes == t.publishes
  {
    hide ReceiptAdmitted;
  }

  lemma CountLeaves(db: Database, t: Transaction, t': Transaction)
    requires Recounts(db, t, t')
    ensures t'.op == t.op && t'.newVersion == t.newVersion && t'.publishes == t.publishes
  {
    hide PartitionOf;
  }

  lemma LateSettles(db: Database, t: Transaction, db': Database, t': Transaction)
    requires Statement(db, t, db', t') && VersionPromise(db, t) && 8 <= Rank(t.phase)
    ensures VersionPromise(db', t')
  {
    hide ReadsPointer, TakesBaseline, ChecksBefore, ChecksPlan, WritesVersion, ChecksEvidence, InsertsRows, Publishes, MovesPointer, StampsReceipt, Recounts,
      VersionPromise;
    if t.phase.Published? {
      MoveLeaves(db, t, t');
    } else if t.phase.Pointed? {
      StampLeaves(db, t, t');
    } else {
      CountLeaves(db, t, t');
    }
    KeptPromise(db, t, db', t');
  }

  lemma ExecuteSettles(db: Database, t: Transaction, db': Database, t': Transaction)
    requires Statement(db, t, db', t') && VersionPromise(db, t)
    ensures VersionPromise(db', t')
  {
    hide Statement, VersionPromise;
    if Rank(t.phase) < 4 {
      EarlySettles(db, t, db', t');
    } else if Rank(t.phase) < 8 {
      MiddleSettles(db, t, db', t');
    } else {
      LateSettles(db, t, db', t');
    }
  }

  lemma CommitSettles(db: Database, t: Transaction)
    requires (forall r :: r in db.receipts ==> ReceiptSettled(db, r)) && VersionPromise(db, t)
    requires DbHolds(db) && TxnHolds(db, t) && t.phase.Recounted? && t.changed
    ensures forall r :: r in Committed(db, t).receipts ==> ReceiptSettled(Committed(db, t), r)
  {
    var db' := Committed(db, t);
    CommitParts(db, t);
    assert PartitionHolds(db, t.op.target.version);
    hide DbHolds, TxnHolds, Committed, OwnHolds, PartitionOf, PastRecountHolds, ReceiptPromise, Certified, Split, BaselineHolds, VersionPromise, DocumentAgrees, PointerPromise;
    CommittedVersions(db, t);
    forall r | r in db'.receipts ensures ReceiptSettled(db', r) {
      CommittedPartition(db, t, r.version);
      if r in db.receipts {
        StillWithin(db, t, r);
      } else {
        NewWithin(db, t, r);
      }
    }
  }

  lemma CommittedVersions(db: Database, t: Transaction)
    requires VersionPromise(db, t) && t.phase.Recounted? && t.receipt.Some?
    ensures var db' := Committed(db, t);
      && t.op.target.version in db'.versions && db'.versions[t.op.target.version] == VersionRow(t.op.target.hash, true)
      && db'.receipts == db.receipts + [t.receipt.value]
      && forall w :: w != t.op.target.version && w in db.versions ==> w in db'.versions && db'.versions[w] == db.versions[w]
  {
    hide PartitionOf;
  }

  lemma StillWithin(db: Database, t: Transaction, r: Receipt)
    requires ReceiptSettled(db, r) && OwnHolds(db, t) && VersionPromise(db, t) && t.phase.Recounted? && t.receipt.Some?
    requires PartitionOf(Committed(db, t), r.version) == if r.version == t.op.target.version then PartitionOf(db, r.version) + t.own else PartitionOf(db, r.version)
    ensures ReceiptSettled(Committed(db, t), r)
  {
    CommittedVersions(db, t);
    hide PartitionOf, Committed, NoForeign, Used;
  }

  lemma NewWithin(db: Database, t: Transaction, r: Receipt)
    requires t.receipt == Some(r) && ReceiptPromise(db, t, r) && PastRecountHolds(t) && VersionPromise(db, t) && t.phase.Recounted?
    requires BaselineHolds(db, t) && PartitionHolds(db, t.op.target.version) && OwnHolds(db, t)
    requires PartitionOf(Committed(db, t), r.version) == if r.version == t.op.target.version then PartitionOf(db, r.version) + t.own else PartitionOf(db, r.version)
    ensures ReceiptSettled(Committed(db, t), r)
  {
    CommittedVersions(db, t);
    hide PartitionOf, Committed, NoForeign, Used, Certified;
  }

  lemma AppendSettles(db: Database, db': Database, v: Version, k: EvidenceKey)
    requires Appended(db, db', v, k) && forall r :: r in db.receipts ==> ReceiptSettled(db, r)
    ensures forall r :: r in db'.receipts ==> ReceiptSettled(db', r)
  {
    hide PartitionOf;
  }

  lemma StepSettles(s: State, e: Event, s': State)
    requires Holds(s) && Settled(s) && Step(s, e, s')
    ensures Settled(s')
  {
    hide DbHolds, TxnHolds, Statement, ForeignAppend, ForeignPoint, ForeignVersion, Committed, ReplayReported, ReceiptSettled, VersionPromise;
    match e
    case Begin(op, stale) => assert VersionPromise(s'.db, Begun(op, stale)) by { BegunPromise(s.db, op, stale); }
    case Execute =>
      ExecuteSettles(s.db, s.txn.value, s'.db, s'.txn.value);
      ExecuteLeaves(s.db, s.txn.value, s'.db, s'.txn.value);
      SameSettled(s.db, s'.db);
    case GiveUp =>
    case ReportReplay =>
    case Commit => CommitSettles(s.db, s.txn.value);
    case Append(v, k, content) =>
      AppendIsAppended(s, s', v, k, content);
      AppendSettles(s.db, s'.db, v, k);
      if s.txn.Some? { SameVersionPromise(s.db, s'.db, s.txn.value); }
    case Point(v, stamp) =>
      PointLeavesTables(s, s', v, stamp);
      SameSettled(s.db, s'.db);
      if s.txn.Some? { SameVersionPromise(s.db, s'.db, s.txn.value); }
    case Insert(v, hash) => InsertSettles(s, s', v, hash);
  }

  lemma BegunPromise(db: Database, op: Operation, stale: bool)
    ensures VersionPromise(db, Begun(op, stale))
  {
  }

  lemma SameSettled(db: Database, db': Database)
    requires db'.versions == db.versions && db'.evidence == db.evidence && db'.receipts == db.receipts
    requires forall r :: r in db.receipts ==> ReceiptSettled(db, r)
    ensures forall r :: r in db'.receipts ==> ReceiptSettled(db', r)
  {
    forall r | r in db'.receipts ensures ReceiptSettled(db', r) { assert ReceiptSettled(db, r); }
  }

  lemma SameVersionPromise(db: Database, db': Database, t: Transaction)
    requires VersionPromise(db, t) && db'.versions == db.versions
    ensures VersionPromise(db', t)
  {
  }

  lemma PointLeavesTables(s: State, s': State, v: Version, stamp: Stamp)
    requires ForeignPoint(s, s', v, stamp)
    ensures s'.db.versions == s.db.versions && s'.db.evidence == s.db.evidence && s'.db.receipts == s.db.receipts && s'.txn == s.txn
    ensures s'.db.pointer == Some(Pointer(v, stamp)) && stamp >= StampOf(s.db)
  {
  }

  lemma InsertSettles(s: State, s': State, v: Version, hash: Hash)
    requires Settled(s) && ForeignVersion(s, s', v, hash)
    ensures Settled(s')
  {
    forall r | r in s'.db.receipts ensures ReceiptSettled(s'.db, r) { assert ReceiptSettled(s.db, r); }
  }

  lemma {:induction false} RunSettles(states: seq<State>, events: seq<Event>, i: nat)
    requires Run(states, events) && i < |states|
    ensures Holds(states[i]) && Settled(states[i])
    decreases i
  {
    hide Holds, Step, ReceiptSettled, VersionPromise;
    RunKeeps(states, events, i);
    if i > 0 {
      RunSettles(states, events, i - 1);
      StepSettles(states[i - 1], events[i - 1], states[i]);
    }
  }

  // ------------------------------------------------------------- what a receipt certifies

  /** In every reachable state each receipt certifies exactly the union of the
      documents its version had published when it was written, holds no foreign
      row, and all its rows are still in the partition unchanged. */
  lemma ReceiptCertifiesPublished(states: seq<State>, events: seq<Event>, i: nat, n: nat)
    requires Run(states, events) && i < |states| && n < |states[i].db.receipts|
    ensures var db, r := states[i].db, states[i].db.receipts[n];
      && Contents(r.certified) == PublishedDocuments(db.receipts[..n + 1], r.version)
      && NoForeign(r.certified, db.foreign)
      && Within(r.certified, PartitionOf(db, r.version))
  {
    RunSettles(states, events, i);
    var db := states[i].db;
    hide Step, PartitionOf, Contents, PublishedDocuments, NoForeign, Within, Used, StampsHold, PlansUnique, PartitionHolds;
    assert ReceiptHolds(db, n);
    assert ReceiptSettled(db, db.receipts[n]);
  }

  /** So every row of every published document is persisted with the document's
      own content, for good. */
  lemma PublishedRowsPersist(states: seq<State>, events: seq<Event>, i: nat, n: nat, k: EvidenceKey)
    requires Run(states, events) && i < |states| && n < |states[i].db.receipts|
    requires k in states[i].db.receipts[n].identity.document
    ensures var db, r := states[i].db, states[i].db.receipts[n];
      k in PartitionOf(db, r.version) && PartitionOf(db, r.version)[k].content == r.identity.document[k]
  {
    ReceiptCertifiesPublished(states, events, i, n);
    var db, r := states[i].db, states[i].db.receipts[n];
    LastDocument(db.receipts[..n + 1]);
    hide Run, PartitionOf, PublishedDocuments;
    assert k in Contents(r.certified) && Contents(r.certified)[k] == r.identity.document[k];
  }

  lemma LastDocument(receipts: seq<Receipt>)
    requires receipts != []
    ensures var r := receipts[|receipts| - 1];
      forall k :: k in r.identity.document ==> k in PublishedDocuments(receipts, r.version) && PublishedDocuments(receipts, r.version)[k] == r.identity.document[k]
  {
  }

  /** A plan digest publishes at most once. */
  lemma PlanPublishesOnce(states: seq<State>, events: seq<Event>, i: nat, a: nat, b: nat)
    requires Run(states, events) && i < |states|
    requires a < |states[i].db.receipts| && b < |states[i].db.receipts|
    requires states[i].db.receipts[a].plan == states[i].db.receipts[b].plan
    ensures a == b
  {
    RunKeeps(states, events, i);
    hide Step, PartitionHolds, ReceiptsHold, StampsHold, ForeignUsed, TxnHolds;
  }

  // ------------------------------------------------------- what ends publication

  predicate ForeignIn(db: Database, v: Version) {
    exists k :: k in PartitionOf(db, v) && PartitionOf(db, v)[k].id in db.foreign
  }

  /** A publication of the version that has already recounted the partition. */
  predicate PastRecount(s: State, v: Version) {
    s.txn.Some? && s.txn.value.phase.Recounted? && s.txn.value.op.target.version == v
  }

  lemma RecountRefused(db: Database, t: Transaction)
    requires PartitionHolds(db, t.op.target.version) && TxnHolds(db, t) && t.phase.Stamped?
    requires ForeignIn(db, t.op.target.version)
    ensures |PartitionOf(db, t.op.target.version) + t.own| != t.before + |t.own|
  {
    hide TxnHolds, PartitionOf;
    if |PartitionOf(db, t.op.target.version) + t.own| == t.before + |t.own| {
      RecountedTxn(db, t);
      BaselineOf(db, t);
    }
  }

  lemma BaselineOf(db: Database, t: Transaction)
    requires TxnHolds(db, t) && t.phase.Stamped?
    ensures BaselineHolds(db, t)
  {
    hide PartitionOf, Certified, OwnHolds, ReceiptPromise, PastRecountHolds, DocumentAgrees, PointerPromise;
  }

  /** Rows are never changed or removed, and a foreign row stays known as one. */
  lemma PartitionStays(s: State, e: Event, s': State, v: Version, k: EvidenceKey)
    requires Holds(s) && Step(s, e, s') && k in PartitionOf(s.db, v)
    ensures k in PartitionOf(s'.db, v) && PartitionOf(s'.db, v)[k] == PartitionOf(s.db, v)[k]
    ensures s.db.foreign <= s'.db.foreign
  {
    hide DbHolds, TxnHolds, Committed, ForeignAppend, ForeignPoint, ForeignVersion, Statement, ReplayReported, PartitionOf;
    match e
    case Append(w, j, content) => AppendIsAppended(s, s', w, j, content);
    case Commit =>
      CommitParts(s.db, s.txn.value);
      CommittedPartition(s.db, s.txn.value, v);
      CommitForeign(s.db, s.txn.value);
      if v == s.txn.value.op.target.version { OwnIsNew(s.db, s.txn.value, k); }
    case Execute => ExecuteLeaves(s.db, s.txn.value, s'.db, s'.txn.value); SamePartition(s.db, s'.db, v);
    case Point(w, stamp) => PointLeaves(s, s', w, stamp); SamePartition(s.db, s'.db, v);
    case Insert(w, hash) => InsertLeaves(s, s', w, hash); SamePartition(s.db, s'.db, v);
    case _ =>
  }

  lemma ForeignStays(s: State, e: Event, s': State, v: Version)
    requires Holds(s) && Step(s, e, s') && ForeignIn(s.db, v)
    ensures ForeignIn(s'.db, v)
  {
    var k :| k in PartitionOf(s.db, v) && PartitionOf(s.db, v)[k].id in s.db.foreign;
    hide Holds, Step, PartitionOf, ForeignIn;
    PartitionStays(s, e, s', v, k);
    Shown(s'.db, v, k);
  }

  lemma Shown(db: Database, v: Version, k: EvidenceKey)
    requires k in PartitionOf(db, v) && PartitionOf(db, v)[k].id in db.foreign
    ensures ForeignIn(db, v)
  {
  }

  lemma OwnIsNew(db: Database, t: Transaction, k: EvidenceKey)
    requires OwnHolds(db, t) && k in PartitionOf(db, t.op.target.version)
    ensures k !in t.own
  {
  }

  lemma CommitForeign(db: Database, t: Transaction)
    ensures Committed(db, t).foreign == db.foreign
    ensures Committed(db, t).receipts == if t.receipt.Some? then db.receipts + [t.receipt.value] else db.receipts
    ensures Committed(db, t).pointer == SeenPointer(db, t)
  {
  }

  lemma SamePartition(db: Database, db': Database, v: Version)
    requires db'.evidence == db.evidence
    ensures PartitionOf(db', v) == PartitionOf(db, v)
  {
  }

  lemma ExecuteLeaves(db: Database, t: Transaction, db': Database, t': Transaction)
    requires Statement(db, t, db', t')
    ensures db' == db.(nextId := db'.nextId) && t'.op == t.op
    ensures t.phase.Stamped? ==> Recounts(db, t, t')
  {
    hide ReadsPointer, TakesBaseline, ChecksBefore, ChecksPlan, WritesVersion, ChecksEvidence, InsertsRows, Publishes, MovesPointer, StampsReceipt, Recounts;
  }

  lemma OnlyRecountRecounts(db: Database, t: Transaction, db': Database, t': Transaction)
    requires Statement(db, t, db', t') && t'.phase.Recounted?
    ensures t.phase.Stamped?
  {
    hide ReadsPointer, TakesBaseline, ChecksBefore, ChecksPlan, WritesVersion, ChecksEvidence, InsertsRows, Publishes, MovesPointer, StampsReceipt, Recounts;
  }

  lemma PointLeaves(s: State, s': State, v: Version, stamp: Stamp)
    requires ForeignPoint(s, s', v, stamp)
    ensures s'.db.evidence == s.db.evidence && s'.db.receipts == s.db.receipts && s'.db.foreign == s.db.foreign && s'.txn == s.txn
  {
  }

  lemma InsertLeaves(s: State, s': State, v: Version, hash: Hash)
    requires ForeignVersion(s, s', v, hash)
    ensures s'.db.evidence == s.db.evidence && s'.db.receipts == s.db.receipts && s'.db.foreign == s.db.foreign && s'.db.pointer == s.db.pointer && s'.txn == s.txn
  {
  }

  /** With a foreign row in the partition, a publication of the version that has
      not recounted yet never will, and none that starts later either. */
  lemma StepCannotPublish(s: State, e: Event, s': State, v: Version)
    requires Holds(s) && Step(s, e, s') && ForeignIn(s.db, v) && !PastRecount(s, v)
    ensures !PastRecount(s', v)
    ensures s'.db.receipts == s.db.receipts
      || (|s'.db.receipts| == |s.db.receipts| + 1 && s'.db.receipts[..|s.db.receipts|] == s.db.receipts && s'.db.receipts[|s.db.receipts|].version != v)
  {
    hide DbHolds, TxnHolds, Committed, ForeignAppend, ForeignPoint, ForeignVersion, Statement, ReplayReported, ForeignIn;
    match e
    case Append(w, j, content) => AppendIsAppended(s, s', w, j, content);
    case Commit =>
      CommitParts(s.db, s.txn.value);
      CommitForeign(s.db, s.txn.value);
      hide ReceiptPromise, BaselineHolds, OwnHolds, PastRecountHolds, PointerPromise, DocumentAgrees;
      assert s.txn.value.receipt.value.version == s.txn.value.op.target.version by { PromisedVersion(s.db, s.txn.value, s.txn.value.receipt.value); }
    case Execute =>
      ExecuteLeaves(s.db, s.txn.value, s'.db, s'.txn.value);
      if PastRecount(s', v) {
        OnlyRecountRecounts(s.db, s.txn.value, s'.db, s'.txn.value);
        PartitionAt(s.db, v);
        RecountRefused(s.db, s.txn.value);
      }
    case Point(w, stamp) => PointLeaves(s, s', w, stamp);
    case Insert(w, hash) => InsertLeaves(s, s', w, hash);
    case _ =>
  }

  lemma PartitionAt(db: Database, v: Version)
    requires DbHolds(db)
    ensures PartitionHolds(db, v)
  {
    hide PartitionHolds;
  }

  lemma PromisedVersion(db: Database, t: Transaction, r: Receipt)
    requires ReceiptPromise(db, t, r)
    ensures r.version == t.op.target.version
  {
    hide Within, PartitionOf;
  }

  /** Once a foreign row is in a version's partition and no publication of the
      version is past its recount, that version is never published again. */
  lemma {:induction false} ForeignRowEndsPublication(states: seq<State>, events: seq<Event>, v: Version, i: nat, j: nat)
    requires Run(states, events) && i <= j < |states|
    requires ForeignIn(states[i].db, v) && !PastRecount(states[i], v)
    ensures ForeignIn(states[j].db, v) && !PastRecount(states[j], v)
    ensures |states[i].db.receipts| <= |states[j].db.receipts| && states[j].db.receipts[..|states[i].db.receipts|] == states[i].db.receipts
    ensures forall n :: |states[i].db.receipts| <= n < |states[j].db.receipts| ==> states[j].db.receipts[n].version != v
    decreases j
  {
    hide Holds, Step, ForeignIn, PastRecount;
    if j > i {
      ForeignRowEndsPublication(states, events, v, i, j - 1);
      RunKeeps(states, events, j - 1);
      ForeignStays(states[j - 1], events[j - 1], states[j], v);
      StepCannotPublish(states[j - 1], events[j - 1], states[j], v);
    }
  }

  /** The state after another writer's row has landed in a version's partition. */
  function Landed(s: State, v: Version, k: EvidenceKey, content: Content): State {
    s.(db := s.db.(
      evidence := s.db.evidence[v := PartitionOf(s.db, v)[k := Fact(content, s.db.nextId)]],
      nextId := s.db.nextId + 1, foreign := s.db.foreign + {s.db.nextId}))
  }

  lemma LandsIn(s: State, v: Version, k: EvidenceKey, content: Content)
    requires v in s.db.versions && k !in PartitionOf(s.db, v) && !AppendBlocked(s.txn, v, k)
    ensures ForeignAppend(s, Landed(s, v, k, content), v, k, content)
    ensures ForeignIn(Landed(s, v, k, content).db, v) && k in PartitionOf(Landed(s, v, k, content).db, v)
  {
    assert PartitionOf(Landed(s, v, k, content).db, v)[k].id == s.db.nextId;
  }

  /** A foreign row beside a transaction's own rows stays when the transaction commits. */
  lemma LandedStays(db: Database, t: Transaction, k: EvidenceKey)
    requires k in PartitionOf(db, t.op.target.version) && PartitionOf(db, t.op.target.version)[k].id in db.foreign && k !in t.own
    ensures ForeignIn(Committed(db, t), t.op.target.version) && k in PartitionOf(Committed(db, t), t.op.target.version)
  {
    hide Committed, PartitionOf;
    CommitForeign(db, t);
    CommittedPartition(db, t, t.op.target.version);
    Shown(Committed(db, t), t.op.target.version, k);
  }

  /** The exception is real: between the recount and the commit any foreign row is
      admitted, the publication commits beside it, and its receipt leaves it out. */
  lemma RecountWindow(s: State, k: EvidenceKey, content: Content) returns (landed: State, committed: State)
    requires Holds(s) && Settled(s)
    requires s.txn.Some? && s.txn.value.phase.Recounted? && s.txn.value.changed && !s.txn.value.newVersion
    requires k !in PartitionOf(s.db, s.txn.value.op.target.version) && k !in s.txn.value.own
    ensures Step(s, Append(s.txn.value.op.target.version, k, content), landed) && Step(landed, Commit, committed)
    ensures var v := s.txn.value.op.target.version;
      && ForeignIn(committed.db, v) && |committed.db.receipts| == |s.db.receipts| + 1
      && committed.db.receipts[|s.db.receipts|].version == v && k !in committed.db.receipts[|s.db.receipts|].certified
      && k in PartitionOf(committed.db, v)
  {
    var t := s.txn.value;
    var v := t.op.target.version;
    hide PartitionOf, Committed, ForeignAppend, ForeignIn, DbHolds, TxnHolds, VersionPromise, ReceiptSettled, ReceiptPromise, BaselineHolds, OwnHolds,
      PastRecountHolds, PointerPromise, DocumentAgrees, Landed, Certified;
    VersionThere(s.db, t);
    CommitParts(s.db, t);
    WindowKey(s.db, t, k);
    PromisedVersion(s.db, t, t.receipt.value);
    LandsIn(s, v, k, content);
    landed := Landed(s, v, k, content);
    LandedParts(s, v, k, content);
    committed := State(Committed(landed.db, t), None);
    CommitForeign(landed.db, t);
    LandedStays(landed.db, t, k);
  }

  lemma LandedParts(s: State, v: Version, k: EvidenceKey, content: Content)
    ensures var landed := Landed(s, v, k, content);
      && landed.txn == s.txn && landed.db.receipts == s.db.receipts
      && k in PartitionOf(landed.db, v) && PartitionOf(landed.db, v)[k].id in landed.db.foreign
  {
  }

  lemma VersionThere(db: Database, t: Transaction)
    requires VersionPromise(db, t) && t.phase.Recounted? && !t.newVersion
    ensures t.op.target.version in db.versions
  {
  }

  lemma WindowKey(db: Database, t: Transaction, k: EvidenceKey)
    requires t.receipt.Some? && ReceiptPromise(db, t, t.receipt.value)
    requires k !in PartitionOf(db, t.op.target.version) && k !in t.own
    ensures k !in t.receipt.value.certified
  {
    hide PartitionOf, Stampable;
  }

  // ------------------------------------------------------------- what ends a replay

  /** Why a settled receipt no longer certifies: the pointer has a later stamp, or
      the partition has more rows. */
  predicate Outdated(r: Receipt, db: Database) {
    || (db.pointer.Some? && db.pointer.value.stamp > r.pointerStamp)
    || (exists k :: k in PartitionOf(db, r.version) && k !in r.certified)
  }

  lemma NotCertifyingIsOutdated(db: Database, r: Receipt)
    requires StampsHold(db) && ReceiptSettled(db, r) && r in db.receipts
    ensures Certifies(r, db) <==> !Outdated(r, db)
  {
    hide PartitionOf;
    SameOrMore(r.certified, PartitionOf(db, r.version));
  }

  lemma SameOrMore(c: Partition, p: Partition)
    requires Within(c, p)
    ensures p == c || exists k :: k in p && k !in c
  {
    if forall k :: k in p ==> k in c {
      assert p.Keys <= c.Keys;
    }
  }

  lemma PointerStaysLater(s: State, e: Event, s': State, stamp: Stamp)
    requires Holds(s) && Step(s, e, s') && s.db.pointer.Some? && s.db.pointer.value.stamp > stamp
    ensures s'.db.pointer.Some? && s'.db.pointer.value.stamp > stamp
  {
    hide DbHolds, TxnHolds, Committed, ForeignAppend, ForeignVersion, Statement, ReplayReported;
    match e
    case Append(w, j, content) => AppendIsAppended(s, s', w, j, content);
    case Commit => CommitForeign(s.db, s.txn.value); CommitParts(s.db, s.txn.value); LaterPointer(s.db, s.txn.value);
    case Execute => ExecuteLeaves(s.db, s.txn.value, s'.db, s'.txn.value);
    case Insert(w, hash) => InsertLeaves(s, s', w, hash);
    case _ =>
  }

  lemma LaterPointer(db: Database, t: Transaction)
    requires PointerPromise(db, t) && db.pointer.Some?
    ensures SeenPointer(db, t).Some? && SeenPointer(db, t).value.stamp >= db.pointer.value.stamp
  {
  }

  /** What is outdated stays outdated. */
  lemma StaysOutdated(s: State, e: Event, s': State, r: Receipt)
    requires Holds(s) && Step(s, e, s') && Outdated(r, s.db)
    ensures Outdated(r, s'.db)
  {
    hide Holds, Step, PartitionOf;
    if s.db.pointer.Some? && s.db.pointer.value.stamp > r.pointerStamp {
      PointerStaysLater(s, e, s', r.pointerStamp);
    } else {
      var k :| k in PartitionOf(s.db, r.version) && k !in r.certified;
      PartitionStays(s, e, s', r.version, k);
    }
  }

  /** Any append to a receipt's partition and any re-stamp of the pointer ends the
      replays it proves. */
  lemma InterferenceEndsReplay(s: State, e: Event, s': State, r: Receipt)
    requires Holds(s) && Settled(s) && Step(s, e, s') && r in s.db.receipts
    requires e.Point? || (e.Append? && e.v == r.version)
    ensures Outdated(r, s'.db) && !Certifies(r, s'.db)
  {
    assert ReceiptSettled(s.db, r);
    hide TxnHolds, PartitionHolds, ReceiptsHold, PlansUnique, ForeignAppend, PartitionOf;
    if e.Append? {
      AppendIsAppended(s, s', e.v, e.k, e.content);
      hide StampsHold;
      assert e.k in PartitionOf(s'.db, r.version) && e.k !in r.certified;
    } else {
      PointLeavesTables(s, s', e.v, e.stamp);
    }
  }

  /** And it never returns: over the rest of the run that receipt proves no replay. */
  lemma {:induction false} ReplayNeverReturns(states: seq<State>, events: seq<Event>, r: Receipt, i: nat, j: nat)
    requires Run(states, events) && i <= j < |states|
    requires r in states[i].db.receipts && !Certifies(r, states[i].db)
    ensures Outdated(r, states[j].db) && !Certifies(r, states[j].db)
    decreases j
  {
    hide Holds, Step, Certifies, Outdated, ReceiptSettled;
    if j == i {
      RunSettles(states, events, i);
      NotCertifyingIsOutdated(states[i].db, r) by { StampsOf(states[i]); }
    } else {
      ReplayNeverReturns(states, events, r, i, j - 1);
      RunSettles(states, events, j - 1);
      StaysOutdated(states[j - 1], events[j - 1], states[j], r);
      OutdatedDoesNotCertify(r, states[j].db);
    }
  }

  lemma StampsOf(s: State)
    requires Holds(s)
    ensures StampsHold(s.db)
  {
    hide StampsHold, TxnHolds, PartitionHolds, ReceiptsHold, PlansUnique;
  }

  lemma OutdatedDoesNotCertify(r: Receipt, db: Database)
    requires Outdated(r, db)
    ensures !Certifies(r, db)
  {
  }

  // ------------------------------------------------------- a replay over its whole run

  /** The events from a transaction's begin to its replay report. */
  ghost predicate Replays(states: seq<State>, events: seq<Event>, j: nat, i: nat) {
    && Run(states, events) && j < i < |events| && events[j].Begin? && events[i].ReportReplay?
    && forall m :: j < m < i ==> !events[m].Begin?
  }

  /** A step of another writer leaves the open transaction and the receipts alone. */
  lemma ForeignLeaves(s: State, e: Event, s': State)
    requires Step(s, e, s') && (e.Append? || e.Point? || e.Insert?)
    ensures s'.txn == s.txn && s'.db.receipts == s.db.receipts
  {
  }

  /** A transaction that has not yet read its pointer was never anything else. */
  lemma OnlyForeignBefore(s: State, e: Event, s': State)
    requires Step(s, e, s') && !e.Begin? && s'.txn.Some? && s'.txn.value.phase.Locked?
    ensures e.Append? || e.Point? || e.Insert?
  {
    hide ForeignAppend, ForeignPoint, ForeignVersion, Committed, ReplayReported, ReadsPointer, TakesBaseline, ChecksBefore, ChecksPlan, WritesVersion,
      ChecksEvidence, InsertsRows, Publishes, MovesPointer, StampsReceipt, Recounts;
  }

  lemma {:induction false} StillLocked(states: seq<State>, events: seq<Event>, j: nat, n: nat, i: nat)
    requires Replays(states, events, j, i) && j < n <= i
    ensures states[n].txn.Some? && states[n].txn.value.phase.Locked?
    ensures n < i ==> events[n].Append? || events[n].Point? || events[n].Insert?
    decreases i - n
  {
    assert Step(states[n], events[n], states[n + 1]);
    hide ReplayReported, Statement, Committed, ForeignAppend, ForeignPoint, ForeignVersion;
    if n < i {
      StillLocked(states, events, j, n + 1, i);
      hide Step;
      OnlyForeignBefore(states[n], events[n], states[n + 1]);
      ForeignLeaves(states[n], events[n], states[n + 1]);
    }
  }

  lemma {:induction false} ReplayWaits(states: seq<State>, events: seq<Event>, j: nat, n: nat, i: nat)
    requires Replays(states, events, j, i) && j < n <= i
    ensures states[n].txn == Some(Begun(events[j].op, events[j].stale)) && states[n].db.receipts == states[j].db.receipts
    decreases n
  {
    if n == j + 1 {
      assert Step(states[j], events[j], states[j + 1]);
    } else {
      ReplayWaits(states, events, j, n - 1, i);
      StillLocked(states, events, j, n - 1, i);
      hide Step;
      ForeignLeaves(states[n - 1], events[n - 1], states[n]);
    }
  }

  lemma ReportedBy(s: State, s': State, op: Operation, stale: bool) returns (r: Receipt)
    requires Step(s, ReportReplay, s') && s.txn == Some(Begun(op, stale))
    ensures s'.db == s.db && r in s.db.receipts && SameOperation(r, op) && Certifies(r, s.db) && (stale ==> r.plan == op.plan)
  {
    hide FactsExact, Certifies, BeforeHolds;
    if stale {
      r :| r in s.db.receipts && SameOperation(r, op) && r.plan == op.plan && Certifies(r, s.db);
    } else {
      r :| r in s.db.receipts && SameOperation(r, op) && Certifies(r, s.db);
    }
  }

  /** An apply that ends as a replay found its operation published before it began, by
      its own plan if the plan is stale, and from its begin to its end nobody wrote a
      receipt, moved or re-stamped the pointer, or added a row to the partition. */
  lemma ReplayLeavesTables(states: seq<State>, events: seq<Event>, j: nat, i: nat) returns (r: Receipt)
    requires Replays(states, events, j, i)
    ensures states[i + 1].db.receipts == states[j].db.receipts
    ensures r in states[j].db.receipts && SameOperation(r, events[j].op) && (events[j].stale ==> r.plan == events[j].op.plan)
    ensures states[i + 1].db.pointer == states[j].db.pointer == Some(Pointer(r.version, r.pointerStamp))
    ensures PartitionOf(states[i + 1].db, r.version) == PartitionOf(states[j].db, r.version) == r.certified
  {
    ReplayWaits(states, events, j, i, i);
    assert Step(states[i], events[i], states[i + 1]);
    hide Step, SameOperation, PartitionOf;
    r := ReportedBy(states[i], states[i + 1], events[j].op, events[j].stale);
    if !Certifies(r, states[j].db) { ReplayNeverReturns(states, events, r, j, i); }
  }
}
