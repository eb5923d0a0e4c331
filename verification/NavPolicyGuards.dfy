/** What the guards of a publication ask, in the columns of the tables they read: when
    a plan is still current, when a replay is proven, when a statement or another
    writer goes through, and which moments a committed publication has passed. */
module NavPolicyGuards {
  import opened Prelude
  import opened NavPolicy
  import opened NavPolicyRuns
  import opened NavPolicyStore

  /** The application pointer is on this version with this hash, or there is none. */
  predicate PointsAt(versions: map<Version, VersionRow>, pointer: Option<Pointer>, at: Option<Target>) {
    if at.None?
    then pointer.None? || pointer.value.version !in versions
    else
      && pointer.Some? && pointer.value.version == at.value.version
      && at.value.version in versions && versions[at.value.version].hash == at.value.hash
  }

  /** Pointer and target version are what the plan recorded: the recorded policy is
      current, and the target is absent if it was, else there with the recorded hash. */
  predicate AsPlanned(versions: map<Version, VersionRow>, pointer: Option<Pointer>, op: Operation) {
    && PointsAt(versions, pointer, op.beforePointer)
    && (op.beforeHash.None? ==> op.target.version !in versions)
    && (op.beforeHash.Some? ==> op.target.version in versions && versions[op.target.version].hash == op.beforeHash.value)
  }

  /** The rows are what the last receipt of the version certified, or there are neither. */
  ghost predicate LastCertifies(receipts: seq<Receipt>, v: Version, rows: Partition) {
    || (rows == map[] && forall r :: r in receipts ==> r.version != v)
    || exists n: nat :: n < |receipts| && receipts[n].version == v && receipts[n].certified == rows
         && forall m :: n < m < |receipts| ==> receipts[m].version != v
  }

  function RowsAt(evidence: map<Version, Partition>, v: Version): Partition { if v in evidence then evidence[v] else map[] }

  lemma {:induction false} LastCertified(receipts: seq<Receipt>, v: Version)
    requires HasReceipt(receipts, v)
    ensures exists n: nat ::
      && n < |receipts| && receipts[n].version == v && receipts[n].certified == Certified(receipts, v)
      && forall m :: n < m < |receipts| ==> receipts[m].version != v
    decreases |receipts|
  {
    var last := |receipts| - 1;
    if receipts[last].version != v {
      var r :| r in receipts && r.version == v;
      var i :| 0 <= i < |receipts| && receipts[i] == r;
      assert receipts[..last][i] == r && r in receipts[..last];
      LastCertified(receipts[..last], v);
      var n: nat :| n < last && receipts[..last][n].version == v && receipts[..last][n].certified == Certified(receipts[..last], v)
        && forall m :: n < m < last ==> receipts[..last][m].version != v;
      assert receipts[n] == receipts[..last][n];
      forall m | n < m < |receipts| ensures receipts[m].version != v {
        if m < last { assert receipts[m] == receipts[..last][m]; }
      }
    }
  }

  lemma CertifiedExactly(db: Database, v: Version)
    ensures CertifiedOrEmpty(db, v) <==> LastCertifies(db.receipts, v, RowsAt(db.evidence, v))
  {
    if HasReceipt(db.receipts, v) {
      LastCertified(db.receipts, v);
      var n: nat :| n < |db.receipts| && db.receipts[n].version == v && db.receipts[n].certified == Certified(db.receipts, v)
        && forall m :: n < m < |db.receipts| ==> db.receipts[m].version != v;
      hide Certified;
      if LastCertifies(db.receipts, v, RowsAt(db.evidence, v)) {
        var i: nat :| i < |db.receipts| && db.receipts[i].version == v && db.receipts[i].certified == RowsAt(db.evidence, v)
          && forall m :: i < m < |db.receipts| ==> db.receipts[m].version != v;
        assert i == n;
      }
    }
  }

  lemma PointsAtExactly(db: Database, at: Option<Target>)
    ensures PointerTarget(db) == at <==> PointsAt(db.versions, db.pointer, at)
  {
  }

  lemma PlannedExactly(db: Database, op: Operation)
    ensures BeforeHolds(db, op) <==> AsPlanned(db.versions, db.pointer, op)
  {
    PointsAtExactly(db, op.beforePointer);
  }

  // ------------------------------------------------------------------- the whole apply

  /** When an apply that nobody disturbs publishes: the audited previous policy is
      current, the target is not, its rows are certified, the plan is neither stale nor
      overtaken nor used, hash and rows agree with the document, and the clock goes on. */
  ghost predicate MayPublish(db: Database, op: Operation, stale: bool, clock: Stamp) {
    var v, rows := op.target.version, RowsAt(db.evidence, op.target.version);
    && PointsAt(db.versions, db.pointer, op.previous) && !PointsAt(db.versions, db.pointer, Some(op.target))
    && LastCertifies(db.receipts, v, rows)
    && !stale && AsPlanned(db.versions, db.pointer, op)
    && (forall r :: r in db.receipts ==> r.plan != op.plan && !(r.version == v && r.pointerStamp == clock))
    && (v in db.versions ==> db.versions[v].hash == op.target.hash)
    && (forall k :: k in op.identity.document && k in rows ==> rows[k].content == op.identity.document[k])
    && (db.pointer.Some? ==> db.pointer.value.stamp < clock)
  }

  lemma PublishableExactly(db: Database, op: Operation, stale: bool, clock: Stamp)
    ensures Publishable(db, op, stale, clock) <==> MayPublish(db, op, stale, clock)
  {
    PointsAtExactly(db, op.previous);
    PointsAtExactly(db, Some(op.target));
    PlannedExactly(db, op);
    CertifiedExactly(db, op.target.version);
    hide PointsAt, PointerTarget, BeforeHolds, AsPlanned, CertifiedOrEmpty, LastCertifies;
  }

  /** A published plan was current: the pointer's version and hash are those it recorded,
      and the target was absent or had the recorded hash; otherwise it is refused. */
  lemma AppliedWasCurrent(db: Database, op: Operation, stale: bool, clock: Stamp)
    ensures Publishable(db, op, stale, clock) ==> AsPlanned(db.versions, db.pointer, op)
    ensures !AsPlanned(db.versions, db.pointer, op) ==> !Publishable(db, op, stale, clock)
  {
    PublishableExactly(db, op, stale, clock);
    hide AsPlanned;
  }

  /** A receipt of this very operation that still stands: same policy, document and
      audit, the current pointer event, the published hash, and all rows as certified. */
  lemma StandsExactly(db: Database, r: Receipt, op: Operation)
    ensures SameOperation(r, op) <==> (r.version == op.target.version && r.hash == op.target.hash && r.identity == op.identity)
    ensures Certifies(r, db)
      <==> (db.pointer.Some? && db.pointer.value.version == r.version && db.pointer.value.stamp == r.pointerStamp
        && r.version in db.versions && db.versions[r.version].hash == r.hash && db.versions[r.version].published
        && RowsAt(db.evidence, r.version) == r.certified)
  {
  }

  /** The target is current and published, and holds the document's rows. */
  lemma FactsExactly(db: Database, op: Operation)
    ensures FactsExact(db, op)
      <==> (PointsAt(db.versions, db.pointer, Some(op.target)) && db.versions[op.target.version].published
        && forall k :: k in op.identity.document ==>
             k in RowsAt(db.evidence, op.target.version) && RowsAt(db.evidence, op.target.version)[k].content == op.identity.document[k])
  {
    PointsAtExactly(db, Some(op.target));
  }

  /** When an apply reports its operation as done: some receipt of this very operation,
      and of this very plan unless the plan is still current, has the current pointer
      event, the published hash and all rows, the document's among them. */
  ghost predicate ReplayProven(db: Database, op: Operation, stale: bool) {
    var rows := RowsAt(db.evidence, op.target.version);
    && (forall k :: k in op.identity.document ==> k in rows && rows[k].content == op.identity.document[k])
    && exists r ::
         && r in db.receipts && r.version == op.target.version && r.hash == op.target.hash && r.identity == op.identity
         && (stale || !AsPlanned(db.versions, db.pointer, op) ==> r.plan == op.plan)
         && db.pointer == Some(Pointer(op.target.version, r.pointerStamp))
         && op.target.version in db.versions && db.versions[op.target.version] == VersionRow(op.target.hash, true)
         && r.certified == rows
  }

  lemma ReplayExactly(db: Database, op: Operation, stale: bool)
    ensures ReplayReported(db, op, stale) <==> ReplayProven(db, op, stale)
  {
    PlannedExactly(db, op);
    hide BeforeHolds, AsPlanned;
    if ReplayReported(db, op, stale) {
      if stale || !BeforeHolds(db, op) {
        var r :| r in db.receipts && SameOperation(r, op) && r.plan == op.plan && Certifies(r, db);
        assert r in db.receipts && r.identity == op.identity;
      } else {
        var r :| r in db.receipts && SameOperation(r, op) && Certifies(r, db);
        assert r in db.receipts && r.identity == op.identity;
      }
    }
    if ReplayProven(db, op, stale) {
      var r :| r in db.receipts && r.version == op.target.version && r.hash == op.target.hash && r.identity == op.identity
        && (stale || !AsPlanned(db.versions, db.pointer, op) ==> r.plan == op.plan)
        && db.pointer == Some(Pointer(op.target.version, r.pointerStamp))
        && op.target.version in db.versions && db.versions[op.target.version] == VersionRow(op.target.hash, true)
        && r.certified == RowsAt(db.evidence, op.target.version);
      assert SameOperation(r, op) && Certifies(r, db);
    }
  }

  // ---------------------------------------------------------------- statement by statement

  /** What the next statement of a publishing transaction needs of the database. */
  ghost predicate Admits(db: Database, t: Transaction) {
    var v, rows := t.op.target.version, RowsAt(db.evidence, t.op.target.version);
    match t.phase
    case Locked => PointsAt(db.versions, db.pointer, t.op.previous) && !PointsAt(db.versions, db.pointer, Some(t.op.target))
    case PointerRead => LastCertifies(db.receipts, v, rows)
    case Baselined => !t.stale && AsPlanned(db.versions, db.pointer, t.op)
    case Current => forall r :: r in db.receipts ==> r.plan != t.op.plan
    case PlanUnused => v in db.versions ==> db.versions[v].hash == t.op.target.hash
    case VersionReady => forall k :: k in t.op.identity.document && k in rows ==> rows[k].content == t.op.identity.document[k]
    case NoConflict => true
    case RowsInserted => true
    case Published => true
    case Pointed => t.changed ==>
      var seen := if t.pointer.Some? then t.pointer else db.pointer;
      && seen.Some? && seen.value.version == v
      && forall r :: r in db.receipts ==> r.plan != t.op.plan && !(r.version == v && r.pointerStamp == seen.value.stamp)
    case Stamped => |rows.Keys + t.own.Keys| == t.before + |t.own|
    case Recounted => false
  }

  /** Rows for the document's missing keys, numbered on from the next identity. */
  lemma {:induction false} FreshRows(document: Document, missing: set<EvidenceKey>, first: nat) returns (own: Partition, next: nat)
    requires missing <= document.Keys
    ensures own.Keys == missing && first <= next
    ensures forall k :: k in own ==> own[k].content == document[k] && first <= own[k].id < next
    decreases missing
  {
    if missing == {} {
      own, next := map[], first;
    } else {
      var k :| k in missing;
      own, next := FreshRows(document, missing - {k}, first);
      own, next := own[k := Fact(document[k], next)], next + 1;
    }
  }

  lemma ReadsNeeds(db: Database, t: Transaction, t': Transaction)
    requires t.phase.Locked? && ReadsPointer(db, t, t')
    ensures Admits(db, t) && t'.op == t.op && t'.stale == t.stale
  {
    hide PointerTarget, PointsAt;
    PointsAtExactly(db, t.op.previous);
    PointsAtExactly(db, Some(t.op.target));
  }

  lemma BaselineNeeds(db: Database, t: Transaction, t': Transaction)
    requires t.phase.PointerRead? && TakesBaseline(db, t, t')
    ensures Admits(db, t) && t'.op == t.op && t'.stale == t.stale
  {
    hide CertifiedOrEmpty, LastCertifies;
    CertifiedExactly(db, t.op.target.version);
  }

  lemma BeforeNeeds(db: Database, t: Transaction, t': Transaction)
    requires t.phase.Baselined? && ChecksBefore(db, t, t')
    ensures Admits(db, t) && t'.op == t.op && t'.stale == t.stale
  {
    hide BeforeHolds, AsPlanned;
    PlannedExactly(db, t.op);
  }

  lemma ChecksNeed(db: Database, t: Transaction, t': Transaction)
    requires (t.phase.Current? && ChecksPlan(db, t, t')) || (t.phase.PlanUnused? && WritesVersion(db, t, t')) || (t.phase.VersionReady? && ChecksEvidence(db, t, t'))
    ensures Admits(db, t) && t'.op == t.op && t'.stale == t.stale
  {
  }

  lemma WritesNeed(db: Database, t: Transaction, t': Transaction, nextId: nat)
    requires (t.phase.NoConflict? && InsertsRows(db, t, t', nextId)) || (t.phase.RowsInserted? && Publishes(db, t, t')) || (t.phase.Published? && MovesPointer(db, t, t'))
    ensures Admits(db, t) && t'.op == t.op && t'.stale == t.stale
  {
    hide MissingRows;
  }

  lemma StampNeeds(db: Database, t: Transaction, t': Transaction)
    requires t.phase.Pointed? && StampsReceipt(db, t, t')
    ensures Admits(db, t) && t'.op == t.op && t'.stale == t.stale
  {
  }

  lemma RecountNeeds(db: Database, t: Transaction, t': Transaction)
    requires t.phase.Stamped? && Recounts(db, t, t')
    ensures Admits(db, t) && t'.op == t.op && t'.stale == t.stale
  {
    var rows := RowsAt(db.evidence, t.op.target.version);
    assert (rows + t.own).Keys == rows.Keys + t.own.Keys;
  }

  lemma StatementNeeds(db: Database, t: Transaction, db': Database, t': Transaction)
    requires Statement(db, t, db', t')
    ensures Admits(db, t) && t'.op == t.op && t'.stale == t.stale
  {
    hide Admits, ReadsPointer, TakesBaseline, ChecksBefore, ChecksPlan, WritesVersion, ChecksEvidence, InsertsRows, Publishes, MovesPointer, StampsReceipt,
      Recounts;
    match t.phase
    case Locked => ReadsNeeds(db, t, t');
    case PointerRead => BaselineNeeds(db, t, t');
    case Baselined => BeforeNeeds(db, t, t');
    case Current => ChecksNeed(db, t, t');
    case PlanUnused => ChecksNeed(db, t, t');
    case VersionReady => ChecksNeed(db, t, t');
    case NoConflict => WritesNeed(db, t, t', db'.nextId);
    case RowsInserted => WritesNeed(db, t, t', db'.nextId);
    case Published => WritesNeed(db, t, t', db'.nextId);
    case Pointed => StampNeeds(db, t, t');
    case Stamped => RecountNeeds(db, t, t');
    case Recounted =>
  }

  lemma EarlyGoesOn(db: Database, t: Transaction) returns (t': Transaction)
    requires Admits(db, t) && Rank(t.phase) < 6
    ensures Statement(db, t, db, t')
  {
    hide PointerTarget, BeforeHolds, CertifiedOrEmpty, LastCertifies, PointsAt, AsPlanned;
    var v := t.op.target.version;
    match t.phase
    case Locked =>
      PointsAtExactly(db, t.op.previous);
      PointsAtExactly(db, Some(t.op.target));
      t' := t.(phase := PointerRead);
    case PointerRead =>
      CertifiedExactly(db, v);
      t' := t.(phase := Baselined, before := |PartitionOf(db, v)|, seen := PartitionOf(db, v));
    case Baselined =>
      PlannedExactly(db, t.op);
      t' := t.(phase := Current);
    case Current => t' := t.(phase := PlanUnused);
    case PlanUnused => t' := t.(phase := VersionReady, newVersion := v !in db.versions, changed := true);
    case VersionReady => t' := t.(phase := NoConflict);
    case _ => assert false;
  }

  lemma InsertGoesOn(db: Database, t: Transaction) returns (nextId: nat, t': Transaction)
    requires t.phase.NoConflict?
    ensures InsertsRows(db, t, t', nextId) && t'.op == t.op && t'.phase.RowsInserted?
  {
    var own;
    own, nextId := FreshRows(t.op.identity.document, t.op.identity.document.Keys - PartitionOf(db, t.op.target.version).Keys, db.nextId);
    t' := t.(phase := RowsInserted, own := own, changed := t.changed || own != map[]);
  }

  lemma PublishGoesOn(db: Database, t: Transaction) returns (t': Transaction)
    requires t.phase.RowsInserted?
    ensures Publishes(db, t, t') && t'.op == t.op && t'.phase == Phase.Published
  {
    var v := t.op.target.version;
    var needed := t.newVersion || (v in db.versions && !db.versions[v].published);
    t' := t.(phase := Phase.Published, publishes := needed, changed := t.changed || needed);
  }

  lemma PointGoesOn(db: Database, t: Transaction) returns (t': Transaction)
    requires t.phase.Published?
    ensures MovesPointer(db, t, t') && t'.op == t.op && t'.phase.Pointed?
  {
    var v := t.op.target.version;
    var moves := db.pointer.None? || db.pointer.value.version != v;
    t' := t.(phase := Pointed, pointer := if moves then Some(Pointer(v, StampOf(db))) else None, changed := t.changed || moves);
  }

  lemma StampGoesOn(db: Database, t: Transaction) returns (t': Transaction)
    requires t.phase.Pointed? && Admits(db, t)
    ensures StampsReceipt(db, t, t') && t'.op == t.op && t'.phase.Stamped?
  {
    var v, seen := t.op.target.version, SeenPointer(db, t);
    t' := t.(phase := Stamped, receipt :=
      if t.changed then Some(Receipt(v, t.op.target.hash, t.op.identity, t.op.plan, seen.value.stamp, PartitionOf(db, v) + t.own)) else None);
  }

  lemma RecountGoesOn(db: Database, t: Transaction) returns (t': Transaction)
    requires t.phase.Stamped? && Admits(db, t)
    ensures Recounts(db, t, t') && t'.op == t.op && t'.phase.Recounted?
  {
    var v := t.op.target.version;
    assert (PartitionOf(db, v) + t.own).Keys == RowsAt(db.evidence, v).Keys + t.own.Keys;
    t' := t.(phase := Recounted);
  }

  lemma LateGoesOn(db: Database, t: Transaction) returns (db': Database, t': Transaction)
    requires Admits(db, t) && Rank(t.phase) >= 6
    ensures Statement(db, t, db', t')
  {
    hide InsertsRows, Publishes, MovesPointer, StampsReceipt, Recounts, LastCertifies, PointsAt, AsPlanned;
    db' := db;
    match t.phase
    case NoConflict =>
      var nextId;
      nextId, t' := InsertGoesOn(db, t);
      assert nextId >= db.nextId by { InsertedIds(db, t, t', nextId); }
      db' := db.(nextId := nextId);
    case RowsInserted => t' := PublishGoesOn(db, t);
    case Published => t' := PointGoesOn(db, t);
    case Pointed => t' := StampGoesOn(db, t);
    case Stamped => t' := RecountGoesOn(db, t);
    case _ => assert false;
  }

  lemma InsertedIds(db: Database, t: Transaction, t': Transaction, nextId: nat)
    requires InsertsRows(db, t, t', nextId)
    ensures db.nextId <= nextId
  {
  }

  /** A publishing transaction's next statement goes through exactly when its guard holds
      right then; so a plan that the pointer or the target version has overtaken since
      it was made never gets past the plan check. */
  lemma StatementExactly(s: State)
    requires s.txn.Some?
    ensures (exists s' :: Step(s, Execute, s')) <==> Admits(s.db, s.txn.value)
  {
    hide Admits, Statement;
    if s' :| Step(s, Execute, s') {
      StatementNeeds(s.db, s.txn.value, s'.db, s'.txn.value);
    }
    if Admits(s.db, s.txn.value) {
      var db', t' := s.db, s.txn.value;
      if Rank(s.txn.value.phase) < 6 {
        t' := EarlyGoesOn(s.db, s.txn.value);
      } else {
        db', t' := LateGoesOn(s.db, s.txn.value);
      }
      assert Step(s, Execute, State(db', Some(t')));
    }
  }

  // What each writing statement leaves in the transaction, in the columns.

  /** The baseline is the number of rows the target has. */
  lemma BaselineWrites(db: Database, t: Transaction, t': Transaction)
    requires TakesBaseline(db, t, t')
    ensures t'.before == |RowsAt(db.evidence, t.op.target.version)|
  {
    hide CertifiedOrEmpty;
  }

  /** A version that is not there is new, and that is a change. */
  lemma VersionWrites(db: Database, t: Transaction, t': Transaction)
    requires WritesVersion(db, t, t')
    ensures t'.newVersion <==> t.op.target.version !in db.versions
    ensures t'.newVersion ==> t'.changed
  {
  }

  /** Exactly the document's missing rows, with its content and new identities. */
  lemma RowsWrites(db: Database, t: Transaction, t': Transaction, nextId: nat)
    requires InsertsRows(db, t, t', nextId)
    ensures forall k :: k in t'.own <==> k in t.op.identity.document && k !in RowsAt(db.evidence, t.op.target.version)
    ensures forall k :: k in t'.own ==> t'.own[k].content == t.op.identity.document[k] && db.nextId <= t'.own[k].id < nextId
    ensures t'.changed <==> t.changed || t'.own != map[]
  {
  }

  /** A new or unpublished version is published. */
  lemma PublicationWrites(db: Database, t: Transaction, t': Transaction)
    requires Publishes(db, t, t')
    ensures t'.publishes <==> t.newVersion || (t.op.target.version in db.versions && !db.versions[t.op.target.version].published)
    ensures t'.changed <==> t.changed || t'.publishes
  {
  }

  /** A pointer elsewhere moves to the version, under a later stamp. */
  lemma PointerWrites(db: Database, t: Transaction, t': Transaction)
    requires MovesPointer(db, t, t')
    ensures t'.pointer.Some? <==> !(db.pointer.Some? && db.pointer.value.version == t.op.target.version)
    ensures t'.pointer.Some? ==> t'.pointer.value.version == t.op.target.version
    ensures t'.pointer.Some? && db.pointer.Some? ==> db.pointer.value.stamp < t'.pointer.value.stamp
    ensures t'.changed <==> t.changed || t'.pointer.Some?
  {
  }

  /** A change is receipted: operation, plan, pointer event and all rows. */
  lemma ReceiptWrites(db: Database, t: Transaction, t': Transaction)
    requires StampsReceipt(db, t, t')
    ensures t'.receipt.Some? <==> t.changed
    ensures t'.receipt.Some? ==>
      var r := t'.receipt.value;
      && r.version == t.op.target.version && r.hash == t.op.target.hash && r.identity == t.op.identity && r.plan == t.op.plan
      && (if t.pointer.Some? then t.pointer else db.pointer) == Some(Pointer(r.version, r.pointerStamp))
      && r.certified == RowsAt(db.evidence, t.op.target.version) + t.own
  {
  }

  // ------------------------------------------------------------------------- over runs

  /** A transaction that is past a statement ran it at some earlier moment, of the same
      operation, when its guard held. */
  ghost predicate RanAt(states: seq<State>, events: seq<Event>, b: nat, q: Phase, op: Operation, stale: bool) {
    && b < |events| && b < |states| && events[b].Execute?
    && states[b].txn.Some? && states[b].txn.value.phase == q && states[b].txn.value.op == op && states[b].txn.value.stale == stale
    && Admits(states[b].db, states[b].txn.value)
  }

  lemma {:induction false} PassedGuard(states: seq<State>, events: seq<Event>, i: nat, q: Phase) returns (b: nat)
    requires Run(states, events) && i < |states| && states[i].txn.Some? && Rank(q) < Rank(states[i].txn.value.phase)
    ensures b < i && RanAt(states, events, b, q, states[i].txn.value.op, states[i].txn.value.stale)
    decreases i
  {
    hide Admits, Step;
    assert i > 0 by { assert states[0].txn.None?; }
    StepBack(states[i - 1], events[i - 1], states[i], q);
    if events[i - 1].Execute? && states[i - 1].txn.value.phase == q {
      b := i - 1;
    } else {
      b := PassedGuard(states, events, i - 1, q);
    }
  }

  /** One step back from a transaction past a statement: it just ran that statement, or
      it was past it already. */
  lemma StepBack(s: State, e: Event, s': State, q: Phase)
    requires Step(s, e, s') && s'.txn.Some? && Rank(q) < Rank(s'.txn.value.phase)
    ensures s.txn.Some? && s.txn.value.op == s'.txn.value.op && s.txn.value.stale == s'.txn.value.stale
    ensures (e.Execute? && s.txn.value.phase == q && Admits(s.db, s.txn.value)) || Rank(q) < Rank(s.txn.value.phase)
  {
    hide Statement, Admits, ForeignAppend, ForeignPoint, ForeignVersion, ReplayReported, Committed;
    if e.Execute? {
      StatementNeeds(s.db, s.txn.value, s'.db, s'.txn.value);
      NextRank(s.db, s.txn.value, s'.db, s'.txn.value);
      SameRank(s.txn.value.phase, q);
    } else {
      KeepsTransaction(s, e, s');
    }
  }

  lemma SameRank(p: Phase, q: Phase)
    ensures Rank(p) == Rank(q) <==> p == q
  {
  }

  lemma NextRank(db: Database, t: Transaction, db': Database, t': Transaction)
    requires Statement(db, t, db', t')
    ensures Rank(t'.phase) == Rank(t.phase) + 1
  {
    hide ReadsPointer, TakesBaseline, ChecksBefore, ChecksPlan, WritesVersion, ChecksEvidence, InsertsRows, Publishes, MovesPointer, StampsReceipt, Recounts;
  }

  lemma KeepsTransaction(s: State, e: Event, s': State)
    requires Step(s, e, s') && !e.Execute? && s'.txn.Some? && !s'.txn.value.phase.Locked?
    ensures s'.txn == s.txn
  {
    hide ReplayReported, Committed, PartitionOf;
  }

  /** Every commit of a run was, when it checked its plan, a plan still current: not
      stale, the recorded policy under the pointer, the target as recorded; and when it
      checked its document, no row contradicted it. */
  lemma CommitWasCurrent(states: seq<State>, events: seq<Event>, i: nat) returns (b: nat, c: nat)
    requires Run(states, events) && i < |events| && events[i].Commit?
    ensures states[i].txn.Some?
    ensures var op := states[i].txn.value.op;
      && b < i && !states[i].txn.value.stale && AsPlanned(states[b].db.versions, states[b].db.pointer, op)
      && c < i
      && forall k ::
           k in op.identity.document && k in RowsAt(states[c].db.evidence, op.target.version) ==>
           RowsAt(states[c].db.evidence, op.target.version)[k].content == op.identity.document[k]
  {
    assert Step(states[i], events[i], states[i + 1]);
    hide Run, Step, AsPlanned;
    b := PassedGuard(states, events, i, Baselined);
    c := PassedGuard(states, events, i, VersionReady);
  }

  /** All a commit writes: one receipt at most, the transaction's own rows, its pointer
      move if it made one, and its version row, published if it published it. */
  lemma CommitExactly(s: State, s': State)
    requires Step(s, Commit, s')
    ensures s.txn.Some? && s'.txn.None?
    ensures var db, db', t, v := s.db, s'.db, s.txn.value, s.txn.value.op.target.version;
      && db'.nextId == db.nextId && db'.foreign == db.foreign
      && db'.receipts == db.receipts + (if t.receipt.Some? then [t.receipt.value] else [])
      && db'.pointer == (if t.pointer.Some? then t.pointer else db.pointer)
      && (forall w :: w != v ==> RowsAt(db'.evidence, w) == RowsAt(db.evidence, w))
      && (forall k :: k in RowsAt(db'.evidence, v) <==> k in RowsAt(db.evidence, v) || k in t.own)
      && (forall k :: k in t.own ==> RowsAt(db'.evidence, v)[k] == t.own[k])
      && (forall k :: k in RowsAt(db.evidence, v) && k !in t.own ==> RowsAt(db'.evidence, v)[k] == RowsAt(db.evidence, v)[k])
      && (forall w :: w != v ==> (w in db'.versions <==> w in db.versions) && (w in db.versions ==> db'.versions[w] == db.versions[w]))
      && (!t.newVersion && !t.publishes ==> db'.versions == db.versions)
      && (t.publishes ==> v in db'.versions && db'.versions[v] == VersionRow(t.op.target.hash, true))
  {
  }

  /** When a transaction may begin, give up, report a replay and commit. */
  lemma EndsExactly(s: State, op: Operation, stale: bool)
    ensures (exists s' :: Step(s, Begin(op, stale), s')) <==> s.txn.None?
    ensures (exists s' :: Step(s, GiveUp, s')) <==> s.txn.Some?
    ensures (exists s' :: Step(s, ReportReplay, s'))
      <==> s.txn.Some? && s.txn.value.phase.Locked? && ReplayProven(s.db, s.txn.value.op, s.txn.value.stale)
    ensures (exists s' :: Step(s, Commit, s')) <==> s.txn.Some? && s.txn.value.phase.Recounted? && s.txn.value.changed
  {
    hide ReplayReported, ReplayProven, Committed;
    if s.txn.None? {
      assert Step(s, Begin(op, stale), s.(txn := Some(Begun(op, stale))));
    } else {
      ReplayExactly(s.db, s.txn.value.op, s.txn.value.stale);
      assert Step(s, GiveUp, s.(txn := None));
      if s.txn.value.phase.Locked? && ReplayReported(s.db, s.txn.value.op, s.txn.value.stale) { assert Step(s, ReportReplay, s.(txn := None)); }
      if s.txn.value.phase.Recounted? && s.txn.value.changed { assert Step(s, Commit, State(Committed(s.db, s.txn.value), None)); }
    }
  }

  /** A transaction begins with nothing written, at its first statement. */
  lemma BeginExactly(s: State, op: Operation, stale: bool, s': State)
    requires Step(s, Begin(op, stale), s')
    ensures s'.db == s.db && s'.txn.Some?
    ensures var t := s'.txn.value;
      && t.phase == Locked && t.op == op && t.stale == stale && !t.changed && !t.newVersion && !t.publishes
      && t.own == map[] && t.pointer.None? && t.receipt.None?
  {
  }

  // --------------------------------------------------------------------- other writers

  /** What other writers may do at any moment, and what stops them. */
  lemma AppendExactly(s: State, v: Version, k: EvidenceKey, content: Content)
    ensures (exists s' :: Step(s, Append(v, k, content), s'))
      <==> (v in s.db.versions && k !in RowsAt(s.db.evidence, v)
        && (s.txn.Some? && s.txn.value.op.target.version == v ==> k !in s.txn.value.own && !s.txn.value.newVersion))
  {
    var s' := s.(db := s.db.(
      evidence := s.db.evidence[v := PartitionOf(s.db, v)[k := Fact(content, s.db.nextId)]],
      nextId := s.db.nextId + 1, foreign := s.db.foreign + {s.db.nextId}));
    if v in s.db.versions && k !in PartitionOf(s.db, v) && !AppendBlocked(s.txn, v, k) {
      assert Step(s, Append(v, k, content), s');
    }
  }

  lemma PointExactly(s: State, v: Version, stamp: Stamp)
    ensures (exists s' :: Step(s, Point(v, stamp), s'))
      <==> (v in s.db.versions && s.db.versions[v].published && (s.db.pointer.Some? ==> s.db.pointer.value.stamp < stamp)
        && (s.txn.Some? ==> s.txn.value.pointer.None? && s.txn.value.receipt.None?))
  {
    var s' := s.(db := s.db.(pointer := Some(Pointer(v, stamp))));
    if ForeignPoint(s, s', v, stamp) { assert Step(s, Point(v, stamp), s'); }
  }

  lemma InsertExactly(s: State, v: Version, hash: Hash)
    ensures (exists s' :: Step(s, Insert(v, hash), s'))
      <==> ((v in s.db.versions ==> s.db.versions[v].hash == hash)
        && (s.txn.Some? && s.txn.value.op.target.version == v ==> !s.txn.value.newVersion && !s.txn.value.publishes))
  {
    var s' := s.(db := s.db.(versions := s.db.versions[v := VersionRow(hash, v in s.db.versions)]));
    if ForeignVersion(s, s', v, hash) { assert Step(s, Insert(v, hash), s'); }
  }
}
