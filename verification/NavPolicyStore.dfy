/** One apply of a policy plan that meets no interference, statement by statement
    over the tables: when it publishes, and what exactly it leaves. */
module NavPolicyStore {
  import opened Prelude
  import opened NavPolicy

  datatype Outcome = Applied | Unchanged | Refused

  /** The guards of a publication, in the database it starts from. */
  predicate Publishable(db: Database, op: Operation, stale: bool, clock: Stamp) {
    var v := op.target.version;
    && PointerTarget(db) != Some(op.target) && PointerTarget(db) == op.previous
    && CertifiedOrEmpty(db, v)
    && !stale && BeforeHolds(db, op)
    && (forall r :: r in db.receipts ==> r.plan != op.plan && (r.version != v || r.pointerStamp != clock))
    && (v in db.versions ==> db.versions[v].hash == op.target.hash)
    && DocumentAgrees(op.identity.document, PartitionOf(db, v))
    && clock >= StampOf(db)
  }

  /** Part of the document's missing rows inserted, the rest still to come. */
  ghost predicate Inserting(document: Document, was: Partition, own: Partition, left: set<EvidenceKey>, first: nat, next: nat) {
    && first <= next
    && (forall k :: k in document && k !in was ==> k in left || k in own)
    && (forall k :: k in left ==> k in document && k !in was && k !in own)
    && (forall k :: k in own ==> k in document && k !in was && own[k].content == document[k] && first <= own[k].id < next)
  }

  lemma InsertOne(document: Document, was: Partition, own: Partition, left: set<EvidenceKey>, first: nat, next: nat, k: EvidenceKey)
    requires Inserting(document, was, own, left, first, next) && k in left
    ensures k in document && Inserting(document, was, own[k := Fact(document[k], next)], left - {k}, first, next + 1)
    ensures k !in own && (was + own)[k := Fact(document[k], next)] == was + own[k := Fact(document[k], next)]
  {
  }

  lemma OneMore(own: Partition, k: EvidenceKey, row: Fact)
    requires k !in own
    ensures |own[k := row]| == |own| + 1
  {
    assert own[k := row].Keys == own.Keys + {k};
  }

  lemma InsertedAll(db: Database, document: Document, was: Partition, own: Partition, next: nat)
    requires Inserting(document, was, own, {}, db.nextId, next)
    ensures MissingRows(db, document, was, own, next)
  {
  }

  lemma NothingInserted(document: Document, was: Partition, first: nat)
    ensures Inserting(document, was, map[], document.Keys - was.Keys, first, first) && was + map[] == was
  {
  }

  /** The set-based insert: one pass over the document's rows that are missing. */
  method WithMissing(document: Document, was: Partition, first: nat) returns (part: Partition, inserted: nat, next: nat, ghost own: Partition)
    ensures part == was + own && inserted == |own|
    ensures Inserting(document, was, own, {}, first, next)
  {
    var left := document.Keys - was.Keys;
    part, inserted, next, own := was, 0, first, map[];
    NothingInserted(document, was, first);
    hide Inserting;
    while left != {}
      invariant Inserting(document, was, own, left, first, next) && inserted == |own| && part == was + own
      decreases left
    {
      var k :| k in left;
      InsertOne(document, was, own, left, first, next, k);
      var row := Fact(document[k], next);
      OneMore(own, k, row);
      part, own := part[k := row], own[k := row];
      next, inserted, left := next + 1, inserted + 1, left - {k};
    }
  }

  class PolicyStore {
    var versions: map<Version, VersionRow>
    var pointer: Option<Pointer>
    var evidence: map<Version, Partition>
    var receipts: seq<Receipt>
    var nextId: nat
    var foreign: set<nat>

    constructor ()
      ensures State() == Database(map[], None, map[], [], 0, {})
    {
      versions, pointer, evidence, receipts, nextId, foreign := map[], None, map[], [], 0, {};
    }

    function State(): Database
      reads this
    {
      Database(versions, pointer, evidence, receipts, nextId, foreign)
    }

    method Restore(db: Database)
      modifies this
      ensures State() == db
    {
      versions, pointer, evidence, receipts, nextId, foreign := db.versions, db.pointer, db.evidence, db.receipts, db.nextId, db.foreign;
    }

    /** Inserts the document's missing rows, each with a new server identity; what
        is already there is left alone. */
    method InsertEvidence(v: Version, document: Document) returns (inserted: nat, ghost own: Partition)
      modifies this`evidence, this`nextId
      ensures MissingRows(old(State()), document, PartitionOf(old(State()), v), own, nextId)
      ensures evidence == old(evidence)[v := PartitionOf(old(State()), v) + own]
      ensures inserted == |own|
    {
      ghost var db := State();
      var part, next;
      part, inserted, next, own := WithMissing(document, PartitionOf(State(), v), nextId);
      InsertedAll(db, document, PartitionOf(db, v), own, next);
      evidence, nextId := evidence[v := part], next;
    }

    /** The version row, unpublished if it is new, and its hash check. */
    method WriteVersion(v: Version, hash: Hash) returns (ok: bool)
      modifies this`versions
      ensures ok <==> (v in old(versions) ==> old(versions)[v].hash == hash)
      ensures ok ==> v in versions && versions[v].hash == hash && versions[v := VersionRow(hash, true)] == old(versions)[v := VersionRow(hash, true)]
    {
      if v !in versions { versions := versions[v := VersionRow(hash, false)]; }
      ok := versions[v].hash == hash;
    }

    /** Publishes the version and points current at it, then stamps the receipt. */
    method PointAndStamp(op: Operation, clock: Stamp) returns (ok: bool)
      requires op.target.version in versions && versions[op.target.version].hash == op.target.hash && op.target.version in evidence
      modifies this`versions, this`pointer, this`receipts
      ensures ok <==>
        && clock >= StampOf(old(State()))
        && forall r :: r in old(receipts) ==> r.version != op.target.version || r.pointerStamp != clock
      ensures ok ==>
        && versions == old(versions)[op.target.version := VersionRow(op.target.hash, true)]
        && pointer == Some(Pointer(op.target.version, clock))
        && receipts == old(receipts) + [Receipt(op.target.version, op.target.hash, op.identity, op.plan, clock, evidence[op.target.version])]
    {
      var v := op.target.version;
      versions := versions[v := VersionRow(versions[v].hash, true)];
      if clock < StampOf(State()) { return false; }
      pointer := Some(Pointer(v, clock));
      if exists r :: r in receipts && r.version == v && r.pointerStamp == clock { return false; }
      receipts := receipts + [Receipt(v, versions[v].hash, op.identity, op.plan, clock, evidence[v])];
      ok := true;
    }

    /** Version row, conflict check, evidence, publication, pointer, receipt and
        recount; the recount never fails when nobody else writes. */
    method Publish(op: Operation, clock: Stamp, before: nat) returns (ok: bool, ghost own: Partition)
      requires before == |PartitionOf(State(), op.target.version)|
      modifies this
      ensures ok <==>
        && (op.target.version in old(versions) ==> old(versions)[op.target.version].hash == op.target.hash)
        && DocumentAgrees(op.identity.document, PartitionOf(old(State()), op.target.version))
        && clock >= StampOf(old(State()))
        && forall r :: r in old(receipts) ==> r.version != op.target.version || r.pointerStamp != clock
      ensures ok ==>
        && MissingRows(old(State()), op.identity.document, PartitionOf(old(State()), op.target.version), own, nextId)
        && versions == old(versions)[op.target.version := VersionRow(op.target.hash, true)]
        && pointer == Some(Pointer(op.target.version, clock))
        && evidence == old(evidence)[op.target.version := PartitionOf(old(State()), op.target.version) + own]
        && receipts == old(receipts) + [Receipt(
             op.target.version, op.target.hash, op.identity, op.plan, clock, PartitionOf(old(State()), op.target.version) + own)]
    {
      hide MissingRows, DocumentAgrees, PartitionOf;
      var db, v := State(), op.target.version;
      own := map[];
      ok := WriteVersion(v, op.target.hash);
      if !ok { return; }
      ghost var versioned := State();
      SameEvidence(db, versioned, v);
      ok := DocumentAgrees(op.identity.document, PartitionOf(db, v));
      if !ok { return; }
      var inserted;
      inserted, own := InsertEvidence(v, op.identity.document);
      SameMissing(versioned, db, op.identity.document, PartitionOf(db, v), own, nextId);
      SameStampOf(db, State());
      ok := PointAndStamp(op, clock);
      if !ok { return; }
      MissingIsNew(db, op.identity.document, PartitionOf(db, v), own, nextId);
      UnionSize(PartitionOf(db, v), own);
      ok := |evidence[v]| == before + inserted;
    }

    /** The whole apply: replay decision, baseline, plan checks, publication,
        receipt, recount, commit or rollback. */
    method Apply(op: Operation, stale: bool, clock: Stamp) returns (outcome: Outcome, ghost own: Partition)
      modifies this
      ensures outcome.Applied? <==> Publishable(old(State()), op, stale, clock)
      ensures outcome.Unchanged? <==> ReplayReported(old(State()), op, stale)
      ensures !outcome.Applied? ==> State() == old(State())
      ensures outcome.Applied? ==>
        && MissingRows(old(State()), op.identity.document, PartitionOf(old(State()), op.target.version), own, nextId)
        && versions == old(versions)[op.target.version := VersionRow(op.target.hash, true)]
        && pointer == Some(Pointer(op.target.version, clock))
        && evidence == old(evidence)[op.target.version := PartitionOf(old(State()), op.target.version) + own]
        && receipts == old(receipts) + [Receipt(
             op.target.version, op.target.hash, op.identity, op.plan, clock, PartitionOf(old(State()), op.target.version) + own)]
    {
      hide CertifiedOrEmpty, BeforeHolds, DocumentAgrees, MissingRows, ReceiptExact, FactsExact;
      var db := State();
      var v := op.target.version;
      own := map[];
      if ReplayReported(db, op, stale) { ReplayAtTarget(db, op, stale); }
      if PointerTarget(db) == Some(op.target) {
        outcome := if ReplayReported(db, op, stale) then Unchanged else Refused;
        return;
      }
      outcome := Refused;
      if PointerTarget(db) != op.previous || !CertifiedOrEmpty(db, v) { return; }
      var before := |PartitionOf(db, v)|;
      if stale || !BeforeHolds(db, op) { return; }
      if exists r :: r in receipts && r.plan == op.plan { return; }
      var ok;
      ok, own := Publish(op, clock, before);
      if !ok { Restore(db); return; }
      outcome := Applied;
    }
  }

  lemma ReplayAtTarget(db: Database, op: Operation, stale: bool)
    requires ReplayReported(db, op, stale)
    ensures PointerTarget(db) == Some(op.target)
  {
    hide ReceiptExact;
  }

  lemma SameStampOf(db: Database, db': Database)
    requires db'.pointer == db.pointer
    ensures StampOf(db') == StampOf(db)
  {
  }

  lemma SameEvidence(db: Database, db': Database, v: Version)
    requires db'.evidence == db.evidence
    ensures PartitionOf(db', v) == PartitionOf(db, v)
  {
  }

  lemma SameMissing(db: Database, db': Database, document: Document, p: Partition, own: Partition, nextId: nat)
    requires MissingRows(db, document, p, own, nextId) && db'.nextId == db.nextId
    ensures MissingRows(db', document, p, own, nextId)
  {
  }

  lemma MissingIsNew(db: Database, document: Document, p: Partition, own: Partition, nextId: nat)
    requires MissingRows(db, document, p, own, nextId)
    ensures forall k :: k in own ==> k !in p
  {
  }

  lemma UnionSize(p: Partition, own: Partition)
    requires forall k :: k in own ==> k !in p
    ensures |p + own| == |p| + |own|
  {
    assert (p + own).Keys == p.Keys + own.Keys && p.Keys !! own.Keys;
  }
}
