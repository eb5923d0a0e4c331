/** The four transactions of the tail repair as conditions on columns, key sets and
    cursors, and what the views serve once the pointer has moved. */
module TailRepairGates {
  import opened Prelude
  import opened Panel
  import opened ImmutableBatch
  import opened MonthGates
  import opened LedgerSteps
  import opened SurfaceRules
  import opened TailRepair
  import opened TailRepairRuns

  // -------------------------------------------------------------------- the header

  /** The replacement root of this plan: its own fingerprint, revision and window, no
      open month, the pinned sources and the repair contract. */
  predicate RootOfPlan(c: Publication, plan: Plan) {
    && (c.status.Prepared? || c.status.Validated?) && c.config == Legacy
    && c.fingerprint == plan.fingerprint && c.revision == plan.revision
    && c.first == plan.first && c.lastClosed == plan.lastClosed && c.open == None
    && "source_sha256" in c.lineage && c.lineage["source_sha256"] == plan.sources
    && "base_repair" in c.evidence && c.evidence["base_repair"] == plan.baseRepair
  }

  lemma HeaderExactly(c: Publication, plan: Plan)
    ensures SameHeader(c, plan) <==> RootOfPlan(c, plan)
  {
  }

  /** The prepare commits exactly when the root is there under this header with these
      counts, or is new, has a fingerprint of its own and declares nothing empty. */
  lemma PrepareExactly(l: Ledger, plan: Plan)
    ensures PrepareAllowed(l, plan)
      <==> (if plan.child in l.pubs then RootOfPlan(l.pubs[plan.child], plan) && l.pubs[plan.child].declared == plan.counts
            else
              && (forall p :: p in l.pubs ==> l.pubs[p].fingerprint != plan.fingerprint)
              && NothingEmpty(plan.counts) && plan.first <= plan.lastClosed)
  {
    if plan.child in l.pubs { HeaderExactly(l.pubs[plan.child], plan); }
    NothingEmptyExactly(plan.counts);
    hide SameHeader, RootOfPlan, NothingEmpty;
  }

  /** The header a prepare writes: parentless, prepared, legacy, as the plan says. */
  lemma MadeExactly(l: Ledger, plan: Plan)
    requires plan.child !in l.pubs
    ensures plan.child in Prepare(l, plan).pubs
    ensures var c := Prepare(l, plan).pubs[plan.child];
      && c.parent == None && c.status == Prepared && c.declared == plan.counts && RootOfPlan(c, plan)
    ensures forall p :: p in l.pubs ==> p in Prepare(l, plan).pubs && Prepare(l, plan).pubs[p] == l.pubs[p]
  {
  }

  // -------------------------------------------------------------------------- copy

  predicate IsLegacyRoot(l: Ledger, p: Id) {
    p in l.pubs && l.pubs[p].status == Validated && l.pubs[p].parent == None && l.pubs[p].config == Legacy
  }

  /** The old root is a validated legacy root, and the repair's root is prepared under the
      old pointer or validated under its own. */
  predicate InOrder(l: Ledger, plan: Plan) {
    && IsLegacyRoot(l, plan.source) && plan.child in l.pubs && l.pubs[plan.child].parent == None
    && "base_repair" in l.pubs[plan.child].evidence && l.pubs[plan.child].evidence["base_repair"] == plan.baseRepair
    && (l.pubs[plan.child].status.Prepared? ==> l.pointer == Some(plan.source))
    && (l.pubs[plan.child].status.Validated? ==> l.pointer == Some(plan.child))
    && !l.pubs[plan.child].status.Failed?
  }

  lemma OrderExactly(l: Ledger, plan: Plan)
    ensures CopyOrder(l, plan) <==> InOrder(l, plan)
  {
  }

  /** Up to the last historical month on the returns; everywhere on the others. */
  ghost predicate Ranges(source: map<Key, Row>, s: Surface, k: Key) {
    s.Returns? ==> exists j :: j in source && k.month <= j.month
  }

  /** The new root never disagrees with the history; prepared, it has no other row in
      the copied range and withdraws nothing; validated, it has as many. */
  ghost predicate MayCopy(l: Ledger, plan: Plan, s: Surface)
    requires plan.child in l.pubs
  {
    var own, past := Own(l, s, plan.child), Own(l, s, plan.source);
    && (forall k :: k in past && k in own ==> own[k] == past[k])
    && (l.pubs[plan.child].status.Prepared? ==>
          && (forall k :: k in past ==> k !in Tombs(l, s, plan.child))
          && (forall k :: k in own && Ranges(past, s, k) ==> k in past))
    && (!l.pubs[plan.child].status.Prepared? ==> |set k | k in own && Ranges(past, s, k)| == |past|)
  }

  lemma RangeKeys(rows: map<Key, Row>, source: map<Key, Row>, s: Surface)
    ensures CopiedRange(rows, source, s).Keys == set k | k in rows && Ranges(source, s, k)
  {
  }

  lemma OldInRange(source: map<Key, Row>, s: Surface, k: Key)
    requires k in source
    ensures Ranges(source, s, k)
  {
  }

  lemma RangeCount(source: set<Key>, mine: set<Key>)
    ensures |source + mine| == |source| <==> mine <= source
  {
    assert source + mine == source + (mine - source);
    if mine <= source { assert source + mine == source; }
  }

  lemma PreparedCount(own: map<Key, Row>, source: map<Key, Row>, s: Surface)
    ensures |CopiedRange(InsertMissing(own, source), source, s)| == |source|
      <==> forall k :: k in own && Ranges(source, s, k) ==> k in source
  {
    hide CopiedRange, Ranges, InsertMissing;
    var mine := set k | k in own && Ranges(source, s, k);
    KeysInRange(own, source, s);
    RangeCount(source.Keys, mine);
    if mine <= source.Keys {
      forall k | k in own && Ranges(source, s, k) ensures k in source { assert k in mine; }
    }
  }

  lemma KeysInRange(own: map<Key, Row>, source: map<Key, Row>, s: Surface)
    ensures |CopiedRange(InsertMissing(own, source), source, s)| == |source.Keys + set k | k in own && Ranges(source, s, k)|
  {
    hide CopiedRange, Ranges;
    RangeKeys(InsertMissing(own, source), source, s);
    forall k | k in source ensures Ranges(source, s, k) { OldInRange(source, s, k); }
    assert CopiedRange(InsertMissing(own, source), source, s).Keys == source.Keys + set k | k in own && Ranges(source, s, k);
  }

  lemma CopyExactly(l: Ledger, plan: Plan, s: Surface)
    ensures CopyAllowed(l, plan, s) <==> InOrder(l, plan) && MayCopy(l, plan, s)
  {
    hide CopyOrder, InOrder, Own, Tombs, CopiedRange, Ranges, InsertMissing;
    OrderExactly(l, plan);
    if InOrder(l, plan) {
      assert plan.child in l.pubs by { OrderThere(l, plan); }
      PreparedCount(Own(l, s, plan.child), Historical(l, plan, s), s);
      RangeKeys(Own(l, s, plan.child), Historical(l, plan, s), s);
    }
  }

  lemma OrderThere(l: Ledger, plan: Plan)
    requires InOrder(l, plan)
    ensures plan.child in l.pubs
  {
  }

  // ------------------------------------------------------------------------- batch

  /** The slice [start, end) of the tail fits: in order, as many rows before or after it
      as must be, agreeing with what is there, and attested as this very slice or new. */
  ghost predicate MayLoad(l: Ledger, plan: Plan, start: nat, end: nat) {
    && start < end <= |plan.tail| && plan.child in l.pubs
    && var c, own, base := l.pubs[plan.child], Own(l, Returns, plan.child), |Own(l, Returns, plan.source)|;
    && var att, keys := Attested(l, plan.child), set i | start <= i < end :: plan.tail[i].key;
    && ((c.status.Prepared? && l.pointer == Some(plan.source))
        || (c.status.Validated? && l.pointer == Some(plan.child) && end == |plan.tail|))
    && (start > 0 ==> exists n :: n in att && att[n] == start)
    && (|own| == base + start || |own| == base + end)
    && (forall i, j :: start <= i < end && start <= j < end && plan.tail[i].key == plan.tail[j].key ==> plan.tail[i].row == plan.tail[j].row)
    && (forall i :: start <= i < end && plan.tail[i].key in own ==> own[plan.tail[i].key] == plan.tail[i].row)
    && (if c.status.Prepared?
        then (forall k :: k in keys ==> k !in Tombs(l, Returns, plan.child)) && |own.Keys + keys| == base + end
        else |own| == base + end)
    && (if start in att then att[start] == end else c.status.Prepared? && forall n :: n in att ==> att[n] != end)
  }

  lemma SliceKeys(plan: Plan, start: nat, limit: nat)
    requires start < |plan.tail| && limit > 0
    ensures RowsOf(Slice(plan, start, limit)).Keys == set i | start <= i < EndOf(plan, start, limit) :: plan.tail[i].key
  {
    var slice, end := Slice(plan, start, limit), EndOf(plan, start, limit);
    var keys := set i | start <= i < end :: plan.tail[i].key;
    forall k ensures k in RowsOf(slice) <==> k in keys {
      RowsOfKeys(slice, k);
      if k in keys {
        var i :| start <= i < end && plan.tail[i].key == k;
        assert slice[i - start].key == k;
      }
      if j :| 0 <= j < |slice| && slice[j].key == k {
        assert plan.tail[start + j].key == k;
      }
    }
  }

  lemma SliceMerges(plan: Plan, start: nat, limit: nat, own: map<Key, Row>)
    requires start < |plan.tail| && limit > 0
    ensures var end := EndOf(plan, start, limit);
      StagedMerge(own, Slice(plan, start, limit)).Some?
      <==> ((forall i, j :: start <= i < end && start <= j < end && plan.tail[i].key == plan.tail[j].key ==> plan.tail[i].row == plan.tail[j].row)
        && (forall i :: start <= i < end && plan.tail[i].key in own ==> own[plan.tail[i].key] == plan.tail[i].row))
  {
    var slice, end := Slice(plan, start, limit), EndOf(plan, start, limit);
    assert |slice| == end - start;
    forall i | start <= i < end ensures slice[i - start] == plan.tail[i] {}
    hide Slice, EndOf;
    if StagedMerge(own, slice).Some? {
      forall i, j | start <= i < end && start <= j < end && plan.tail[i].key == plan.tail[j].key ensures plan.tail[i].row == plan.tail[j].row {
        assert slice[i - start] == plan.tail[i] && slice[j - start] == plan.tail[j];
      }
      forall i | start <= i < end && plan.tail[i].key in own ensures own[plan.tail[i].key] == plan.tail[i].row {
        assert slice[i - start] == plan.tail[i];
      }
    }
    forall n | 0 <= n < |slice| ensures slice[n] == plan.tail[start + n] { assert slice[(start + n) - start] == plan.tail[start + n]; }
  }

  /** A batch commits exactly when its slice, cut at the end of the tail, fits. */
  lemma BatchExactly(l: Ledger, plan: Plan, start: nat, limit: nat)
    ensures (start < |plan.tail| && BatchAllowed(l, plan, start, limit))
      <==> (limit > 0 && start < |plan.tail|
        && MayLoad(l, plan, start, if start + limit < |plan.tail| then start + limit else |plan.tail|))
  {
    hide Own, Tombs, Attested, Slice, StagedMerge, RowsOf, LoadedRows, PreparedCurrent, ValidatedTerminal, AttestationAdmitted, MayLoad;
    if limit > 0 && start < |plan.tail| {
      SliceKeys(plan, start, limit);
      SliceMerges(plan, start, limit, Own(l, Returns, plan.child));
      LoadedSize(l, plan, start, limit);
      FitsExactly(l, plan, start, EndOf(plan, start, limit));
    }
  }

  /** The same conditions, statement by statement as the transaction checks them. */
  lemma FitsExactly(l: Ledger, plan: Plan, start: nat, end: nat)
    requires start < end <= |plan.tail|
    ensures var att, keys, own, base := Attested(l, plan.child), set i | start <= i < end :: plan.tail[i].key, Own(l, Returns, plan.child), |Historical(l, plan, Returns)|;
      MayLoad(l, plan, start, end) <==>
        && (PreparedCurrent(l, plan) || ValidatedTerminal(l, plan, end))
        && (start > 0 ==> exists n :: n in att && att[n] == start)
        && (|own| == base + start || |own| == base + end)
        && (forall i, j :: start <= i < end && start <= j < end && plan.tail[i].key == plan.tail[j].key ==> plan.tail[i].row == plan.tail[j].row)
        && (forall i :: start <= i < end && plan.tail[i].key in own ==> own[plan.tail[i].key] == plan.tail[i].row)
        && (PreparedCurrent(l, plan) ==> keys !! Tombs(l, Returns, plan.child))
        && (if plan.child in l.pubs && l.pubs[plan.child].status.Prepared? then |own.Keys + keys| else |own|) == base + end
        && AttestationAdmitted(att, start, end, PreparedCurrent(l, plan))
  {
    hide Own, Tombs, Attested;
  }

  lemma LoadedSize(l: Ledger, plan: Plan, start: nat, limit: nat)
    requires start < |plan.tail| && limit > 0
    ensures |LoadedRows(l, plan, start, limit)|
      == if plan.child in l.pubs && l.pubs[plan.child].status.Prepared?
         then |Own(l, Returns, plan.child).Keys + (set i | start <= i < EndOf(plan, start, limit) :: plan.tail[i].key)|
         else |Own(l, Returns, plan.child)|
  {
    hide Own, Slice, RowsOf, EndOf;
    SliceKeys(plan, start, limit);
    var own := Own(l, Returns, plan.child);
    assert (RowsOf(Slice(plan, start, limit)) + own).Keys == own.Keys + RowsOf(Slice(plan, start, limit)).Keys;
  }

  // ---------------------------------------------------------------------- finalize

  /** What the pointer trigger asks of a new root: returns inside the window and over the
      snapshot, signals on included snapshot rows, ratings for exactly the snapshot. */
  ghost predicate Covered(plan: Plan, snapshot: map<Key, Row>, signal: map<Key, Row>, returned: map<Key, Row>, rating: map<Key, Row>) {
    && (forall k :: k in returned ==> plan.first <= k.month <= plan.lastClosed && k in snapshot)
    && (forall k :: k in signal ==> k in snapshot && snapshot[k].included)
    && (forall k :: k in snapshot <==> k in rating)
  }

  lemma AdmitsExactly(l: Ledger, plan: Plan)
    requires plan.child in l.pubs
    ensures PointerAdmits(l, plan)
      <==> (l.pubs[plan.child].parent == None
        && Covered(plan, Own(l, Snapshot, plan.child), Own(l, RvSignal, plan.child), Own(l, Returns, plan.child), Own(l, RatingPit, plan.child)))
  {
    hide Own;
    var snapshot, rating := Own(l, Snapshot, plan.child), Own(l, RatingPit, plan.child);
    if Covered(plan, snapshot, Own(l, RvSignal, plan.child), Own(l, Returns, plan.child), rating) {
      assert snapshot.Keys == rating.Keys;
    }
  }

  /** What makes the replacement root fit to be served. */
  ghost predicate FitToServe(l: Ledger, plan: Plan) {
    && plan.child in l.pubs && RootOfPlan(l.pubs[plan.child], plan) && Sized(l, plan.child, plan.counts)
    && (forall m :: plan.returnsFirst <= m <= plan.lastClosed && m % 31 == 0 ==> exists k :: k in Own(l, Returns, plan.child) && k.month == m)
    && (exists n :: n in Attested(l, plan.child) && Attested(l, plan.child)[n] == |plan.tail|)
    && IsLegacyRoot(l, plan.source)
    && (l.pointer == Some(plan.child)
        || (l.pointer == Some(plan.source) && l.pubs[plan.child].parent == None
            && Covered(plan, Own(l, Snapshot, plan.child), Own(l, RvSignal, plan.child), Own(l, Returns, plan.child), Own(l, RatingPit, plan.child))))
  }

  lemma ContiguousReturnsExactly(l: Ledger, plan: Plan)
    requires plan.returnsFirst % 31 == 0
    ensures ContiguousReturns(l, plan)
      <==> forall m :: plan.returnsFirst <= m <= plan.lastClosed && m % 31 == 0 ==> exists k :: k in Own(l, Returns, plan.child) && k.month == m
  {
    hide Own, MonthSeries;
    MonthSeriesIsWindow(plan.returnsFirst, plan.lastClosed);
    var own := Own(l, Returns, plan.child);
    forall m ensures m in Months(own) <==> exists k :: k in own && k.month == m {}
    hide Months;
    if ContiguousReturns(l, plan) {
      forall m | plan.returnsFirst <= m <= plan.lastClosed && m % 31 == 0 ensures exists k :: k in own && k.month == m {
        assert InWindow(m, plan.returnsFirst, plan.lastClosed);
        assert m in Months(own);
      }
    }
    if forall m :: plan.returnsFirst <= m <= plan.lastClosed && m % 31 == 0 ==> exists k :: k in own && k.month == m {
      forall m | m in MonthSeries(plan.returnsFirst, plan.lastClosed) ensures m in Months(own) {
        assert InWindow(m, plan.returnsFirst, plan.lastClosed);
      }
    }
  }

  /** The finalize commits exactly the roots that are fit to be served. */
  lemma FinalizeExactly(l: Ledger, plan: Plan)
    requires plan.returnsFirst % 31 == 0
    ensures FinalizeCommits(l, plan) <==> FitToServe(l, plan)
  {
    hide SameHeader, RootOfPlan, Own, Sized, PointerAdmits, Covered, ContiguousReturns, Attested;
    if plan.child in l.pubs {
      HeaderExactly(l.pubs[plan.child], plan);
      SizedExactly(l, plan.child, plan.counts);
      AdmitsExactly(l, plan);
      ContiguousReturnsExactly(l, plan);
    }
  }

  /** A commit that moves the pointer leaves served returns inside the plan's window and
      over served snapshot rows, signals on included snapshot rows, and ratings for
      exactly the snapshot's keys. */
  lemma CommitCovers(l: Ledger, plan: Plan)
    requires Holds(l, plan) && FinalizeCommits(l, plan) && l.pointer == Some(plan.source) && plan.source != plan.child
    ensures plan.child in l.pubs && Switched(l, plan).pointer == Some(plan.child)
    ensures var m := Switched(l, plan);
      && (forall k :: k in Current(m, Returns) ==> plan.first <= k.month <= plan.lastClosed && k in Current(m, Snapshot))
      && (forall k :: k in Current(m, RvSignal) ==> k in Current(m, Snapshot) && Current(m, Snapshot)[k].included)
      && (forall k :: k in Current(m, Snapshot) <==> k in Current(m, RatingPit))
  {
    hide FinalizeCommits, Holds, Current, Own, PointerAdmits;
    AdmittedPointer(l, plan);
    AdmitsExactly(l, plan);
    ServesOwn(l, plan, Snapshot);
    ServesOwn(l, plan, RvSignal);
    ServesOwn(l, plan, Returns);
    ServesOwn(l, plan, RatingPit);
  }

  lemma AdmittedPointer(l: Ledger, plan: Plan)
    requires FinalizeCommits(l, plan) && l.pointer == Some(plan.source) && plan.source != plan.child
    ensures plan.child in l.pubs && PointerAdmits(l, plan)
  {
    hide SameHeader, Own, PointerAdmits, ContiguousReturns, TerminalAttested;
  }

  /** All a commit writes: the pointer, and of a prepared child the status and one more
      member of its evidence. */
  lemma CommitWrites(l: Ledger, plan: Plan)
    requires plan.child in l.pubs
    ensures var m, before, after := Switched(l, plan), l.pubs[plan.child], Switched(l, plan).pubs[plan.child];
      && m == l.(pubs := l.pubs[plan.child := after], pointer := Some(plan.child))
      && (before.status != Prepared ==> after == before)
      && (before.status == Prepared ==>
            && after == before.(status := Validated, evidence := after.evidence)
            && after.evidence == before.evidence["source_sha256" := plan.sources])
  {
  }
}
