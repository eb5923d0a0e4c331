/** The prepare, copy and batch transactions of the coupon-PIT repair as conditions on
    columns and key sets: exactly when each commits and what it adds. */
module CouponPitChecks {
  import opened Prelude
  import opened Panel
  import opened ImmutableBatch
  import opened MonthGates
  import opened LedgerSteps
  import opened CouponPit
  import opened CouponPitRuns
  import opened CouponPitGates

  // --------------------------------------------------------------------- the child

  /** The publication carries this plan's contract for this head. */
  predicate HasContract(evidence: Doc, contract: string, head: Id) {
    && "coupon_pit_repair" in evidence && evidence["coupon_pit_repair"].Mark?
    && evidence["coupon_pit_repair"].marker.contract == contract && evidence["coupon_pit_repair"].marker.fromHead == head
  }

  /** The pointer is on the head and the plan's child is there, prepared or validated. */
  predicate ChildInPlace(l: Ledger, plan: Plan) {
    && l.pointer == Some(plan.head) && plan.child in l.pubs
    && var c := l.pubs[plan.child];
    && (c.status.Prepared? || c.status.Validated?)
    && c.parent == Some(plan.head) && c.config == Dual && c.fingerprint == plan.fingerprint && c.revision == plan.revision
    && HasContract(c.evidence, plan.contract, plan.head)
  }

  lemma InPlaceExactly(l: Ledger, plan: Plan)
    ensures (l.pointer == Some(plan.head) && ChildIdentity(l, plan)) <==> ChildInPlace(l, plan)
  {
  }

  // ----------------------------------------------------------------------- prepare

  /** A validated dual-series head from July 2002 to beyond the cutoff whose open month
      follows its last closed one. */
  predicate HeadReady(l: Ledger, plan: Plan) {
    && plan.head in l.pubs
    && var head := l.pubs[plan.head];
    && head.status.Validated? && head.config.Dual? && head.first == JULY_2002
    && plan.cutoff < head.lastClosed && head.open == Some(head.lastClosed + 31)
  }

  /** The head descends from the validated unit repair and from the frozen legacy root. */
  predicate LineageReady(l: Ledger, plan: Plan)
    requires plan.head in l.pubs
  {
    var line := Chain(l.pubs, plan.head, {}, Walk.Lineage);
    && plan.unitChild in line && plan.unitChild in l.pubs && l.pubs[plan.unitChild].status.Validated?
    && "unit_repair" in l.pubs[plan.unitChild].evidence && l.pubs[plan.unitChild].evidence["unit_repair"].Mark?
    && l.pubs[plan.unitChild].evidence["unit_repair"].marker.contract == plan.unitContract
    && plan.root in line && plan.root in l.pubs
    && l.pubs[plan.root].parent == None && l.pubs[plan.root].status.Validated? && l.pubs[plan.root].config.Legacy?
    && l.pubs[plan.root].revision == plan.rootRevision
    && "source_sha256" in l.pubs[plan.root].lineage && l.pubs[plan.root].lineage["source_sha256"] == plan.rootSources
  }

  /** The counts a new child declares: what is served, the artifact's rows in place of
      the head's returns up to the cutoff. */
  function CountsNow(l: Ledger, plan: Plan): Counts {
    Counts(
      |Current(l, Snapshot)|, |Current(l, RvSignal)|,
      plan.rowsBefore - |plan.dropped| + |set k | k in Current(l, Returns) && plan.cutoff < k.month|, |Current(l, RatingPit)|)
  }

  /** An existing child has the very header a new one would get. */
  predicate SameHeaderAgain(l: Ledger, plan: Plan)
    requires plan.head in l.pubs && plan.child in l.pubs
  {
    var head, c := l.pubs[plan.head], l.pubs[plan.child];
    && (c.status.Prepared? || c.status.Validated?)
    && c.parent == Some(plan.head) && c.config == Dual && c.fingerprint == plan.fingerprint && c.revision == plan.revision
    && c.first == head.first && c.lastClosed == head.lastClosed && c.open == head.open && c.declared == CountsNow(l, plan)
    && "coupon_pit_repair" in c.lineage && c.lineage["coupon_pit_repair"] == Mark(Marker(plan.contract, plan.head, plan.pins))
    && "coupon_pit_repair" in c.evidence && c.evidence["coupon_pit_repair"] == Mark(Marker(plan.contract, plan.head, plan.pins))
  }

  /** A new child has a fingerprint of its own, no empty surface and an ordered window. */
  predicate NewHeaderFits(l: Ledger, plan: Plan)
    requires plan.head in l.pubs
  {
    var counts := CountsNow(l, plan);
    && (forall p :: p in l.pubs ==> l.pubs[p].fingerprint != plan.fingerprint)
    && counts.snapshotRows > 0 && counts.signalRows > 0 && counts.returnRows > 0 && counts.ratingRows > 0
    && l.pubs[plan.head].first <= l.pubs[plan.head].lastClosed
  }

  ghost predicate MayPrepare(l: Ledger, plan: Plan) {
    && l.pointer == Some(plan.head) && HeadReady(l, plan) && LineageReady(l, plan)
    && (forall p :: p in l.pubs && l.pubs[p].status.Validated? ==> !HasContract(l.pubs[p].evidence, plan.contract, plan.head))
    && |set k | k in Current(l, Returns) && k.month <= plan.cutoff| == plan.rowsBefore
    && (if plan.child in l.pubs then SameHeaderAgain(l, plan) else NewHeaderFits(l, plan))
    && NoRepeat(plan.dropped)
    && (forall k :: k in plan.dropped ==> k !in Own(l, Returns, plan.child))
    && (forall k :: k in Tombs(l, Returns, plan.child) ==> k in plan.dropped)
  }

  lemma HeadExactly(l: Ledger, plan: Plan)
    ensures HeadWindow(l, plan) <==> HeadReady(l, plan)
  {
  }

  lemma LineageExactly(l: Ledger, plan: Plan)
    requires plan.head in l.pubs
    ensures LineageReaches(l, plan) <==> LineageReady(l, plan)
  {
    hide Chain;
  }

  lemma ContractExactly(evidence: Doc, plan: Plan)
    ensures MarkedFor(evidence, plan) <==> HasContract(evidence, plan.contract, plan.head)
  {
  }

  lemma SplitSizes(rows: map<Key, Row>, cutoff: Date)
    ensures |UpTo(rows, cutoff)| == |set k | k in rows && k.month <= cutoff|
    ensures |After(rows, cutoff)| == |set k | k in rows && cutoff < k.month|
  {
    assert UpTo(rows, cutoff).Keys == set k | k in rows && k.month <= cutoff;
    assert After(rows, cutoff).Keys == set k | k in rows && cutoff < k.month;
  }

  /** The header a prepare writes for a new child. */
  lemma MadeExactly(l: Ledger, plan: Plan)
    requires plan.head in l.pubs
    ensures var head, made := l.pubs[plan.head], ChildPublication(l, plan);
      && made.parent == Some(plan.head) && made.status == Prepared && made.config == Dual
      && made.fingerprint == plan.fingerprint && made.revision == plan.revision
      && made.first == head.first && made.lastClosed == head.lastClosed && made.open == head.open
      && made.declared == CountsNow(l, plan)
      && made.lineage == head.lineage["coupon_pit_repair" := Mark(Marker(plan.contract, plan.head, plan.pins))]
      && made.evidence == map["coupon_pit_repair" := Mark(Marker(plan.contract, plan.head, plan.pins))]
  {
    SplitSizes(Current(l, Returns), plan.cutoff);
    hide Current, UpTo, After;
  }

  lemma AdmittedExactly(l: Ledger, plan: Plan)
    requires plan.head in l.pubs
    ensures ChildAdmitted(l.pubs, ChildPublication(l, plan), plan)
      <==> (if plan.child in l.pubs then SameHeaderAgain(l, plan) else NewHeaderFits(l, plan))
  {
    MadeExactly(l, plan);
    if plan.child in l.pubs {
      MarkerContained(l.pubs[plan.child].lineage, plan);
      MarkerContained(l.pubs[plan.child].evidence, plan);
    }
    hide ChildPublication, CountsNow, Contains;
  }

  lemma TombstonesExactly(l: Ledger, plan: Plan)
    ensures TombstonesAdmitted(l, plan)
      <==> (NoRepeat(plan.dropped)
        && (forall k :: k in plan.dropped ==> k !in Own(l, Returns, plan.child))
        && (forall k :: k in Tombs(l, Returns, plan.child) ==> k in plan.dropped))
  {
    hide Own, Tombs, NoRepeat;
    NoRepeatExactly(plan.dropped);
    assert Dropped(plan) == set k | k in plan.dropped;
  }

  /** The prepare commits exactly when all of this holds of head, lineage, child and
      dropped keys. */
  lemma PrepareExactly(l: Ledger, plan: Plan)
    ensures PrepareAllowed(l, plan) <==> MayPrepare(l, plan)
  {
    hide HeadWindow, HeadReady, LineageReaches, LineageReady, ChildAdmitted, SameHeaderAgain, NewHeaderFits, TombstonesAdmitted, NoRepeat, Own, Tombs, Current,
      MarkedFor, HasContract, ChildPublication, UpTo;
    HeadExactly(l, plan);
    if HeadReady(l, plan) {
      HeadThere(l, plan);
      LineageExactly(l, plan);
      AdmittedExactly(l, plan);
      TombstonesExactly(l, plan);
      SplitSizes(Current(l, Returns), plan.cutoff);
      forall p | p in l.pubs ensures MarkedFor(l.pubs[p].evidence, plan) <==> HasContract(l.pubs[p].evidence, plan.contract, plan.head) {
        ContractExactly(l.pubs[p].evidence, plan);
      }
    }
  }

  lemma HeadThere(l: Ledger, plan: Plan)
    requires HeadReady(l, plan)
    ensures plan.head in l.pubs
  {
  }

  // -------------------------------------------------------------------------- copy

  /** The rows a copy takes: all of a surface, of the returns those after the cutoff. */
  ghost predicate Takes(plan: Plan, s: Surface, k: Key) { s.Returns? ==> plan.cutoff < k.month }

  /** Every column but the identity. */
  predicate SameButIdentity(now: Row, before: Row) {
    && now.included == before.included && now.priceSource == before.priceSource && now.volume == before.volume
    && now.total == before.total && now.price == before.price && now.carry == before.carry
    && now.exitBasis == before.exitBasis && now.exitReason == before.exitReason && now.suspect == before.suspect
    && now.lineage == before.lineage && now.payload == before.payload && now.rest == before.rest
  }

  lemma VerbatimExactly(now: Row, before: Row)
    ensures Verbatim(now) == Verbatim(before) <==> SameButIdentity(now, before)
  {
  }

  /** A prepared child has only head rows in the copied range, unchanged, and none of
      them is withdrawn; a validated one has as many; the declaration fits. */
  ghost predicate MayCopy(l: Ledger, plan: Plan, s: Surface)
    requires plan.child in l.pubs
  {
    var head, own, c := Current(l, s), Own(l, s, plan.child), l.pubs[plan.child];
    var taken := set k | k in head && Takes(plan, s, k);
    && (c.status.Prepared? ==> forall k :: k in own && Takes(plan, s, k) ==> k in head)
    && (c.status.Prepared? && s.Returns? ==> forall k :: k in taken ==> k !in Tombs(l, Returns, plan.child))
    && (!c.status.Prepared? ==> |set k | k in own && Takes(plan, s, k)| == |taken|)
    && c.declared.Of(s) == |taken| + (if s.Returns? then plan.rowsBefore - |plan.dropped| else 0)
    && (forall k :: k in own && k in taken ==> SameButIdentity(own[k], head[k]))
  }

  lemma SourceKeys(l: Ledger, plan: Plan, s: Surface)
    ensures CopySource(l, plan, s).Keys == set k | k in Current(l, s) && Takes(plan, s, k)
    ensures forall k :: k in CopySource(l, plan, s) ==> CopySource(l, plan, s)[k] == Current(l, s)[k]
  {
    hide Current;
  }

  lemma ScopeKeys(rows: map<Key, Row>, plan: Plan, s: Surface)
    ensures InScope(rows, plan, s).Keys == set k | k in rows && Takes(plan, s, k)
  {
  }

  /** What a copy leaves: the rows already there, and for every other head row of the
      range that row with its identity filled. */
  lemma CopiedExactly(l: Ledger, plan: Plan, s: Surface, k: Key)
    requires plan.child in l.pubs && l.pubs[plan.child].status.Prepared?
    ensures var own, head, rows := Own(l, s, plan.child), Current(l, s), CopiedRows(l, plan, s);
      && (k in rows <==> k in own || (k in head && Takes(plan, s, k)))
      && (k in own ==> rows[k] == own[k])
      && (k !in own && k in head && Takes(plan, s, k) ==>
            rows[k] == head[k].(identity := rows[k].identity) && IdentityFilled(k, rows[k].identity, head[k].identity))
  {
    hide Own, Current, CopySource, IdentityFilled;
    SourceKeys(l, plan, s);
    if k in CopySource(l, plan, s) { FilledExactly(k, FilledIdentity(k, CopySource(l, plan, s)[k].identity), CopySource(l, plan, s)[k].identity); }
  }

  /** Counting the rows of the range decides that a prepared child has no other row there. */
  lemma RangeCount(taken: set<Key>, own: set<Key>)
    ensures |taken + own| == |taken| <==> own <= taken
  {
    assert taken + own == taken + (own - taken);
    if own <= taken { assert taken + own == taken; }
  }

  lemma PreparedCount(l: Ledger, plan: Plan, s: Surface)
    requires plan.child in l.pubs && l.pubs[plan.child].status.Prepared?
    ensures |InScope(CopiedRows(l, plan, s), plan, s)| == |CopySource(l, plan, s)|
      <==> forall k :: k in Own(l, s, plan.child) && Takes(plan, s, k) ==> k in Current(l, s)
  {
    hide Own, Current, CopySource, CopiedRows, InScope, Takes;
    SourceKeys(l, plan, s);
    CopiedKeys(l, plan, s);
    ScopeKeys(CopiedRows(l, plan, s), plan, s);
    var taken, mine := CopySource(l, plan, s).Keys, set k | k in Own(l, s, plan.child) && Takes(plan, s, k);
    assert InScope(CopiedRows(l, plan, s), plan, s).Keys == taken + mine;
    RangeCount(taken, mine);
    assert |InScope(CopiedRows(l, plan, s), plan, s)| == |taken + mine| && |CopySource(l, plan, s)| == |taken|;
    if mine <= taken {
      forall k | k in Own(l, s, plan.child) && Takes(plan, s, k) ensures k in Current(l, s) { assert k in mine; }
    }
  }

  lemma CopiedKeys(l: Ledger, plan: Plan, s: Surface)
    requires plan.child in l.pubs && l.pubs[plan.child].status.Prepared?
    ensures CopiedRows(l, plan, s).Keys == Own(l, s, plan.child).Keys + CopySource(l, plan, s).Keys
  {
    hide Own, CopySource, Fill;
  }

  lemma CopyVerbatim(l: Ledger, plan: Plan, s: Surface)
    requires plan.child in l.pubs
    ensures (forall k :: k in CopySource(l, plan, s) && k in CopiedRows(l, plan, s) ==> Verbatim(CopiedRows(l, plan, s)[k]) == Verbatim(CopySource(l, plan, s)[k]))
      <==> forall k :: k in CopySource(l, plan, s) && k in Own(l, s, plan.child) ==> SameButIdentity(Own(l, s, plan.child)[k], Current(l, s)[k])
  {
    hide Own, Current, CopySource;
    SourceKeys(l, plan, s);
    forall k | k in CopySource(l, plan, s) && k in Own(l, s, plan.child)
      ensures Verbatim(Own(l, s, plan.child)[k]) == Verbatim(CopySource(l, plan, s)[k]) <==> SameButIdentity(Own(l, s, plan.child)[k], Current(l, s)[k])
    {
      VerbatimExactly(Own(l, s, plan.child)[k], Current(l, s)[k]);
    }
    hide SameButIdentity, FilledIdentity;
  }

  lemma CopyExactly(l: Ledger, plan: Plan, s: Surface)
    ensures CopyAllowed(l, plan, s) <==> ChildInPlace(l, plan) && MayCopy(l, plan, s)
  {
    hide ChildIdentity, ChildInPlace, Own, Current, CopySource, CopiedRows, InScope, Tombs, Verbatim, SameButIdentity, Takes;
    InPlaceExactly(l, plan);
    if ChildInPlace(l, plan) {
      InPlaceThere(l, plan);
      SourceKeys(l, plan, s);
      CopyVerbatim(l, plan, s);
      if l.pubs[plan.child].status.Prepared? {
        PreparedCount(l, plan, s);
      } else {
        assert CopiedRows(l, plan, s) == Own(l, s, plan.child) by { ClosedCopies(l, plan, s); }
        ScopeKeys(Own(l, s, plan.child), plan, s);
      }
    }
  }

  lemma ClosedCopies(l: Ledger, plan: Plan, s: Surface)
    requires plan.child in l.pubs && !l.pubs[plan.child].status.Prepared?
    ensures CopiedRows(l, plan, s) == Own(l, s, plan.child)
  {
  }

  lemma InPlaceThere(l: Ledger, plan: Plan)
    requires ChildInPlace(l, plan)
    ensures plan.child in l.pubs
  {
  }

  // ------------------------------------------------------------------------- batch

  /** The artifact rows of a slice, as loaded: they and the rows already there never
      disagree, and a prepared child has withdrawn none of them. */
  ghost predicate MayLoad(l: Ledger, plan: Plan, rows: seq<Entry<Key, Row>>)
    requires plan.child in l.pubs
  {
    var own := Own(l, Returns, plan.child);
    && (forall i, j :: 0 <= i < |rows| && 0 <= j < |rows| && rows[i].key == rows[j].key ==> rows[i].row == rows[j].row)
    && (forall i :: 0 <= i < |rows| && rows[i].key in own ==> own[rows[i].key] == rows[i].row)
    && (l.pubs[plan.child].status.Prepared? ==> forall i :: 0 <= i < |rows| ==> rows[i].key !in Tombs(l, Returns, plan.child))
  }

  lemma LoadExactly(l: Ledger, plan: Plan, rows: seq<Entry<Key, Row>>)
    requires plan.child in l.pubs
    ensures (StagedMerge(Own(l, Returns, plan.child), rows).Some?
        && (l.pubs[plan.child].status.Prepared? ==> RowsOf(rows).Keys !! Tombs(l, Returns, plan.child)))
      <==> MayLoad(l, plan, rows)
  {
    hide Own, Tombs, RowsOf;
    MergeExactly(Own(l, Returns, plan.child), rows, RowsOf(rows) + Own(l, Returns, plan.child));
    forall k ensures k in RowsOf(rows) <==> exists i :: 0 <= i < |rows| && rows[i].key == k { RowsOfKeys(rows, k); }
  }

  /** A batch commits exactly when the artifact has the planned number of rows up to the
      cutoff, the child is in place and the slice fits what is there. */
  lemma BatchExactly(l: Ledger, plan: Plan, start: nat, limit: nat)
    ensures BatchAllowed(l, plan, start, limit)
      <==> (limit > 0 && |Selected(plan)| == plan.rowsBefore - |plan.dropped| && ChildInPlace(l, plan)
        && MayLoad(l, plan, BatchRows(plan, start, limit)))
  {
    hide ChildIdentity, ChildInPlace, Own, Tombs, BatchRows, Selected, StagedMerge, MayLoad;
    InPlaceExactly(l, plan);
    if ChildInPlace(l, plan) {
      InPlaceThere(l, plan);
      LoadExactly(l, plan, BatchRows(plan, start, limit));
    }
  }

  /** The slice: at most `limit` of the artifact's rows up to the cutoff, in order, from
      the cursor on, each as loaded. */
  lemma SliceExactly(plan: Plan, start: nat, limit: nat)
    ensures var rows, all := BatchRows(plan, start, limit), Selected(plan);
      && |rows| == (if start >= |all| then 0 else if start + limit < |all| then limit else |all| - start)
      && forall i :: 0 <= i < |rows| ==> rows[i].key == all[start + i].key && LoadedFrom(plan, rows[i].row, all[start + i])
  {
    hide Staged, LoadedFrom;
    var rows, all := BatchRows(plan, start, limit), Selected(plan);
    forall i | 0 <= i < |rows| ensures rows[i].key == all[start + i].key && LoadedFrom(plan, rows[i].row, all[start + i]) {
      StagedExactly(plan, all[start + i]);
      assert rows[i] == Staged(plan, Slice(all, start, limit)[i]);
    }
  }

  /** The rows up to the cutoff, in the artifact's order and without a gap. */
  lemma {:induction false} EarlierInOrder(entries: seq<Entry<Key, Row>>, cutoff: Date)
    ensures Earlier(entries, cutoff) == EarlyOnes(entries, cutoff, |entries|)
    decreases |entries|
  {
    if entries != [] {
      EarlierInOrder(entries[1..], cutoff);
      EarlyOnesFirst(entries, cutoff, |entries|);
    }
  }

  /** The same selection read from the front. */
  function EarlyOnes(entries: seq<Entry<Key, Row>>, cutoff: Date, n: nat): seq<Entry<Key, Row>>
    requires n <= |entries|
  {
    if n == 0 then [] else if entries[n - 1].key.month <= cutoff then EarlyOnes(entries, cutoff, n - 1) + [entries[n - 1]] else EarlyOnes(entries, cutoff, n - 1)
  }

  lemma {:induction false} EarlyOnesFirst(entries: seq<Entry<Key, Row>>, cutoff: Date, n: nat)
    requires 0 < n <= |entries|
    ensures EarlyOnes(entries, cutoff, n) == (if entries[0].key.month <= cutoff then [entries[0]] else []) + EarlyOnes(entries[1..], cutoff, n - 1)
    decreases n
  {
    if n > 1 {
      EarlyOnesFirst(entries, cutoff, n - 1);
      assert entries[1..][n - 2] == entries[n - 1];
    }
  }
}
