/** What a committed coupon-PIT finalize puts under the pointer, for every run;
    and what its row gate really accepts. */
module CouponPitOutcome {
  import opened Prelude
  import opened Panel
  import opened ImmutableBatch
  import opened MonthGates
  import opened LedgerSteps
  import opened CouponPit
  import opened CouponPitRuns

  /** The selected artifact rows as staged, by key. */
  function ArtifactRows(plan: Plan): map<Key, Row> { RowsOf(StagedRows(plan, Selected(plan))) }

  // -------------------------------------------------- counts force the contents

  /** A table made of staged artifact rows that has as many rows as the selection
      is the whole selection; the selection then repeats no key. */
  lemma WholeArtifact(plan: Plan, loaded: map<Key, Row>)
    requires AllFromArtifact(plan, loaded) && |loaded| == |Selected(plan)|
    ensures loaded == ArtifactRows(plan)
  {
    var rows := StagedRows(plan, Selected(plan));
    forall k | k in loaded ensures k in RowsOf(rows) {
      var i := ArtifactKey(plan, k, loaded[k]);
    }
    assert loaded.Keys <= RowsOf(rows).Keys;
    SubsetSize(loaded.Keys, RowsOf(rows).Keys);
    RowsOfSize(rows);
    SameSizeSubset(loaded.Keys, RowsOf(rows).Keys);
    forall k | k in loaded ensures RowsOf(rows)[k] == loaded[k] {
      var i := ArtifactKey(plan, k, loaded[k]);
      RowsOfValue(rows, i);
    }
  }

  lemma SubsetSize<T(!new)>(a: set<T>, b: set<T>)
    requires a <= b
    ensures |a| <= |b|
  {
    assert b == a + (b - a);
  }

  lemma ArtifactKey(plan: Plan, k: Key, row: Row) returns (i: nat)
    requires FromArtifact(plan, k, row)
    ensures i < |StagedRows(plan, Selected(plan))| && StagedRows(plan, Selected(plan))[i] == Entry(k, row)
    ensures k in ArtifactRows(plan)
  {
    var e :| e in Selected(plan) && Staged(plan, e) == Entry(k, row);
    i :| 0 <= i < |Selected(plan)| && Selected(plan)[i] == e;
    RowsOfKeys(StagedRows(plan, Selected(plan)), k);
  }

  lemma CutoffSplit(rows: map<Key, Row>, cutoff: Date)
    ensures rows == UpTo(rows, cutoff) + After(rows, cutoff)
    ensures |rows| == |UpTo(rows, cutoff)| + |After(rows, cutoff)|
  {
    assert rows.Keys == UpTo(rows, cutoff).Keys + After(rows, cutoff).Keys;
    assert UpTo(rows, cutoff).Keys !! After(rows, cutoff).Keys;
  }

  lemma FilledSize(rows: map<Key, Row>)
    ensures |Filled(rows)| == |rows|
  {
    assert Filled(rows).Keys == rows.Keys;
  }

  /** The count gate on the returns leaves no room for a missing row. */
  lemma ReturnsComplete(l: Ledger, plan: Plan, own: map<Key, Row>)
    requires Loading(plan, own, FilledTail(l, plan)) && ArtifactCounted(plan)
    requires |own| == Loaded(plan) + |After(Served(l, Returns, plan.head), plan.cutoff)|
    ensures own == ArtifactRows(plan) + FilledTail(l, plan)
  {
    var early, late := UpTo(own, plan.cutoff), After(own, plan.cutoff);
    CutoffSplit(own, plan.cutoff);
    FilledSize(After(Served(l, Returns, plan.head), plan.cutoff));
    hide UpTo, After, Filled, Served, FromArtifact;
    EarlyBound(plan, early);
    if late == map[] {
      assert FilledTail(l, plan) == map[];
    }
    WholeArtifact(plan, early);
  }

  lemma EarlyBound(plan: Plan, loaded: map<Key, Row>)
    requires AllFromArtifact(plan, loaded)
    ensures |loaded| <= |Selected(plan)|
  {
    var rows := StagedRows(plan, Selected(plan));
    forall k | k in loaded ensures k in RowsOf(rows) {
      var i := ArtifactKey(plan, k, loaded[k]);
    }
    SubsetSize(loaded.Keys, RowsOf(rows).Keys);
    RowsOfSize(rows);
  }

  /** Likewise on a surface that is copied whole. */
  lemma CopyComplete(l: Ledger, plan: Plan, s: Surface)
    requires CopiedWhole(l, plan, s) && |Own(l, s, plan.child)| == |Served(l, s, plan.head)|
    ensures Own(l, s, plan.child) == FilledHead(l, plan, s)
  {
    FilledSize(Served(l, s, plan.head));
    hide Own, Served, Filled;
    if Own(l, s, plan.child) == map[] {
      assert FilledHead(l, plan, s) == map[];
    }
  }

  // ---------------------------------------------------- the facts a commit gives

  /** The gates of a commit, one by one. */
  lemma CommitFacts(l: Ledger, plan: Plan)
    requires FinalizeCommits(l, plan)
    ensures plan.head in l.pubs && plan.child in l.pubs && CountGates(l, plan) && DroppedGate(l, plan) && ContinuityGate(l, plan)
    ensures forall m :: m in GatedMonths(l, plan.child) ==>
      RowGate(plan, Own(l, Returns, plan.child), SourceProjection(l, plan), m)
    ensures ServedGates(Switched(l, plan), plan)
  {
    hide PointerPreflight, SourceReaches, DroppedGate, CountGates, ContinuityGate, IdentityGates, CoverageGate,
      RowGate, CarryGate, PointerAdmits, ServedGates, GatedMonths, Contains, Switched, SourceProjection, Own;
  }

  /** The head projection the gates read is what the head serves. */
  lemma SourceIsServed(l: Ledger, plan: Plan)
    requires Sound(l) && HeadWindow(l, plan)
    ensures SourceProjection(l, plan) == Served(l, Returns, plan.head)
  {
    hide FactsSound, Overlay;
    var rank :| Ranked(l.pubs, rank);
    SourceWalkIsView(l.pubs, rank, plan.head, {});
  }

  /** The child's surfaces after the switch, by its parent. */
  lemma SwitchedSurface(l: Ledger, plan: Plan, s: Surface)
    requires Sound(l) && ChildHolds(l, plan) && FinalizeCommits(l, plan)
    ensures plan.child in l.pubs
    ensures Current(Switched(l, plan), s) == (Served(l, s, plan.head) + Own(l, s, plan.child)) - Tombs(l, s, plan.child)
  {
    hide Sound, DdlStep, FinalizeCommits, ChildHolds, HeadWindow, Served, Own, Tombs, SameRows, SameTombs;
    CommittingChild(l, plan);
    HeaderOf(l, plan);
    SwitchIsDdlStep(l, plan);
    SwitchedChild(l, plan.child, Validation(plan));
    SwitchedRows(l, plan, s);
    var m := Switched(l, plan);
    DdlStepKeepsSound(l, m, {});
    HeadFrozen(l, m, plan, {});
    HeadIsDual(m, plan);
    ServedByParent(m, s, plan.child);
  }

  lemma SwitchedRows(l: Ledger, plan: Plan, s: Surface)
    requires plan.child in l.pubs
    ensures Own(Switched(l, plan), s, plan.child) == Own(l, s, plan.child)
    ensures Tombs(Switched(l, plan), s, plan.child) == Tombs(l, s, plan.child)
  {
  }

  lemma HeaderOf(l: Ledger, plan: Plan)
    requires ChildHolds(l, plan) && plan.child in l.pubs
    ensures ChildHeader(l, plan) && HeadWindow(l, plan)
  {
    hide HeadWindow, DeclaresHead, UpTo, Served, Tombs, Dropped, CopiedWhole, ReturnsLoaded;
  }

  lemma HeadIsDual(l: Ledger, plan: Plan)
    requires HeadWindow(l, plan)
    ensures plan.head in l.pubs && l.pubs[plan.head].config.Dual? && l.pubs[plan.head].status.Validated?
  {
  }

  /** The count and dropped-key gates after the switch make the whole served
      returns surface the child's own rows. */
  lemma ServedIsOwn(l: Ledger, plan: Plan)
    requires Sound(l) && ChildHolds(l, plan) && FinalizeCommits(l, plan)
    ensures Current(Switched(l, plan), Returns) == Own(l, Returns, plan.child)
    ensures Current(Switched(l, plan), Returns).Keys !! Dropped(plan)
  {
    hide Sound, DdlStep, FinalizeCommits, ChildHolds, HeadWindow, Served, Own, Tombs, Current, Dropped, ContinuityGate, RowGate;
    CommitFacts(l, plan);
    SwitchedSurface(l, plan, Returns);
    SwitchedChild(l, plan.child, Validation(plan));
    var own, served := Own(l, Returns, plan.child), Current(Switched(l, plan), Returns);
    OwnNotTombed(l, plan);
    assert own.Keys <= served.Keys;
    assert |served| == |own| by { assert CountGates(l, plan); }
    SameSizeSubset(own.Keys, served.Keys);
  }

  lemma OwnNotTombed(l: Ledger, plan: Plan)
    requires Sound(l)
    ensures forall k :: k in Own(l, Returns, plan.child) ==> k !in Tombs(l, Returns, plan.child)
  {
  }

  // --------------------------------------------------------------- main results

  /** A committed finalize leaves the pointer serving exactly the plan: on the
      returns surface the whole pinned artifact up to the cutoff and the head's
      rows after it, on every other surface the head's rows; only identities are
      filled in, and nothing of any ancestor shows through. */
  lemma CommitServesThePlan(l: Ledger, plan: Plan)
    requires Sound(l) && ChildHolds(l, plan) && FinalizeCommits(l, plan) && ArtifactCounted(plan)
    ensures Current(Switched(l, plan), Returns) == ArtifactRows(plan) + FilledTail(l, plan)
    ensures forall s: Surface :: !s.Returns? ==> Current(Switched(l, plan), s) == FilledHead(l, plan, s)
  {
    hide Sound, FinalizeCommits, ChildHolds, Served, Own, Tombs, Current, Switched, ArtifactCounted, FilledHead, FilledTail,
      DroppedGate, ContinuityGate, RowGate, ServedGates, Dropped, ArtifactRows;
    CommitFacts(l, plan);
    CommitLoads(l, plan);
    ServedIsOwn(l, plan);
    forall s: Surface | !s.Returns? ensures Current(Switched(l, plan), s) == FilledHead(l, plan, s) {
      SwitchedSurface(l, plan, s);
      FilledCovers(l, plan, s);
    }
  }

  lemma FilledCovers(l: Ledger, plan: Plan, s: Surface)
    requires !s.Returns?
    ensures (Served(l, s, plan.head) + FilledHead(l, plan, s)) - Tombs(l, s, plan.child) == FilledHead(l, plan, s)
  {
    hide Served;
    assert Tombs(l, s, plan.child) == {};
  }

  lemma CountsOf(l: Ledger, plan: Plan)
    requires ChildHeader(l, plan) && CountGates(l, plan)
    ensures |Own(l, Returns, plan.child)| == Loaded(plan) + |After(Served(l, Returns, plan.head), plan.cutoff)|
    ensures forall s: Surface :: !s.Returns? ==> |Own(l, s, plan.child)| == |Served(l, s, plan.head)|
  {
    hide Own, Tombs, Served, HeadWindow, UpTo, After, Dropped;
    forall s: Surface ensures |Own(l, s, plan.child)| == l.pubs[plan.child].declared.Of(s) {}
  }

  lemma CommitLoads(l: Ledger, plan: Plan)
    requires ChildHolds(l, plan) && plan.child in l.pubs && CountGates(l, plan) && ArtifactCounted(plan)
    ensures Own(l, Returns, plan.child) == ArtifactRows(plan) + FilledTail(l, plan)
    ensures forall s: Surface :: !s.Returns? ==> Own(l, s, plan.child) == FilledHead(l, plan, s)
  {
    hide Own, Served, Loading, FilledTail, FilledHead, ArtifactRows, After, ArtifactCounted, CountGates, ChildHeader, CopiedWhole;
    CountsOf(l, plan);
    ReturnsComplete(l, plan, Own(l, Returns, plan.child));
    forall s: Surface | !s.Returns? ensures Own(l, s, plan.child) == FilledHead(l, plan, s) {
      assert CopiedWhole(l, plan, s);
      CopyComplete(l, plan, s);
    }
  }

  /** Every month of the child's returns is a month the row gate looks at. */
  lemma OwnIsGated(l: Ledger, plan: Plan, k: Key)
    requires k in Own(l, Returns, plan.child)
    ensures k.month in GatedMonths(l, plan.child)
  {
  }

  /** The gate's verdict on one key that the child holds. */
  lemma GatedRow(l: Ledger, plan: Plan, k: Key)
    requires Sound(l) && ChildHolds(l, plan) && FinalizeCommits(l, plan) && k in Own(l, Returns, plan.child)
    ensures !RowRefused(plan, k, Some(Own(l, Returns, plan.child)[k]), Lookup(Served(l, Returns, plan.head), k))
  {
    hide Sound, FinalizeCommits, ChildHolds, HeadWindow, Served, Own, RowRefused, GatedMonths, SourceProjection, DroppedGate, CountGates, ContinuityGate, ServedGates, Switched;
    CommitFacts(l, plan);
    HeaderOf(l, plan);
    SourceIsServed(l, plan);
    OwnIsGated(l, plan, k);
    assert RowGate(plan, Own(l, Returns, plan.child), SourceProjection(l, plan), k.month);
  }

  /** The served returns keys are the head's minus the dropped ones, in every
      month, gated or not. */
  lemma CommitKeepsKeys(l: Ledger, plan: Plan, k: Key)
    requires Sound(l) && ChildHolds(l, plan) && FinalizeCommits(l, plan)
    ensures k in Current(Switched(l, plan), Returns) <==> k in Served(l, Returns, plan.head) && k !in Dropped(plan)
  {
    hide Sound, FinalizeCommits, ChildHolds, Served, Own, Tombs, Current, Switched, Dropped, HeadWindow, DeclaresHead, UpTo;
    SwitchedSurface(l, plan, Returns);
    ServedIsOwn(l, plan);
    HeaderOf(l, plan);
    if k in Own(l, Returns, plan.child) {
      GatedRow(l, plan, k);
      hide RepriceRefused;
      assert k in Served(l, Returns, plan.head);
    }
  }

  /** The relation of a served row to the row the head served. */
  ghost predicate KeepsHead(plan: Plan, k: Key, now: Row, before: Row) {
    && now.price == before.price && now.exitBasis == before.exitBasis && now.exitReason == before.exitReason
    && (k.month > plan.cutoff ==> Verbatim(now) == Verbatim(before))
    && (k.month <= plan.cutoff ==>
          && Contains(now.payload, map[CONTRACT := MarkerOf(plan)])
          && Contains(now.payload, before.payload - {CONTRACT})
          && (now.exitBasis != OBSERVED ==> now.total == before.total && now.carry == before.carry && now.suspect == before.suspect)
          && (now.exitBasis == OBSERVED ==>
                && now.price.Some? && now.carry.Some?
                && -IDENTITY_TOLERANCE <= now.total - (now.price.value + now.carry.value) <= IDENTITY_TOLERANCE
                && now.suspect == (now.total > SUSPECT_ABS_RETURN || now.total < -SUSPECT_ABS_RETURN)))
  }

  lemma TailIsVerbatim(l: Ledger, plan: Plan, k: Key)
    requires k in ArtifactRows(plan) + FilledTail(l, plan) && k.month > plan.cutoff
    ensures k in Served(l, Returns, plan.head)
    ensures Verbatim((ArtifactRows(plan) + FilledTail(l, plan))[k]) == Verbatim(Served(l, Returns, plan.head)[k])
  {
    hide Served, ArtifactRows;
    if k !in FilledTail(l, plan) {
      LateArtifact(plan, k);
    }
  }

  lemma LateArtifact(plan: Plan, k: Key)
    requires k in ArtifactRows(plan)
    ensures k.month <= plan.cutoff
  {
    var rows := StagedRows(plan, Selected(plan));
    RowsOfKeys(rows, k);
    var i :| 0 <= i < |rows| && rows[i].key == k;
    EarlierIsEarlier(plan.artifact, plan.cutoff);
    assert Selected(plan)[i] in Selected(plan);
  }

  /** Every served return keeps the head's price return and typed exit; after the
      cutoff it is the head's row, up to it the carry identity holds. */
  lemma CommitRelatesRows(l: Ledger, plan: Plan, k: Key)
    requires Sound(l) && ChildHolds(l, plan) && FinalizeCommits(l, plan) && ArtifactCounted(plan)
    requires k in Current(Switched(l, plan), Returns)
    ensures k in Served(l, Returns, plan.head)
    ensures KeepsHead(plan, k, Current(Switched(l, plan), Returns)[k], Served(l, Returns, plan.head)[k])
  {
    hide Sound, FinalizeCommits, ChildHolds, Served, Own, Tombs, Current, Switched, Dropped, ArtifactCounted, Contains, ArtifactRows, FilledTail, FilledHead;
    ServedIsOwn(l, plan);
    GatedRow(l, plan, k);
    CommitServesThePlan(l, plan);
    if k.month > plan.cutoff {
      TailIsVerbatim(l, plan, k);
    }
  }

  // --------------------------------------------------------- what the gate accepts

  /** The row gate as its comment and contract describe it: a dropped key may be
      absent from the child, everything else as coded. */
  predicate IntendedlyRefused(plan: Plan, k: Key, cand: Option<Row>, source: Option<Row>) {
    if cand.None? && k in plan.dropped then source.None? else RowRefused(plan, k, cand, source)
  }

  predicate IntendedRowGate(plan: Plan, cand: map<Key, Row>, source: map<Key, Row>, m: Date) {
    forall k :: k in cand.Keys + source.Keys && k.month == m ==> !IntendedlyRefused(plan, k, Lookup(cand, k), Lookup(source, k))
  }

  /** As coded the gate also compares the absent side's exit columns, so that it
      accepts exactly when the intended gate does and the head serves no dropped
      key that the child lacks in that month. */
  lemma RowGateExactly(plan: Plan, cand: map<Key, Row>, source: map<Key, Row>, m: Date)
    ensures RowGate(plan, cand, source, m)
      <==> (IntendedRowGate(plan, cand, source, m) && forall k :: k in source && k.month == m && k in plan.dropped ==> k in cand)
  {
    forall k | k in cand.Keys + source.Keys
      ensures RowRefused(plan, k, Lookup(cand, k), Lookup(source, k))
        <==> (IntendedlyRefused(plan, k, Lookup(cand, k), Lookup(source, k)) || (k in source && k in plan.dropped && k !in cand))
    {
      RowRefusedExactly(plan, k, Lookup(cand, k), Lookup(source, k));
    }
    hide RowRefused, IntendedlyRefused;
  }

  lemma RowRefusedExactly(plan: Plan, k: Key, cand: Option<Row>, source: Option<Row>)
    ensures RowRefused(plan, k, cand, source)
      <==> (IntendedlyRefused(plan, k, cand, source) || (source.Some? && k in plan.dropped && cand.None?))
  {
    hide RepriceRefused;
  }

  /** One dropped key that the head serves: the intended gate lets the child go
      without it, the gate as coded does not. */
  lemma DroppedKeyRefusedExample(plan: Plan, k: Key, row: Row)
    requires k in plan.dropped
    ensures IntendedRowGate(plan, map[], map[k := row], k.month)
    ensures !RowGate(plan, map[], map[k := row], k.month)
  {
    hide RepriceRefused;
    assert RowRefused(plan, k, Lookup(map[], k), Lookup(map[k := row], k));
  }

  /** Contiguous returns: every month start of the window is a gated month. */
  lemma WindowIsGated(l: Ledger, plan: Plan, m: Date)
    requires plan.head in l.pubs && ContinuityGate(l, plan)
    requires InWindow(m, RETURNS_FIRST_MONTH, l.pubs[plan.head].lastClosed)
    ensures m in GatedMonths(l, plan.child)
  {
    var months := Months(Own(l, Returns, plan.child));
    hide Months, Own;
    CountIsCoverage(months, RETURNS_FIRST_MONTH, l.pubs[plan.head].lastClosed);
  }

  /** A dropped key that the head serves in a month of the window blocks the
      finalize for good. */
  lemma DroppedKeyBlocksFinalize(l: Ledger, plan: Plan, k: Key)
    requires Sound(l) && ChildHolds(l, plan) && FinalizeCommits(l, plan)
    requires k in Dropped(plan) && plan.head in l.pubs
    requires InWindow(k.month, RETURNS_FIRST_MONTH, l.pubs[plan.head].lastClosed)
    ensures k !in Served(l, Returns, plan.head)
  {
    hide Sound, FinalizeCommits, ChildHolds, HeadWindow, Served, Own, GatedMonths, SourceProjection, CountGates, ContinuityGate,
      ServedGates, Switched, IntendedRowGate, RowGate, Tombs;
    CommitFacts(l, plan);
    CommittingChild(l, plan);
    HeaderOf(l, plan);
    SourceIsServed(l, plan);
    WindowIsGated(l, plan, k.month);
    RowGateExactly(plan, Own(l, Returns, plan.child), SourceProjection(l, plan), k.month);
  }

  /** So when the head serves returns in the window only, as its own finalize
      made sure, a plan commits only if it drops nothing at all. */
  lemma OnlyDropFreePlansCommit(l: Ledger, plan: Plan)
    requires Sound(l) && ChildHolds(l, plan) && FinalizeCommits(l, plan) && ArtifactCounted(plan)
    requires plan.head in l.pubs
    requires forall k :: k in Served(l, Returns, plan.head) ==> InWindow(k.month, RETURNS_FIRST_MONTH, l.pubs[plan.head].lastClosed)
    ensures plan.dropped == []
  {
    hide Sound, FinalizeCommits, Served, Current, Switched, ArtifactRows, FilledHead, UpTo, After, HeadWindow, Own, CopiedWhole, ReturnsLoaded, Dropped, InWindow, Tombs;
    CommittingChild(l, plan);
    var served, head := Current(Switched(l, plan), Returns), Served(l, Returns, plan.head);
    forall k ensures k in served <==> k in head {
      CommitKeepsKeys(l, plan, k);
      if k in head && k in Dropped(plan) { DroppedKeyBlocksFinalize(l, plan, k); }
    }
    CommitServesThePlan(l, plan);
    hide FilledTail;
    EarlySize(l, plan, served, head);
  }

  lemma EarlySize(l: Ledger, plan: Plan, served: map<Key, Row>, head: map<Key, Row>)
    requires served == ArtifactRows(plan) + FilledTail(l, plan) && ArtifactCounted(plan)
    requires forall k :: k in served <==> k in head
    requires |UpTo(head, plan.cutoff)| == plan.rowsBefore
    ensures plan.dropped == []
  {
    hide Served, RowsOf;
    forall k ensures k in UpTo(served, plan.cutoff) <==> k in ArtifactRows(plan) {
      if k in ArtifactRows(plan) { LateArtifact(plan, k); }
    }
    assert UpTo(served, plan.cutoff).Keys == UpTo(head, plan.cutoff).Keys;
    assert ArtifactRows(plan).Keys == UpTo(head, plan.cutoff).Keys;
    RowsOfSize(StagedRows(plan, Selected(plan)));
  }

  // -------------------------------------------------------------------- over runs

  /** In every run, a commit serves the plan then and ever after: as long as the
      pointer is on the child, no later transaction changes what the views return. */
  lemma {:induction false} RunServesThePlan(states: seq<Ledger>, plan: Plan, i: nat, j: nat)
    requires Run(states, plan) && ArtifactCounted(plan)
    requires i < j < |states| && FinalizeCommits(states[i], plan) && states[i + 1] == Switched(states[i], plan)
    ensures Sound(states[j]) && plan.child in states[j].pubs && states[j].pubs[plan.child].status.Validated?
    ensures Served(states[j], Returns, plan.child) == ArtifactRows(plan) + FilledTail(states[i], plan)
    ensures forall s: Surface :: !s.Returns? ==> Served(states[j], s, plan.child) == FilledHead(states[i], plan, s)
    decreases j
  {
    hide Sound, FinalizeCommits, ChildHolds, Step, Served, ArtifactRows, FilledTail, FilledHead, DdlStep, ArtifactCounted;
    RunKeeps(states, plan, j);
    if j == i + 1 {
      RunKeeps(states, plan, i);
      CommittingChild(states[i], plan);
      CommitServesThePlan(states[i], plan);
    } else {
      RunServesThePlan(states, plan, i, j - 1);
      RunKeeps(states, plan, j - 1);
      StepIsDdlStep(states[j - 1], states[j], plan);
      var mine :| DdlStep(states[j - 1], states[j], mine);
      ServedFrozen(states[j - 1], states[j], Returns, plan.child, mine);
      forall s ensures Served(states[j], s, plan.child) == Served(states[j - 1], s, plan.child)
        && plan.child in states[j].pubs && states[j].pubs[plan.child] == states[j - 1].pubs[plan.child]
      {
        ServedFrozen(states[j - 1], states[j], s, plan.child, mine);
      }
    }
  }
}
