/** A loaded coupon-PIT child that satisfies every gate: the premises of the outcome
    theorems can hold together. One bond, one month up to the cutoff and one after. */
module CouponPitWitness {
  import opened Prelude
  import opened Panel
  import opened ImmutableBatch
  import opened MonthGates
  import opened LedgerSteps
  import opened CouponPit
  import opened CouponPitRuns
  import opened CouponPitOutcome
  import opened PanelWitness

  const EARLY := Key(RETURNS_FIRST_MONTH, "C")
  const LATE := Key(NextMonth(RETURNS_FIRST_MONTH), "C")

  /** A served row without a rule, to be filled in as a 144A row. */
  function RowWith(total: real, carry: real, payload: Doc): Row {
    Row(Identity(None, None, None), true, None, None, total, Some(0.1), Some(carry), OBSERVED, None, false, map[], payload, "")
  }

  const BEFORE := RowWith(0.3, 0.2, map[])
  const REPRICED := RowWith(0.35, 0.25, map[])
  const YEAR := 2002

  const PLAN := Plan(
    CHILD, HEAD, HEAD, ROOT, "fingerprint", "contract", "revision", "unit", "root", Text("sources"), EARLY.month,
    1, [], [Entry(EARLY, REPRICED)], map[YEAR := YearSum(1, 0.2, 0.25)], "pins")

  const MARKS: Doc := map[CONTRACT := MarkerOf(PLAN)]
  const HEAD_ROWS: map<Key, Row> := map[EARLY := BEFORE, LATE := BEFORE]
  const CHILD_RETURNS: map<Key, Row> := map[EARLY := Fill(EARLY, REPRICED).(payload := MARKS), LATE := Fill(LATE, BEFORE)]
  const CHILD_ROWS: map<Key, Row> := map[EARLY := Fill(EARLY, BEFORE), LATE := Fill(LATE, BEFORE)]
  const COUNTS := Counts(2, 2, 2, 2)

  function Pub(parent: Option<Id>, status: Status, config: Config, fingerprint: string): Publication {
    Publication(parent, status, config, fingerprint, "revision", FIRST_MONTH, LATE.month, Some(NextMonth(LATE.month)), COUNTS, MARKS, MARKS)
  }

  const LEDGER := Ledger(
    map[ROOT := Pub(None, Validated, Legacy, "root"), HEAD := Pub(Some(ROOT), Validated, Dual, "head"),
        CHILD := Pub(Some(HEAD), Prepared, Dual, "fingerprint")],
    Some(HEAD),
    map[Slot(Snapshot, HEAD) := HEAD_ROWS, Slot(RvSignal, HEAD) := HEAD_ROWS, Slot(Returns, HEAD) := HEAD_ROWS, Slot(RatingPit, HEAD) := HEAD_ROWS,
        Slot(Snapshot, CHILD) := CHILD_ROWS, Slot(RvSignal, CHILD) := CHILD_ROWS, Slot(Returns, CHILD) := CHILD_RETURNS,
        Slot(RatingPit, CHILD) := CHILD_ROWS],
    map[], map[])

  lemma Shape()
    ensures ThreeDeep(LEDGER)
  {
  }

  lemma RootIsEmpty(s: Surface)
    ensures Own(LEDGER, s, ROOT) == map[] && Tombs(LEDGER, s, CHILD) == {}
  {
  }

  lemma HeadTables(s: Surface)
    ensures Own(LEDGER, s, HEAD) == HEAD_ROWS
  {
    hide HEAD_ROWS, CHILD_ROWS, CHILD_RETURNS;
    assert Slot(s, HEAD) in LEDGER.facts;
  }

  lemma ChildTables(s: Surface)
    ensures Own(LEDGER, s, CHILD) == if s.Returns? then CHILD_RETURNS else CHILD_ROWS
  {
    hide HEAD_ROWS, CHILD_ROWS, CHILD_RETURNS;
    assert Slot(s, CHILD) in LEDGER.facts;
  }

  lemma Sizes()
    ensures |HEAD_ROWS| == 2 && HEAD_ROWS.Keys == {EARLY, LATE}
  {
  }

  lemma ChildSizes()
    ensures |CHILD_ROWS| == 2 && CHILD_ROWS.Keys == {EARLY, LATE}
    ensures |CHILD_RETURNS| == 2 && CHILD_RETURNS.Keys == {EARLY, LATE}
  {
  }

  lemma ArtifactOf()
    ensures Selected(PLAN) == [Entry(EARLY, REPRICED)] && Dropped(PLAN) == {} && Loaded(PLAN) == 1 && ArtifactCounted(PLAN)
  {
    assert Earlier(PLAN.artifact[1..], PLAN.cutoff) == [];
  }

  lemma EarlyIsStaged()
    ensures FromArtifact(PLAN, EARLY, CHILD_RETURNS[EARLY])
  {
    ArtifactOf();
    assert Staged(PLAN, Entry(EARLY, REPRICED)) == Entry(EARLY, CHILD_RETURNS[EARLY]);
    assert Entry(EARLY, REPRICED) in Selected(PLAN);
  }

  lemma HeadUpTo()
    ensures |UpTo(HEAD_ROWS, PLAN.cutoff)| == 1
  {
    assert UpTo(HEAD_ROWS, PLAN.cutoff).Keys == {EARLY};
  }

  lemma HeadAfter()
    ensures After(HEAD_ROWS, PLAN.cutoff).Keys == {LATE} && After(HEAD_ROWS, PLAN.cutoff)[LATE] == BEFORE && |After(HEAD_ROWS, PLAN.cutoff)| == 1
  {
  }

  lemma ChildUpTo()
    ensures UpTo(CHILD_RETURNS, PLAN.cutoff).Keys == {EARLY} && UpTo(CHILD_RETURNS, PLAN.cutoff)[EARLY] == CHILD_RETURNS[EARLY]
  {
  }

  lemma ChildAfter()
    ensures After(CHILD_RETURNS, PLAN.cutoff).Keys == {LATE} && After(CHILD_RETURNS, PLAN.cutoff)[LATE] == Fill(LATE, BEFORE)
  {
  }

  lemma FilledHeadRows()
    ensures Filled(HEAD_ROWS) == CHILD_ROWS
  {
  }

  lemma HeadServesIts(s: Surface)
    ensures Served(LEDGER, s, HEAD) == HEAD_ROWS
  {
    Shape();
    RootIsEmpty(s);
    HeadTables(s);
    hide LEDGER, HEAD_ROWS;
    HeadServes(LEDGER, s);
  }

  lemma TailLoaded()
    ensures After(CHILD_RETURNS, PLAN.cutoff) == FilledTail(LEDGER, PLAN)
  {
    HeadServesIts(Returns);
    HeadAfter();
    ChildAfter();
    hide LEDGER, Served, After, CHILD_RETURNS, HEAD_ROWS;
    var tail := FilledTail(LEDGER, PLAN);
    assert tail.Keys == {LATE} && tail[LATE] == Fill(LATE, BEFORE);
  }

  lemma ReturnsAreLoading()
    ensures ReturnsLoaded(LEDGER, PLAN)
  {
    ChildTables(Returns);
    TailLoaded();
    ChildUpTo();
    EarlyIsStaged();
    hide LEDGER, FilledTail, After, UpTo, CHILD_RETURNS, FromArtifact, Own;
  }

  lemma WindowIsRight()
    ensures HeadWindow(LEDGER, PLAN) && CHILD in LEDGER.pubs
    ensures LEDGER.pubs[CHILD].parent == Some(HEAD) && LEDGER.pubs[CHILD].config.Dual? && LEDGER.pubs[CHILD].declared == COUNTS
    ensures PLAN.head == HEAD && PLAN.child == CHILD && PLAN.rowsBefore == 1
  {
  }

  lemma CountsDeclared()
    ensures DeclaresHead(LEDGER, PLAN, COUNTS) && |UpTo(Served(LEDGER, Returns, HEAD), PLAN.cutoff)| == 1
  {
    hide LEDGER, Served, UpTo, After, HEAD_ROWS, Loaded;
    HeadServesIts(Snapshot);
    HeadServesIts(RvSignal);
    HeadServesIts(Returns);
    HeadServesIts(RatingPit);
    Sizes();
    HeadUpTo();
    HeadAfter();
    ArtifactOf();
    WindowIsRight();
  }

  lemma HeaderIsRight()
    ensures ChildHeader(LEDGER, PLAN)
  {
    WindowIsRight();
    CountsDeclared();
    ArtifactOf();
    RootIsEmpty(Returns);
    hide LEDGER, PLAN, HeadWindow, DeclaresHead, Served, UpTo, Tombs, Dropped, COUNTS;
  }

  /** The child is what a run leaves: whole copies, staged artifact rows, the head's counts. */
  lemma LoadedChild()
    ensures Sound(LEDGER) && ChildHolds(LEDGER, PLAN) && ArtifactCounted(PLAN)
  {
    Shape();
    IsSound(LEDGER);
    HeaderIsRight();
    ReturnsAreLoading();
    ArtifactOf();
    forall s: Surface | !s.Returns? ensures CopiedWhole(LEDGER, PLAN, s) {
      HeadServesIts(s);
      ChildTables(s);
      FilledHeadRows();
      hide LEDGER, Served, Filled, HEAD_ROWS, CHILD_ROWS, CHILD_RETURNS, Own;
    }
    hide LEDGER, Sound, ChildHeader, ReturnsLoaded, CopiedWhole, ArtifactCounted;
  }

  // ------------------------------------------------------------------- its gates

  lemma ProjectionIs()
    ensures PLAN.head in LEDGER.pubs && PLAN.child in LEDGER.pubs && SourceProjection(LEDGER, PLAN) == HEAD_ROWS
  {
    Shape();
    RootIsEmpty(Returns);
    HeadTables(Returns);
    WindowIsRight();
    hide LEDGER, HEAD_ROWS, PLAN, Served;
    HeadServes(LEDGER, Returns);
  }

  lemma IdentityPasses()
    ensures PointerPreflight(LEDGER, PLAN) && FinalizeIdentity(LEDGER, PLAN) && SourceReaches(LEDGER, PLAN)
  {
    Shape();
    HeadChain(LEDGER, {}, Source);
    hide Chain;
    assert PLAN.unitChild in [HEAD, ROOT] && PLAN.root in [HEAD, ROOT];
  }

  lemma CountsPass()
    ensures DroppedGate(LEDGER, PLAN) && PLAN.child in LEDGER.pubs && CountGates(LEDGER, PLAN)
  {
    WindowIsRight();
    ArtifactOf();
    RootIsEmpty(Returns);
    ChildSizes();
    forall s: Surface ensures |Own(LEDGER, s, CHILD)| == 2 { ChildTables(s); }
    assert |PLAN.dropped| == 0;
    hide LEDGER, PLAN, Own, Tombs, Dropped;
  }

  lemma MonthsOf()
    ensures Months(CHILD_RETURNS) == Months(CHILD_ROWS) == {EARLY.month, LATE.month}
  {
    ChildSizes();
    hide CHILD_RETURNS, CHILD_ROWS;
    assert EARLY in CHILD_RETURNS && LATE in CHILD_RETURNS && EARLY in CHILD_ROWS && LATE in CHILD_ROWS;
  }

  lemma ContinuityPasses()
    ensures PLAN.head in LEDGER.pubs && ContinuityGate(LEDGER, PLAN)
  {
    WindowIsRight();
    MonthsOf();
    ChildTables(Returns);
    assert LEDGER.pubs[HEAD].lastClosed == LATE.month;
    hide LEDGER, PLAN, Own, Months, MonthSeries, CHILD_RETURNS, CHILD_ROWS;
    CountIsCoverage({EARLY.month, LATE.month}, RETURNS_FIRST_MONTH, LATE.month);
  }

  lemma RowIdentity(s: Surface, k: Key)
    requires k in Own(LEDGER, s, CHILD)
    ensures k in {EARLY, LATE} && Own(LEDGER, s, CHILD)[k].identity == Identity(Some("rule_144a"), Some("C"), None)
    ensures Own(LEDGER, s, CHILD)[k].included && IdentityValid(k, Own(LEDGER, s, CHILD)[k].identity)
  {
    ChildTables(s);
    hide LEDGER, Own;
    ChildSizes();
    assert "C"[0] == 'C';
    assert 'C' in "C";
  }

  lemma IdentitiesPass()
    ensures IdentityGates(LEDGER, PLAN)
  {
    hide LEDGER, PLAN, Own, IdentityValid;
    WindowIsRight();
    forall s: Surface, k | k in Own(LEDGER, s, CHILD) ensures IdentityValid(k, Own(LEDGER, s, CHILD)[k].identity) { RowIdentity(s, k); }
  }

  lemma ChildKeys(s: Surface)
    ensures Own(LEDGER, s, CHILD).Keys == {EARLY, LATE}
  {
    hide LEDGER, Own;
    ChildTables(s);
    ChildSizes();
  }

  lemma AlikeOn(s: Surface, t: Surface, m: Date)
    ensures Covered(Own(LEDGER, s, CHILD), Own(LEDGER, t, CHILD), m) && SameIdentity(Own(LEDGER, s, CHILD), Own(LEDGER, t, CHILD), m)
  {
    hide LEDGER, Own, IdentityValid;
    ChildKeys(s);
    ChildKeys(t);
    forall k | k in Own(LEDGER, s, CHILD) ensures Own(LEDGER, s, CHILD)[k].identity == Own(LEDGER, t, CHILD)[k].identity {
      RowIdentity(s, k);
      RowIdentity(t, k);
    }
  }

  lemma SignalsIncluded(m: Date)
    ensures forall k :: k in Own(LEDGER, RvSignal, CHILD) && k.month == m ==> k in Own(LEDGER, Snapshot, CHILD) && Own(LEDGER, Snapshot, CHILD)[k].included
  {
    hide LEDGER, Own, IdentityValid;
    ChildKeys(RvSignal);
    ChildKeys(Snapshot);
    forall k | k in Own(LEDGER, Snapshot, CHILD) ensures Own(LEDGER, Snapshot, CHILD)[k].included { RowIdentity(Snapshot, k); }
  }

  lemma CoveragePasses(m: Date)
    ensures CoverageGate(LEDGER, CHILD, m)
  {
    hide LEDGER, Own, Covered, SameIdentity;
    SignalsIncluded(m);
    AlikeOn(Returns, Snapshot, m);
    AlikeOn(Snapshot, RatingPit, m);
    AlikeOn(RatingPit, Snapshot, m);
    AlikeOn(RvSignal, Snapshot, m);
  }

  lemma EarlyPasses()
    ensures !RowRefused(PLAN, EARLY, Some(CHILD_RETURNS[EARLY]), Some(BEFORE))
  {
  }

  lemma LatePasses()
    ensures !RowRefused(PLAN, LATE, Some(CHILD_RETURNS[LATE]), Some(BEFORE))
  {
  }

  lemma RowsPass(m: Date)
    ensures RowGate(PLAN, CHILD_RETURNS, HEAD_ROWS, m)
  {
    EarlyPasses();
    LatePasses();
    Sizes();
    ChildSizes();
    assert HEAD_ROWS[EARLY] == BEFORE && HEAD_ROWS[LATE] == BEFORE;
    hide RowRefused, CHILD_RETURNS, HEAD_ROWS, PLAN, BEFORE;
  }

  lemma OneCarry(rows: map<Key, Row>, c: real)
    requires EARLY in rows && rows[EARLY].carry == Some(c)
    ensures YearTotal({EARLY}, rows, YEAR) == Some(c)
  {
    var one: map<Key, Option<real>> := map[EARLY := Some(c)];
    assert YearOf(EARLY.month) == YEAR;
    assert YearKeys({EARLY}, YEAR) == {EARLY} && MonthKeys({EARLY}, EARLY.month) == {EARLY};
    assert Carry({EARLY}, rows) == one;
    assert Present(one) == map[][EARLY := c];
    MapSumAdd(map[], EARLY, c);
    assert EARLY in Present(one);
    assert SqlSum(one) == Some(c);
    hide SqlSum, Present, MapSum;
    assert !Poisoned({EARLY}, rows, YEAR);
  }

  lemma RepricedKeys()
    ensures Repriced(PLAN, CHILD_RETURNS, HEAD_ROWS) == {EARLY} && YearKeys({EARLY}, YEAR) == {EARLY}
    ensures PLAN.perYear == map[YEAR := YearSum(1, 0.2, 0.25)] && YearOf(EARLY.month) == YEAR
  {
  }

  lemma Carries()
    ensures EARLY in CHILD_RETURNS && CHILD_RETURNS[EARLY].carry == Some(0.25) && EARLY in HEAD_ROWS && HEAD_ROWS[EARLY].carry == Some(0.2)
  {
  }

  lemma CarryPasses()
    ensures CarryGate(PLAN, CHILD_RETURNS, HEAD_ROWS)
  {
    hide PLAN, CHILD_RETURNS, HEAD_ROWS, YearTotal, Repriced, YearKeys, YearOf;
    RepricedKeys();
    Carries();
    OneCarry(CHILD_RETURNS, 0.25);
    OneCarry(HEAD_ROWS, 0.2);
    assert YearCarryOf(PLAN, CHILD_RETURNS, HEAD_ROWS, YEAR) == YearCarry(1, Some(0.2), Some(0.25));
    assert YearMatches(YearSum(1, 0.2, 0.25), YearCarry(1, Some(0.2), Some(0.25)));
  }

  lemma PointerPasses()
    ensures PLAN.head in LEDGER.pubs && PLAN.child in LEDGER.pubs && PointerAdmits(LEDGER, PLAN)
  {
    WindowIsRight();
    ChildTables(Snapshot);
    ChildSizes();
    RowIdentity(Snapshot, EARLY);
    assert LEDGER.pubs[HEAD].config.Dual?;
    hide LEDGER, PLAN, CHILD_ROWS, Own;
    assert EARLY.cusip == "C";
  }

  lemma SwitchedShape()
    ensures CHILD in LEDGER.pubs && PLAN.child == CHILD
    ensures var m := Switched(LEDGER, PLAN);
      && ThreeDeep(m) && m.pubs[CHILD].status.Validated? && m.pointer == Some(CHILD) && m.pubs[CHILD].declared == COUNTS && m.facts == LEDGER.facts
      && m.pubs[CHILD].config.Dual?
  {
    Shape();
  }

  lemma SameFacts(m: Ledger, s: Surface, p: Id)
    requires m.facts == LEDGER.facts
    ensures Own(m, s, p) == Own(LEDGER, s, p)
  {
    hide LEDGER;
  }

  lemma ServedPasses()
    ensures PLAN.child in LEDGER.pubs && ServedGates(Switched(LEDGER, PLAN), PLAN)
  {
    hide LEDGER, PLAN, Own, HEAD_ROWS, CHILD_RETURNS, Switched, Served, Dropped;
    SwitchedShape();
    var m := Switched(LEDGER, PLAN);
    SameFacts(m, Returns, ROOT);
    SameFacts(m, Returns, HEAD);
    SameFacts(m, Returns, CHILD);
    RootIsEmpty(Returns);
    HeadTables(Returns);
    ChildTables(Returns);
    Sizes();
    ChildSizes();
    ArtifactOf();
    ChildServes(m, Returns);
  }

  /** The gates of the finalize can all hold: the premises of the outcome theorems are
      met by a ledger, and the theorems speak of a commit that happens. */
  lemma FinalizeCanCommit()
    ensures Sound(LEDGER) && ChildHolds(LEDGER, PLAN) && ArtifactCounted(PLAN) && FinalizeCommits(LEDGER, PLAN)
  {
    LoadedChild();
    ProjectionIs();
    IdentityPasses();
    CountsPass();
    ContinuityPasses();
    IdentitiesPass();
    CarryPasses();
    PointerPasses();
    ServedPasses();
    ChildTables(Returns);
    WindowIsRight();
    forall m ensures MonthPasses(LEDGER, PLAN, m) {
      CoveragePasses(m);
      RowsPass(m);
      hide LEDGER, PLAN, Own, CoverageGate, RowGate, SourceProjection, CHILD_RETURNS, HEAD_ROWS;
    }
    hide LEDGER, PLAN, Own, Sound, ChildHolds, ArtifactCounted, PointerPreflight, FinalizeIdentity, SourceReaches, DroppedGate, CountGates, ContinuityGate,
      IdentityGates, MonthPasses, CarryGate, PointerAdmits, ServedGates, SourceProjection, GatedMonths, CHILD_RETURNS, HEAD_ROWS, Switched;
  }
}
