/** A loaded replacement root that satisfies every gate: one historical return and a
    tail of one row, attested, under a snapshot that has one more bond-month than the
    returns. */
module TailRepairWitness {
  import opened Prelude
  import opened Panel
  import opened ImmutableBatch
  import opened MonthGates
  import opened LedgerSteps
  import opened TailRepair
  import opened TailRepairRuns

  const SOURCE: Id := 0
  const CHILD: Id := 1
  const FIRST: Date := MakeDate(2002, 7, 1)
  const START := Key(FIRST, "C")
  const OLD := Key(NextMonth(FIRST), "C")
  const NEW := Key(NextMonth(OLD.month), "C")
  const ROW := Row(Identity(None, None, None), true, None, None, 0.3, Some(0.1), Some(0.2), "observed", None, false, map[], map[], "")
  const COUNTS := Counts(3, 2, 2, 3)
  const TAIL: seq<Entry<Key, Row>> := [Entry(NEW, ROW)]
  const PLAN := Plan(
    CHILD, SOURCE, "fingerprint", "revision", Text("sources"), Text("repair"), FIRST, NEW.month, OLD.month, COUNTS, TAIL)

  const HISTORY: map<Key, Row> := map[OLD := ROW]
  const WHOLE: map<Key, Row> := map[OLD := ROW, NEW := ROW]

  const WIDE: map<Key, Row> := map[START := ROW, OLD := ROW, NEW := ROW]

  const OLD_ROOT := Publication(None, Validated, Legacy, "old", "old", FIRST, NEW.month, None, COUNTS, map[], map[])
  const NEW_ROOT := ChildPublication(PLAN)

  const LEDGER := Ledger(
    map[SOURCE := OLD_ROOT, CHILD := NEW_ROOT], Some(SOURCE),
    map[Slot(Snapshot, SOURCE) := WIDE, Slot(RvSignal, SOURCE) := WHOLE, Slot(Returns, SOURCE) := HISTORY, Slot(RatingPit, SOURCE) := WIDE,
        Slot(Snapshot, CHILD) := WIDE, Slot(RvSignal, CHILD) := WHOLE, Slot(Returns, CHILD) := WHOLE, Slot(RatingPit, CHILD) := WIDE],
    map[], map[CHILD := map[0 := 1]])

  /** The tables of both roots, but for the returns of the old one. */
  function Table(s: Surface): map<Key, Row> { if s.Snapshot? || s.RatingPit? then WIDE else WHOLE }

  lemma SourceTables(s: Surface)
    ensures Own(LEDGER, s, SOURCE) == if s.Returns? then HISTORY else Table(s)
  {
    hide WHOLE, HISTORY, WIDE;
    assert Slot(s, SOURCE) in LEDGER.facts;
  }

  lemma ChildTables(s: Surface)
    ensures Own(LEDGER, s, CHILD) == Table(s) && Tombs(LEDGER, Returns, CHILD) == {}
  {
    hide WHOLE, HISTORY, WIDE;
    assert Slot(s, CHILD) in LEDGER.facts;
  }

  lemma Contents()
    ensures WHOLE.Keys == {OLD, NEW} && |WHOLE| == 2 && |HISTORY| == 1 && HISTORY.Keys == {OLD}
    ensures WHOLE[OLD] == ROW && WHOLE[NEW] == ROW && HISTORY[OLD] == ROW && OLD != NEW
    ensures WIDE.Keys == {START, OLD, NEW} && |WIDE| == 3 && WIDE[START] == ROW && WIDE[OLD] == ROW && WIDE[NEW] == ROW
  {
  }

  lemma Roots()
    ensures PLAN.child == CHILD && PLAN.source == SOURCE && PLAN.tail == TAIL && |TAIL| == 1 && PLAN.counts == COUNTS
    ensures PLAN.first == FIRST && PLAN.returnsFirst == OLD.month && PLAN.lastClosed == NEW.month
    ensures CHILD in LEDGER.pubs && LEDGER.pubs[CHILD] == NEW_ROOT && NEW_ROOT.parent.None? && NEW_ROOT.config.Legacy? && SameHeader(NEW_ROOT, PLAN)
    ensures LegacyRoot(LEDGER, SOURCE) && Closed(LEDGER, SOURCE) && LEDGER.pointer == Some(SOURCE) && PointerValid(LEDGER)
    ensures Attested(LEDGER, CHILD) == map[0 := 1]
  {
    hide WHOLE, HISTORY, WIDE;
  }

  lemma RootsRanked()
    ensures exists rank :: Ranked(LEDGER.pubs, rank)
  {
    var rank: map<Id, nat> := map[SOURCE := 0, CHILD := 0];
    assert LEDGER.pubs.Keys == rank.Keys;
    assert Ranked(LEDGER.pubs, rank);
  }

  lemma IsSound()
    ensures Sound(LEDGER)
  {
    hide WHOLE, HISTORY, WIDE, Ranked;
    RootsRanked();
    assert LEDGER.tombs == map[];
    assert forall slot :: slot in LEDGER.facts ==> slot.pub == SOURCE || slot.pub == CHILD;
    assert SOURCE in LEDGER.pubs && CHILD in LEDGER.pubs;
    hide LEDGER, Own;
  }

  lemma TailRows()
    ensures TAIL[..1] == TAIL && RowsOf(TAIL) == map[][NEW := ROW] && RowsOf(TAIL) + HISTORY == WHOLE
  {
    assert TAIL[1..] == [];
  }

  lemma OneSlice()
    ensures Partition(map[0 := 1], 1)
  {
    var attested: map<nat, nat> := map[0 := 1];
    assert attested - {0} == map[];
    assert Partition(attested - {0}, 0);
  }

  /** The root is what a run leaves: the whole history, and the whole tail attested. */
  lemma LoadedRoot()
    ensures Holds(LEDGER, PLAN)
  {
    hide LEDGER, PLAN, NEW_ROOT, WHOLE, WIDE, HISTORY, TAIL, Own, Tombs, Attested, Partition, Closed, PointerValid, LegacyRoot, SameHeader, RowsOf;
    Roots();
    Contents();
    TailRows();
    OneSlice();
    SourceTables(Returns);
    ChildTables(Returns);
    assert PrefixLoaded(LEDGER, PLAN, 1);
    assert TailHoldsAt(LEDGER, PLAN, 1);
    forall s: Surface | !s.Returns? ensures CopiedWhole(LEDGER, PLAN, s) {
      SourceTables(s);
      ChildTables(s);
    }
  }

  // ------------------------------------------------------------------- its gates

  lemma MonthsOf()
    ensures Months(WHOLE) == {OLD.month, NEW.month}
  {
    Contents();
    hide WHOLE;
    assert OLD in WHOLE && NEW in WHOLE;
  }

  lemma CoveragePasses()
    ensures ContiguousReturns(LEDGER, PLAN)
  {
    hide LEDGER, PLAN, NEW_ROOT, WHOLE, WIDE, Own, Attested, Months, MonthSeries, LegacyRoot, SameHeader, PointerValid;
    Roots();
    ChildTables(Returns);
    MonthsOf();
    MonthSeriesIsWindow(OLD.month, NEW.month);
    assert forall m :: InWindow(m, OLD.month, NEW.month) ==> m in {OLD.month, NEW.month};
  }

  lemma CountsPass()
    ensures forall s: Surface :: |Own(LEDGER, s, PLAN.child)| == PLAN.counts.Of(s)
  {
    hide LEDGER, PLAN, NEW_ROOT, WHOLE, WIDE, Own, Attested, LegacyRoot, SameHeader, PointerValid;
    Roots();
    Contents();
    forall s: Surface ensures |Own(LEDGER, s, CHILD)| == COUNTS.Of(s) { ChildTables(s); }
  }

  lemma PointerPasses()
    ensures PointerAdmits(LEDGER, PLAN)
  {
    hide LEDGER, PLAN, NEW_ROOT, WHOLE, WIDE, Own, Attested, LegacyRoot, SameHeader, PointerValid;
    Roots();
    Contents();
    ChildTables(Snapshot);
    ChildTables(RvSignal);
    ChildTables(Returns);
    ChildTables(RatingPit);
  }

  lemma TailPasses()
    ensures TerminalAttested(LEDGER, PLAN)
  {
    hide LEDGER, PLAN, NEW_ROOT, TAIL, Attested, LegacyRoot, SameHeader, PointerValid;
    Roots();
    assert 0 in map[0 := 1];
  }

  /** The gates of the finalize can all hold, also over a snapshot key without a return. */
  lemma FinalizeCanCommit()
    ensures Sound(LEDGER) && Holds(LEDGER, PLAN) && FinalizeCommits(LEDGER, PLAN) && LEDGER.pointer == Some(PLAN.source)
    ensures START in Own(LEDGER, Snapshot, PLAN.child) && START !in Own(LEDGER, Returns, PLAN.child)
  {
    hide LEDGER, PLAN, NEW_ROOT, Own, Attested, Sound, Holds, LegacyRoot, SameHeader, PointerValid, PointerAdmits, ContiguousReturns, TerminalAttested, COUNTS;
    Roots();
    IsSound();
    LoadedRoot();
    CoveragePasses();
    CountsPass();
    PointerPasses();
    TailPasses();
    Contents();
    ChildTables(Snapshot);
    ChildTables(Returns);
  }
}
