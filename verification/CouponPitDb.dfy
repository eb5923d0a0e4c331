/** The four emitted coupon-PIT transactions, statement by statement against the
    database: each commits exactly when its guards and gates hold, leaves the
    ledger the specification names, and otherwise leaves the database as it was. */
module CouponPitDb {
  import opened Prelude
  import opened Panel
  import opened ImmutableBatch
  import opened MonthGates
  import opened MonthScans
  import opened LedgerSteps
  import opened CouponPit
  import opened CouponPitCarry
  import opened PanelDb

  /** A child that passes the re-check is prepared: a validated one is refused before. */
  lemma RecheckedIsPrepared(l: Ledger, plan: Plan, made: Publication)
    requires PrepareGuards(l, plan) && plan.child in l.pubs && SameChild(l.pubs[plan.child], made, plan)
    ensures l.pubs[plan.child].status.Prepared?
  {
    hide LineageReaches, Current, HeadWindow;
    var evidence := l.pubs[plan.child].evidence;
    assert evidence[CONTRACT] == MarkerOf(plan);
  }

  lemma MadeIsSame(l: Ledger, plan: Plan)
    requires plan.head in l.pubs
    ensures SameChild(ChildPublication(l, plan), ChildPublication(l, plan), plan) && ChildPublication(l, plan).status.Prepared?
  {
    hide Current, After;
  }

  lemma TombstoneChecks(inserted: set<Key>, before: set<Key>, plan: Plan)
    requires inserted == before + Dropped(plan)
    ensures (|inserted| == |plan.dropped| && inserted <= Dropped(plan)) <==> (before <= Dropped(plan) && |Dropped(plan)| == |plan.dropped|)
  {
    if before <= Dropped(plan) {
      assert inserted == Dropped(plan);
    }
  }

  method PrepareTransaction(db: Database, plan: Plan) returns (committed: bool)
    modifies db
    ensures committed <==> PrepareAllowed(old(db.State()), plan)
    ensures db.State() == if committed then Prepare(old(db.State()), plan) else old(db.State())
  {
    hide LineageReaches, HeadWindow, Current, MarkedFor, SameChild, InsertAdmitted, UpTo, Own, Tombs, ChildPublication;
    var l := db.State();
    committed := PrepareGuards(l, plan);
    if !committed { return; }
    assert plan.head in l.pubs by { HeadExists(l, plan); }
    var made := ChildPublication(l, plan);
    hide PrepareGuards;
    MadeIsSame(l, plan);
    committed := plan.child in db.pubs || InsertAdmitted(db.pubs, made);
    if !committed { return; }
    db.InsertPublication(plan.child, made);
    committed := SameChild(db.pubs[plan.child], made, plan);
    if !committed { db.Restore(l); return; }
    if plan.child in l.pubs { RecheckedIsPrepared(l, plan, made); }
    OwnTables(l, db.State(), plan.child);
    assert Dropped(plan) == set k | k in plan.dropped;
    committed := db.InsertTombstones(plan.child, plan.dropped);
    if !committed { db.Restore(l); return; }
    TombstoneChecks(Tombs(l, Returns, plan.child) + Dropped(plan), Tombs(l, Returns, plan.child), plan);
    committed := |db.tombs[plan.child]| == |plan.dropped| && db.tombs[plan.child] <= Dropped(plan);
    if !committed { db.Restore(l); }
  }

  lemma HeadExists(l: Ledger, plan: Plan)
    requires PrepareGuards(l, plan)
    ensures plan.head in l.pubs
  {
    hide LineageReaches, Current;
  }

  lemma OwnTables(l: Ledger, m: Ledger, p: Id)
    requires m.facts == l.facts && m.tombs == l.tombs
    ensures Own(m, Returns, p) == Own(l, Returns, p) && Tombs(m, Returns, p) == Tombs(l, Returns, p)
  {
  }

  /** What the insert's `WHERE EXISTS` lets it propose: nothing for a validated child. */
  function Proposed(l: Ledger, plan: Plan, rows: map<Key, Row>): map<Key, Row> {
    if plan.child in l.pubs && l.pubs[plan.child].status.Prepared? then rows else map[]
  }

  lemma ProposedIsCopied(l: Ledger, plan: Plan, s: Surface)
    ensures InsertMissing(Own(l, s, plan.child), Proposed(l, plan, Filled(CopySource(l, plan, s)))) == CopiedRows(l, plan, s)
    ensures Filled(CopySource(l, plan, s)).Keys == CopySource(l, plan, s).Keys
  {
    hide CopySource, Own;
  }

  /** Only the returns surface has tombstones. */
  lemma NoTombs(l: Ledger, s: Surface, p: Id)
    ensures !s.Returns? ==> Tombs(l, s, p) == {}
  {
  }

  method CopyTransaction(db: Database, plan: Plan, s: Surface) returns (committed: bool)
    modifies db
    ensures committed <==> CopyAllowed(old(db.State()), plan, s)
    ensures db.State() == if committed then Copy(old(db.State()), plan, s) else old(db.State())
  {
    hide ChildIdentity, Current, Own, Tombs, After, Filled, CopySource, CopiedRows, InScope, Verbatim, InsertMissing;
    var l := db.State();
    committed := l.pointer == Some(plan.head) && ChildIdentity(l, plan);
    if !committed { return; }
    assert plan.child in l.pubs by { ChildExists(l, plan); }
    var source := CopySource(l, plan, s);
    ProposedIsCopied(l, plan, s);
    NoTombs(l, s, plan.child);
    committed := db.InsertRows(Slot(s, plan.child), Proposed(l, plan, Filled(source)));
    if !committed { db.Restore(l); return; }
    var rows := db.facts[Slot(s, plan.child)];
    committed := |InScope(rows, plan, s)| == |source|
      && db.pubs[plan.child].declared.Of(s) == |source| + (if s.Returns? then Loaded(plan) else 0)
      && forall k :: k in source && k in rows ==> Verbatim(rows[k]) == Verbatim(source[k]);
    if !committed { db.Restore(l); }
  }

  lemma ChildExists(l: Ledger, plan: Plan)
    requires ChildIdentity(l, plan)
    ensures plan.child in l.pubs
  {
  }

  lemma MergedByInsert(own: map<Key, Row>, rows: seq<Entry<Key, Row>>)
    requires StagedAgree(rows) && TargetAgrees(own, rows)
    ensures StagedMerge(own, rows) == Some(InsertMissing(own, RowsOf(rows)))
  {
    InsertMissingIsUnion(own, RowsOf(rows));
  }

  /** Identity, the two conflict checks of the staged rows, and the insert. */
  method BatchTransaction(db: Database, plan: Plan, start: nat, limit: nat) returns (committed: bool)
    modifies db
    ensures committed <==> BatchAllowed(old(db.State()), plan, start, limit)
    ensures db.State() == if committed then Batch(old(db.State()), plan, start, limit) else old(db.State())
  {
    hide ChildIdentity, Own, Tombs, BatchRows, ArtifactCounted, RowsOf, StagedAgree, TargetAgrees, InsertMissing;
    var l := db.State();
    committed := limit > 0 && ArtifactCounted(plan) && l.pointer == Some(plan.head) && ChildIdentity(l, plan);
    if !committed { return; }
    assert plan.child in l.pubs by { ChildExists(l, plan); }
    var rows, own := BatchRows(plan, start, limit), Own(l, Returns, plan.child);
    committed := StagedAgree(rows) && TargetAgrees(own, rows);
    if !committed { return; }
    MergedByInsert(own, rows);
    if db.pubs[plan.child].status.Prepared? {
      committed := db.InsertRows(Slot(Returns, plan.child), RowsOf(rows));
      if !committed { db.Restore(l); }
    }
  }

  // ------------------------------------------------------------------ finalize

  /** The continuity gate reads the month summary of the returns. */
  method Continuous(l: Ledger, plan: Plan) returns (ok: bool)
    requires plan.head in l.pubs
    ensures ok <==> ContinuityGate(l, plan)
  {
    assert FirstOfMonth(RETURNS_FIRST_MONTH);
    ok := ContinuityChecks(Months(Own(l, Returns, plan.child)), RETURNS_FIRST_MONTH, l.pubs[plan.head].lastClosed);
  }

  /** The month loop: coverage and row gates per month, and the year carry table. */
  method MonthLoop(l: Ledger, plan: Plan) returns (ok: bool, acc: map<int, YearCarry>)
    requires plan.head in l.pubs
    ensures ok <==> forall m :: m in GatedMonths(l, plan.child) ==> MonthPasses(l, plan, m)
    ensures ok ==> Accumulated(acc, Repriced(plan, Own(l, Returns, plan.child), SourceProjection(l, plan)), Own(l, Returns, plan.child), SourceProjection(l, plan))
  {
    hide MonthPasses, Own, SourceProjection, Accumulated, YearOf, GatedMonths, Upsert, SqlSum, Carry;
    var cand, source := Own(l, Returns, plan.child), SourceProjection(l, plan);
    var keys := Repriced(plan, cand, source);
    var left := GatedMonths(l, plan.child);
    ghost var seen: set<Date> := {};
    acc := map[];
    ok := true;
    NothingAccumulated(keys, cand, source);
    while left != {}
      invariant seen + left == GatedMonths(l, plan.child) && seen !! left
      invariant forall m :: m in seen ==> MonthPasses(l, plan, m)
      invariant InMonths(keys, seen) <= keys
      invariant Accumulated(acc, InMonths(keys, seen), cand, source)
      decreases left
    {
      ghost var any := Pick(left);
      var m :| m in left;
      if !MonthPasses(l, plan, m) { return false, acc; }
      var here := set k | k in keys && k.month == m;
      NextMonthKeys(keys, seen, m);
      assert here == MonthKeys(keys, m);
      var before := SumCarry(here, source);
      var after := SumCarry(here, cand);
      UpsertKeepsAccumulated(acc, InMonths(keys, seen), here, cand, source, m, YearCarry(|here|, before, after));
      acc := Upsert(acc, YearOf(m), YearCarry(|here|, before, after));
      seen, left := seen + {m}, left - {m};
    }
    assert InMonths(keys, seen) == keys by {
      forall k | k in keys ensures k.month in GatedMonths(l, plan.child) { RepricedIsGated(l, plan, k); }
    }
  }

  lemma RepricedIsGated(l: Ledger, plan: Plan, k: Key)
    requires k in Own(l, Returns, plan.child)
    ensures k.month in GatedMonths(l, plan.child)
  {
  }

  lemma NothingAccumulated(keys: set<Key>, cand: map<Key, Row>, source: map<Key, Row>)
    requires keys <= cand.Keys && keys <= source.Keys
    ensures InMonths(keys, {}) == {}
    ensures Accumulated(map[], {}, cand, source)
  {
  }

  lemma PubsExist(l: Ledger, plan: Plan)
    requires FinalizeIdentity(l, plan)
    ensures plan.head in l.pubs && plan.child in l.pubs && !l.pubs[plan.child].status.Failed?
  {
    hide Contains;
  }

  lemma EverySurface(l: Ledger, plan: Plan)
    requires plan.child in l.pubs
    ensures CountGates(l, plan)
      <==> (|Own(l, Snapshot, plan.child)| == l.pubs[plan.child].declared.Of(Snapshot)
        && |Own(l, RvSignal, plan.child)| == l.pubs[plan.child].declared.Of(RvSignal)
        && |Own(l, Returns, plan.child)| == l.pubs[plan.child].declared.Of(Returns)
        && |Own(l, RatingPit, plan.child)| == l.pubs[plan.child].declared.Of(RatingPit))
  {
    hide Own;
  }

  /** After the preflight, transition and compare-and-swap leave the switched
      ledger whether or not this run did the work. */
  lemma SwitchReached(l: Ledger, m: Ledger, plan: Plan)
    requires plan.child in l.pubs && PointerPreflight(l, plan)
    requires m.facts == l.facts && m.tombs == l.tombs && m.attested == l.attested
    requires m.pubs == l.pubs[plan.child :=
      if l.pubs[plan.child].status.Prepared?
      then l.pubs[plan.child].(status := Validated, evidence := l.pubs[plan.child].evidence + Validation(plan))
      else l.pubs[plan.child]]
    requires m.pointer == if l.pointer == Some(plan.head) then Some(plan.child) else l.pointer
    ensures m == Switched(l, plan)
  {
  }

  method FinalizeTransaction(db: Database, plan: Plan) returns (committed: bool)
    modifies db
    ensures committed <==> FinalizeCommits(old(db.State()), plan)
    ensures db.State() == if committed then Switched(old(db.State()), plan) else old(db.State())
  {
    hide PointerPreflight, FinalizeIdentity, SourceReaches, DroppedGate, ContinuityGate, IdentityGates, MonthPasses,
      CarryGate, YearsMatch, PointerAdmits, Own, SourceProjection, GatedMonths, Current, Accumulated, Repriced;
    var l := db.State();
    committed := PointerPreflight(l, plan) && FinalizeIdentity(l, plan);
    if !committed { return; }
    PubsExist(l, plan);
    committed := SourceReaches(l, plan) && DroppedGate(l, plan);
    if !committed { return; }
    var a := CountGate(Own(l, Snapshot, plan.child), l.pubs[plan.child].declared.Of(Snapshot));
    var b := CountGate(Own(l, RvSignal, plan.child), l.pubs[plan.child].declared.Of(RvSignal));
    var c := CountGate(Own(l, Returns, plan.child), l.pubs[plan.child].declared.Of(Returns));
    var d := CountGate(Own(l, RatingPit, plan.child), l.pubs[plan.child].declared.Of(RatingPit));
    EverySurface(l, plan);
    if !(a && b && c && d) { return false; }
    var continuous := Continuous(l, plan);
    if !continuous || !IdentityGates(l, plan) { return false; }
    var passed, acc := MonthLoop(l, plan);
    if !passed { return false; }
    YearsMatchIsCarryGate(plan, acc, Own(l, Returns, plan.child), SourceProjection(l, plan));
    if !YearsMatch(plan.perYear, acc) { return false; }
    db.Validate(plan.child, Validation(plan));
    if db.pointer == Some(plan.head) && !PointerAdmits(l, plan) { db.Restore(l); return false; }
    var updated := db.CompareAndSwap(plan.head, plan.child);
    SwitchReached(l, db.State(), plan);
    committed := ServedGates(db.State(), plan);
    if !committed { db.Restore(l); }
  }
}
