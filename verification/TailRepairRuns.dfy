/** Runs of the tail repair: copies, batches of any size in any order, replays and
    foreign transactions always leave an attested prefix of the tail on top of
    the whole copied history, so a terminal attestation means the whole tail. */
module TailRepairRuns {
  import opened Prelude
  import opened Panel
  import opened ImmutableBatch
  import opened MonthGates
  import opened LedgerSteps
  import opened TailRepair

  /** The returns of the replacement root once `m` tail rows are loaded. */
  function PrefixRows(l: Ledger, plan: Plan, m: nat): map<Key, Row>
    requires m <= |plan.tail|
  {
    RowsOf(plan.tail[..m]) + Historical(l, plan, Returns)
  }

  /** The child's returns are the copied history and exactly the first `m` tail rows. */
  ghost predicate PrefixLoaded(l: Ledger, plan: Plan, m: nat) {
    && m <= |plan.tail| && Closed(l, plan.source)
    && Own(l, Returns, plan.child) == PrefixRows(l, plan, m)
    && |Own(l, Returns, plan.child)| == |Historical(l, plan, Returns)| + m
  }

  ghost predicate TailHoldsAt(l: Ledger, plan: Plan, m: nat) {
    && Partition(Attested(l, plan.child), m)
    && ((m == 0 && Own(l, Returns, plan.child) == map[]) || PrefixLoaded(l, plan, m))
  }

  ghost predicate CopiedWhole(l: Ledger, plan: Plan, s: Surface) {
    Own(l, s, plan.child) == map[] || (Closed(l, plan.source) && Own(l, s, plan.child) == Historical(l, plan, s))
  }

  /** What every reachable ledger holds about the replacement root. */
  ghost predicate RootHolds(l: Ledger, plan: Plan) {
    && plan.child in l.pubs && l.pubs[plan.child].parent.None? && l.pubs[plan.child].config.Legacy?
    && Tombs(l, Returns, plan.child) == {}
    && (forall s: Surface :: !s.Returns? ==> CopiedWhole(l, plan, s))
    && exists m: nat :: TailHoldsAt(l, plan, m)
  }

  ghost predicate PointerValid(l: Ledger) { l.pointer.Some? ==> Closed(l, l.pointer.value) }

  ghost predicate Holds(l: Ledger, plan: Plan) {
    && PointerValid(l)
    && (plan.child in l.pubs ==> RootHolds(l, plan))
    && (plan.child !in l.pubs ==> Attested(l, plan.child) == map[])
  }

  ghost predicate Step(l: Ledger, m: Ledger, plan: Plan) {
    || m == l
    || (PrepareAllowed(l, plan) && m == Prepare(l, plan))
    || (exists s: Surface :: CopyAllowed(l, plan, s) && m == Copy(l, plan, s))
    || (exists start: nat, limit: nat :: start < |plan.tail| && BatchAllowed(l, plan, start, limit) && m == Batch(l, plan, start, limit))
    || (plan.child in l.pubs && FinalizeCommits(l, plan) && m == Switched(l, plan))
    || DdlStep(l, m, {plan.child})
  }

  // ------------------------------------------------------- every step obeys the DDL

  lemma PrepareTables(l: Ledger, plan: Plan)
    ensures var m := Prepare(l, plan);
      && m.facts == l.facts && m.tombs == l.tombs && m.attested == l.attested && m.pointer == l.pointer && SameRows(l, m) && SameTombs(l, m)
      && m.pubs == (if plan.child in l.pubs then l.pubs else l.pubs[plan.child := ChildPublication(plan)])
  {
  }

  lemma PrepareIsDdlStep(l: Ledger, plan: Plan)
    requires Sound(l)
    ensures DdlStep(l, Prepare(l, plan), {})
  {
    hide Prepare, Own, Tombs, FactsSound, FactsStep, SameRows, SameTombs;
    PrepareTables(l, plan);
    var m := Prepare(l, plan);
    SameRowsIsFactsStep(l, m);
    assert FactsSound(l);
    PreparedIsSound(l, m);
    if plan.child in l.pubs { SamePubs(l.pubs, {}); }
  }

  lemma PreparedIsSound(l: Ledger, m: Ledger)
    requires FactsSound(l) && m.facts == l.facts && m.tombs == l.tombs && SameRows(l, m) && SameTombs(l, m)
    requires l.pubs.Keys <= m.pubs.Keys
    ensures FactsSound(m)
  {
    hide Own, Tombs, SameRows, SameTombs;
    SameRowsIsSound(l, m);
  }

  lemma CopyIsDdlStep(l: Ledger, plan: Plan, s: Surface)
    requires Sound(l) && CopyAllowed(l, plan, s)
    ensures DdlStep(l, Copy(l, plan, s), {})
  {
    OwnIsNotTombed(l, s, plan.child);
    CopyParts(l, plan, s);
    hide CopyAllowed, DdlStep, Sound, Own, Tombs, WithFacts;
    if l.pubs[plan.child].status.Prepared? {
      AddingRowsIsDdlStep(l, Slot(s, plan.child), CopiedRows(l, plan, s));
    } else {
      SameFactsIsDdlStep(l, Slot(s, plan.child));
    }
  }

  lemma CopyParts(l: Ledger, plan: Plan, s: Surface)
    requires CopyAllowed(l, plan, s)
    ensures plan.child in l.pubs && LegacyRoot(l, plan.source)
    ensures l.pubs[plan.child].status.Prepared? ==> Historical(l, plan, s).Keys !! Tombs(l, s, plan.child)
    ensures forall k :: k in Historical(l, plan, s) && k in Own(l, s, plan.child) ==> Own(l, s, plan.child)[k] == Historical(l, plan, s)[k]
  {
    hide CopiedRange, CopiedRows, Own, Tombs;
  }

  /** The rows of a batch, without its attestation. */
  function BatchFacts(l: Ledger, plan: Plan, start: nat, limit: nat): Ledger
    requires start < |plan.tail|
  {
    WithFacts(l, Slot(Returns, plan.child), LoadedRows(l, plan, start, limit))
  }

  lemma AttestationIsSeparate(l: Ledger, m: Ledger, n: Ledger)
    requires DdlStep(l, n, {})
    requires m.pubs == n.pubs && m.pointer == n.pointer && m.facts == n.facts && m.tombs == n.tombs
    ensures DdlStep(l, m, {})
  {
    hide PubsStep;
    forall s, p ensures Own(m, s, p) == Own(n, s, p) && Tombs(m, s, p) == Tombs(n, s, p) {}
    hide Own, Tombs;
  }

  lemma BatchParts(l: Ledger, plan: Plan, start: nat, limit: nat)
    requires start < |plan.tail| && BatchAllowed(l, plan, start, limit)
    ensures plan.child in l.pubs
    ensures PreparedCurrent(l, plan) || ValidatedTerminal(l, plan, EndOf(plan, start, limit))
    ensures PreparedCurrent(l, plan) ==> RowsOf(Slice(plan, start, limit)).Keys !! Tombs(l, Returns, plan.child)
    ensures start < EndOf(plan, start, limit) <= |plan.tail|
    ensures StagedAgree(Slice(plan, start, limit))
  {
    hide LoadedRows, Own, Tombs, AttestationAdmitted, RowsOf;
  }

  lemma BatchIsDdlStep(l: Ledger, plan: Plan, start: nat, limit: nat)
    requires Sound(l) && start < |plan.tail| && BatchAllowed(l, plan, start, limit)
    ensures DdlStep(l, Batch(l, plan, start, limit), {})
  {
    hide BatchAllowed, DdlStep, Sound, Own, Tombs, RowsOf, Attested;
    BatchParts(l, plan, start, limit);
    OwnIsNotTombed(l, Returns, plan.child);
    if l.pubs[plan.child].status.Prepared? {
      AddingRowsIsDdlStep(l, Slot(Returns, plan.child), LoadedRows(l, plan, start, limit));
    } else {
      SameFactsIsDdlStep(l, Slot(Returns, plan.child));
    }
    AttestationIsSeparate(l, Batch(l, plan, start, limit), BatchFacts(l, plan, start, limit));
  }

  lemma SwitchIsDdlStep(l: Ledger, plan: Plan)
    requires Sound(l) && plan.child in l.pubs && FinalizeCommits(l, plan)
    ensures DdlStep(l, Switched(l, plan), {})
  {
    assert SameHeader(l.pubs[plan.child], plan);
    hide FinalizeCommits, Sound, DdlStep, SwitchTo;
    SwitchingIsDdlStep(l, plan.child, Validation(plan));
  }

  lemma StepIsDdlStep(l: Ledger, m: Ledger, plan: Plan)
    requires Sound(l) && Step(l, m, plan)
    ensures exists mine :: DdlStep(l, m, mine)
  {
    hide DdlStep, Sound, PrepareAllowed, Prepare, CopyAllowed, Copy, BatchAllowed, Batch, FinalizeCommits, Switched;
    if m == l {
      NothingIsDdlStep(l);
    } else if PrepareAllowed(l, plan) && m == Prepare(l, plan) {
      PrepareIsDdlStep(l, plan);
    } else if s: Surface :| CopyAllowed(l, plan, s) && m == Copy(l, plan, s) {
      CopyIsDdlStep(l, plan, s);
    } else if start: nat, limit: nat :| start < |plan.tail| && BatchAllowed(l, plan, start, limit) && m == Batch(l, plan, start, limit) {
      BatchIsDdlStep(l, plan, start, limit);
    } else if plan.child in l.pubs && FinalizeCommits(l, plan) && m == Switched(l, plan) {
      SwitchIsDdlStep(l, plan);
    }
  }

  // -------------------------------------------------------------- accepted batches

  /** Loading the slice after the first `m` rows gives the rows up to its end. */
  lemma NextPrefix(l: Ledger, plan: Plan, start: nat, limit: nat)
    requires start < |plan.tail|
    ensures RowsOf(Slice(plan, start, limit)) + PrefixRows(l, plan, start) == PrefixRows(l, plan, EndOf(plan, start, limit))
  {
    var end := EndOf(plan, start, limit);
    assert plan.tail[..end] == plan.tail[..start] + Slice(plan, start, limit);
    RowsOfConcat(plan.tail[..start], Slice(plan, start, limit));
  }

  /** An accepted batch starts where the loaded prefix ends, and extends it to its
      own end; or it is the last slice again, and changes nothing. */
  lemma BatchExtendsOrReplays(l: Ledger, plan: Plan, start: nat, limit: nat, m: nat)
    requires PointerValid(l) && TailHoldsAt(l, plan, m) && start < |plan.tail| && BatchAllowed(l, plan, start, limit)
    ensures
      || (start == m && TailHoldsAt(Batch(l, plan, start, limit), plan, EndOf(plan, start, limit)))
      || (EndOf(plan, start, limit) == m && start in Attested(l, plan.child) && Attested(l, plan.child)[start] == m
          && Own(Batch(l, plan, start, limit), Returns, plan.child) == Own(l, Returns, plan.child)
          && Attested(Batch(l, plan, start, limit), plan.child) == Attested(l, plan.child))
  {
    var own, end, base := Own(l, Returns, plan.child), EndOf(plan, start, limit), |Historical(l, plan, Returns)|;
    BatchParts(l, plan, start, limit);
    BatchCounts(l, plan, start, limit);
    BatchTables(l, plan, start, limit);
    hide BatchAllowed, Batch, Own, Tombs, RowsOf, Attested, Partition, StagedAgree;
    PartitionBounds(Attested(l, plan.child), m);
    if m == 0 && own == map[] {
      assert base == 0 && start == 0;
      EmptyIsLoaded(l, plan);
    }
    assert PrefixLoaded(l, plan, m);
    if start == m {
      ExtendedPrefix(l, plan, start, limit);
    } else {
      assert end == m;
      ReplayedSlice(l, plan, start, limit);
    }
  }

  lemma BatchCounts(l: Ledger, plan: Plan, start: nat, limit: nat)
    requires start < |plan.tail| && BatchAllowed(l, plan, start, limit)
    ensures var end, own, base := EndOf(plan, start, limit), Own(l, Returns, plan.child), |Historical(l, plan, Returns)|;
      && (|own| == base + start || |own| == base + end)
      && |LoadedRows(l, plan, start, limit)| == base + end
      && AttestationAdmitted(Attested(l, plan.child), start, end, PreparedCurrent(l, plan))
  {
    hide Own, Tombs, RowsOf, StagedMerge;
  }

  lemma BatchTables(l: Ledger, plan: Plan, start: nat, limit: nat)
    requires start < |plan.tail| && plan.child in l.pubs
    ensures var m := Batch(l, plan, start, limit);
      && m.pubs == l.pubs && m.pointer == l.pointer && m.tombs == l.tombs
      && (forall s, p :: Own(m, s, p) == if Slot(s, p) == Slot(Returns, plan.child) then LoadedRows(l, plan, start, limit) else Own(l, s, p))
      && Attested(m, plan.child) == (if start in Attested(l, plan.child) then Attested(l, plan.child) else Attested(l, plan.child)[start := EndOf(plan, start, limit)])
  {
    hide LoadedRows;
  }

  /** Only a current prepared child passes a batch's order check before the last
      slice; its pointer is then on the old root, which is closed. */
  lemma EmptyIsLoaded(l: Ledger, plan: Plan)
    requires PointerValid(l) && Own(l, Returns, plan.child) == map[] && |Historical(l, plan, Returns)| == 0
    requires PreparedCurrent(l, plan) || Closed(l, plan.source)
    ensures PrefixLoaded(l, plan, 0)
  {
    assert RowsOf(plan.tail[..0]) == map[];
    hide Own;
  }

  lemma ExtendedPrefix(l: Ledger, plan: Plan, start: nat, limit: nat)
    requires start < |plan.tail| && PrefixLoaded(l, plan, start) && Partition(Attested(l, plan.child), start)
    requires plan.child in l.pubs && start < EndOf(plan, start, limit)
    requires |LoadedRows(l, plan, start, limit)| == |Historical(l, plan, Returns)| + EndOf(plan, start, limit)
    ensures TailHoldsAt(Batch(l, plan, start, limit), plan, EndOf(plan, start, limit))
  {
    hide Own, RowsOf, Attested, Partition, Batch;
    var m, end := Batch(l, plan, start, limit), EndOf(plan, start, limit);
    BatchTables(l, plan, start, limit);
    NextPrefix(l, plan, start, limit);
    PartitionExtends(Attested(l, plan.child), start, end);
    SourceIsNotChild(l, plan, start, limit);
    assert Own(m, Returns, plan.child) == LoadedRows(l, plan, start, limit);
    assert Historical(m, plan, Returns) == Historical(l, plan, Returns);
  }

  /** The rows grew, so the child is prepared, and the old root is not. */
  lemma SourceIsNotChild(l: Ledger, plan: Plan, start: nat, limit: nat)
    requires start < |plan.tail| && Closed(l, plan.source) && plan.child in l.pubs && start < EndOf(plan, start, limit)
    requires |Own(l, Returns, plan.child)| == |Historical(l, plan, Returns)| + start
    requires |LoadedRows(l, plan, start, limit)| == |Historical(l, plan, Returns)| + EndOf(plan, start, limit)
    ensures l.pubs[plan.child].status.Prepared? && plan.source != plan.child
    ensures LoadedRows(l, plan, start, limit) == RowsOf(Slice(plan, start, limit)) + Own(l, Returns, plan.child)
  {
    hide Own, RowsOf;
  }

  lemma ReplayedSlice(l: Ledger, plan: Plan, start: nat, limit: nat)
    requires start < |plan.tail| && plan.child in l.pubs && start < EndOf(plan, start, limit)
    requires Partition(Attested(l, plan.child), EndOf(plan, start, limit))
    requires |Own(l, Returns, plan.child)| == |Historical(l, plan, Returns)| + EndOf(plan, start, limit)
    requires |LoadedRows(l, plan, start, limit)| == |Historical(l, plan, Returns)| + EndOf(plan, start, limit)
    requires AttestationAdmitted(Attested(l, plan.child), start, EndOf(plan, start, limit), PreparedCurrent(l, plan))
    ensures LoadedRows(l, plan, start, limit) == Own(l, Returns, plan.child)
    ensures start in Attested(l, plan.child) && Attested(l, plan.child)[start] == EndOf(plan, start, limit)
  {
    hide Own, RowsOf, Attested, Partition;
    PartitionEnd(Attested(l, plan.child), EndOf(plan, start, limit));
    var own, loaded := Own(l, Returns, plan.child), LoadedRows(l, plan, start, limit);
    assert own.Keys <= loaded.Keys;
    SameSizeSubset(own.Keys, loaded.Keys);
  }

  // ------------------------------------------------------------- the invariant

  lemma PointerStaysValid(l: Ledger, m: Ledger, mine: set<Id>)
    requires PointerValid(l) && DdlStep(l, m, mine)
    ensures PointerValid(m)
  {
    hide FactsStep, FactsSound, Attested;
    if l.pointer.Some? { Evolved(l, m, mine, l.pointer.value); }
  }

  lemma SourceFrozen(l: Ledger, m: Ledger, plan: Plan, mine: set<Id>)
    requires DdlStep(l, m, mine) && Closed(l, plan.source)
    ensures Closed(m, plan.source) && forall s :: Historical(m, plan, s) == Historical(l, plan, s)
  {
    Evolved(l, m, mine, plan.source);
    hide FactsSound, Own, Tombs, PubsStep;
    forall s ensures Historical(m, plan, s) == Historical(l, plan, s) {
      ClosedFrozen(l, m, s, plan.source, mine);
    }
  }

  lemma WholeKept(l: Ledger, m: Ledger, plan: Plan, s: Surface, mine: set<Id>)
    requires DdlStep(l, m, mine) && CopiedWhole(l, plan, s) && Own(m, s, plan.child) == Own(l, s, plan.child)
    ensures CopiedWhole(m, plan, s)
  {
    hide DdlStep, Own, Closed;
    if Own(l, s, plan.child) != map[] { SourceFrozen(l, m, plan, mine); }
  }

  lemma TailKept(l: Ledger, m: Ledger, plan: Plan, mine: set<Id>, n: nat)
    requires DdlStep(l, m, mine) && TailHoldsAt(l, plan, n)
    requires Own(m, Returns, plan.child) == Own(l, Returns, plan.child) && Attested(m, plan.child) == Attested(l, plan.child)
    ensures TailHoldsAt(m, plan, n)
  {
    hide DdlStep, Own, Attested, Partition, Closed, RowsOf;
    if !(n == 0 && Own(l, Returns, plan.child) == map[]) { SourceFrozen(l, m, plan, mine); }
  }

  /** A step that leaves the child's rows, tombstones and attestations alone. */
  lemma RootUntouched(l: Ledger, m: Ledger, plan: Plan, mine: set<Id>)
    requires DdlStep(l, m, mine) && plan.child in l.pubs && RootHolds(l, plan)
    requires plan.child in m.pubs && m.pubs[plan.child].config == l.pubs[plan.child].config
    requires Tombs(m, Returns, plan.child) == Tombs(l, Returns, plan.child) && Attested(m, plan.child) == Attested(l, plan.child)
    requires forall s :: Own(m, s, plan.child) == Own(l, s, plan.child)
    ensures RootHolds(m, plan)
  {
    hide DdlStep, Own, Tombs, Attested, TailHoldsAt, CopiedWhole;
    Evolved(l, m, mine, plan.child);
    var n: nat :| TailHoldsAt(l, plan, n);
    TailKept(l, m, plan, mine, n);
    forall s: Surface | !s.Returns? ensures CopiedWhole(m, plan, s) {
      WholeKept(l, m, plan, s, mine);
    }
  }

  lemma ForeignKeeps(l: Ledger, m: Ledger, plan: Plan)
    requires DdlStep(l, m, {plan.child}) && Holds(l, plan)
    ensures Holds(m, plan)
  {
    hide DdlStep, RootHolds, PointerValid, Own, Tombs, Attested;
    ForeignParts(l, m, plan.child);
    PointerStaysValid(l, m, {plan.child});
    if plan.child in l.pubs { RootUntouched(l, m, plan, {plan.child}); }
  }

  lemma SwitchedTables(l: Ledger, plan: Plan)
    requires plan.child in l.pubs
    ensures var m := Switched(l, plan);
      && plan.child in m.pubs && m.pubs[plan.child].config == l.pubs[plan.child].config
      && Tombs(m, Returns, plan.child) == Tombs(l, Returns, plan.child) && Attested(m, plan.child) == Attested(l, plan.child)
      && forall s :: Own(m, s, plan.child) == Own(l, s, plan.child)
  {
  }

  lemma SwitchKeeps(l: Ledger, plan: Plan)
    requires Sound(l) && plan.child in l.pubs && FinalizeCommits(l, plan) && Holds(l, plan)
    ensures Holds(Switched(l, plan), plan)
  {
    hide DdlStep, RootHolds, PointerValid, Own, Tombs, Attested, FinalizeCommits, Switched, Sound;
    SwitchIsDdlStep(l, plan);
    SwitchedTables(l, plan);
    PointerStaysValid(l, Switched(l, plan), {});
    RootUntouched(l, Switched(l, plan), plan, {});
  }

  lemma PrepareKeeps(l: Ledger, plan: Plan)
    requires Sound(l) && Holds(l, plan)
    ensures Holds(Prepare(l, plan), plan)
  {
    hide DdlStep, RootHolds, PointerValid, Own, Tombs, Attested, Prepare, Sound;
    PrepareIsDdlStep(l, plan);
    PrepareTables(l, plan);
    var m := Prepare(l, plan);
    PointerStaysValid(l, m, {});
    assert Attested(m, plan.child) == Attested(l, plan.child) by { SameAttested(l, m, plan.child); }
    if plan.child in l.pubs {
      RootUntouched(l, m, plan, {});
    } else {
      NoRowsYet(l, plan.child);
      NewRoot(m, plan);
    }
  }

  lemma SameAttested(l: Ledger, m: Ledger, p: Id)
    requires m.attested == l.attested
    ensures Attested(m, p) == Attested(l, p)
  {
  }

  lemma NewRoot(m: Ledger, plan: Plan)
    requires plan.child in m.pubs && m.pubs[plan.child] == ChildPublication(plan)
    requires Tombs(m, Returns, plan.child) == {} && Attested(m, plan.child) == map[]
    requires forall s :: Own(m, s, plan.child) == map[]
    ensures RootHolds(m, plan)
  {
    hide Tombs, Own, Attested, PrefixLoaded;
    assert TailHoldsAt(m, plan, 0);
  }

  lemma CopyTables(l: Ledger, plan: Plan, s: Surface)
    ensures var m := Copy(l, plan, s);
      && m.pubs == l.pubs && m.pointer == l.pointer
      && Tombs(m, Returns, plan.child) == Tombs(l, Returns, plan.child) && Attested(m, plan.child) == Attested(l, plan.child)
      && forall t, p :: Own(m, t, p) == if Slot(t, p) == Slot(s, plan.child) then CopiedRows(l, plan, s) else Own(l, t, p)
  {
    hide CopiedRows;
  }

  lemma InsertPresent(own: map<Key, Row>, rows: map<Key, Row>, more: map<Key, Row>)
    requires own == more + rows
    ensures InsertMissing(own, rows) == own
  {
  }

  /** Copying the history into the returns leaves the loaded prefix as it is, or
      starts it with nothing of the tail. */
  lemma CopiedReturns(l: Ledger, plan: Plan, n: nat)
    requires TailHoldsAt(l, plan, n)
    ensures CopiedRows(l, plan, Returns) == Own(l, Returns, plan.child)
      || (n == 0 && CopiedRows(l, plan, Returns) == Historical(l, plan, Returns))
  {
    hide Own, RowsOf, Attested, Partition, Closed, InsertMissing;
    var own, rows := Own(l, Returns, plan.child), Historical(l, plan, Returns);
    if n == 0 && own == map[] {
      InsertIntoNothing(rows);
    } else {
      LoadedIsUnion(l, plan, n);
      InsertPresent(own, rows, RowsOf(plan.tail[..n]));
    }
  }

  lemma InsertIntoNothing(rows: map<Key, Row>)
    ensures InsertMissing(map[], rows) == rows
  {
  }

  lemma LoadedIsUnion(l: Ledger, plan: Plan, n: nat)
    requires TailHoldsAt(l, plan, n) && !(n == 0 && Own(l, Returns, plan.child) == map[])
    ensures n <= |plan.tail| && Own(l, Returns, plan.child) == RowsOf(plan.tail[..n]) + Historical(l, plan, Returns)
  {
    hide Own, RowsOf, Attested, Partition, Closed;
  }

  lemma CopyKeepsTail(l: Ledger, plan: Plan, s: Surface, n: nat)
    requires Sound(l) && CopyAllowed(l, plan, s) && TailHoldsAt(l, plan, n)
    ensures TailHoldsAt(Copy(l, plan, s), plan, n)
  {
    CopyParts(l, plan, s);
    hide DdlStep, Sound, Copy, Own, Attested, CopyAllowed, Tombs, CopiedRows, TailHoldsAt;
    CopyTables(l, plan, s);
    CopyIsDdlStep(l, plan, s);
    CopiedReturns(l, plan, n);
    var m := Copy(l, plan, s);
    if s.Returns? && CopiedRows(l, plan, s) != Own(l, Returns, plan.child) {
      SourceFrozen(l, m, plan, {});
      FreshTail(l, m, plan);
    } else {
      TailKept(l, m, plan, {}, n);
    }
  }

  lemma FreshTail(l: Ledger, m: Ledger, plan: Plan)
    requires TailHoldsAt(l, plan, 0) && Attested(m, plan.child) == Attested(l, plan.child)
    requires Closed(m, plan.source) && Own(m, Returns, plan.child) == Historical(m, plan, Returns)
    ensures TailHoldsAt(m, plan, 0)
  {
    hide Own, Attested, Partition, RowsOf, Closed;
    FreshPrefix(m, plan);
  }

  lemma FreshPrefix(m: Ledger, plan: Plan)
    requires Closed(m, plan.source) && Own(m, Returns, plan.child) == Historical(m, plan, Returns)
    ensures PrefixLoaded(m, plan, 0)
  {
    hide Own, Closed;
    assert RowsOf(plan.tail[..0]) == map[];
    assert PrefixRows(m, plan, 0) == Historical(m, plan, Returns);
  }

  lemma CopiedIsWhole(l: Ledger, plan: Plan, s: Surface)
    requires CopiedWhole(l, plan, s)
    ensures CopiedRows(l, plan, s) == map[] || CopiedRows(l, plan, s) == Historical(l, plan, s)
  {
    hide Own;
  }

  lemma CopyKeeps(l: Ledger, plan: Plan, s: Surface)
    requires Sound(l) && CopyAllowed(l, plan, s) && Holds(l, plan)
    ensures Holds(Copy(l, plan, s), plan)
  {
    CopyParts(l, plan, s);
    CopyTables(l, plan, s);
    CopyIsDdlStep(l, plan, s);
    hide DdlStep, Sound, Copy, Own, CopyAllowed, Tombs, Attested, TailHoldsAt, CopiedRows, PointerValid;
    var m := Copy(l, plan, s);
    PointerStaysValid(l, m, {});
    SourceFrozen(l, m, plan, {});
    var n: nat :| TailHoldsAt(l, plan, n);
    CopyKeepsTail(l, plan, s, n);
    forall t: Surface | !t.Returns? ensures CopiedWhole(m, plan, t) {
      assert CopiedWhole(l, plan, t);
      if t == s { CopiedIsWhole(l, plan, s); } else { WholeKept(l, m, plan, t, {}); }
    }
  }

  lemma BatchKeeps(l: Ledger, plan: Plan, start: nat, limit: nat)
    requires Sound(l) && start < |plan.tail| && BatchAllowed(l, plan, start, limit) && Holds(l, plan)
    ensures Holds(Batch(l, plan, start, limit), plan)
  {
    hide DdlStep, Sound, Batch, Own, BatchAllowed, Attested, TailHoldsAt, PointerValid, LoadedRows, CopiedWhole, Tombs;
    var m := Batch(l, plan, start, limit);
    BatchParts(l, plan, start, limit);
    BatchIsDdlStep(l, plan, start, limit);
    BatchTables(l, plan, start, limit);
    PointerStaysValid(l, m, {});
    SameTombsTable(l, m, plan.child);
    var n: nat :| TailHoldsAt(l, plan, n);
    BatchExtendsOrReplays(l, plan, start, limit, n);
    if !(start == n && TailHoldsAt(m, plan, EndOf(plan, start, limit))) {
      TailKept(l, m, plan, {}, n);
    }
    forall t: Surface | !t.Returns? ensures CopiedWhole(m, plan, t) {
      WholeKept(l, m, plan, t, {});
    }
  }

  lemma SameTombsTable(l: Ledger, m: Ledger, p: Id)
    requires m.tombs == l.tombs
    ensures Tombs(m, Returns, p) == Tombs(l, Returns, p)
  {
  }

  lemma StepKeeps(l: Ledger, m: Ledger, plan: Plan)
    requires Sound(l) && Holds(l, plan) && Step(l, m, plan)
    ensures Sound(m) && Holds(m, plan)
  {
    hide DdlStep, Sound, Holds, PrepareAllowed, Prepare, CopyAllowed, Copy, BatchAllowed, Batch, FinalizeCommits, Switched;
    StepIsDdlStep(l, m, plan);
    var mine :| DdlStep(l, m, mine);
    DdlStepKeepsSound(l, m, mine);
    if m == l {
    } else if PrepareAllowed(l, plan) && m == Prepare(l, plan) {
      PrepareKeeps(l, plan);
    } else if s: Surface :| CopyAllowed(l, plan, s) && m == Copy(l, plan, s) {
      CopyKeeps(l, plan, s);
    } else if start: nat, limit: nat :| start < |plan.tail| && BatchAllowed(l, plan, start, limit) && m == Batch(l, plan, start, limit) {
      BatchKeeps(l, plan, start, limit);
    } else if plan.child in l.pubs && FinalizeCommits(l, plan) && m == Switched(l, plan) {
      SwitchKeeps(l, plan);
    } else {
      ForeignKeeps(l, m, plan);
    }
  }

  ghost predicate Run(states: seq<Ledger>, plan: Plan) {
    && states != [] && Sound(states[0]) && PointerValid(states[0])
    && plan.child !in states[0].pubs && Attested(states[0], plan.child) == map[]
    && forall i :: 0 <= i < |states| - 1 ==> Step(states[i], states[i + 1], plan)
  }

  lemma {:induction false} RunKeeps(states: seq<Ledger>, plan: Plan, i: nat)
    requires Run(states, plan) && i < |states|
    ensures Sound(states[i]) && Holds(states[i], plan)
    decreases i
  {
    hide Sound, Step, PointerValid, RootHolds, Attested;
    if i > 0 {
      RunKeeps(states, plan, i - 1);
      StepKeeps(states[i - 1], states[i], plan);
    }
  }

  // --------------------------------------------------------------- what a commit means

  /** The terminal attestation of a finalize means the whole tail is loaded: the
      returns are the copied history and every tail row, no tail key repeats and
      none is a historical key; every other surface is the old root's. */
  lemma CommitHasWholeTail(l: Ledger, plan: Plan)
    requires Holds(l, plan) && FinalizeCommits(l, plan)
    ensures Own(l, Returns, plan.child) == RowsOf(plan.tail) + Historical(l, plan, Returns)
    ensures |Own(l, Returns, plan.child)| == |Historical(l, plan, Returns)| + |plan.tail|
    ensures forall i, j :: 0 <= i < j < |plan.tail| ==> plan.tail[i].key != plan.tail[j].key
    ensures forall e :: e in plan.tail ==> e.key !in Historical(l, plan, Returns)
    ensures TailHoldsAt(l, plan, |plan.tail|)
  {
    var m: nat :| TailHoldsAt(l, plan, m);
    TerminalIsEnd(l, plan, m);
    hide FinalizeCommits, Attested, Own, Partition, RowsOf;
    assert plan.tail[..m] == plan.tail;
    DistinctBySize(plan.tail, Historical(l, plan, Returns));
  }

  lemma TerminalIsEnd(l: Ledger, plan: Plan, m: nat)
    requires TailHoldsAt(l, plan, m) && FinalizeCommits(l, plan)
    ensures m == |plan.tail| && PrefixLoaded(l, plan, m)
  {
    assert TerminalAttested(l, plan);
    hide FinalizeCommits, Attested, Own, Partition, RowsOf;
    PartitionBounds(Attested(l, plan.child), m);
    var c :| c in Attested(l, plan.child) && Attested(l, plan.child)[c] == |plan.tail|;
  }

  lemma DisjointBySize<T(!new)>(a: set<T>, b: set<T>, n: nat)
    requires |a + b| == |b| + n && |a| <= n
    ensures |a| == n && a !! b
  {
    assert a + b == (a - b) + b && (a - b) !! b;
    assert a == (a - b) + (a * b) && (a - b) !! (a * b);
    assert |a * b| == 0;
  }

  lemma DistinctBySize(tail: seq<Entry<Key, Row>>, base: map<Key, Row>)
    requires |RowsOf(tail) + base| == |base| + |tail|
    ensures forall i, j :: 0 <= i < j < |tail| ==> tail[i].key != tail[j].key
    ensures forall e :: e in tail ==> e.key !in base
  {
    assert (RowsOf(tail) + base).Keys == RowsOf(tail).Keys + base.Keys;
    RowsOfSize(tail);
    DisjointBySize(RowsOf(tail).Keys, base.Keys, |tail|);
    forall e | e in tail ensures e.key !in base {
      var i :| 0 <= i < |tail| && tail[i] == e;
      RowsOfKeys(tail, e.key);
      assert e.key in RowsOf(tail).Keys;
    }
  }

  /** After the switch the views serve the replacement root's own rows: the whole
      history, the whole tail, and the old root's other surfaces. */
  lemma CommitServes(l: Ledger, plan: Plan)
    requires Holds(l, plan) && FinalizeCommits(l, plan)
    requires forall s: Surface :: plan.counts.Of(s) > 0
    ensures plan.child in l.pubs
    ensures Current(Switched(l, plan), Returns) == RowsOf(plan.tail) + Historical(l, plan, Returns)
    ensures forall s: Surface :: !s.Returns? ==> Current(Switched(l, plan), s) == Historical(l, plan, s)
  {
    CommitHasWholeTail(l, plan);
    CommitCopies(l, plan);
    hide FinalizeCommits, Holds, Switched, Current, Own, RowsOf, TailHoldsAt;
    ServesOwn(l, plan, Returns);
    forall s: Surface | !s.Returns? ensures Current(Switched(l, plan), s) == Historical(l, plan, s) {
      ServesOwn(l, plan, s);
    }
  }

  lemma CommitCopies(l: Ledger, plan: Plan)
    requires Holds(l, plan) && FinalizeCommits(l, plan)
    requires forall s: Surface :: plan.counts.Of(s) > 0
    ensures forall s: Surface :: !s.Returns? ==> Own(l, s, plan.child) == Historical(l, plan, s)
  {
    hide ContiguousReturns, TerminalAttested, PointerAdmits, SameHeader, LegacyRoot, TailHoldsAt, Own, Tombs;
    forall s: Surface | !s.Returns? ensures Own(l, s, plan.child) == Historical(l, plan, s) {
      assert |Own(l, s, plan.child)| == plan.counts.Of(s);
      assert CopiedWhole(l, plan, s);
    }
  }

  lemma ServesOwn(l: Ledger, plan: Plan, s: Surface)
    requires Holds(l, plan) && FinalizeCommits(l, plan)
    ensures plan.child in l.pubs && Current(Switched(l, plan), s) == Own(l, s, plan.child)
  {
    assert SameHeader(l.pubs[plan.child], plan);
    RootParts(l, plan);
    NotFailed(l.pubs[plan.child], plan);
    hide FinalizeCommits, Holds, Own, Tombs, SameRows, SameTombs, SameHeader, Served, SwitchTo;
    var m := Switched(l, plan);
    SwitchedChild(l, plan.child, Validation(plan));
    SwitchedTables(l, plan);
    RootServesOwn(m, plan.child, s);
  }

  /** A validated parentless root without tombstones serves its own rows. */
  lemma RootServesOwn(m: Ledger, p: Id, s: Surface)
    requires p in m.pubs && m.pubs[p].parent.None? && m.pubs[p].status.Validated? && m.pubs[p].config.Legacy?
    requires Tombs(m, Returns, p) == {}
    ensures Served(m, s, p) == Own(m, s, p)
  {
    TombsOf(m, s, p);
    hide Own, Tombs;
    assert Chain(m.pubs, p, {}, View) == [p] + [];
    OverlayCons(m, s, p, []);
  }

  lemma NotFailed(c: Publication, plan: Plan)
    requires SameHeader(c, plan)
    ensures !c.status.Failed?
  {
  }

  lemma RootParts(l: Ledger, plan: Plan)
    requires Holds(l, plan) && plan.child in l.pubs
    ensures l.pubs[plan.child].parent.None? && l.pubs[plan.child].config.Legacy? && Tombs(l, Returns, plan.child) == {}
  {
  }

  lemma TombsOf(m: Ledger, s: Surface, p: Id)
    requires Tombs(m, Returns, p) == {}
    ensures Tombs(m, s, p) == {}
  {
  }
}
