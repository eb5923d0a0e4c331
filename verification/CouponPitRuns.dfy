/** Runs of the coupon-PIT protocol: what holds of the child after any sequence
    of prepares, copies, batches, finalizes, refusals and foreign transactions,
    and what a committed finalize puts under the pointer. */
module CouponPitRuns {
  import opened Prelude
  import opened Panel
  import opened ImmutableBatch
  import opened MonthGates
  import opened LedgerSteps
  import opened CouponPit

  // -------------------------------------------------- every step obeys the DDL

  lemma CopyIsDdlStep(l: Ledger, plan: Plan, s: Surface)
    requires Sound(l) && CopyAllowed(l, plan, s)
    ensures DdlStep(l, Copy(l, plan, s), {})
  {
    if l.pubs[plan.child].status.Prepared? {
      assert Own(l, s, plan.child).Keys !! Tombs(l, s, plan.child);
      AddingRowsIsDdlStep(l, Slot(s, plan.child), CopiedRows(l, plan, s));
    } else {
      SameFactsIsDdlStep(l, Slot(s, plan.child));
    }
  }

  lemma BatchIsDdlStep(l: Ledger, plan: Plan, start: nat, limit: nat)
    requires Sound(l) && BatchAllowed(l, plan, start, limit)
    ensures DdlStep(l, Batch(l, plan, start, limit), {})
  {
    if l.pubs[plan.child].status.Prepared? {
      assert Own(l, Returns, plan.child).Keys !! Tombs(l, Returns, plan.child);
      AddingRowsIsDdlStep(l, Slot(Returns, plan.child), RowsOf(BatchRows(plan, start, limit)) + Own(l, Returns, plan.child));
    }
  }

  /** A prepare that commits finds the child absent or prepared. */
  lemma PreparedChild(l: Ledger, plan: Plan)
    requires PrepareAllowed(l, plan)
    ensures plan.head in l.pubs && l.pubs[plan.head].status.Validated? && l.pointer == Some(plan.head)
    ensures plan.child in l.pubs ==> l.pubs[plan.child].status.Prepared?
    ensures Own(l, Returns, plan.child).Keys !! Dropped(plan)
  {
    hide LineageReaches, Own, Current, UpTo, After, Tombs, InsertAdmitted;
    if plan.child in l.pubs {
      var evidence := l.pubs[plan.child].evidence;
      assert Contains(evidence, map[CONTRACT := MarkerOf(plan)]);
      assert evidence[CONTRACT] == MarkerOf(plan);
    }
  }

  lemma PreparedParts(l: Ledger, plan: Plan)
    requires PrepareAllowed(l, plan)
    ensures var m := Prepare(l, plan);
      && m.facts == l.facts && m.attested == l.attested && m.pointer == l.pointer
      && m.tombs == l.tombs[plan.child := Tombs(l, Returns, plan.child) + Dropped(plan)]
      && m.pubs == (if plan.child in l.pubs then l.pubs else l.pubs[plan.child := ChildPublication(l, plan)])
      && ChildPublication(l, plan).parent == Some(plan.head)
  {
    hide Tombs, Dropped, Current, After, SameChild, InsertAdmitted, LineageReaches, MarkedFor, UpTo, Own;
  }

  lemma PrepareAddsChild(l: Ledger, plan: Plan)
    requires PrepareAllowed(l, plan)
    ensures AddsChild(l, Prepare(l, plan), plan.child, Dropped(plan))
  {
    hide PrepareAllowed, Prepare, ChildPublication, Own, Tombs, Dropped;
    PreparedChild(l, plan);
    PreparedParts(l, plan);
    if plan.child in l.pubs {
      assert l.pubs[plan.child := l.pubs[plan.child]] == l.pubs;
    }
  }

  lemma PrepareIsDdlStep(l: Ledger, plan: Plan)
    requires Sound(l) && PrepareAllowed(l, plan)
    ensures DdlStep(l, Prepare(l, plan), {})
  {
    PreparedChild(l, plan);
    PrepareAddsChild(l, plan);
    hide PrepareAllowed, Prepare, AddsChild, Sound, DdlStep, Own, Tombs, Dropped;
    AddingChildIsDdlStep(l, Prepare(l, plan), plan.child, Dropped(plan));
  }

  lemma CommittingChild(l: Ledger, plan: Plan)
    requires FinalizeCommits(l, plan)
    ensures plan.head in l.pubs && plan.child in l.pubs && !l.pubs[plan.child].status.Failed?
    ensures l.pubs[plan.child].parent == Some(plan.head) && l.pubs[plan.child].config.Dual?
  {
    hide PointerPreflight, SourceReaches, DroppedGate, CountGates, ContinuityGate, IdentityGates, CoverageGate,
      RowGate, CarryGate, PointerAdmits, ServedGates, GatedMonths, Contains;
  }

  lemma SwitchIsDdlStep(l: Ledger, plan: Plan)
    requires Sound(l) && FinalizeCommits(l, plan)
    ensures DdlStep(l, Switched(l, plan), {})
  {
    CommittingChild(l, plan);
    hide FinalizeCommits, Sound, DdlStep;
    SwitchingIsDdlStep(l, plan.child, Validation(plan));
  }

  // ------------------------------------------------------------- run invariant

  function FilledHead(l: Ledger, plan: Plan, s: Surface): map<Key, Row> { Filled(Served(l, s, plan.head)) }

  function FilledTail(l: Ledger, plan: Plan): map<Key, Row> { Filled(After(Served(l, Returns, plan.head), plan.cutoff)) }

  /** The row is the staged form of one selected artifact row of this key. */
  ghost predicate FromArtifact(plan: Plan, k: Key, row: Row) {
    exists e :: e in Selected(plan) && Staged(plan, e) == Entry(k, row)
  }

  ghost predicate AllFromArtifact(plan: Plan, rows: map<Key, Row>) { forall k :: k in rows ==> FromArtifact(plan, k, rows[k]) }

  predicate DeclaresHead(l: Ledger, plan: Plan, c: Counts) {
    && c.snapshotRows == |Served(l, Snapshot, plan.head)| && c.signalRows == |Served(l, RvSignal, plan.head)|
    && c.returnRows == Loaded(plan) + |After(Served(l, Returns, plan.head), plan.cutoff)|
    && c.ratingRows == |Served(l, RatingPit, plan.head)|
  }

  ghost predicate ChildHeader(l: Ledger, plan: Plan) {
    && plan.child in l.pubs && HeadWindow(l, plan)
    && l.pubs[plan.child].parent == Some(plan.head) && l.pubs[plan.child].config.Dual?
    && DeclaresHead(l, plan, l.pubs[plan.child].declared)
    && |UpTo(Served(l, Returns, plan.head), plan.cutoff)| == plan.rowsBefore
    && Tombs(l, Returns, plan.child) == Dropped(plan)
  }

  ghost predicate CopiedWhole(l: Ledger, plan: Plan, s: Surface) {
    Own(l, s, plan.child) == map[] || Own(l, s, plan.child) == FilledHead(l, plan, s)
  }

  ghost predicate ReturnsLoaded(l: Ledger, plan: Plan) {
    Loading(plan, Own(l, Returns, plan.child), FilledTail(l, plan))
  }

  /** What every reachable ledger holds about the child, once it exists. */
  ghost predicate ChildHolds(l: Ledger, plan: Plan) {
    plan.child in l.pubs ==>
      && ChildHeader(l, plan)
      && (forall s: Surface :: !s.Returns? ==> CopiedWhole(l, plan, s))
      && ReturnsLoaded(l, plan)
  }

  /** One transaction: a protocol step that commits, one that is refused and
      rolls back, or another writer's transaction, which may move the pointer
      and write any other publication. */
  ghost predicate Step(l: Ledger, m: Ledger, plan: Plan) {
    || m == l
    || (PrepareAllowed(l, plan) && m == Prepare(l, plan))
    || (exists s: Surface :: CopyAllowed(l, plan, s) && m == Copy(l, plan, s))
    || (exists start: nat, limit: nat :: BatchAllowed(l, plan, start, limit) && m == Batch(l, plan, start, limit))
    || (plan.child in l.pubs && FinalizeCommits(l, plan) && m == Switched(l, plan))
    || DdlStep(l, m, {plan.child})
  }

  lemma StepIsDdlStep(l: Ledger, m: Ledger, plan: Plan)
    requires Sound(l) && Step(l, m, plan)
    ensures exists mine :: DdlStep(l, m, mine)
  {
    hide DdlStep, Sound, PrepareAllowed, Prepare, CopyAllowed, Copy, BatchAllowed, Batch, FinalizeCommits, Switched;
    if m == l {
      NothingIsDdlStep(l);
    } else if PrepareAllowed(l, plan) && m == Prepare(l, plan) {
      PrepareIsDdlStep(l, plan);
    } else if s: Surface :| CopyAllowed(l, plan, s) && m == Copy(l, plan, s) {
      CopyIsDdlStep(l, plan, s);
    } else if start: nat, limit: nat :| BatchAllowed(l, plan, start, limit) && m == Batch(l, plan, start, limit) {
      BatchIsDdlStep(l, plan, start, limit);
    } else if plan.child in l.pubs && FinalizeCommits(l, plan) && m == Switched(l, plan) {
      SwitchIsDdlStep(l, plan);
    }
  }

  /** The head's surfaces are frozen under every step. */
  lemma HeadFrozen(l: Ledger, m: Ledger, plan: Plan, mine: set<Id>)
    requires Sound(l) && DdlStep(l, m, mine) && HeadWindow(l, plan)
    ensures HeadWindow(m, plan)
    ensures forall s :: Served(m, s, plan.head) == Served(l, s, plan.head)
  {
    forall s ensures Served(m, s, plan.head) == Served(l, s, plan.head) && plan.head in m.pubs && m.pubs[plan.head] == l.pubs[plan.head] {
      ServedFrozen(l, m, s, plan.head, mine);
    }
  }

  lemma HeaderKept(l: Ledger, m: Ledger, plan: Plan, mine: set<Id>)
    requires Sound(l) && DdlStep(l, m, mine) && ChildHeader(l, plan)
    requires plan.child in m.pubs && m.pubs[plan.child].config == l.pubs[plan.child].config && m.pubs[plan.child].declared == l.pubs[plan.child].declared
    requires Tombs(m, Returns, plan.child) == Tombs(l, Returns, plan.child)
    ensures ChildHeader(m, plan)
    ensures FilledTail(m, plan) == FilledTail(l, plan) && forall s :: FilledHead(m, plan, s) == FilledHead(l, plan, s)
  {
    hide Sound, DdlStep, HeadWindow, Tombs, Served, UpTo, After, Filled, Dropped;
    HeadFrozen(l, m, plan, mine);
    Evolved(l, m, mine, plan.child);
  }

  /** A step that leaves the child's header, rows and tombstones alone keeps the invariant. */
  lemma ChildUntouched(l: Ledger, m: Ledger, plan: Plan, mine: set<Id>)
    requires Sound(l) && DdlStep(l, m, mine) && ChildHolds(l, plan)
    requires plan.child in m.pubs ==> plan.child in l.pubs
    requires plan.child in m.pubs ==> m.pubs[plan.child].config == l.pubs[plan.child].config && m.pubs[plan.child].declared == l.pubs[plan.child].declared
    requires Tombs(m, Returns, plan.child) == Tombs(l, Returns, plan.child)
    requires forall s :: Own(m, s, plan.child) == Own(l, s, plan.child)
    ensures ChildHolds(m, plan)
  {
    hide Sound, DdlStep, ChildHeader, Own, Tombs, FilledHead, FilledTail, Loading, Served;
    if plan.child in m.pubs {
      HeaderKept(l, m, plan, mine);
      forall s: Surface | !s.Returns? ensures CopiedWhole(m, plan, s) {
        assert CopiedWhole(l, plan, s);
      }
    }
  }

  lemma ForeignKeepsChild(l: Ledger, m: Ledger, plan: Plan)
    requires Sound(l) && DdlStep(l, m, {plan.child}) && ChildHolds(l, plan)
    ensures ChildHolds(m, plan)
  {
    forall s ensures Own(m, s, plan.child) == Own(l, s, plan.child) {
      assert Grows(l, plan.child, {plan.child}, Own(l, s, plan.child), Own(m, s, plan.child));
    }
    ChildUntouched(l, m, plan, {plan.child});
  }

  lemma SwitchKeepsChild(l: Ledger, plan: Plan)
    requires Sound(l) && FinalizeCommits(l, plan) && ChildHolds(l, plan)
    ensures ChildHolds(Switched(l, plan), plan)
  {
    CommittingChild(l, plan);
    SwitchIsDdlStep(l, plan);
    SwitchedChild(l, plan.child, Validation(plan));
    hide FinalizeCommits, DdlStep, Sound, ChildHolds, Switched, Own, Tombs;
    ChildUntouched(l, Switched(l, plan), plan, {});
  }

  /** What a committed prepare declares about a new child. */
  lemma PreparedHeader(l: Ledger, plan: Plan)
    requires PrepareAllowed(l, plan)
    ensures HeadWindow(l, plan) && l.pointer == Some(plan.head)
    ensures |UpTo(Served(l, Returns, plan.head), plan.cutoff)| == plan.rowsBefore
    ensures plan.child !in l.pubs ==>
      && Prepare(l, plan).pubs[plan.child].parent == Some(plan.head)
      && Prepare(l, plan).pubs[plan.child].config.Dual?
      && DeclaresHead(l, plan, Prepare(l, plan).pubs[plan.child].declared)
  {
    hide LineageReaches, Served, MarkedFor, SameChild, InsertAdmitted, Own, Tombs, UpTo, After;
  }

  lemma HeaderMade(l: Ledger, m: Ledger, plan: Plan)
    requires Sound(l) && DdlStep(l, m, {}) && HeadWindow(l, plan) && plan.child in m.pubs
    requires |UpTo(Served(l, Returns, plan.head), plan.cutoff)| == plan.rowsBefore
    requires m.pubs[plan.child].parent == Some(plan.head) && m.pubs[plan.child].config.Dual?
    requires DeclaresHead(l, plan, m.pubs[plan.child].declared)
    requires Tombs(m, Returns, plan.child) == Dropped(plan)
    ensures ChildHeader(m, plan)
  {
    hide Sound, DdlStep, HeadWindow, Tombs, Served, UpTo, After, Dropped;
    HeadFrozen(l, m, plan, {});
  }

  /** A ledger with the child's header in place and no rows of it. */
  lemma NewChild(l: Ledger, m: Ledger, plan: Plan)
    requires Sound(l) && DdlStep(l, m, {}) && plan.child !in l.pubs && HeadWindow(l, plan)
    requires AddsChild(l, m, plan.child, Dropped(plan))
    requires |UpTo(Served(l, Returns, plan.head), plan.cutoff)| == plan.rowsBefore
    requires m.pubs[plan.child].parent == Some(plan.head) && m.pubs[plan.child].config.Dual?
    requires DeclaresHead(l, plan, m.pubs[plan.child].declared)
    ensures ChildHolds(m, plan)
  {
    hide DdlStep, Sound, HeadWindow, Own, Tombs, Served, DeclaresHead, UpTo, ChildHeader, FilledHead, FilledTail, Loading;
    AddedFacts(l, m, plan.child, Dropped(plan));
    NoRowsYet(l, plan.child);
    HeaderMade(l, m, plan);
    NothingLoaded(plan, FilledTail(m, plan));
    hide AddsChild;
    assert forall s :: Own(m, s, plan.child) == map[];
  }

  lemma NothingLoaded(plan: Plan, tail: map<Key, Row>)
    ensures Loading(plan, map[], tail)
  {
    assert UpTo(map[], plan.cutoff) == map[] && After(map[], plan.cutoff) == map[];
  }

  /** Preparing again leaves everything the invariant speaks of. */
  lemma PreparedAgain(l: Ledger, m: Ledger, plan: Plan)
    requires Sound(l) && DdlStep(l, m, {}) && plan.child in l.pubs && ChildHolds(l, plan)
    requires AddsChild(l, m, plan.child, Dropped(plan))
    ensures ChildHolds(m, plan)
  {
    hide DdlStep, Sound, Own, Tombs, Dropped, HeadWindow, Served, ChildHolds, AddsChild;
    AddedFacts(l, m, plan.child, Dropped(plan));
    AddedAgain(l, m, plan);
    ChildUntouched(l, m, plan, {});
  }

  /** Adding a child that is there with its tombstones changes nothing about it. */
  lemma AddedAgain(l: Ledger, m: Ledger, plan: Plan)
    requires ChildHolds(l, plan) && plan.child in l.pubs && AddsChild(l, m, plan.child, Dropped(plan))
    ensures plan.child in m.pubs && m.pubs[plan.child] == l.pubs[plan.child]
    ensures Tombs(m, Returns, plan.child) == Tombs(l, Returns, plan.child)
  {
    AddedFacts(l, m, plan.child, Dropped(plan));
    hide Own, Dropped, HeadWindow, Served, CopiedWhole, ReturnsLoaded, DeclaresHead;
  }

  lemma PrepareKeepsChild(l: Ledger, plan: Plan)
    requires Sound(l) && PrepareAllowed(l, plan) && ChildHolds(l, plan)
    ensures ChildHolds(Prepare(l, plan), plan)
  {
    PrepareIsDdlStep(l, plan);
    PreparedHeader(l, plan);
    PrepareAddsChild(l, plan);
    hide PrepareAllowed, Prepare, DdlStep, Sound, ChildHolds, AddsChild, HeadWindow, Served, DeclaresHead;
    if plan.child in l.pubs {
      PreparedAgain(l, Prepare(l, plan), plan);
    } else {
      NewChild(l, Prepare(l, plan), plan);
    }
  }

  lemma AfterOfUnion(a: map<Key, Row>, b: map<Key, Row>, cutoff: Date)
    ensures After(a + b, cutoff) == After(a, cutoff) + After(b, cutoff)
    ensures UpTo(a + b, cutoff) == UpTo(a, cutoff) + UpTo(b, cutoff)
  {
  }

  lemma FilledAfter(rows: map<Key, Row>, cutoff: Date)
    ensures After(Filled(After(rows, cutoff)), cutoff) == Filled(After(rows, cutoff))
    ensures UpTo(Filled(After(rows, cutoff)), cutoff) == map[]
  {
  }

  /** Rows that are a whole tail or none of it, and artifact rows before it. */
  ghost predicate Loading(plan: Plan, rows: map<Key, Row>, tail: map<Key, Row>) {
    && (After(rows, plan.cutoff) == map[] || After(rows, plan.cutoff) == tail)
    && AllFromArtifact(plan, UpTo(rows, plan.cutoff))
  }

  lemma LoadingUnion(plan: Plan, more: map<Key, Row>, own: map<Key, Row>, tail: map<Key, Row>)
    requires Loading(plan, more, tail) && Loading(plan, own, tail)
    ensures Loading(plan, more + own, tail)
  {
    AfterOfUnion(more, own, plan.cutoff);
    hide UpTo, After, FromArtifact;
  }

  lemma CopyKeepsReturns(l: Ledger, plan: Plan)
    requires ReturnsLoaded(l, plan) && l.pointer == Some(plan.head)
    ensures Loading(plan, CopiedRows(l, plan, Returns), FilledTail(l, plan))
  {
    FilledAfter(Served(l, Returns, plan.head), plan.cutoff);
    InsertMissingIsUnion(Own(l, Returns, plan.child), FilledTail(l, plan));
    hide Own, Served, UpTo, After, Filled, FromArtifact;
    LoadingUnion(plan, FilledTail(l, plan), Own(l, Returns, plan.child), FilledTail(l, plan));
  }

  lemma CopyAt(l: Ledger, plan: Plan, s: Surface)
    requires CopyAllowed(l, plan, s)
    ensures l.pointer == Some(plan.head) && plan.child in l.pubs
  {
    hide CopiedRows, CopySource;
  }

  lemma CopyWhole(l: Ledger, plan: Plan, s: Surface)
    requires !s.Returns? && CopiedWhole(l, plan, s) && l.pointer == Some(plan.head)
    ensures CopiedRows(l, plan, s) == map[] || CopiedRows(l, plan, s) == FilledHead(l, plan, s)
  {
    hide Filled, Served, Own;
  }

  /** Replacing the child's rows of one surface by rows of the same kind. */
  lemma RowsReplaced(l: Ledger, plan: Plan, s: Surface, rows: map<Key, Row>)
    requires Sound(l) && ChildHolds(l, plan) && plan.child in l.pubs
    requires DdlStep(l, WithFacts(l, Slot(s, plan.child), rows), {})
    requires !s.Returns? ==> rows == map[] || rows == FilledHead(l, plan, s)
    requires s.Returns? ==> Loading(plan, rows, FilledTail(l, plan))
    ensures ChildHolds(WithFacts(l, Slot(s, plan.child), rows), plan)
  {
    var m := WithFacts(l, Slot(s, plan.child), rows);
    GrownRows(l, Slot(s, plan.child), rows);
    hide WithFacts, Sound, DdlStep, Own, Tombs;
    HeaderKept(l, m, plan, {});
    hide ChildHeader, Loading, FilledHead, FilledTail;
    forall t: Surface | !t.Returns? ensures CopiedWhole(m, plan, t) {
      assert CopiedWhole(l, plan, t);
    }
  }

  lemma CopyKeepsChild(l: Ledger, plan: Plan, s: Surface)
    requires Sound(l) && CopyAllowed(l, plan, s) && ChildHolds(l, plan)
    ensures ChildHolds(Copy(l, plan, s), plan)
  {
    CopyIsDdlStep(l, plan, s);
    CopyAt(l, plan, s);
    CopyKeepsReturns(l, plan);
    forall t: Surface | !t.Returns? ensures t == s ==> CopiedRows(l, plan, s) == map[] || CopiedRows(l, plan, s) == FilledHead(l, plan, s) {
      assert CopiedWhole(l, plan, t);
      if t == s { CopyWhole(l, plan, s); }
    }
    RowsReplaced(l, plan, s, CopiedRows(l, plan, s));
  }

  lemma {:induction false} EarlierIsEarlier(entries: seq<Entry<Key, Row>>, cutoff: Date)
    ensures forall e :: e in Earlier(entries, cutoff) <==> e in entries && e.key.month <= cutoff
    decreases |entries|
  {
    if entries != [] {
      EarlierIsEarlier(entries[1..], cutoff);
      assert entries == [entries[0]] + entries[1..];
    }
  }

  lemma BatchRowFromArtifact(plan: Plan, start: nat, limit: nat, k: Key)
    requires StagedAgree(BatchRows(plan, start, limit)) && k in RowsOf(BatchRows(plan, start, limit))
    ensures k.month <= plan.cutoff && FromArtifact(plan, k, RowsOf(BatchRows(plan, start, limit))[k])
  {
    var rows, slice := BatchRows(plan, start, limit), Slice(Selected(plan), start, limit);
    RowsOfKeys(rows, k);
    var i :| 0 <= i < |rows| && rows[i].key == k;
    RowsOfValue(rows, i);
    EarlierIsEarlier(plan.artifact, plan.cutoff);
    assert slice[i] in Selected(plan);
    assert Staged(plan, slice[i]) == Entry(k, RowsOf(rows)[k]);
  }

  lemma BatchIsLoading(plan: Plan, start: nat, limit: nat, tail: map<Key, Row>)
    requires StagedAgree(BatchRows(plan, start, limit))
    ensures Loading(plan, RowsOf(BatchRows(plan, start, limit)), tail)
  {
    var rows := RowsOf(BatchRows(plan, start, limit));
    forall k | k in rows ensures k.month <= plan.cutoff && FromArtifact(plan, k, rows[k]) {
      BatchRowFromArtifact(plan, start, limit, k);
    }
    hide FromArtifact, BatchRows;
    assert After(rows, plan.cutoff) == map[];
  }

  lemma BatchKeepsChild(l: Ledger, plan: Plan, start: nat, limit: nat)
    requires Sound(l) && BatchAllowed(l, plan, start, limit) && ChildHolds(l, plan)
    ensures ChildHolds(Batch(l, plan, start, limit), plan)
  {
    BatchIsDdlStep(l, plan, start, limit);
    if l.pubs[plan.child].status.Prepared? {
      BatchIsLoading(plan, start, limit, FilledTail(l, plan));
      LoadingUnion(plan, RowsOf(BatchRows(plan, start, limit)), Own(l, Returns, plan.child), FilledTail(l, plan));
      RowsReplaced(l, plan, Returns, RowsOf(BatchRows(plan, start, limit)) + Own(l, Returns, plan.child));
    }
  }

  /** Every transaction keeps the ledger sound and the child well loaded. */
  lemma StepKeeps(l: Ledger, m: Ledger, plan: Plan)
    requires Sound(l) && ChildHolds(l, plan) && Step(l, m, plan)
    ensures Sound(m) && ChildHolds(m, plan)
  {
    StepIsDdlStep(l, m, plan);
    var mine :| DdlStep(l, m, mine);
    DdlStepKeepsSound(l, m, mine);
    StepKeepsChild(l, m, plan);
  }

  lemma StepKeepsChild(l: Ledger, m: Ledger, plan: Plan)
    requires Sound(l) && ChildHolds(l, plan) && Step(l, m, plan)
    ensures ChildHolds(m, plan)
  {
    hide DdlStep, Sound, ChildHolds, PrepareAllowed, Prepare, CopyAllowed, Copy, BatchAllowed, Batch, FinalizeCommits, Switched;
    if m == l {
    } else if PrepareAllowed(l, plan) && m == Prepare(l, plan) {
      PrepareKeepsChild(l, plan);
    } else if s: Surface :| CopyAllowed(l, plan, s) && m == Copy(l, plan, s) {
      CopyKeepsChild(l, plan, s);
    } else if start: nat, limit: nat :| BatchAllowed(l, plan, start, limit) && m == Batch(l, plan, start, limit) {
      BatchKeepsChild(l, plan, start, limit);
    } else if plan.child in l.pubs && FinalizeCommits(l, plan) && m == Switched(l, plan) {
      SwitchKeepsChild(l, plan);
    } else {
      ForeignKeepsChild(l, m, plan);
    }
  }

  /** A run from a sound ledger in which the child does not exist yet. */
  ghost predicate Run(states: seq<Ledger>, plan: Plan) {
    && states != [] && Sound(states[0]) && plan.child !in states[0].pubs
    && forall i :: 0 <= i < |states| - 1 ==> Step(states[i], states[i + 1], plan)
  }

  lemma {:induction false} RunKeeps(states: seq<Ledger>, plan: Plan, i: nat)
    requires Run(states, plan) && i < |states|
    ensures Sound(states[i]) && ChildHolds(states[i], plan)
    decreases i
  {
    if i > 0 {
      RunKeeps(states, plan, i - 1);
      StepKeeps(states[i - 1], states[i], plan);
    }
  }
}
