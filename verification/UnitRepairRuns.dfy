/** Runs of the unit repair: each row of the child is the head's row rescaled
    exactly once, whatever is replayed and whatever other writers do. */
module UnitRepairRuns {
  import opened Prelude
  import opened Panel
  import opened MonthGates
  import opened LedgerSteps
  import opened UnitRepair

  function Expected(l: Ledger, plan: Plan, s: Surface): map<Key, Row> { RepairedRows(plan, s, Served(l, s, plan.head)) }

  ghost predicate CopiedWhole(l: Ledger, plan: Plan, s: Surface) {
    Own(l, s, plan.child) == map[] || Own(l, s, plan.child) == Expected(l, plan, s)
  }

  ghost predicate ChildHeader(l: Ledger, plan: Plan) {
    && plan.child in l.pubs && HeadWindow(l, plan)
    && l.pubs[plan.child].parent == Some(plan.head) && l.pubs[plan.child].config.Dual?
    && MarkedFor(l.pubs[plan.child].evidence, plan)
    && (forall s: Surface :: |Served(l, s, plan.head)| == plan.counts.Of(s))
    && Tombs(l, Returns, plan.child) == {}
  }

  /** What every reachable ledger holds about the child, once it exists. */
  ghost predicate ChildHolds(l: Ledger, plan: Plan) {
    plan.child in l.pubs ==> ChildHeader(l, plan) && forall s: Surface :: CopiedWhole(l, plan, s)
  }

  /** One transaction: a protocol step, a refusal, or another writer's step. */
  ghost predicate Step(l: Ledger, m: Ledger, plan: Plan) {
    || m == l
    || (plan.head in l.pubs && PrepareAllowed(l, plan) && m == Prepare(l, plan))
    || (exists s: Surface :: CopyAllowed(l, plan, s) && m == Copy(l, plan, s))
    || (plan.child in l.pubs && FinalizeCommits(l, plan) && m == Switched(l, plan))
    || DdlStep(l, m, {plan.child})
  }

  // ------------------------------------------------------- every step obeys the DDL

  lemma PreparedParts(l: Ledger, plan: Plan)
    requires PrepareAllowed(l, plan)
    ensures plan.head in l.pubs && HeadWindow(l, plan) && l.pointer == Some(plan.head)
    ensures forall s: Surface :: |Served(l, s, plan.head)| == plan.counts.Of(s)
    ensures plan.child in l.pubs ==> l.pubs[plan.child].status.Prepared? && Prepare(l, plan).pubs == l.pubs
    ensures plan.child !in l.pubs ==>
      && Prepare(l, plan).pubs == l.pubs[plan.child := ChildPublication(l, plan)]
      && ChildPublication(l, plan).parent == Some(plan.head) && ChildPublication(l, plan).config.Dual?
      && MarkedFor(ChildPublication(l, plan).evidence, plan)
  {
    hide FrozenRoot, Served, LineageMarks;
    forall s: Surface ensures |Served(l, s, plan.head)| == plan.counts.Of(s) {
      assert |Current(l, s)| == plan.counts.Of(s);
    }
    if plan.child in l.pubs {
      assert l.pubs[plan.child].evidence[REPAIR] == MarkerOf(plan);
    }
  }

  lemma PrepareTables(l: Ledger, plan: Plan)
    requires plan.head in l.pubs
    ensures var m := Prepare(l, plan);
      m.facts == l.facts && m.tombs == l.tombs && m.attested == l.attested && m.pointer == l.pointer && SameRows(l, m) && SameTombs(l, m)
  {
  }

  lemma PrepareIsDdlStep(l: Ledger, plan: Plan)
    requires Sound(l) && PrepareAllowed(l, plan)
    ensures plan.head in l.pubs && DdlStep(l, Prepare(l, plan), {})
  {
    hide PrepareAllowed, Prepare, Own, Tombs, FactsSound, FactsStep, ChildPublication, SameRows, SameTombs;
    PreparedParts(l, plan);
    PrepareTables(l, plan);
    var m := Prepare(l, plan);
    SameRowsIsFactsStep(l, m);
    AddedKeepsSound(l, m, plan.child);
    if plan.child in l.pubs { SamePubs(l.pubs, {}); }
  }

  lemma AddedKeepsSound(l: Ledger, m: Ledger, child: Id)
    requires Sound(l) && m.facts == l.facts && m.tombs == l.tombs && SameRows(l, m) && SameTombs(l, m)
    requires m.pubs == l.pubs || (child in m.pubs && m.pubs == l.pubs[child := m.pubs[child]])
    ensures FactsSound(m)
  {
    hide Own, Tombs, SameRows, SameTombs;
    assert FactsSound(l);
    SameRowsIsSound(l, m);
  }

  lemma CopyParts(l: Ledger, plan: Plan, s: Surface)
    requires CopyAllowed(l, plan, s)
    ensures l.pointer == Some(plan.head) && plan.child in l.pubs
    ensures l.pubs[plan.child].status.Prepared? ==> Current(l, s).Keys !! Tombs(l, s, plan.child)
  {
    hide CopiedRows, Current, Tombs, CopyGates, NullGate, OsbapGate, MarkedFor;
  }

  lemma CopyIsDdlStep(l: Ledger, plan: Plan, s: Surface)
    requires Sound(l) && CopyAllowed(l, plan, s)
    ensures DdlStep(l, Copy(l, plan, s), {})
  {
    CopyParts(l, plan, s);
    OwnIsNotTombed(l, s, plan.child);
    hide CopyAllowed, DdlStep, Sound, Own, Tombs, Served, WithFacts, Repaired;
    if l.pubs[plan.child].status.Prepared? {
      AddingRowsIsDdlStep(l, Slot(s, plan.child), CopiedRows(l, plan, s));
    } else {
      SameFactsIsDdlStep(l, Slot(s, plan.child));
    }
  }

  lemma CommittingChild(l: Ledger, plan: Plan)
    requires FinalizeCommits(l, plan)
    ensures plan.head in l.pubs && plan.child in l.pubs && SameHeader(l.pubs[plan.child], plan) && CountGates(l, plan)
    ensures l.pointer == Some(plan.head) || (l.pointer == Some(plan.child) && l.pubs[plan.child].status.Validated?)
  {
    hide SourceReaches, CountGates, ContinuityGate, IdentityAndCoverage, MonthVolumes, AggregateGate, PointerAdmits, SameHeader, GatedMonths;
  }

  lemma SwitchIsDdlStep(l: Ledger, plan: Plan)
    requires Sound(l) && FinalizeCommits(l, plan)
    ensures plan.child in l.pubs && DdlStep(l, Switched(l, plan), {})
  {
    CommittingChild(l, plan);
    hide FinalizeCommits, CountGates, Sound, DdlStep, SwitchTo;
    SwitchingIsDdlStep(l, plan.child, Validation(plan));
  }

  lemma StepIsDdlStep(l: Ledger, m: Ledger, plan: Plan)
    requires Sound(l) && Step(l, m, plan)
    ensures exists mine :: DdlStep(l, m, mine)
  {
    hide DdlStep, Sound, PrepareAllowed, Prepare, CopyAllowed, Copy, FinalizeCommits, Switched;
    if m == l {
      NothingIsDdlStep(l);
    } else if plan.head in l.pubs && PrepareAllowed(l, plan) && m == Prepare(l, plan) {
      PrepareIsDdlStep(l, plan);
    } else if s: Surface :| CopyAllowed(l, plan, s) && m == Copy(l, plan, s) {
      CopyIsDdlStep(l, plan, s);
    } else if plan.child in l.pubs && FinalizeCommits(l, plan) && m == Switched(l, plan) {
      SwitchIsDdlStep(l, plan);
    }
  }

  // ------------------------------------------------------------- the invariant

  lemma HeadFrozen(l: Ledger, m: Ledger, plan: Plan, mine: set<Id>)
    requires Sound(l) && DdlStep(l, m, mine) && HeadWindow(l, plan)
    ensures HeadWindow(m, plan)
    ensures forall s :: Served(m, s, plan.head) == Served(l, s, plan.head)
  {
    hide Sound, DdlStep, Served;
    forall s ensures Served(m, s, plan.head) == Served(l, s, plan.head) && plan.head in m.pubs && m.pubs[plan.head] == l.pubs[plan.head] {
      ServedFrozen(l, m, s, plan.head, mine);
    }
    ServedFrozen(l, m, Returns, plan.head, mine);
  }

  /** A step that keeps the child's header and tombstones keeps the frozen facts of the head. */
  lemma HeaderKept(l: Ledger, m: Ledger, plan: Plan, mine: set<Id>)
    requires Sound(l) && DdlStep(l, m, mine) && ChildHeader(l, plan)
    requires plan.child in m.pubs && m.pubs[plan.child].config == l.pubs[plan.child].config
    requires MarkedFor(m.pubs[plan.child].evidence, plan)
    requires Tombs(m, Returns, plan.child) == Tombs(l, Returns, plan.child)
    ensures ChildHeader(m, plan)
    ensures forall s :: Expected(m, plan, s) == Expected(l, plan, s)
  {
    hide Sound, DdlStep, HeadWindow, Tombs, Served, RepairedRows, MarkedFor;
    HeadFrozen(l, m, plan, mine);
    Evolved(l, m, mine, plan.child);
  }

  lemma ChildUntouched(l: Ledger, m: Ledger, plan: Plan, mine: set<Id>)
    requires Sound(l) && DdlStep(l, m, mine) && ChildHolds(l, plan)
    requires plan.child in m.pubs ==> plan.child in l.pubs && m.pubs[plan.child].config == l.pubs[plan.child].config
    requires plan.child in m.pubs ==> MarkedFor(m.pubs[plan.child].evidence, plan)
    requires Tombs(m, Returns, plan.child) == Tombs(l, Returns, plan.child)
    requires forall s :: Own(m, s, plan.child) == Own(l, s, plan.child)
    ensures ChildHolds(m, plan)
  {
    hide Sound, DdlStep, ChildHeader, Own, Tombs, Expected, MarkedFor;
    if plan.child in m.pubs {
      HeaderKept(l, m, plan, mine);
      forall s: Surface ensures CopiedWhole(m, plan, s) {
        assert CopiedWhole(l, plan, s);
      }
    }
  }

  lemma MarkOf(l: Ledger, plan: Plan)
    requires ChildHolds(l, plan) && plan.child in l.pubs
    ensures MarkedFor(l.pubs[plan.child].evidence, plan) && HeadWindow(l, plan) && ChildHeader(l, plan)
    ensures l.pubs[plan.child].parent == Some(plan.head) && l.pubs[plan.child].config.Dual?
  {
    hide MarkedFor, HeadWindow, Served, Tombs, CopiedWhole;
  }

  lemma ForeignKeepsChild(l: Ledger, m: Ledger, plan: Plan)
    requires Sound(l) && DdlStep(l, m, {plan.child}) && ChildHolds(l, plan)
    ensures ChildHolds(m, plan)
  {
    hide Sound, DdlStep, ChildHolds, Own, Tombs, MarkedFor, HeadWindow, ChildHeader;
    ForeignParts(l, m, plan.child);
    if plan.child in l.pubs { MarkOf(l, plan); }
    ChildUntouched(l, m, plan, {plan.child});
  }

  lemma SwitchedMark(l: Ledger, plan: Plan)
    requires plan.child in l.pubs && MarkedFor(l.pubs[plan.child].evidence, plan)
    ensures MarkedFor(Switched(l, plan).pubs[plan.child].evidence, plan)
  {
  }

  lemma SwitchKeepsChild(l: Ledger, plan: Plan)
    requires Sound(l) && FinalizeCommits(l, plan) && ChildHolds(l, plan)
    ensures plan.child in l.pubs && ChildHolds(Switched(l, plan), plan)
  {
    hide Sound, FinalizeCommits, ChildHolds, DdlStep, Own, Tombs, MarkedFor, HeadWindow, ChildHeader, SwitchTo, SameHeader, CountGates;
    CommittingChild(l, plan);
    SwitchIsDdlStep(l, plan);
    SwitchedChild(l, plan.child, Validation(plan));
    MarkOf(l, plan);
    SwitchedMark(l, plan);
    ChildUntouched(l, Switched(l, plan), plan, {});
  }

  lemma NewHeader(l: Ledger, m: Ledger, plan: Plan)
    requires Sound(l) && DdlStep(l, m, {}) && HeadWindow(l, plan) && plan.child in m.pubs
    requires m.pubs[plan.child].parent == Some(plan.head) && m.pubs[plan.child].config.Dual?
    requires MarkedFor(m.pubs[plan.child].evidence, plan)
    requires forall s: Surface :: |Served(l, s, plan.head)| == plan.counts.Of(s)
    requires Tombs(m, Returns, plan.child) == {}
    ensures ChildHeader(m, plan)
  {
    hide Sound, DdlStep, HeadWindow, Tombs, Served, MarkedFor;
    HeadFrozen(l, m, plan, {});
  }

  lemma PrepareKeepsChild(l: Ledger, plan: Plan)
    requires Sound(l) && PrepareAllowed(l, plan) && ChildHolds(l, plan)
    ensures plan.head in l.pubs && ChildHolds(Prepare(l, plan), plan)
  {
    hide Sound, PrepareAllowed, Prepare, DdlStep, Own, Tombs, Served, MarkedFor, HeadWindow, ChildHeader, ChildPublication, CopiedWhole;
    PreparedParts(l, plan);
    PrepareIsDdlStep(l, plan);
    PrepareTables(l, plan);
    var m := Prepare(l, plan);
    if plan.child in l.pubs {
      MarkOf(l, plan);
      ChildUntouched(l, m, plan, {});
    } else {
      NoRowsYet(l, plan.child);
      NewHeader(l, m, plan);
      forall s: Surface ensures CopiedWhole(m, plan, s) {
        assert Own(m, s, plan.child) == map[];
        NoneIsWhole(m, plan, s);
      }
    }
  }

  lemma NoneIsWhole(l: Ledger, plan: Plan, s: Surface)
    requires Own(l, s, plan.child) == map[]
    ensures CopiedWhole(l, plan, s)
  {
  }

  /** Inserting the repaired rows where they are missing leaves all or none of them. */
  lemma CopyIsWhole(l: Ledger, plan: Plan, s: Surface)
    requires CopiedWhole(l, plan, s) && l.pointer == Some(plan.head)
    ensures CopiedRows(l, plan, s) == map[] || CopiedRows(l, plan, s) == Expected(l, plan, s)
  {
    hide RepairedRows, Served, Own;
  }

  lemma CopyKeepsChild(l: Ledger, plan: Plan, s: Surface)
    requires Sound(l) && CopyAllowed(l, plan, s) && ChildHolds(l, plan)
    ensures ChildHolds(Copy(l, plan, s), plan)
  {
    hide Sound, CopyAllowed, DdlStep, Own, Tombs, HeadWindow, ChildHeader, MarkedFor, Expected, CopiedRows, WithFacts;
    CopyParts(l, plan, s);
    CopyIsDdlStep(l, plan, s);
    var rows := CopiedRows(l, plan, s);
    var m := Copy(l, plan, s);
    GrownRows(l, Slot(s, plan.child), rows);
    MarkOf(l, plan);
    HeaderKept(l, m, plan, {});
    assert CopiedWhole(l, plan, s);
    CopyIsWhole(l, plan, s);
    forall t: Surface ensures CopiedWhole(m, plan, t) {
      assert CopiedWhole(l, plan, t);
    }
  }

  lemma StepKeeps(l: Ledger, m: Ledger, plan: Plan)
    requires Sound(l) && ChildHolds(l, plan) && Step(l, m, plan)
    ensures Sound(m) && ChildHolds(m, plan)
  {
    hide DdlStep, Sound, ChildHolds, PrepareAllowed, Prepare, CopyAllowed, Copy, FinalizeCommits, Switched;
    StepIsDdlStep(l, m, plan);
    var mine :| DdlStep(l, m, mine);
    DdlStepKeepsSound(l, m, mine);
    if m == l {
    } else if plan.head in l.pubs && PrepareAllowed(l, plan) && m == Prepare(l, plan) {
      PrepareKeepsChild(l, plan);
    } else if s: Surface :| CopyAllowed(l, plan, s) && m == Copy(l, plan, s) {
      CopyKeepsChild(l, plan, s);
    } else if plan.child in l.pubs && FinalizeCommits(l, plan) && m == Switched(l, plan) {
      SwitchKeepsChild(l, plan);
    } else {
      ForeignKeepsChild(l, m, plan);
    }
  }

  ghost predicate Run(states: seq<Ledger>, plan: Plan) {
    && states != [] && Sound(states[0]) && plan.child !in states[0].pubs
    && forall i :: 0 <= i < |states| - 1 ==> Step(states[i], states[i + 1], plan)
  }

  lemma {:induction false} RunKeeps(states: seq<Ledger>, plan: Plan, i: nat)
    requires Run(states, plan) && i < |states|
    ensures Sound(states[i]) && ChildHolds(states[i], plan)
    decreases i
  {
    hide Sound, Step;
    if i > 0 {
      RunKeeps(states, plan, i - 1);
      StepKeeps(states[i - 1], states[i], plan);
    } else {
      hide ChildHeader, CopiedWhole;
    }
  }
}
