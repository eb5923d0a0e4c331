/** The four emitted tail-repair transactions, statement by statement. */
module TailRepairDb {
  import opened Prelude
  import opened Panel
  import opened ImmutableBatch
  import opened MonthGates
  import opened LedgerSteps
  import opened TailRepair
  import opened PanelDb

  /** What the insert's `WHERE EXISTS` lets it propose: nothing for a validated child. */
  function Proposed(l: Ledger, plan: Plan, rows: map<Key, Row>): map<Key, Row> {
    if plan.child in l.pubs && l.pubs[plan.child].status.Prepared? then rows else map[]
  }

  lemma ProposedIsLoaded(l: Ledger, plan: Plan, start: nat, limit: nat)
    requires start < |plan.tail|
    ensures InsertMissing(Own(l, Returns, plan.child), Proposed(l, plan, RowsOf(Slice(plan, start, limit)))) == LoadedRows(l, plan, start, limit)
  {
    hide Own, RowsOf;
    InsertMissingIsUnion(Own(l, Returns, plan.child), Proposed(l, plan, RowsOf(Slice(plan, start, limit))));
  }

  /** An open child takes the proposed rows iff none is tombstoned; a validated one is offered none. */
  lemma ProposedEnters(l: Ledger, plan: Plan, start: nat, limit: nat)
    requires start < |plan.tail|
    requires PreparedCurrent(l, plan) || ValidatedTerminal(l, plan, EndOf(plan, start, limit))
    ensures var rows, proposed := RowsOf(Slice(plan, start, limit)), Proposed(l, plan, RowsOf(Slice(plan, start, limit)));
      (proposed == map[] || (plan.child in l.pubs && l.pubs[plan.child].status.Prepared? && proposed.Keys !! Tombs(l, Returns, plan.child)))
      <==> (PreparedCurrent(l, plan) ==> rows.Keys !! Tombs(l, Returns, plan.child))
  {
    hide RowsOf, Tombs;
  }

  lemma ProposedIsCopied(l: Ledger, plan: Plan, s: Surface)
    ensures InsertMissing(Own(l, s, plan.child), Proposed(l, plan, Historical(l, plan, s))) == CopiedRows(l, plan, s)
  {
    hide Own;
  }

  /** The attestation's insert under its two unique keys, and the check that it is there. */
  method Attest(db: Database, p: Id, start: nat, end: nat, inserts: bool) returns (ok: bool)
    modifies db`attested
    ensures ok <==> AttestationAdmitted(Attested(old(db.State()), p), start, end, inserts)
    ensures ok ==> db.attested == old(db.attested)[p :=
      if start in Attested(old(db.State()), p) then Attested(old(db.State()), p) else Attested(old(db.State()), p)[start := end]]
  {
    var att: map<nat, nat> := Attested(db.State(), p);
    if inserts && start !in att {
      if exists c :: c in att && att[c] == end { return false; }
      att := att[start := end];
    }
    db.attested := db.attested[p := att];
    ok := start in att && att[start] == end;
  }

  /** Order check, staged conflict checks, insert, final count, attestation: the
      batch commits exactly when it is allowed, and otherwise leaves no trace. */
  method BatchTransaction(db: Database, plan: Plan, start: nat, limit: nat) returns (committed: bool)
    modifies db
    ensures committed <==> start < |plan.tail| && BatchAllowed(old(db.State()), plan, start, limit)
    ensures db.State() == if committed then Batch(old(db.State()), plan, start, limit) else old(db.State())
  {
    hide Own, Tombs, RowsOf, StagedAgree, TargetAgrees, InsertMissing, AttestationAdmitted, Slice, EndOf, Historical, PreparedCurrent, ValidatedTerminal, Proposed;
    var l := db.State();
    if limit == 0 || start >= |plan.tail| { return false; }
    var end, own, base := EndOf(plan, start, limit), Own(l, Returns, plan.child), |Historical(l, plan, Returns)|;
    var rows := Slice(plan, start, limit);
    if !PreparedCurrent(l, plan) && !ValidatedTerminal(l, plan, end) { return false; }
    if start > 0 && !(exists c :: c in Attested(l, plan.child) && Attested(l, plan.child)[c] == start) { return false; }
    if |own| != base + start && |own| != base + end { return false; }
    if !StagedAgree(rows) || !TargetAgrees(own, rows) { return false; }
    ProposedIsLoaded(l, plan, start, limit);
    ProposedEnters(l, plan, start, limit);
    var inserted := db.InsertRows(Slot(Returns, plan.child), Proposed(l, plan, RowsOf(rows)));
    if !inserted { db.Restore(l); return false; }
    var loaded := db.facts[Slot(Returns, plan.child)];
    if |loaded| != base + end { db.Restore(l); return false; }
    committed := Attest(db, plan.child, start, end, PreparedCurrent(l, plan));
    if !committed { db.Restore(l); }
  }

  lemma MadeIsSame(plan: Plan)
    ensures SameHeader(ChildPublication(plan), plan) && ChildPublication(plan).declared == plan.counts
  {
  }

  method PrepareTransaction(db: Database, plan: Plan) returns (committed: bool)
    modifies db
    ensures committed <==> PrepareAllowed(old(db.State()), plan)
    ensures db.State() == if committed then Prepare(old(db.State()), plan) else old(db.State())
  {
    hide SameHeader, ChildPublication;
    var l := db.State();
    if plan.child !in l.pubs {
      committed := (forall p :: p in l.pubs ==> l.pubs[p].fingerprint != plan.fingerprint)
        && (forall s: Surface :: plan.counts.Of(s) > 0) && plan.first <= plan.lastClosed;
      if !committed { return; }
    }
    MadeIsSame(plan);
    db.InsertPublication(plan.child, ChildPublication(plan));
    committed := SameHeader(db.pubs[plan.child], plan) && db.pubs[plan.child].declared == plan.counts;
    if !committed { db.Restore(l); }
  }

  /** Source check, conflict check, insert, count: the old root's rows arrive unchanged. */
  method CopyTransaction(db: Database, plan: Plan, s: Surface) returns (committed: bool)
    modifies db
    ensures committed <==> CopyAllowed(old(db.State()), plan, s)
    ensures db.State() == if committed then Copy(old(db.State()), plan, s) else old(db.State())
  {
    hide CopyOrder, Own, Tombs, CopiedRange, CopiedRows, InsertMissing;
    var l := db.State();
    if !CopyOrder(l, plan) { return false; }
    ChildExists(l, plan);
    var own, source := Own(l, s, plan.child), Historical(l, plan, s);
    if exists k :: k in source && k in own && own[k] != source[k] { return false; }
    ProposedIsCopied(l, plan, s);
    var inserted := db.InsertRows(Slot(s, plan.child), Proposed(l, plan, source));
    if !inserted { db.Restore(l); return false; }
    var rows := db.facts[Slot(s, plan.child)];
    committed := |CopiedRange(rows, source, s)| == |source|;
    if !committed { db.Restore(l); }
  }

  lemma ChildExists(l: Ledger, plan: Plan)
    requires CopyOrder(l, plan)
    ensures plan.child in l.pubs
  {
  }

  lemma Uncovered(l: Ledger, plan: Plan, m: Date)
    requires m in MonthSeries(plan.returnsFirst, plan.lastClosed) && m !in Months(Own(l, Returns, plan.child))
    ensures !ContiguousReturns(l, plan)
  {
    hide Own, Months, MonthSeries;
  }

  /** Every month of the series is looked up in the child's returns. */
  method ReturnsCovered(l: Ledger, plan: Plan) returns (ok: bool)
    requires FirstOfMonth(plan.returnsFirst)
    ensures ok <==> ContiguousReturns(l, plan)
  {
    var months := Months(Own(l, Returns, plan.child));
    var series := MonthStarts(plan.returnsFirst, plan.lastClosed);
    for i := 0 to |series|
      invariant forall k :: 0 <= k < i ==> series[k] in months
    {
      if series[i] !in months {
        Uncovered(l, plan, series[i]);
        return false;
      }
    }
    return true;
  }

  /** Gates, transition and compare-and-swap: the pointer leaves the old root only for a
      child with every declared row, every month and a terminal attestation. */
  method FinalizeTransaction(db: Database, plan: Plan) returns (committed: bool)
    requires FirstOfMonth(plan.returnsFirst)
    modifies db
    ensures committed <==> FinalizeCommits(old(db.State()), plan)
    ensures db.State() == if committed then Switched(old(db.State()), plan) else old(db.State())
  {
    hide SameHeader, Own, ContiguousReturns, TerminalAttested, LegacyRoot, PointerAdmits;
    var l := db.State();
    if plan.child !in l.pubs || !SameHeader(l.pubs[plan.child], plan) { return false; }
    if exists s: Surface :: |Own(l, s, plan.child)| != plan.counts.Of(s) { return false; }
    var covered := ReturnsCovered(l, plan);
    if !covered || !TerminalAttested(l, plan) { return false; }
    db.Validate(plan.child, Validation(plan));
    if !LegacyRoot(l, plan.source) { db.Restore(l); return false; }
    if db.pointer == Some(plan.source) && l.pointer != Some(plan.child) && !PointerAdmits(l, plan) { db.Restore(l); return false; }
    var updated := db.CompareAndSwap(plan.source, plan.child);
    committed := updated || db.pointer == Some(plan.child);
    if !committed { db.Restore(l); }
  }
}
