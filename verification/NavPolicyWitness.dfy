/** A run from the empty database into the window between a publication's recount
    and its commit: the exception to "a foreign row ends publication" is reached. */
module NavPolicyWitness {
  import opened Prelude
  import opened NavPolicy
  import opened NavPolicyRuns
  import opened NavPolicyOutcome

  const V: Version := 0
  const OWN_KEY := EvidenceKey("fund", 1, 1)
  const FOREIGN_KEY := EvidenceKey("fund", 2, 2)
  const DOCUMENT: Document := map[OWN_KEY := "daily"]
  const IDENTITY := Identity("artifact", DOCUMENT, "audit", "dossier", "manifest", "capture")
  const OP := Operation(Target(V, "hash"), IDENTITY, "plan", None, None, Some("hash"))
  const ROW := Fact("daily", 0)
  const OWN: Partition := map[OWN_KEY := ROW]
  const RECEIPT := Receipt(V, "hash", IDENTITY, "plan", 0, OWN)

  const EMPTY := Database(map[], None, map[], [], 0, {})
  /** Another writer has inserted the version, unpublished. */
  const READY := EMPTY.(versions := map[V := VersionRow("hash", false)])
  /** The server has handed out the identity of the transaction's row. */
  const NUMBERED := READY.(nextId := 1)

  const START := Begun(OP, false)
  const INSERTED := START.(phase := RowsInserted, own := OWN, changed := true)
  const PUBLISHED := INSERTED.(phase := Published, publishes := true)
  const POINTED := PUBLISHED.(phase := Pointed, pointer := Some(Pointer(V, 0)))
  const STAMPED := POINTED.(phase := Stamped, receipt := Some(RECEIPT))
  const RECOUNTED := STAMPED.(phase := Recounted)

  function Opened(t: Transaction): State { State(READY, Some(t)) }
  function Writing(t: Transaction): State { State(NUMBERED, Some(t)) }

  const STATES: seq<State> := [
    State(EMPTY, None), State(READY, None), Opened(START), Opened(START.(phase := PointerRead)), Opened(START.(phase := Baselined)),
    Opened(START.(phase := Current)), Opened(START.(phase := PlanUnused)), Opened(START.(phase := VersionReady)),
    Opened(START.(phase := NoConflict)), Writing(INSERTED), Writing(PUBLISHED), Writing(POINTED), Writing(STAMPED), Writing(RECOUNTED)]

  const EVENTS: seq<Event> := [
    Insert(V, "hash"), Begin(OP, false), Execute, Execute, Execute, Execute, Execute, Execute, Execute, Execute, Execute, Execute, Execute]

  lemma Opens()
    ensures Step(STATES[0], EVENTS[0], STATES[1]) && Step(STATES[1], EVENTS[1], STATES[2])
  {
    assert READY.versions == EMPTY.versions[V := VersionRow("hash", false)];
  }

  lemma Checks(i: nat)
    requires 2 <= i < 8
    ensures Step(STATES[i], EVENTS[i], STATES[i + 1])
  {
    var t, t' := STATES[i].txn.value, STATES[i + 1].txn.value;
    assert PointerTarget(READY) == None && PartitionOf(READY, V) == map[] && HashOf(READY, V) == Some("hash");
    if i == 2 { assert ReadsPointer(READY, t, t'); }
    if i == 3 { assert TakesBaseline(READY, t, t'); }
    if i == 4 { assert ChecksBefore(READY, t, t'); }
    if i == 5 { assert ChecksPlan(READY, t, t'); }
    if i == 6 { assert WritesVersion(READY, t, t'); }
    if i == 7 { assert ChecksEvidence(READY, t, t'); }
    assert STATES[i].db == READY && STATES[i + 1].db == READY.(nextId := READY.nextId);
  }

  lemma Inserts()
    ensures Step(STATES[8], EVENTS[8], STATES[9])
  {
    assert PartitionOf(READY, V) == map[];
    assert OWN.Keys == {OWN_KEY} && DOCUMENT.Keys == {OWN_KEY} && PartitionOf(READY, V).Keys == {};
    assert OWN.Keys == DOCUMENT.Keys - PartitionOf(READY, V).Keys;
    assert MissingRows(READY, DOCUMENT, PartitionOf(READY, V), OWN, 1);
    assert OWN_KEY in OWN;
    assert InsertsRows(READY, START.(phase := NoConflict), INSERTED, 1);
    assert NUMBERED == READY.(nextId := 1);
  }

  lemma NumberedPartition()
    ensures PartitionOf(NUMBERED, V) == map[] && PartitionOf(NUMBERED, V) + OWN == OWN && |OWN| == 1
    ensures StampOf(NUMBERED) == 0 && NUMBERED == NUMBERED.(nextId := NUMBERED.nextId)
  {
  }

  lemma WritesPublication()
    ensures Statement(NUMBERED, INSERTED, NUMBERED, PUBLISHED)
  {
    NumberedPartition();
    assert Publishes(NUMBERED, INSERTED, PUBLISHED);
  }

  lemma WritesPointer()
    ensures Statement(NUMBERED, PUBLISHED, NUMBERED, POINTED)
  {
    NumberedPartition();
    assert MovesPointer(NUMBERED, PUBLISHED, POINTED);
  }

  lemma WritesReceipt()
    ensures Statement(NUMBERED, POINTED, NUMBERED, STAMPED)
  {
    NumberedPartition();
    hide PartitionOf;
    assert ReceiptAdmitted(NUMBERED, POINTED, RECEIPT);
    assert StampsReceipt(NUMBERED, POINTED, STAMPED);
  }

  lemma CountsAgain()
    ensures Statement(NUMBERED, STAMPED, NUMBERED, RECOUNTED)
  {
    NumberedPartition();
    hide PartitionOf;
    assert Recounts(NUMBERED, STAMPED, RECOUNTED);
  }

  lemma Writes(i: nat)
    requires 9 <= i < 13
    ensures Step(STATES[i], EVENTS[i], STATES[i + 1])
  {
    hide Statement;
    WritesPublication();
    WritesPointer();
    WritesReceipt();
    CountsAgain();
  }

  /** From nothing to a recounted publication of a version that was there before. */
  lemma ReachesRecount()
    ensures Run(STATES, EVENTS) && STATES[13] == Writing(RECOUNTED)
  {
    Opens();
    forall i: nat | i < |EVENTS| ensures Step(STATES[i], EVENTS[i], STATES[i + 1]) {
      if 2 <= i < 8 { Checks(i); } else if i == 8 { Inserts(); } else if 9 <= i { Writes(i); }
    }
  }

  lemma RunExtends(states: seq<State>, events: seq<Event>, e: Event, s: State)
    requires Run(states, events) && Step(states[|events|], e, s)
    ensures Run(states + [s], events + [e])
  {
    hide Step;
    var more, all := states + [s], events + [e];
    assert more[0] == states[0];
    forall i | 0 <= i < |all| ensures Step(more[i], all[i], more[i + 1]) {
      if i < |events| { assert more[i] == states[i] && more[i + 1] == states[i + 1] && all[i] == events[i]; }
    }
  }

  lemma Last()
    ensures STATES[13].db.receipts == [] && STATES[13].txn == Some(RECOUNTED)
    ensures PartitionOf(STATES[13].db, V) == map[] && FOREIGN_KEY !in OWN
    ensures |STATES| == 14 && |EVENTS| == 13 && STATES[0] == State(EMPTY, None)
  {
  }

  /** The run goes on: a foreign row lands in the recounted version, the publication
      commits beside it, and its receipt leaves the row out. */
  lemma WindowIsReached() returns (states: seq<State>, events: seq<Event>)
    ensures Run(states, events) && |states| == 16 && states[0] == State(EMPTY, None)
    ensures events[13].Append? && events[13].v == V && events[14] == Commit
    ensures var last := states[15].db;
      && ForeignIn(last, V) && |last.receipts| == 1 && last.receipts[0].version == V
      && FOREIGN_KEY in PartitionOf(last, V) && FOREIGN_KEY !in last.receipts[0].certified
  {
    ReachesRecount();
    RunSettles(STATES, EVENTS, 13);
    Last();
    hide Run, Step, Holds, Settled, ForeignIn, PartitionOf, STATES, EVENTS;
    var landed, committed := RecountWindow(STATES[13], FOREIGN_KEY, "weekly");
    RunExtends(STATES, EVENTS, Append(V, FOREIGN_KEY, "weekly"), landed);
    RunExtends(STATES + [landed], EVENTS + [Append(V, FOREIGN_KEY, "weekly")], Commit, committed);
    states := STATES + [landed] + [committed];
    events := EVENTS + [Append(V, FOREIGN_KEY, "weekly")] + [Commit];
  }
}
