/** The steps the repair transactions are made of, as the schema's triggers see
    them: adding a prepared child, growing one of its tables, switching to it. */
module LedgerSteps {
  import opened Prelude
  import opened Panel

  function WithFacts(l: Ledger, slot: Slot, rows: map<Key, Row>): Ledger { l.(facts := l.facts[slot := rows]) }

  ghost predicate SameTombs(l: Ledger, m: Ledger) { forall p :: Tombs(m, Returns, p) == Tombs(l, Returns, p) }

  ghost predicate SameRows(l: Ledger, m: Ledger) { forall s, p :: Own(m, s, p) == Own(l, s, p) }

  lemma SamePubs(pubs: map<Id, Publication>, mine: set<Id>)
    ensures PubsStep(pubs, pubs, mine)
  {
  }

  lemma SameRowsIsFactsStep(l: Ledger, m: Ledger)
    requires SameRows(l, m) && SameTombs(l, m)
    ensures FactsStep(l, m, {})
  {
  }

  lemma SameRowsIsSound(l: Ledger, m: Ledger)
    requires FactsSound(l) && SameRows(l, m) && SameTombs(l, m)
    requires l.pubs.Keys <= m.pubs.Keys && (forall slot :: slot in m.facts ==> slot.pub in m.pubs)
    requires forall p :: p in m.tombs ==> p in m.pubs
    ensures FactsSound(m)
  {
    hide Own, Tombs;
  }

  lemma GrownRows(l: Ledger, slot: Slot, rows: map<Key, Row>)
    ensures WithFacts(l, slot, rows).pubs == l.pubs
    ensures SameTombs(l, WithFacts(l, slot, rows))
    ensures forall s, p :: Own(WithFacts(l, slot, rows), s, p) == if Slot(s, p) == slot then rows else Own(l, s, p)
  {
  }

  lemma GrownIsFactsStep(l: Ledger, slot: Slot, rows: map<Key, Row>)
    requires slot.pub in l.pubs && l.pubs[slot.pub].status.Prepared?
    requires forall k :: k in Own(l, slot.surface, slot.pub) ==> k in rows && rows[k] == Own(l, slot.surface, slot.pub)[k]
    ensures FactsStep(l, WithFacts(l, slot, rows), {})
  {
    GrownRows(l, slot, rows);
    hide Own, Tombs, WithFacts;
    var m := WithFacts(l, slot, rows);
    forall s, p ensures Grows(l, p, {}, Own(l, s, p), Own(m, s, p)) {}
  }

  lemma GrownIsSound(l: Ledger, slot: Slot, rows: map<Key, Row>)
    requires FactsSound(l) && slot.pub in l.pubs
    requires rows.Keys !! Tombs(l, slot.surface, slot.pub)
    ensures FactsSound(WithFacts(l, slot, rows))
  {
    GrownRows(l, slot, rows);
    hide Own, Tombs;
  }

  /** Only the rows of one prepared publication grow. */
  lemma AddingRowsIsDdlStep(l: Ledger, slot: Slot, rows: map<Key, Row>)
    requires Sound(l)
    requires slot.pub in l.pubs && l.pubs[slot.pub].status.Prepared?
    requires forall k :: k in Own(l, slot.surface, slot.pub) ==> k in rows && rows[k] == Own(l, slot.surface, slot.pub)[k]
    requires rows.Keys !! Tombs(l, slot.surface, slot.pub)
    ensures DdlStep(l, WithFacts(l, slot, rows), {})
  {
    SamePubs(l.pubs, {});
    GrownIsFactsStep(l, slot, rows);
    GrownIsSound(l, slot, rows);
    hide PubsStep, FactsStep, FactsSound, Own, Tombs;
  }

  lemma SameFactsIsDdlStep(l: Ledger, slot: Slot)
    requires Sound(l) && slot.pub in l.pubs
    ensures DdlStep(l, WithFacts(l, slot, Own(l, slot.surface, slot.pub)), {})
  {
    var m := WithFacts(l, slot, Own(l, slot.surface, slot.pub));
    SamePubs(l.pubs, {});
    GrownRows(l, slot, Own(l, slot.surface, slot.pub));
    assert SameRows(l, m);
    SameRowsIsFactsStep(l, m);
    SameRowsIsSound(l, m);
    hide PubsStep, FactsStep, FactsSound, Own, Tombs;
  }

  ghost predicate AddsChild(l: Ledger, m: Ledger, child: Id, dropped: set<Key>) {
    && m.facts == l.facts && m.attested == l.attested && m.pointer == l.pointer
    && m.tombs == l.tombs[child := Tombs(l, Returns, child) + dropped]
    && child in m.pubs && m.pubs == l.pubs[child := m.pubs[child]]
    && (child in l.pubs ==> m.pubs == l.pubs && l.pubs[child].status.Prepared?)
    && (child !in l.pubs ==> ParentValidated(l.pubs, m.pubs[child]))
  }

  lemma AddedFacts(l: Ledger, m: Ledger, child: Id, dropped: set<Key>)
    requires AddsChild(l, m, child, dropped)
    ensures SameRows(l, m)
    ensures forall p :: Tombs(m, Returns, p) == if p == child then Tombs(l, Returns, p) + dropped else Tombs(l, Returns, p)
  {
  }

  lemma AddedIsSound(l: Ledger, m: Ledger, child: Id, dropped: set<Key>)
    requires FactsSound(l) && AddsChild(l, m, child, dropped)
    requires Own(l, Returns, child).Keys !! dropped
    ensures FactsSound(m)
  {
    AddedFacts(l, m, child, dropped);
    hide Own, Tombs;
  }

  /** Adding a publication under a validated parent, and tombstones for it. */
  lemma AddingChildIsDdlStep(l: Ledger, m: Ledger, child: Id, dropped: set<Key>)
    requires Sound(l) && AddsChild(l, m, child, dropped)
    requires Own(l, Returns, child).Keys !! dropped
    ensures DdlStep(l, m, {})
  {
    hide FactsStep, FactsSound, Own, Tombs, PubsStep;
    AddedIsSound(l, m, child, dropped);
    AddedIsFactsStep(l, m, child, dropped);
    AddedIsPubsStep(l.pubs, m.pubs, child);
  }

  lemma AddedIsPubsStep(pubs: map<Id, Publication>, pubs': map<Id, Publication>, child: Id)
    requires child in pubs' && pubs' == pubs[child := pubs'[child]]
    requires child in pubs ==> pubs' == pubs
    requires child !in pubs ==> ParentValidated(pubs, pubs'[child])
    ensures PubsStep(pubs, pubs', {})
  {
  }

  lemma AddedIsFactsStep(l: Ledger, m: Ledger, child: Id, dropped: set<Key>)
    requires AddsChild(l, m, child, dropped)
    ensures FactsStep(l, m, {})
  {
    AddedFacts(l, m, child, dropped);
    hide Own, Tombs;
  }

  lemma NothingIsDdlStep(l: Ledger)
    requires Sound(l)
    ensures DdlStep(l, l, {})
  {
    SamePubs(l.pubs, {});
    SameRowsIsFactsStep(l, l);
    hide PubsStep, FactsStep, FactsSound;
  }

  lemma Evolved(l: Ledger, m: Ledger, mine: set<Id>, p: Id)
    requires DdlStep(l, m, mine) && p in l.pubs
    ensures p in m.pubs && Evolves(l.pubs[p], m.pubs[p])
  {
    hide FactsStep, FactsSound, Attested;
  }

  lemma NoRowsYet(l: Ledger, child: Id)
    requires Sound(l) && child !in l.pubs
    ensures Tombs(l, Returns, child) == {} && forall s :: Own(l, s, child) == map[]
  {
  }

  /** The transition to validated and the pointer switch of a finalize. */
  function SwitchTo(l: Ledger, child: Id, evidence: Doc): Ledger
    requires child in l.pubs
  {
    var c := l.pubs[child];
    var c' := if c.status.Prepared? then c.(status := Validated, evidence := c.evidence + evidence) else c;
    l.(pubs := l.pubs[child := c'], pointer := Some(child))
  }

  lemma SwitchedChild(l: Ledger, child: Id, evidence: Doc)
    requires child in l.pubs
    ensures var m := SwitchTo(l, child, evidence);
      && child in m.pubs && m.pubs[child].config == l.pubs[child].config && m.pubs[child].parent == l.pubs[child].parent
      && (!l.pubs[child].status.Failed? ==> m.pubs[child].status.Validated?)
      && m.pubs[child].declared == l.pubs[child].declared
      && m.facts == l.facts && m.tombs == l.tombs && m.pointer == Some(child)
      && SameRows(l, m) && SameTombs(l, m)
  {
  }

  lemma SwitchingIsDdlStep(l: Ledger, child: Id, evidence: Doc)
    requires Sound(l) && child in l.pubs && !l.pubs[child].status.Failed?
    ensures DdlStep(l, SwitchTo(l, child, evidence), {})
  {
    hide FactsStep, SameRows, SameTombs;
    var m := SwitchTo(l, child, evidence);
    SwitchedChild(l, child, evidence);
    SameRowsIsFactsStep(l, m);
    SameRowsIsSound(l, m);
    hide FactsSound, Own, Tombs;
  }

  lemma OwnIsNotTombed(l: Ledger, s: Surface, p: Id)
    requires Sound(l)
    ensures Own(l, s, p).Keys !! Tombs(l, s, p)
  {
    hide Own;
    forall k | k in Own(l, s, p) ensures k !in Tombs(l, s, p) {
      if s.Returns? { assert k in Own(l, Returns, p); }
    }
  }

  /** Another writer's transaction leaves a publication of ours alone. */
  lemma ForeignParts(l: Ledger, m: Ledger, child: Id)
    requires DdlStep(l, m, {child})
    ensures forall s :: Own(m, s, child) == Own(l, s, child)
    ensures Tombs(m, Returns, child) == Tombs(l, Returns, child) && Attested(m, child) == Attested(l, child)
    ensures (child in m.pubs <==> child in l.pubs) && (child in l.pubs ==> m.pubs[child] == l.pubs[child])
  {
    hide FactsSound, Own, Tombs, Attested;
    forall s ensures Own(m, s, child) == Own(l, s, child) {
      assert Grows(l, child, {child}, Own(l, s, child), Own(m, s, child));
    }
  }

  // -------------------------------------------------- what the triggers let others do

  /** One statement of another writer. */
  datatype Write =
    | AddPublication(p: Id, header: Publication)
    | EndPublication(p: Id, status: Status, evidence: Doc)
    | AddRow(slot: Slot, key: Key, row: Row)
    | Withdraw(p: Id, key: Key)
    | PointTo(p: Id)

  /** What the triggers ask of it, column by column. */
  predicate Admitted(l: Ledger, w: Write) {
    match w
    case AddPublication(p, header) =>
      && p !in l.pubs && (header.parent.Some? ==> header.parent.value in l.pubs && l.pubs[header.parent.value].status == Validated)
    case EndPublication(p, _, _) => p in l.pubs && l.pubs[p].status == Prepared
    case AddRow(slot, key, _) =>
      && slot.pub in l.pubs && l.pubs[slot.pub].status == Prepared && key !in Own(l, slot.surface, slot.pub)
      && (slot.surface.Returns? ==> key !in Tombs(l, Returns, slot.pub))
    case Withdraw(p, key) => p in l.pubs && l.pubs[p].status == Prepared && key !in Own(l, Returns, p)
    case PointTo(p) => p in l.pubs && l.pubs[p].status == Validated
  }

  /** Which publication it writes: none when it only moves the pointer. */
  predicate Writes(w: Write, child: Id) {
    match w
    case AddRow(slot, _, _) => slot.pub == child
    case PointTo(_) => false
    case _ => w.p == child
  }

  function Written(l: Ledger, w: Write): Ledger
    requires w.EndPublication? ==> w.p in l.pubs
  {
    match w
    case AddPublication(p, header) => l.(pubs := l.pubs[p := header])
    case EndPublication(p, status, evidence) => l.(pubs := l.pubs[p := l.pubs[p].(status := status, evidence := evidence)])
    case AddRow(slot, key, row) => l.(facts := l.facts[slot := Own(l, slot.surface, slot.pub)[key := row]])
    case Withdraw(p, key) => l.(tombs := l.tombs[p := Tombs(l, Returns, p) + {key}])
    case PointTo(p) => l.(pointer := Some(p))
  }

  /** A step that leaves a publication alone is one of another writer's for it. */
  lemma LeavesAlone(l: Ledger, m: Ledger, child: Id)
    requires DdlStep(l, m, {}) && Attested(m, child) == Attested(l, child)
    requires (child in m.pubs <==> child in l.pubs) && (child in l.pubs ==> m.pubs[child] == l.pubs[child])
    requires Tombs(m, Returns, child) == Tombs(l, Returns, child) && forall s :: Own(m, s, child) == Own(l, s, child)
    ensures DdlStep(l, m, {child})
  {
    hide FactsSound, Own, Tombs, Attested;
    forall s, p ensures Grows(l, p, {child}, Own(l, s, p), Own(m, s, p)) {
      assert Grows(l, p, {}, Own(l, s, p), Own(m, s, p));
    }
  }

  /** Any statement the triggers admit on other publications, and any move of the pointer
      to a validated one, is a step that the runs of a repair reckon with. */
  lemma OthersMay(l: Ledger, w: Write, child: Id)
    requires Sound(l) && Admitted(l, w) && !Writes(w, child)
    ensures DdlStep(l, Written(l, w), {child})
  {
    hide Sound, DdlStep, Own, Tombs, WithFacts;
    match w
    case AddPublication(p, header) => HeaderIsStep(l, p, header, child);
    case EndPublication(p, status, evidence) => HeaderIsStep(l, p, l.pubs[p].(status := status, evidence := evidence), child);
    case AddRow(slot, key, row) =>
      assert Written(l, w) == WithFacts(l, slot, Own(l, slot.surface, slot.pub)[key := row]) by { SameWrite(l, slot, key, row); }
      RowIsStep(l, slot, key, row, child);
    case Withdraw(p, key) => TombIsStep(l, p, key, child);
    case PointTo(p) => PointIsStep(l, p, child);
  }

  lemma SameWrite(l: Ledger, slot: Slot, key: Key, row: Row)
    ensures Written(l, AddRow(slot, key, row)) == WithFacts(l, slot, Own(l, slot.surface, slot.pub)[key := row])
  {
    hide Own;
  }

  lemma PointIsStep(l: Ledger, p: Id, child: Id)
    requires Sound(l) && p in l.pubs && l.pubs[p].status == Validated
    ensures DdlStep(l, l.(pointer := Some(p)), {child})
  {
    var m := l.(pointer := Some(p));
    SamePubs(l.pubs, {});
    assert SameRows(l, m) && SameTombs(l, m);
    SameRowsIsFactsStep(l, m);
    SameRowsIsSound(l, m);
    hide PubsStep, FactsStep, FactsSound;
    assert DdlStep(l, m, {});
    LeavesAlone(l, m, child);
  }

  lemma HeaderIsStep(l: Ledger, p: Id, header: Publication, child: Id)
    requires Sound(l) && p != child
    requires p !in l.pubs ==> ParentValidated(l.pubs, header)
    requires p in l.pubs ==> l.pubs[p].status == Prepared && header.parent == l.pubs[p].parent
    ensures DdlStep(l, l.(pubs := l.pubs[p := header]), {child})
  {
    var m := l.(pubs := l.pubs[p := header]);
    HeaderPubs(l.pubs, p, header);
    HeaderTables(l, p, header);
    assert m.pointer == l.pointer;
    hide PubsStep, FactsStep, FactsSound, Own, Tombs, Attested, Sound;
    assert DdlStep(l, m, {});
    hide DdlStep;
    LeavesAlone(l, m, child);
  }

  lemma HeaderPubs(pubs: map<Id, Publication>, p: Id, header: Publication)
    requires p !in pubs ==> ParentValidated(pubs, header)
    requires p in pubs ==> pubs[p].status == Prepared && header.parent == pubs[p].parent
    ensures PubsStep(pubs, pubs[p := header], {})
  {
  }

  lemma HeaderTables(l: Ledger, p: Id, header: Publication)
    requires Sound(l)
    ensures var m := l.(pubs := l.pubs[p := header]);
      && FactsStep(l, m, {}) && FactsSound(m)
      && forall s, q :: Own(m, s, q) == Own(l, s, q) && Tombs(m, Returns, q) == Tombs(l, Returns, q) && Attested(m, q) == Attested(l, q)
  {
    var m := l.(pubs := l.pubs[p := header]);
    assert SameRows(l, m) && SameTombs(l, m);
    assert FactsSound(l);
    hide FactsStep, FactsSound, Sound;
    SameRowsIsFactsStep(l, m);
    SoundAgain(l, m);
  }

  lemma SoundAgain(l: Ledger, m: Ledger)
    requires FactsSound(l) && SameRows(l, m) && SameTombs(l, m) && m.facts == l.facts && m.tombs == l.tombs && l.pubs.Keys <= m.pubs.Keys
    ensures FactsSound(m)
  {
    hide Own, Tombs, SameRows, SameTombs;
    SameRowsIsSound(l, m);
  }

  lemma RowIsStep(l: Ledger, slot: Slot, key: Key, row: Row, child: Id)
    requires Sound(l) && slot.pub != child && slot.pub in l.pubs && l.pubs[slot.pub].status.Prepared?
    requires key !in Own(l, slot.surface, slot.pub) && (slot.surface.Returns? ==> key !in Tombs(l, Returns, slot.pub))
    ensures DdlStep(l, WithFacts(l, slot, Own(l, slot.surface, slot.pub)[key := row]), {child})
  {
    hide Sound, DdlStep, Own, Tombs;
    ReturnsOnly(l, slot);
    var rows := Own(l, slot.surface, slot.pub)[key := row];
    OwnIsNotTombed(l, slot.surface, slot.pub);
    AddingRowsIsDdlStep(l, slot, rows);
    GrownRows(l, slot, rows);
    FactsOnly(l, slot, rows, child);
    hide WithFacts;
    LeavesAlone(l, WithFacts(l, slot, rows), child);
  }

  lemma ReturnsOnly(l: Ledger, slot: Slot)
    ensures !slot.surface.Returns? ==> Tombs(l, slot.surface, slot.pub) == {}
  {
  }

  lemma FactsOnly(l: Ledger, slot: Slot, rows: map<Key, Row>, child: Id)
    ensures Attested(WithFacts(l, slot, rows), child) == Attested(l, child)
  {
  }

  lemma TombIsStep(l: Ledger, p: Id, key: Key, child: Id)
    requires Sound(l) && p != child && p in l.pubs && l.pubs[p].status.Prepared? && key !in Own(l, Returns, p)
    ensures DdlStep(l, l.(tombs := l.tombs[p := Tombs(l, Returns, p) + {key}]), {child})
  {
    hide Sound, DdlStep, Own, Tombs;
    var m := l.(tombs := l.tombs[p := Tombs(l, Returns, p) + {key}]);
    assert m.pubs == l.pubs[p := m.pubs[p]];
    AddingChildIsDdlStep(l, m, p, {key});
    AddedFacts(l, m, p, {key});
    LeavesAlone(l, m, child);
  }
}
