/** The database the emitted transactions run against: the ledger's tables as
    fields that a transaction updates statement by statement, and restores when
    it is refused. */
module PanelDb {
  import opened Prelude
  import opened Panel

  class Database {
    var pubs: map<Id, Publication>
    var pointer: Option<Id>
    var facts: map<Slot, map<Key, Row>>
    var tombs: map<Id, set<Key>>
    var attested: map<Id, map<nat, nat>>

    constructor ()
      ensures State() == Ledger(map[], None, map[], map[], map[])
    {
      pubs, pointer, facts, tombs, attested := map[], None, map[], map[], map[];
    }

    function State(): Ledger
      reads this
    {
      Ledger(pubs, pointer, facts, tombs, attested)
    }

    /** `ROLLBACK`: every statement of the transaction is undone. */
    method Restore(l: Ledger)
      modifies this
      ensures State() == l
    {
      pubs, pointer, facts, tombs, attested := l.pubs, l.pointer, l.facts, l.tombs, l.attested;
    }

    /** `INSERT ... ON CONFLICT (publication_id) DO NOTHING`. */
    method InsertPublication(p: Id, row: Publication)
      modifies this`pubs
      ensures pubs == if p in old(pubs) then old(pubs) else old(pubs)[p := row]
    {
      if p !in pubs { pubs := pubs[p := row]; }
    }

    /** The child's tombstones, one insert at a time, under the tombstone trigger. */
    method InsertTombstones(p: Id, keys: seq<Key>) returns (ok: bool)
      modifies this`tombs
      ensures ok <==> (keys == [] || ((p in pubs && pubs[p].status.Prepared?) && Own(old(State()), Returns, p).Keys !! (set k | k in keys)))
      ensures ok ==> tombs == old(tombs)[p := Tombs(old(State()), Returns, p) + (set k | k in keys)]
    {
      ghost var was := tombs;
      var inserted := Tombs(State(), Returns, p);
      var i := 0;
      ok := true;
      while i < |keys|
        invariant 0 <= i <= |keys| && ok && tombs == was
        invariant inserted == Tombs(old(State()), Returns, p) + (set k | k in keys[..i])
        invariant i > 0 ==> p in pubs && pubs[p].status.Prepared? && Own(State(), Returns, p).Keys !! (set k | k in keys[..i])
      {
        if p !in pubs || !pubs[p].status.Prepared? || keys[i] in Own(State(), Returns, p) {
          assert keys[i] in (set k | k in keys);
          return false;
        }
        inserted := inserted + {keys[i]};
        assert keys[..i + 1] == keys[..i] + [keys[i]];
        i := i + 1;
      }
      assert keys[..i] == keys;
      tombs := tombs[p := inserted];
    }

    /** `INSERT ... ON CONFLICT (publication_id, month, cusip_id) DO NOTHING`, row by row: the
        fact trigger fires for every proposed row, also for one that is already there. */
    method InsertRows(slot: Slot, rows: map<Key, Row>) returns (ok: bool)
      modifies this`facts
      ensures ok <==> rows == map[] || (slot.pub in pubs && pubs[slot.pub].status.Prepared? && rows.Keys !! Tombs(old(State()), slot.surface, slot.pub))
      ensures ok ==> facts == old(facts)[slot := InsertMissing(Own(old(State()), slot.surface, slot.pub), rows)]
    {
      hide Own, Tombs;
      var own, refused := Own(State(), slot.surface, slot.pub), Tombs(State(), slot.surface, slot.pub);
      var table, left := own, rows.Keys;
      while left != {}
        invariant left <= rows.Keys
        invariant table.Keys == own.Keys + (rows.Keys - left)
        invariant forall k :: k in table ==> table[k] == if k in own then own[k] else rows[k]
        invariant left < rows.Keys ==> slot.pub in pubs && pubs[slot.pub].status.Prepared?
        invariant (rows.Keys - left) !! refused
        decreases left
      {
        var k :| k in left;
        if slot.pub !in pubs || !pubs[slot.pub].status.Prepared? || k in refused {
          assert k in rows;
          return false;
        }
        if k !in table { table := table[k := rows[k]]; }
        left := left - {k};
      }
      assert table == InsertMissing(own, rows);
      facts := facts[slot := table];
      return true;
    }

    /** The status transition: no row is updated unless the publication is prepared. */
    method Validate(p: Id, evidence: Doc)
      requires p in pubs
      modifies this`pubs
      ensures pubs == old(pubs)[p := if old(pubs)[p].status.Prepared? then old(pubs)[p].(status := Validated, evidence := old(pubs)[p].evidence + evidence) else old(pubs)[p]]
    {
      if pubs[p].status.Prepared? {
        pubs := pubs[p := pubs[p].(status := Validated, evidence := pubs[p].evidence + evidence)];
      } else {
        assert pubs == pubs[p := pubs[p]];
      }
    }

    /** `UPDATE ... SET publication_id = to WHERE publication_id = from`. */
    method CompareAndSwap(expected: Id, to: Id) returns (updated: bool)
      modifies this`pointer
      ensures updated == (old(pointer) == Some(expected))
      ensures pointer == if updated then Some(to) else old(pointer)
    {
      updated := pointer == Some(expected);
      if updated { pointer := Some(to); }
    }
  }
}
