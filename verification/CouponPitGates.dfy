/** What the gates of the coupon-PIT transactions amount to: on the served surfaces of a
    commit, and, transaction by transaction, as conditions on columns and key sets, with
    the month loops, counts and full joins of the emitted SQL gone. */
module CouponPitGates {
  import opened Prelude
  import opened Panel
  import opened ImmutableBatch
  import opened MonthGates
  import opened LedgerSteps
  import opened SurfaceRules
  import opened CouponPit
  import opened CouponPitRuns
  import opened CouponPitOutcome

  const JULY_2002: Date := 372 * 2002 + 31 * 6
  const AUGUST_2002: Date := 372 * 2002 + 31 * 7

  // ------------------------------------------------------------------- coverage

  /** The coverage gate of every month together says exactly that. */
  lemma CoverageExactly(l: Ledger, child: Id)
    ensures (forall m :: m in GatedMonths(l, child) ==> CoverageGate(l, child, m))
      <==> SurfacesAgree(Own(l, Snapshot, child), Own(l, RvSignal, child), Own(l, Returns, child), Own(l, RatingPit, child))
  {
    hide Own;
    var snapshot, signal, returned, rating := Own(l, Snapshot, child), Own(l, RvSignal, child), Own(l, Returns, child), Own(l, RatingPit, child);
    if forall m :: m in GatedMonths(l, child) ==> CoverageGate(l, child, m) {
      MonthsAgree(l, child, snapshot, signal, returned, rating);
    }
  }

  lemma MonthsAgree(l: Ledger, child: Id, snapshot: map<Key, Row>, signal: map<Key, Row>, returned: map<Key, Row>, rating: map<Key, Row>)
    requires snapshot == Own(l, Snapshot, child) && signal == Own(l, RvSignal, child)
    requires returned == Own(l, Returns, child) && rating == Own(l, RatingPit, child)
    requires forall m :: m in GatedMonths(l, child) ==> CoverageGate(l, child, m)
    ensures SurfacesAgree(snapshot, signal, returned, rating)
  {
    hide Own;
    forall k | k in snapshot.Keys + signal.Keys + returned.Keys + rating.Keys ensures CoverageGate(l, child, k.month) {
      assert k.month in GatedMonths(l, child);
    }
    hide GatedMonths;
    forall k | k in rating ensures k in snapshot && rating[k].identity == snapshot[k].identity { assert CoverageGate(l, child, k.month); }
    forall k | k in snapshot ensures k in rating { assert CoverageGate(l, child, k.month); }
    forall k | k in signal ensures k in snapshot && snapshot[k].included && signal[k].identity == snapshot[k].identity {
      assert CoverageGate(l, child, k.month);
    }
    forall k | k in returned ensures k in snapshot && returned[k].identity == snapshot[k].identity { assert CoverageGate(l, child, k.month); }
    assert rating.Keys == snapshot.Keys;
  }

  // ------------------------------------------------------------------- the row gate

  /** What a return keeps of the head's row: price and typed exit; after the cutoff all
      its figures; up to it the payload under the plan's marker, and either the figures
      of an unobserved exit or a total that is price plus carry. */
  ghost predicate ReturnKept(plan: Plan, k: Key, now: Row, before: Row) {
    && now.price == before.price && now.exitBasis == before.exitBasis && now.exitReason == before.exitReason
    && (k.month > plan.cutoff ==>
          now.total == before.total && now.carry == before.carry && now.suspect == before.suspect && now.payload == before.payload)
    && (k.month <= plan.cutoff ==>
          && "coupon_pit_repair" in now.payload
          && now.payload["coupon_pit_repair"] == Mark(Marker(plan.contract, plan.head, plan.pins))
          && (forall member :: member in before.payload && member != "coupon_pit_repair" ==>
                member in now.payload && now.payload[member] == before.payload[member])
          && (now.exitBasis != "observed" ==> now.total == before.total && now.carry == before.carry && now.suspect == before.suspect)
          && (now.exitBasis == "observed" ==>
                && now.price.Some? && now.carry.Some?
                && -0.000000000001 <= now.total - now.price.value - now.carry.value <= 0.000000000001
                && (now.suspect <==> now.total > 0.5 || now.total < -0.5)))
  }

  lemma MarkerContained(d: Doc, plan: Plan)
    ensures Contains(d, map[CONTRACT := MarkerOf(plan)])
      <==> ("coupon_pit_repair" in d && d["coupon_pit_repair"] == Mark(Marker(plan.contract, plan.head, plan.pins)))
  {
  }

  lemma RestContained(now: Doc, before: Doc)
    ensures Contains(now, before - {CONTRACT})
      <==> forall member :: member in before && member != "coupon_pit_repair" ==> member in now && now[member] == before[member]
  {
    if Contains(now, before - {CONTRACT}) {
      forall member | member in before && member != "coupon_pit_repair" ensures member in now && now[member] == before[member] {
        assert member in before - {CONTRACT};
      }
    }
  }

  lemma RepriceExactly(plan: Plan, k: Key, now: Row, before: Row)
    requires k.month <= plan.cutoff
    requires now.price == before.price && now.exitBasis == before.exitBasis && now.exitReason == before.exitReason
    ensures RepriceRefused(plan, now, before) <==> !ReturnKept(plan, k, now, before)
  {
    MarkerContained(now.payload, plan);
    RestContained(now.payload, before.payload);
    hide Contains;
  }

  lemma BothSidesExactly(plan: Plan, k: Key, now: Row, before: Row)
    ensures RowRefused(plan, k, Some(now), Some(before)) <==> !ReturnKept(plan, k, now, before)
  {
    if k.month <= plan.cutoff && now.price == before.price && now.exitBasis == before.exitBasis && now.exitReason == before.exitReason {
      RepriceExactly(plan, k, now, before);
    }
    hide RepriceRefused;
  }

  lemma OneSideRefused(plan: Plan, k: Key, side: Row)
    ensures RowRefused(plan, k, Some(side), None) && RowRefused(plan, k, None, Some(side))
  {
    hide RepriceRefused;
  }

  /** The row gates of all months together: within the months of the child the returns'
      keys are the head's, and each keeps what it must. */
  ghost predicate ReturnsKept(plan: Plan, months: set<Date>, now: map<Key, Row>, before: map<Key, Row>) {
    && (forall k :: k in now && k.month in months ==> k in before)
    && (forall k :: k in before && k.month in months ==> k in now)
    && (forall k :: k in now && k in before && k.month in months ==> ReturnKept(plan, k, now[k], before[k]))
  }

  lemma RowGatesExactly(plan: Plan, months: set<Date>, now: map<Key, Row>, before: map<Key, Row>)
    ensures (forall m :: m in months ==> RowGate(plan, now, before, m)) <==> ReturnsKept(plan, months, now, before)
  {
    hide RowRefused, ReturnKept;
    forall k | k in now.Keys + before.Keys
      ensures RowRefused(plan, k, Lookup(now, k), Lookup(before, k))
        <==> !(k in now && k in before && ReturnKept(plan, k, now[k], before[k]))
    {
      if k in now && k in before {
        BothSidesExactly(plan, k, now[k], before[k]);
      } else {
        OneSideRefused(plan, k, if k in now then now[k] else before[k]);
      }
    }
    if forall m :: m in months ==> RowGate(plan, now, before, m) {
      forall k | k in now.Keys + before.Keys && k.month in months ensures k in now && k in before && ReturnKept(plan, k, now[k], before[k]) {
        assert RowGate(plan, now, before, k.month);
      }
    }
  }

  // ------------------------------------------------------------------ the header gates

  /** No key twice among the plan's dropped ones. */
  ghost predicate NoRepeat(dropped: seq<Key>) { forall i, j :: 0 <= i < j < |dropped| ==> dropped[i] != dropped[j] }

  lemma NoRepeatNext(rest: seq<Key>, k: Key)
    ensures NoRepeat(rest + [k]) <==> NoRepeat(rest) && k !in rest
  {
    var all := rest + [k];
    if NoRepeat(all) {
      forall i, j | 0 <= i < j < |rest| ensures rest[i] != rest[j] { assert all[i] != all[j]; }
      forall i | 0 <= i < |rest| ensures rest[i] != k {
        assert all[i] == rest[i] && all[|rest|] == k;
      }
    }
  }

  lemma {:induction false} NoRepeatExactly(dropped: seq<Key>)
    ensures |set k | k in dropped| <= |dropped|
    ensures |set k | k in dropped| == |dropped| <==> NoRepeat(dropped)
    decreases |dropped|
  {
    if dropped != [] {
      var rest, k := dropped[..|dropped| - 1], dropped[|dropped| - 1];
      assert dropped == rest + [k];
      NoRepeatExactly(rest);
      NoRepeatNext(rest, k);
      hide NoRepeat;
      assert (set d | d in dropped) == (set d | d in rest) + {k};
      if k in rest { assert (set d | d in dropped) == (set d | d in rest); }
    }
  }

  /** The tombstones are the dropped keys, each dropped once, and none is loaded. */
  ghost predicate DroppedApart(plan: Plan, own: map<Key, Row>, tombs: set<Key>) {
    && NoRepeat(plan.dropped)
    && (forall k :: k in tombs <==> k in plan.dropped)
    && (forall k :: k in plan.dropped ==> k !in own)
  }

  lemma DroppedExactly(l: Ledger, plan: Plan)
    ensures DroppedGate(l, plan) <==> DroppedApart(plan, Own(l, Returns, plan.child), Tombs(l, Returns, plan.child))
  {
    hide Own, Tombs;
    NoRepeatExactly(plan.dropped);
    assert Dropped(plan) == set k | k in plan.dropped;
    if DroppedApart(plan, Own(l, Returns, plan.child), Tombs(l, Returns, plan.child)) {
      assert Tombs(l, Returns, plan.child) == Dropped(plan);
    }
  }

  lemma ContinuityExactly(l: Ledger, plan: Plan)
    requires plan.head in l.pubs
    ensures ContinuityGate(l, plan) <==> Contiguous(Months(Own(l, Returns, plan.child)), AUGUST_2002, l.pubs[plan.head].lastClosed)
  {
    hide Own, Months, MonthSeries;
    ContiguousExactly(Months(Own(l, Returns, plan.child)), AUGUST_2002, l.pubs[plan.head].lastClosed);
    hide Contiguous;
  }

  /** The child is the plan's own, over its head's window and under its marker. */
  ghost predicate ChildOfPlan(l: Ledger, plan: Plan) {
    && plan.head in l.pubs && plan.child in l.pubs
    && var head, c := l.pubs[plan.head], l.pubs[plan.child];
    && (c.status.Prepared? || c.status.Validated?)
    && c.parent == Some(plan.head) && c.config == Dual && c.fingerprint == plan.fingerprint && c.revision == plan.revision
    && c.first == head.first && c.lastClosed == head.lastClosed && head.open.Some? && c.open == head.open
    && "coupon_pit_repair" in c.lineage && c.lineage["coupon_pit_repair"] == Mark(Marker(plan.contract, plan.head, plan.pins))
    && "coupon_pit_repair" in c.evidence && c.evidence["coupon_pit_repair"] == Mark(Marker(plan.contract, plan.head, plan.pins))
  }

  lemma ChildExactly(l: Ledger, plan: Plan)
    ensures FinalizeIdentity(l, plan) <==> ChildOfPlan(l, plan)
  {
    if plan.child in l.pubs {
      MarkerContained(l.pubs[plan.child].lineage, plan);
      MarkerContained(l.pubs[plan.child].evidence, plan);
    }
    hide Contains;
  }

  /** The pointer is on the head, and the trigger lets it go on to the child, or it is on
      the child, which is validated. */
  ghost predicate PointerReady(l: Ledger, plan: Plan)
    requires plan.head in l.pubs && plan.child in l.pubs
  {
    && l.pointer.Some? && (l.pointer.value == plan.head || l.pointer.value == plan.child)
    && (l.pointer.value == plan.child ==> l.pubs[plan.child].status == Validated)
    && (l.pointer.value == plan.head ==> (l.pubs[plan.head].config == Dual && NothingEmpty(l.pubs[plan.child].declared) && HasOwn144A(Own(l, Snapshot, plan.child))))
  }

  lemma PointerExactly(l: Ledger, plan: Plan)
    requires plan.head in l.pubs && plan.child in l.pubs
    ensures (PointerPreflight(l, plan) && (l.pointer == Some(plan.head) ==> PointerAdmits(l, plan))) <==> PointerReady(l, plan)
  {
    AdmitsExactly(l, plan);
    hide PointerAdmits, NothingEmpty, HasOwn144A;
  }

  lemma AdmitsExactly(l: Ledger, plan: Plan)
    requires plan.head in l.pubs && plan.child in l.pubs
    ensures PointerAdmits(l, plan) <==> (l.pubs[plan.head].config == Dual && NothingEmpty(l.pubs[plan.child].declared) && HasOwn144A(Own(l, Snapshot, plan.child)))
  {
    hide Own;
    NothingEmptyExactly(l.pubs[plan.child].declared);
    Own144AExactly(Own(l, Snapshot, plan.child));
    hide NothingEmpty, HasOwn144A;
  }

  // --------------------------------------------------------------- the carry by year

  /** The observed returns of one year up to the cutoff that the head has too. */
  ghost function ObservedKeys(plan: Plan, now: map<Key, Row>, before: map<Key, Row>, y: int): set<Key> {
    set k | k in now && k in before && k.month <= plan.cutoff && now[k].exitBasis == "observed" && k.month / 372 == y
  }

  /** Some month of theirs has no carry at all: the month's null wipes out the total. */
  ghost predicate BlankMonth(rows: map<Key, Row>, keys: set<Key>)
    requires keys <= rows.Keys
  {
    exists k :: k in keys && forall j :: j in keys && j.month == k.month ==> rows[j].carry.None?
  }

  ghost function CarrySum(rows: map<Key, Row>, keys: set<Key>): real
    requires keys <= rows.Keys
  {
    MapSum(map k | k in keys && rows[k].carry.Some? :: rows[k].carry.value)
  }

  ghost predicate Near(x: real, y: real) { -0.000001 <= x - y <= 0.000001 }

  /** Year by year the plan's figures: how many observed returns, and their carry in the
      head and now, a wiped total counting as zero; no year left out on either side. */
  ghost predicate CarryBalanced(plan: Plan, now: map<Key, Row>, before: map<Key, Row>) {
    && (forall k :: k in now && k in before && k.month <= plan.cutoff && now[k].exitBasis == "observed" ==> k.month / 372 in plan.perYear)
    && (forall y :: y in plan.perYear ==> YearBalanced(plan.perYear[y], ObservedKeys(plan, now, before, y), now, before))
  }

  ghost predicate YearBalanced(expected: YearSum, keys: set<Key>, now: map<Key, Row>, before: map<Key, Row>)
    requires keys <= now.Keys && keys <= before.Keys
  {
    && keys != {} && expected.rows == |keys|
    && Near(expected.before, if BlankMonth(before, keys) then 0.0 else CarrySum(before, keys))
    && Near(expected.after, if BlankMonth(now, keys) then 0.0 else CarrySum(now, keys))
  }

  lemma TotalExactly(keys: set<Key>, rows: map<Key, Row>, y: int)
    requires keys <= rows.Keys
    ensures YearTotal(keys, rows, y).GetOr(0.0)
      == if BlankMonth(rows, YearKeys(keys, y)) then 0.0 else CarrySum(rows, YearKeys(keys, y))
  {
    hide SqlSum, BlankMonth, Poisoned;
    forall k | k in YearKeys(keys, y)
      ensures SqlSum(Carry(MonthKeys(keys, k.month), rows)).None? <==> forall j :: j in YearKeys(keys, y) && j.month == k.month ==> rows[j].carry.None?
    {
      MonthNull(keys, rows, k, y);
    }
    PoisonExactly(keys, rows, y);
    PresentCarry(YearKeys(keys, y), rows);
    hide YearKeys, MonthKeys, Carry, Present;
  }

  lemma PresentCarry(keys: set<Key>, rows: map<Key, Row>)
    requires keys <= rows.Keys
    ensures MapSum(Present(Carry(keys, rows))) == CarrySum(rows, keys)
  {
    assert Present(Carry(keys, rows)) == map k | k in keys && rows[k].carry.Some? :: rows[k].carry.value;
  }

  lemma PoisonExactly(keys: set<Key>, rows: map<Key, Row>, y: int)
    requires keys <= rows.Keys
    requires forall k :: k in YearKeys(keys, y) ==>
      (SqlSum(Carry(MonthKeys(keys, k.month), rows)).None? <==> forall j :: j in YearKeys(keys, y) && j.month == k.month ==> rows[j].carry.None?)
    ensures Poisoned(keys, rows, y) <==> BlankMonth(rows, YearKeys(keys, y))
  {
    hide SqlSum;
    if Poisoned(keys, rows, y) {
      var k :| k in keys && YearOf(k.month) == y && SqlSum(Carry(MonthKeys(keys, k.month), rows)).None?;
      assert k in YearKeys(keys, y);
    }
    if BlankMonth(rows, YearKeys(keys, y)) {
      var k :| k in YearKeys(keys, y) && forall j :: j in YearKeys(keys, y) && j.month == k.month ==> rows[j].carry.None?;
      assert k in keys && YearOf(k.month) == y;
    }
  }

  lemma MonthNull(keys: set<Key>, rows: map<Key, Row>, k: Key, y: int)
    requires keys <= rows.Keys && k in YearKeys(keys, y)
    ensures SqlSum(Carry(MonthKeys(keys, k.month), rows)).None?
      <==> forall j :: j in YearKeys(keys, y) && j.month == k.month ==> rows[j].carry.None?
  {
    var column := Carry(MonthKeys(keys, k.month), rows);
    if Present(column) == map[] {
      forall j | j in YearKeys(keys, y) && j.month == k.month ensures rows[j].carry.None? {
        assert j in column && j !in Present(column);
      }
    } else {
      var j :| j in Present(column);
      assert j in YearKeys(keys, y) && rows[j].carry.Some?;
    }
  }

  lemma YearExactly(plan: Plan, now: map<Key, Row>, before: map<Key, Row>, y: int)
    requires y in plan.perYear
    ensures ObservedKeys(plan, now, before, y) == YearKeys(Repriced(plan, now, before), y)
    ensures (YearKeys(Repriced(plan, now, before), y) != {} && YearMatches(plan.perYear[y], YearCarryOf(plan, now, before, y)))
      <==> YearBalanced(plan.perYear[y], ObservedKeys(plan, now, before, y), now, before)
  {
    hide YearTotal, BlankMonth, CarrySum;
    var keys := Repriced(plan, now, before);
    assert ObservedKeys(plan, now, before, y) == YearKeys(keys, y);
    TotalExactly(keys, before, y);
    TotalExactly(keys, now, y);
    hide Repriced, YearKeys, ObservedKeys;
    MatchesExactly(plan.perYear[y], YearCarryOf(plan, now, before, y));
    hide YearMatches;
  }

  lemma MatchesExactly(expected: YearSum, actual: YearCarry)
    ensures YearMatches(expected, actual)
      <==> (expected.rows == actual.rows && Near(expected.before, actual.before.GetOr(0.0)) && Near(expected.after, actual.after.GetOr(0.0)))
  {
  }

  lemma CarryExactly(plan: Plan, now: map<Key, Row>, before: map<Key, Row>)
    ensures CarryGate(plan, now, before) <==> CarryBalanced(plan, now, before)
  {
    forall y | y in plan.perYear
      ensures (YearKeys(Repriced(plan, now, before), y) != {} && YearMatches(plan.perYear[y], YearCarryOf(plan, now, before, y)))
        <==> YearBalanced(plan.perYear[y], ObservedKeys(plan, now, before, y), now, before)
    {
      YearExactly(plan, now, before, y);
    }
    hide YearMatches, YearCarryOf, YearBalanced, YearKeys, ObservedKeys;
  }

  // ------------------------------------------------------------------- the finalize

  /** What makes a loaded child fit to be served. */
  ghost predicate FitToServe(l: Ledger, plan: Plan) {
    && ChildOfPlan(l, plan) && PointerReady(l, plan)
    && plan.unitChild in Chain(l.pubs, plan.head, {}, Source) && plan.root in Chain(l.pubs, plan.head, {}, Source)
    && ContentsFit(l, plan, SourceProjection(l, plan))
    && (forall k :: k in Current(Switched(l, plan), Returns) ==> k !in plan.dropped)
    && |Current(Switched(l, plan), Returns)| == l.pubs[plan.child].declared.returnRows
  }

  /** Its rows: dropped keys apart, as many as declared, contiguous months, sound and
      agreeing identities, returns that keep what the head served, and the plan's carry. */
  ghost predicate ContentsFit(l: Ledger, plan: Plan, before: map<Key, Row>)
    requires plan.head in l.pubs && plan.child in l.pubs
  {
    var returned := Own(l, Returns, plan.child);
    && DroppedApart(plan, returned, Tombs(l, Returns, plan.child))
    && Sized(l, plan.child, l.pubs[plan.child].declared)
    && Contiguous(Months(returned), AUGUST_2002, l.pubs[plan.head].lastClosed)
    && SoundAndAgreeing(l, plan.child)
    && ReturnsKept(plan, GatedMonths(l, plan.child), returned, before)
    && CarryBalanced(plan, returned, before)
  }

  lemma MonthsExactly(l: Ledger, plan: Plan)
    requires plan.head in l.pubs
    ensures (forall m :: m in GatedMonths(l, plan.child) ==> MonthPasses(l, plan, m))
      <==> (SurfacesAgree(Own(l, Snapshot, plan.child), Own(l, RvSignal, plan.child), Own(l, Returns, plan.child), Own(l, RatingPit, plan.child))
        && ReturnsKept(plan, GatedMonths(l, plan.child), Own(l, Returns, plan.child), SourceProjection(l, plan)))
  {
    CoverageExactly(l, plan.child);
    RowGatesExactly(plan, GatedMonths(l, plan.child), Own(l, Returns, plan.child), SourceProjection(l, plan));
    hide CoverageGate, RowGate, GatedMonths, SurfacesAgree, ReturnsKept, SourceProjection, Own;
  }

  lemma ContentsExactly(l: Ledger, plan: Plan)
    requires plan.head in l.pubs && plan.child in l.pubs
    ensures ContentsFit(l, plan, SourceProjection(l, plan))
      <==> (DroppedGate(l, plan) && CountGates(l, plan) && ContinuityGate(l, plan) && IdentityGates(l, plan)
        && (forall m :: m in GatedMonths(l, plan.child) ==> MonthPasses(l, plan, m))
        && CarryGate(plan, Own(l, Returns, plan.child), SourceProjection(l, plan)))
  {
    DroppedExactly(l, plan);
    SizedExactly(l, plan.child, l.pubs[plan.child].declared);
    ContinuityExactly(l, plan);
    AllSoundExactly(l, plan.child);
    MonthsExactly(l, plan);
    CarryExactly(plan, Own(l, Returns, plan.child), SourceProjection(l, plan));
    hide Own, Tombs, DroppedGate, DroppedApart, Sized, ContinuityGate, Contiguous, IdentityValid, AllSound, GatedMonths, MonthPasses, SurfacesAgree,
      ReturnsKept, CarryGate, CarryBalanced, SourceProjection, Months;
  }

  /** The finalize commits exactly the children that are fit to be served. */
  lemma FinalizeExactly(l: Ledger, plan: Plan)
    ensures FinalizeCommits(l, plan) <==> FitToServe(l, plan)
  {
    hide FinalizeIdentity, ChildOfPlan, PointerPreflight, PointerAdmits, PointerReady, ContentsFit, DroppedGate, CountGates, ContinuityGate, IdentityGates,
      GatedMonths, MonthPasses, CarryGate, SourceProjection, ServedGates, Switched, Current, Own, Chain;
    ChildExactly(l, plan);
    if ChildOfPlan(l, plan) {
      ChildThere(l, plan);
      PointerExactly(l, plan);
      ContentsExactly(l, plan);
      ServedExactly(l, plan);
    }
  }

  lemma ChildThere(l: Ledger, plan: Plan)
    requires ChildOfPlan(l, plan)
    ensures plan.head in l.pubs && plan.child in l.pubs
  {
  }

  lemma ServedExactly(l: Ledger, plan: Plan)
    requires plan.child in l.pubs
    ensures ServedGates(Switched(l, plan), plan)
      <==> ((forall k :: k in Current(Switched(l, plan), Returns) ==> k !in plan.dropped)
        && |Current(Switched(l, plan), Returns)| == l.pubs[plan.child].declared.returnRows)
  {
    SwitchedChild(l, plan.child, Validation(plan));
    hide Current, Switched;
    assert forall k :: k in Dropped(plan) <==> k in plan.dropped;
  }

  // --------------------------------------------------------- what a commit serves

  /** After a commit every surface serves exactly the child's own rows. */
  lemma CommitServesOwn(l: Ledger, plan: Plan, s: Surface)
    requires Sound(l) && ChildHolds(l, plan) && FinalizeCommits(l, plan)
    ensures plan.child in l.pubs && Current(Switched(l, plan), s) == Own(l, s, plan.child)
    ensures !s.Returns? ==> Own(l, s, plan.child) == FilledHead(l, plan, s)
  {
    hide Sound, FinalizeCommits, ChildHolds, HeadWindow, Served, Own, Tombs, Current, Switched, FilledHead, Dropped, DroppedGate, ContinuityGate, RowGate,
      ServedGates, CopiedWhole, ChildHeader;
    CommitFacts(l, plan);
    CommittingChild(l, plan);
    if s.Returns? {
      ServedIsOwn(l, plan);
    } else {
      SwitchedSurface(l, plan, s);
      HeaderOf(l, plan);
      CountsOf(l, plan);
      WholeOf(l, plan, s);
      CopyComplete(l, plan, s);
      FilledCovers(l, plan, s);
    }
  }

  lemma WholeOf(l: Ledger, plan: Plan, s: Surface)
    requires ChildHolds(l, plan) && plan.child in l.pubs && !s.Returns?
    ensures CopiedWhole(l, plan, s)
  {
    hide ChildHeader, CopiedWhole, ReturnsLoaded;
  }

  /** What the views serve after a commit fits together: returns, signals and ratings
      are covered by the snapshot under one identity, and every identity is sound. */
  lemma CommitAgrees(l: Ledger, plan: Plan)
    requires Sound(l) && ChildHolds(l, plan) && FinalizeCommits(l, plan)
    ensures plan.child in l.pubs
    ensures var m := Switched(l, plan);
      && SurfacesAgree(Current(m, Snapshot), Current(m, RvSignal), Current(m, Returns), Current(m, RatingPit))
      && AllSound(Current(m, Snapshot)) && AllSound(Current(m, RvSignal)) && AllSound(Current(m, Returns)) && AllSound(Current(m, RatingPit))
  {
    hide Sound, FinalizeCommits, ChildHolds, Current, Switched, SurfacesAgree, AllSound, FilledHead, Own;
    CommitServesOwn(l, plan, Snapshot);
    CommitServesOwn(l, plan, RvSignal);
    CommitServesOwn(l, plan, Returns);
    CommitServesOwn(l, plan, RatingPit);
    FitParts(l, plan);
  }

  lemma FitParts(l: Ledger, plan: Plan)
    requires FinalizeCommits(l, plan)
    ensures plan.head in l.pubs
    ensures SurfacesAgree(Own(l, Snapshot, plan.child), Own(l, RvSignal, plan.child), Own(l, Returns, plan.child), Own(l, RatingPit, plan.child))
    ensures AllSound(Own(l, Snapshot, plan.child)) && AllSound(Own(l, RvSignal, plan.child))
      && AllSound(Own(l, Returns, plan.child)) && AllSound(Own(l, RatingPit, plan.child))
    ensures CarryBalanced(plan, Own(l, Returns, plan.child), SourceProjection(l, plan))
  {
    hide FinalizeCommits, PointerReady, DroppedApart, Contiguous, Sized, SurfacesAgree, AllSound, ReturnsKept, CarryBalanced, SourceProjection, Own, Tombs, Months,
      GatedMonths, Current, Switched, Chain;
    FinalizeExactly(l, plan);
  }

  /** Every row copied from the head is the head's row but for an identity filled where
      it was absent. */
  lemma CommitFillsIdentities(l: Ledger, plan: Plan, s: Surface, k: Key)
    requires Sound(l) && ChildHolds(l, plan) && FinalizeCommits(l, plan) && ArtifactCounted(plan)
    requires plan.child in l.pubs && k in Current(Switched(l, plan), s) && (s.Returns? ==> k.month > plan.cutoff)
    ensures k in Served(l, s, plan.head)
    ensures var now, before := Current(Switched(l, plan), s)[k], Served(l, s, plan.head)[k];
      now == before.(identity := now.identity) && IdentityFilled(k, now.identity, before.identity)
  {
    hide Sound, FinalizeCommits, ChildHolds, Current, Switched, ArtifactCounted, Served, ArtifactRows, IdentityFilled;
    CommitServesThePlan(l, plan);
    if s.Returns? && k in ArtifactRows(plan) { LateArtifact(plan, k); }
    FilledExactly(k, Fill(k, Served(l, s, plan.head)[k]).identity, Served(l, s, plan.head)[k].identity);
  }

  /** An artifact row as loaded: an absent or empty rule, reference or exit basis is
      filled, a row without a rule has no decision, and the payload takes the marker. */
  ghost predicate LoadedFrom(plan: Plan, now: Row, e: Entry<Key, Row>) {
    var i := e.row.identity;
    && now == e.row.(identity := now.identity, exitBasis := now.exitBasis, payload := now.payload)
    && now.identity.rule == (if i.rule.None? || i.rule == Some("") then Some("rule_144a") else i.rule)
    && now.identity.reference == (if i.reference.None? || i.reference == Some("") then Some(e.key.cusip) else i.reference)
    && now.identity.decision == (if i.rule.None? then None else i.decision)
    && now.exitBasis == (if e.row.exitBasis == "" then "observed" else e.row.exitBasis)
    && (forall member :: member in now.payload <==> member == "coupon_pit_repair" || member in e.row.payload)
    && now.payload["coupon_pit_repair"] == Mark(Marker(plan.contract, plan.head, plan.pins))
    && (forall member :: member in e.row.payload && member != "coupon_pit_repair" ==> now.payload[member] == e.row.payload[member])
  }

  lemma StagedExactly(plan: Plan, e: Entry<Key, Row>)
    ensures Staged(plan, e).key == e.key && LoadedFrom(plan, Staged(plan, e).row, e)
  {
  }

  /** Every served return up to the cutoff is a row of the pinned artifact, as loaded. */
  lemma CommitLoadsArtifact(l: Ledger, plan: Plan, k: Key)
    requires Sound(l) && ChildHolds(l, plan) && FinalizeCommits(l, plan) && ArtifactCounted(plan)
    requires plan.child in l.pubs && k in Current(Switched(l, plan), Returns) && k.month <= plan.cutoff
    ensures exists e :: e in plan.artifact && e.key == k && LoadedFrom(plan, Current(Switched(l, plan), Returns)[k], e)
  {
    hide Sound, FinalizeCommits, ChildHolds, Current, Switched, ArtifactCounted, Served, ArtifactRows, LoadedFrom;
    CommitServesThePlan(l, plan);
    ServedIsOwn(l, plan);
    EarlyIsArtifact(l, plan, k);
    var e :| e in Selected(plan) && Staged(plan, e) == Entry(k, Own(l, Returns, plan.child)[k]);
    EarlierIsEarlier(plan.artifact, plan.cutoff);
    StagedExactly(plan, e);
  }

  lemma EarlyIsArtifact(l: Ledger, plan: Plan, k: Key)
    requires ChildHolds(l, plan) && plan.child in l.pubs && k in Own(l, Returns, plan.child) && k.month <= plan.cutoff
    ensures FromArtifact(plan, k, Own(l, Returns, plan.child)[k])
  {
    hide ChildHeader, CopiedWhole, Own, FilledTail, FromArtifact;
    assert k in UpTo(Own(l, Returns, plan.child), plan.cutoff);
  }

  /** The served carry adds up: year by year as many observed returns up to the cutoff
      as the plan says, all with a carry, and their sum within the tolerance; no
      observed return lies in a year the plan does not have. */
  lemma CommitBalances(l: Ledger, plan: Plan, y: int)
    requires Sound(l) && ChildHolds(l, plan) && FinalizeCommits(l, plan) && ArtifactCounted(plan) && plan.child in l.pubs
    ensures var served := Current(Switched(l, plan), Returns);
      var observed := set k | k in served && k.month <= plan.cutoff && served[k].exitBasis == "observed" && k.month / 372 == y;
      && (forall k :: k in observed ==> served[k].carry.Some?)
      && (observed != {} <==> y in plan.perYear)
      && (y in plan.perYear ==>
            && plan.perYear[y].rows == |observed|
            && Near(plan.perYear[y].after, MapSum(map k | k in observed && served[k].carry.Some? :: served[k].carry.value)))
  {
    hide Sound, FinalizeCommits, ChildHolds, Current, Switched, ArtifactCounted, Served, CarryBalanced, KeepsHead, SourceProjection, HeadWindow, Near;
    ServedIsOwn(l, plan);
    FitParts(l, plan);
    HeaderOf(l, plan);
    SourceIsServed(l, plan);
    var served, head := Current(Switched(l, plan), Returns), Served(l, Returns, plan.head);
    forall k | k in served
      ensures k in head && (k.month <= plan.cutoff && served[k].exitBasis == "observed" ==> served[k].carry.Some?)
    {
      CommitRelatesRows(l, plan, k);
      if k.month <= plan.cutoff && served[k].exitBasis == "observed" { ObservedHasCarry(plan, k, served[k], head[k]); }
    }
    BalanceOf(plan, served, head, y);
  }

  lemma BalanceOf(plan: Plan, served: map<Key, Row>, head: map<Key, Row>, y: int)
    requires CarryBalanced(plan, served, head) && forall k :: k in served ==> k in head
    requires forall k :: k in served && k.month <= plan.cutoff && served[k].exitBasis == "observed" ==> served[k].carry.Some?
    ensures var observed := set k | k in served && k.month <= plan.cutoff && served[k].exitBasis == "observed" && k.month / 372 == y;
      && (observed != {} <==> y in plan.perYear)
      && (y in plan.perYear ==>
            && plan.perYear[y].rows == |observed|
            && Near(plan.perYear[y].after, MapSum(map k | k in observed && served[k].carry.Some? :: served[k].carry.value)))
  {
    hide YearBalanced;
    var observed := set k | k in served && k.month <= plan.cutoff && served[k].exitBasis == "observed" && k.month / 372 == y;
    assert observed == ObservedKeys(plan, served, head, y);
    if y in plan.perYear { BalancedYear(plan.perYear[y], observed, served, head); }
  }

  lemma ObservedHasCarry(plan: Plan, k: Key, now: Row, before: Row)
    requires KeepsHead(plan, k, now, before) && k.month <= plan.cutoff && now.exitBasis == "observed"
    ensures now.carry.Some?
  {
  }

  lemma BalancedYear(expected: YearSum, keys: set<Key>, now: map<Key, Row>, before: map<Key, Row>)
    requires keys <= now.Keys && keys <= before.Keys && YearBalanced(expected, keys, now, before)
    requires forall k :: k in keys ==> now[k].carry.Some?
    ensures keys != {} && expected.rows == |keys| && Near(expected.after, CarrySum(now, keys))
  {
    hide CarrySum;
  }

  /** All a commit writes: the pointer, and of a prepared child the status and one more
      member of its evidence. */
  lemma CommitWrites(l: Ledger, plan: Plan)
    requires plan.child in l.pubs
    ensures var m, before, after := Switched(l, plan), l.pubs[plan.child], Switched(l, plan).pubs[plan.child];
      && m == l.(pubs := l.pubs[plan.child := after], pointer := Some(plan.child))
      && (before.status != Prepared ==> after == before)
      && (before.status == Prepared ==>
            && after == before.(status := Validated, evidence := after.evidence)
            && after.evidence == before.evidence["coupon_pit_repair_validated" := Mark(Marker(plan.contract, plan.head, plan.pins))])
  {
  }
}
