/** The rules across the four surfaces that every finalize enforces, over whole tables
    and in their columns: identities, coverage, contiguous months, declared sizes. */
module SurfaceRules {
  import opened Prelude
  import opened Panel
  import opened MonthGates

  /** Across the surfaces: every signal is an included snapshot row, every return has a
      snapshot row, snapshot and ratings have the same keys, and a key has one identity. */
  ghost predicate SurfacesAgree(snapshot: map<Key, Row>, signal: map<Key, Row>, returned: map<Key, Row>, rating: map<Key, Row>) {
    && (forall k :: k in signal ==> k in snapshot && snapshot[k].included && signal[k].identity == snapshot[k].identity)
    && (forall k :: k in returned ==> k in snapshot && returned[k].identity == snapshot[k].identity)
    && rating.Keys == snapshot.Keys
    && (forall k :: k in rating && k in snapshot ==> rating[k].identity == snapshot[k].identity)
  }

  /** The dual-series identity rules: a rule, a reference that is not blank, a 144A row
      refers to itself and has no decision, a Reg S row has one. */
  ghost predicate IdentitySound(k: Key, i: Identity) {
    && i.rule.Some? && i.reference.Some? && (exists c :: c in i.reference.value && c != ' ')
    && (i.rule.value == "rule_144a" ==> i.reference.value == k.cusip && i.decision.None?)
    && (i.rule.value == "reg_s" ==> i.decision.Some? && |i.decision.value| > 0)
  }

  lemma IdentityExactly(k: Key, i: Identity)
    ensures IdentityValid(k, i) <==> IdentitySound(k, i)
  {
  }

  ghost predicate AllSound(rows: map<Key, Row>) { forall k :: k in rows ==> IdentitySound(k, rows[k].identity) }

  /** All four surfaces of one publication. */
  ghost predicate SoundAndAgreeing(l: Ledger, p: Id) {
    && AllSound(Own(l, Snapshot, p)) && AllSound(Own(l, RvSignal, p)) && AllSound(Own(l, Returns, p)) && AllSound(Own(l, RatingPit, p))
    && SurfacesAgree(Own(l, Snapshot, p), Own(l, RvSignal, p), Own(l, Returns, p), Own(l, RatingPit, p))
  }

  lemma AllSoundExactly(l: Ledger, p: Id)
    ensures (AllSound(Own(l, Snapshot, p)) && AllSound(Own(l, RvSignal, p)) && AllSound(Own(l, Returns, p)) && AllSound(Own(l, RatingPit, p)))
      <==> forall s: Surface, k :: k in Own(l, s, p) ==> IdentityValid(k, Own(l, s, p)[k].identity)
  {
    forall k: Key, i: Identity ensures IdentityValid(k, i) <==> IdentitySound(k, i) { IdentityExactly(k, i); }
    hide Own, IdentityValid, IdentitySound;
    if AllSound(Own(l, Snapshot, p)) && AllSound(Own(l, RvSignal, p)) && AllSound(Own(l, Returns, p)) && AllSound(Own(l, RatingPit, p)) {
      forall s: Surface, k | k in Own(l, s, p) ensures IdentityValid(k, Own(l, s, p)[k].identity) {
        match s case Snapshot => case RvSignal => case Returns => case RatingPit =>
      }
    }
  }

  /** Returns start in one month, end in another and miss no month between. */
  ghost predicate Contiguous(months: set<Date>, first: Date, last: Date) {
    && first in months && last in months
    && (forall m :: m in months ==> first <= m <= last)
    && (forall m :: first <= m <= last && m % 31 == 0 ==> m in months)
  }

  /** Minimum, maximum and the number of month starts between decide it. */
  lemma ContiguousExactly(months: set<Date>, first: Date, last: Date)
    requires first % 31 == 0
    ensures Contiguous(months, first, last)
      <==> (first in months && last in months && (forall m :: m in months ==> first <= m <= last)
        && |set m | m in months && InWindow(m, first, last)| == |MonthSeries(first, last)|)
  {
    hide MonthSeries;
    CountIsCoverage(months, first, last);
    if Contiguous(months, first, last) {
      forall m | InWindow(m, first, last) ensures m in months {}
    }
    if forall m :: InWindow(m, first, last) ==> m in months {
      forall m | first <= m <= last && m % 31 == 0 ensures m in months { assert InWindow(m, first, last); }
    }
  }

  /** Some snapshot row is a 144A row under its own cusip. */
  ghost predicate HasOwn144A(snapshot: map<Key, Row>) {
    exists k ::
      && k in snapshot && snapshot[k].identity.rule == Some("rule_144a")
      && snapshot[k].identity.reference == Some(k.cusip) && snapshot[k].identity.decision.None?
  }

  lemma Own144AExactly(snapshot: map<Key, Row>)
    ensures HasOwn144A(snapshot) <==> exists k :: k in snapshot && snapshot[k].identity == Identity(Some("rule_144a"), Some(k.cusip), None)
  {
    forall k | k in snapshot
      ensures snapshot[k].identity == Identity(Some("rule_144a"), Some(k.cusip), None)
        <==> (snapshot[k].identity.rule == Some("rule_144a") && snapshot[k].identity.reference == Some(k.cusip) && snapshot[k].identity.decision.None?)
    {
    }
  }

  /** Nothing is declared empty. */
  predicate NothingEmpty(c: Counts) { c.snapshotRows > 0 && c.signalRows > 0 && c.returnRows > 0 && c.ratingRows > 0 }

  lemma NothingEmptyExactly(c: Counts)
    ensures NothingEmpty(c) <==> forall s: Surface :: c.Of(s) > 0
  {
    if forall s: Surface :: c.Of(s) > 0 {
      assert c.Of(Snapshot) > 0 && c.Of(RvSignal) > 0 && c.Of(Returns) > 0 && c.Of(RatingPit) > 0;
    }
  }

  /** The four surfaces have the declared sizes. */
  ghost predicate Sized(l: Ledger, p: Id, c: Counts) {
    && |Own(l, Snapshot, p)| == c.snapshotRows && |Own(l, RvSignal, p)| == c.signalRows
    && |Own(l, Returns, p)| == c.returnRows && |Own(l, RatingPit, p)| == c.ratingRows
  }

  lemma SizedExactly(l: Ledger, p: Id, c: Counts)
    ensures Sized(l, p, c) <==> forall s: Surface :: |Own(l, s, p)| == c.Of(s)
  {
    hide Own;
    if forall s: Surface :: |Own(l, s, p)| == c.Of(s) {
      assert |Own(l, Snapshot, p)| == c.Of(Snapshot) && |Own(l, RvSignal, p)| == c.Of(RvSignal);
      assert |Own(l, Returns, p)| == c.Of(Returns) && |Own(l, RatingPit, p)| == c.Of(RatingPit);
    }
  }
}
