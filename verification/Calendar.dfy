/** Calendar-stamp maintenance of NAV rows: which unstamped rows may be stamped for
    a policy, what the stamp changes, and why a second run finds nothing to do. */
module Calendar {
  import opened Prelude

  datatype RowId = RowId(instrument: string, day: int)

  /** The three columns maintenance writes. */
  datatype Stamp = Stamp(id: Option<string>, version: Option<string>, source: Option<string>)

  /** A NAV row: the columns the candidate rule reads, the stamp, and the rest. */
  datatype NavRow = NavRow(
    key: RowId, nav: Option<real>, sourceNav: Option<real>, kind: Option<string>, currency: Option<string>,
    repair: Option<string>, stamp: Stamp, rest: string)

  datatype Policy = Policy(calendarId: string, calendarVersion: string, calendarSource: string)

  const UNSTAMPED := Stamp(None, None, None)

  function StampOf(policy: Policy): Stamp { Stamp(Some(policy.calendarId), Some(policy.calendarVersion), Some(policy.calendarSource)) }

  // ------------------------------------------------------------------ lifecycle

  datatype Facts = Facts(frequency: string, identity: bool, basis: bool, currency: bool)
  datatype Lifecycle = Lifecycle(instrument: string, known: int, effective: int, facts: Facts)

  predicate KnownBy(r: Lifecycle, now: int) { r.known <= now && r.effective <= now }

  predicate Earlier(a: Lifecycle, b: Lifecycle) {
    a.effective < b.effective || (a.effective == b.effective && a.known < b.known)
  }

  /** The row at `i` decides its instrument: known and effective by now, and later in
      (effective, known) than every other such row, or level with it and first. */
  predicate Decides(rows: seq<Lifecycle>, now: int, i: nat) {
    && i < |rows| && rows[i].known <= now && rows[i].effective <= now
    && forall j :: 0 <= j < |rows| && rows[j].instrument == rows[i].instrument && rows[j].known <= now && rows[j].effective <= now ==>
         || rows[j].effective < rows[i].effective
         || (rows[j].effective == rows[i].effective && (rows[j].known < rows[i].known || (rows[j].known == rows[i].known && i <= j)))
  }

  /** The loop over the lifecycle rows: the latest known row per instrument. */
  method LatestLifecycle(rows: seq<Lifecycle>, now: int) returns (facts: map<string, Facts>)
    ensures forall i :: 0 <= i < |rows| && rows[i].known <= now && rows[i].effective <= now ==> rows[i].instrument in facts
    ensures forall n :: n in facts ==> exists i: nat :: Decides(rows, now, i) && rows[i].instrument == n && rows[i].facts == facts[n]
  {
    var latest: map<string, nat> := map[];
    var i := 0;
    while i < |rows|
      invariant 0 <= i <= |rows|
      invariant forall n :: n in latest <==> exists j :: 0 <= j < i && rows[j].instrument == n && KnownBy(rows[j], now)
      invariant forall n :: n in latest ==> latest[n] < i && rows[latest[n]].instrument == n && Decides(rows[..i], now, latest[n])
    {
      var r := rows[i];
      ghost var before := latest;
      if KnownBy(r, now) && (r.instrument !in latest || Earlier(rows[latest[r.instrument]], r)) {
        latest := latest[r.instrument := i];
      }
      forall n | n in latest ensures Decides(rows[..i + 1], now, latest[n]) {
        if n in before { assert Decides(rows[..i], now, before[n]); }
        DecidesNext(rows, now, i, before, n);
      }
      i := i + 1;
    }
    assert rows[..i] == rows;
    facts := map n | n in latest :: rows[latest[n]].facts;
    forall n | n in facts ensures Decides(rows, now, latest[n]) && rows[latest[n]].instrument == n && rows[latest[n]].facts == facts[n] {}
  }

  lemma DecidesNext(rows: seq<Lifecycle>, now: int, i: nat, before: map<string, nat>, n: string)
    requires i < |rows|
    requires forall m :: m in before <==> exists j :: 0 <= j < i && rows[j].instrument == m && KnownBy(rows[j], now)
    requires forall m :: m in before ==> before[m] < i && rows[before[m]].instrument == m
    requires n in before ==> Decides(rows[..i], now, before[n])
    ensures var takes := KnownBy(rows[i], now) && rows[i].instrument == n && (n !in before || Earlier(rows[before[n]], rows[i]));
      (takes ==> Decides(rows[..i + 1], now, i)) && (!takes && n in before ==> Decides(rows[..i + 1], now, before[n]))
  {
    var more := rows[..i + 1];
    if n in before {
      var b := before[n];
      forall j | 0 <= j < i && rows[j].instrument == n && KnownBy(rows[j], now) ensures !Earlier(rows[b], rows[j]) {
        assert rows[..i][j] == rows[j] && rows[..i][b] == rows[b];
      }
      forall j | 0 <= j < b && rows[j].instrument == n && KnownBy(rows[j], now) ensures Earlier(rows[j], rows[b]) {
        assert rows[..i][j] == rows[j] && rows[..i][b] == rows[b];
      }
      assert more[b] == rows[b] && KnownBy(rows[..i][b], now);
    }
  }

  // ----------------------------------------------------------------- candidates

  /** An unstamped row that the policy's calendar may stamp. */
  predicate Eligible(r: NavRow, sessions: set<int>, facts: map<string, Facts>) {
    && r.stamp == UNSTAMPED
    && r.sourceNav.Some? && r.nav.Some? && r.sourceNav == r.nav
    && r.kind == Some("adjusted") && r.currency == Some("USD") && r.repair == Some("none")
    && r.key.day in sessions
    && r.key.instrument in facts
    && var f := facts[r.key.instrument];
    f.frequency == "daily" && f.identity && f.basis && f.currency
  }

  function Candidates(rows: seq<NavRow>, sessions: set<int>, facts: map<string, Facts>): seq<RowId> {
    if rows == [] then []
    else Candidates(rows[..|rows| - 1], sessions, facts) + (if Eligible(rows[|rows| - 1], sessions, facts) then [rows[|rows| - 1].key] else [])
  }

  lemma {:induction false} CandidatesAreEligible(rows: seq<NavRow>, sessions: set<int>, facts: map<string, Facts>, k: RowId)
    ensures k in Candidates(rows, sessions, facts) <==> exists i :: 0 <= i < |rows| && rows[i].key == k && Eligible(rows[i], sessions, facts)
    decreases |rows|
  {
    if rows != [] {
      var rest := rows[..|rows| - 1];
      CandidatesAreEligible(rest, sessions, facts, k);
      if i :| 0 <= i < |rows| && rows[i].key == k && Eligible(rows[i], sessions, facts) {
        if i < |rest| { assert rest[i] == rows[i]; }
      }
      if i :| 0 <= i < |rest| && rest[i].key == k && Eligible(rest[i], sessions, facts) { assert rows[i] == rest[i]; }
    }
  }

  /** The expected rows after the run: candidates stamped, all others untouched. */
  function Stamped(rows: seq<NavRow>, candidates: seq<RowId>, policy: Policy): seq<NavRow>
    ensures |Stamped(rows, candidates, policy)| == |rows|
  {
    seq(|rows|, i requires 0 <= i < |rows| => if rows[i].key in candidates then rows[i].(stamp := StampOf(policy)) else rows[i])
  }

  /** The primary key of the NAV table. */
  predicate DistinctKeys(rows: seq<NavRow>) { forall i, j :: 0 <= i < j < |rows| ==> rows[i].key != rows[j].key }

  /** What the policy asks of a row, column by column. */
  ghost predicate MayBeStamped(r: NavRow, sessions: set<int>, facts: map<string, Facts>) {
    && r.stamp.id.None? && r.stamp.version.None? && r.stamp.source.None?
    && r.nav.Some? && r.sourceNav.Some? && r.nav.value == r.sourceNav.value
    && r.kind == Some("adjusted") && r.currency == Some("USD") && r.repair == Some("none")
    && r.key.day in sessions
    && r.key.instrument in facts && facts[r.key.instrument] == Facts("daily", true, true, true)
  }

  lemma EligibleMayBeStamped(r: NavRow, sessions: set<int>, facts: map<string, Facts>)
    ensures Eligible(r, sessions, facts) <==> MayBeStamped(r, sessions, facts)
  {
  }

  /** Maintenance writes the policy's three columns into exactly the rows the policy
      admits and changes nothing else. */
  lemma StampsExactlyEligible(rows: seq<NavRow>, sessions: set<int>, facts: map<string, Facts>, policy: Policy, i: nat)
    requires DistinctKeys(rows) && i < |rows|
    ensures var after := Stamped(rows, Candidates(rows, sessions, facts), policy);
      && (MayBeStamped(rows[i], sessions, facts) ==>
            after[i] == rows[i].(stamp := Stamp(Some(policy.calendarId), Some(policy.calendarVersion), Some(policy.calendarSource))))
      && (!MayBeStamped(rows[i], sessions, facts) ==> after[i] == rows[i])
  {
    EligibleMayBeStamped(rows[i], sessions, facts);
    hide MayBeStamped;
    CandidatesAreEligible(rows, sessions, facts, rows[i].key);
    if rows[i].key in Candidates(rows, sessions, facts) {
      var j :| 0 <= j < |rows| && rows[j].key == rows[i].key && Eligible(rows[j], sessions, facts);
      assert i == j;
    }
  }

  /** For the same policy and instant a second run has no candidates, so it leaves
      the rows, and their digest, alone. */
  lemma SecondRunIsNoOp(rows: seq<NavRow>, sessions: set<int>, facts: map<string, Facts>, policy: Policy)
    requires DistinctKeys(rows)
    ensures var after := Stamped(rows, Candidates(rows, sessions, facts), policy);
      && Candidates(after, sessions, facts) == []
      && Stamped(after, Candidates(after, sessions, facts), policy) == after
  {
    var after := Stamped(rows, Candidates(rows, sessions, facts), policy);
    forall i | 0 <= i < |after| ensures !Eligible(after[i], sessions, facts) {
      StampsExactlyEligible(rows, sessions, facts, policy, i);
      EligibleMayBeStamped(rows[i], sessions, facts);
    }
    NoneEligible(after, sessions, facts);
    assert Stamped(after, [], policy) == after;
  }

  lemma {:induction false} NoneEligible(rows: seq<NavRow>, sessions: set<int>, facts: map<string, Facts>)
    requires forall i :: 0 <= i < |rows| ==> !Eligible(rows[i], sessions, facts)
    ensures Candidates(rows, sessions, facts) == []
    decreases |rows|
  {
    if rows != [] {
      assert !Eligible(rows[|rows| - 1], sessions, facts);
      NoneEligible(rows[..|rows| - 1], sessions, facts);
    }
  }

  // --------------------------------------------------------------- the transaction

  datatype Outcome = NoOp | Completed(changed: nat) | VerificationFailed | PlanStale

  lemma {:induction false} CandidateCount(rows: seq<NavRow>, sessions: set<int>, facts: map<string, Facts>, n: nat)
    requires n < |rows|
    ensures Candidates(rows[..n + 1], sessions, facts)
      == Candidates(rows[..n], sessions, facts) + (if Eligible(rows[n], sessions, facts) then [rows[n].key] else [])
  {
    assert rows[..n + 1][..n] == rows[..n];
  }

  lemma EligibleAt(rows: seq<NavRow>, sessions: set<int>, facts: map<string, Facts>, i: nat)
    requires DistinctKeys(rows) && i < |rows|
    ensures (rows[i].key in Candidates(rows, sessions, facts) && rows[i].stamp == UNSTAMPED) <==> Eligible(rows[i], sessions, facts)
  {
    CandidatesAreEligible(rows, sessions, facts, rows[i].key);
  }

  /** The guarded UPDATE: candidates that are still unstamped take the policy's
      columns, and the count is that of the rows updated. */
  method UpdateCandidates(rows: seq<NavRow>, sessions: set<int>, facts: map<string, Facts>, policy: Policy, candidates: seq<RowId>)
      returns (table: seq<NavRow>, updated: nat)
    requires DistinctKeys(rows) && candidates == Candidates(rows, sessions, facts)
    ensures table == Stamped(rows, candidates, policy) && updated == |candidates|
  {
    hide Eligible, MayBeStamped, DistinctKeys;
    table, updated := rows, 0;
    var i := 0;
    assert rows[..0] == [];
    while i < |rows|
      invariant 0 <= i <= |rows| && |table| == |rows|
      invariant forall j :: i <= j < |rows| ==> table[j] == rows[j]
      invariant forall j :: 0 <= j < i ==> table[j] == Stamped(rows, candidates, policy)[j]
      invariant updated == |Candidates(rows[..i], sessions, facts)|
    {
      StampsExactlyEligible(rows, sessions, facts, policy, i);
      EligibleMayBeStamped(rows[i], sessions, facts);
      CandidateCount(rows, sessions, facts, i);
      EligibleAt(rows, sessions, facts, i);
      if table[i].key in candidates && table[i].stamp == UNSTAMPED {
        table := table[i := table[i].(stamp := StampOf(policy))];
        updated := updated + 1;
      }
      i := i + 1;
    }
    assert rows[..i] == rows;
  }

  class NavTable {
    var rows: seq<NavRow>

    constructor (rows: seq<NavRow>)
      ensures this.rows == rows
    {
      this.rows := rows;
    }

    /** Finds the candidates, updates them in place where they are still unstamped,
        and verifies the count and the whole after-state against the plan. */
    method Apply(sessions: set<int>, facts: map<string, Facts>, policy: Policy, planned: Option<seq<RowId>>) returns (outcome: Outcome)
      requires DistinctKeys(rows)
      modifies this
      ensures outcome.PlanStale? <==> planned.Some? && planned.value != Candidates(old(rows), sessions, facts)
      ensures outcome.NoOp? ==> Candidates(old(rows), sessions, facts) == []
      ensures !outcome.VerificationFailed?
      ensures outcome.Completed? ==> outcome.changed == |Candidates(old(rows), sessions, facts)| > 0
      ensures rows == if outcome.Completed? then Stamped(old(rows), Candidates(old(rows), sessions, facts), policy) else old(rows)
    {
      hide Candidates, Stamped, DistinctKeys;
      var candidates := Candidates(rows, sessions, facts);
      if planned.Some? && planned.value != candidates { return PlanStale; }
      if candidates == [] { return NoOp; }
      var before := rows;
      var table, updated := UpdateCandidates(before, sessions, facts, policy, candidates);
      var verified := updated == |candidates| && table == Stamped(before, candidates, policy);
      rows := if verified then table else before;
      outcome := if verified then Completed(updated) else VerificationFailed;
    }
  }
}
