/** The scans behind the cheap gates, statement by statement: per-month summaries,
    their totals, and the continuity check that reads them. */
module MonthScans {
  import opened Prelude
  import opened Panel
  import opened MonthGates

  /** `sum` of a nullable column. */
  method SumColumn<K(!new, ==)>(column: map<K, Option<real>>) returns (total: Option<real>)
    ensures total == SqlSum(column)
  {
    var left, done: map<K, Option<real>> := column.Keys, map[];
    total := None;
    assert Present(done) == map[];
    while left != {}
      invariant left + done.Keys == column.Keys && left !! done.Keys
      invariant forall k :: k in done ==> done[k] == column[k]
      invariant total == SqlSum(done)
      decreases left
    {
      ghost var any := Pick(left);
      var k :| k in left;
      SqlSumAddOne(done, k, column[k]);
      total := PlusNull(total, column[k]);
      left, done := left - {k}, done[k := column[k]];
    }
    assert done == column;
  }

  /** `sum` of a count column. */
  method SumCounts<K(!new, ==)>(counts: map<K, nat>) returns (total: nat)
    ensures total == NatSum(counts)
  {
    total := 0;
    var left := counts;
    while left != map[]
      invariant total + NatSum(left) == NatSum(counts)
      decreases |left|
    {
      ghost var any := Pick(left.Keys);
      var k :| k in left;
      NatSumRemove(left, k);
      total := total + left[k];
      left := left - {k};
    }
  }

  /** The month summary of one surface: rows per month. */
  method MonthStats(rows: map<Key, Row>) returns (stats: map<Date, nat>)
    ensures stats == Sizes(rows.Keys, Months(rows))
  {
    var left := Months(rows);
    stats := map[];
    while left != {}
      invariant left <= Months(rows)
      invariant stats == Sizes(rows.Keys, Months(rows) - left)
      decreases left
    {
      var m :| m in left;
      var before := Months(rows) - left;
      stats := stats[m := |set k | k in rows.Keys && k.month == m|];
      left := left - {m};
      assert Months(rows) - left == before + {m};
      assert stats[m] == MonthSize(rows.Keys, m);
    }
    assert Months(rows) - left == Months(rows);
  }

  /** The count gate reads the summary only: the sum of the monthly rows. */
  method CountGate(rows: map<Key, Row>, declared: int) returns (ok: bool)
    ensures ok <==> |rows| == declared
  {
    var stats := MonthStats(rows);
    var total := SumCounts(stats);
    CountByMonth(rows.Keys, Months(rows));
    assert |rows.Keys| == |rows|;
    ok := total == declared;
  }

  ghost predicate Bounds(months: set<Date>, low: Option<Date>, high: Option<Date>) {
    if months == {} then low == None && high == None
    else low.Some? && high.Some? && low.value in months && high.value in months && forall m :: m in months ==> low.value <= m <= high.value
  }

  lemma NoBounds()
    ensures Bounds({}, None, None)
  {
  }

  lemma WiderBounds(seen: set<Date>, m: Date, low: Option<Date>, high: Option<Date>)
    requires Bounds(seen, low, high)
    ensures Bounds(seen + {m}, if low == None || m < low.value then Some(m) else low, if high == None || high.value < m then Some(m) else high)
  {
  }

  lemma BoundsDecide(months: set<Date>, low: Option<Date>, high: Option<Date>, first: Date, last: Date)
    requires Bounds(months, low, high)
    ensures (low == Some(first) && high == Some(last))
      <==> (first in months && last in months && forall m :: m in months ==> first <= m <= last)
  {
  }

  /** Minimum, maximum and count of the month starts of a month summary. */
  method ContinuityChecks(months: set<Date>, first: Date, last: Date) returns (ok: bool)
    requires FirstOfMonth(first)
    ensures ok <==>
      (first in months && last in months && (forall m :: m in months ==> first <= m <= last)
       && |set m | m in months && InWindow(m, first, last)| == |MonthSeries(first, last)|)
  {
    hide MonthSeries, InWindow, Bounds;
    var left, starts: set<Date> := months, {};
    var low: Option<Date>, high: Option<Date> := None, None;
    NoBounds();
    assert months - left == {};
    while left != {}
      invariant left <= months && Bounds(months - left, low, high)
      invariant starts == set m | m in months - left && InWindow(m, first, last)
      decreases left
    {
      ghost var seen := months - left;
      ghost var any := Pick(left);
      var m :| m in left;
      left := left - {m};
      assert months - left == seen + {m};
      WiderBounds(seen, m, low, high);
      if low == None || m < low.value { low := Some(m); }
      if high == None || high.value < m { high := Some(m); }
      if InWindow(m, first, last) { starts := starts + {m}; }
    }
    assert months - left == months;
    BoundsDecide(months, low, high, first, last);
    var series := MonthStarts(first, last);
    ok := low == Some(first) && high == Some(last) && |starts| == |series|;
  }
}
