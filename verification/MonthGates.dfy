/** The cheap gates of the finalize transactions: month summaries instead of
    full history scans. Each is shown to decide exactly what the direct gate does. */
module MonthGates {
  import opened Prelude
  import opened Panel

  // ---------------------------------------------------------------- continuity

  /** The months of `generate_series(first, last, '1 month')`. */
  function MonthSeries(first: Date, last: Date): seq<Date>
    decreases last - first
  {
    if first > last then [] else [first] + MonthSeries(NextMonth(first), last)
  }

  predicate InWindow(m: Date, first: Date, last: Date) { first <= m <= last && FirstOfMonth(m) }

  lemma WindowStep(m: Date, first: Date, last: Date)
    requires FirstOfMonth(first) && first <= last
    ensures InWindow(m, first, last) <==> m == first || InWindow(m, NextMonth(first), last)
  {
  }

  lemma {:induction false} MonthSeriesIsWindow(first: Date, last: Date)
    requires FirstOfMonth(first)
    ensures forall m :: m in MonthSeries(first, last) <==> InWindow(m, first, last)
    decreases last - first
  {
    if first <= last {
      MonthSeriesIsWindow(NextMonth(first), last);
      forall m ensures m in MonthSeries(first, last) <==> InWindow(m, first, last) {
        WindowStep(m, first, last);
      }
    }
  }

  lemma {:induction false} MonthSeriesSize(first: Date, last: Date)
    requires FirstOfMonth(first)
    ensures |set m | m in MonthSeries(first, last)| == |MonthSeries(first, last)|
    decreases last - first
  {
    if first <= last {
      var rest := MonthSeries(NextMonth(first), last);
      MonthSeriesSize(NextMonth(first), last);
      MonthSeriesIsWindow(NextMonth(first), last);
      assert first !in rest;
      assert (set m | m in MonthSeries(first, last)) == {first} + (set m | m in rest);
    }
  }

  /** The day after which a first of month becomes the next one, in calendar terms. */
  lemma NextMonthInCalendar(d: Date, year: int, month: int)
    requires FirstOfMonth(d) && year == YearOf(d) && month == (d % 372) / 31 + 1
    ensures MakeDate(year + (if month == 12 then 1 else 0), month % 12 + 1, 1) == NextMonth(d)
  {
    var inYear := d % 372;
    assert d == 372 * year + inYear;
    assert inYear % 31 == 0 by { assert d == 31 * (12 * year) + inYear; }
    assert inYear == 31 * (month - 1) && 1 <= month <= 12;
  }

  /** The loop that lists the first days of the months from one date to another. */
  method MonthStarts(first: Date, last: Date) returns (values: seq<Date>)
    requires FirstOfMonth(first)
    ensures values == MonthSeries(first, last)
  {
    var current := first;
    values := [];
    while current <= last
      invariant FirstOfMonth(current)
      invariant values + MonthSeries(current, last) == MonthSeries(first, last)
      decreases last - current
    {
      values := values + [current];
      var year, month := YearOf(current), (current % 372) / 31 + 1;
      var next := MakeDate(year + (if month == 12 then 1 else 0), month % 12 + 1, 1);
      NextMonthInCalendar(current, year, month);
      current := next;
    }
  }

  /** Counting the distinct month starts in the window accepts exactly the month
      sets that miss no month of the series. */
  lemma CountIsCoverage(months: set<Date>, first: Date, last: Date)
    requires FirstOfMonth(first)
    ensures |set m | m in months && InWindow(m, first, last)| == |MonthSeries(first, last)|
      <==> forall m :: InWindow(m, first, last) ==> m in months
  {
    var inside := set m | m in months && InWindow(m, first, last);
    var series := set m | m in MonthSeries(first, last);
    MonthSeriesIsWindow(first, last);
    MonthSeriesSize(first, last);
    assert inside <= series;
    if |inside| == |series| {
      SameSizeSubset(inside, series);
      forall m | InWindow(m, first, last) ensures m in months {
        assert m in series;
      }
    }
    if forall m :: InWindow(m, first, last) ==> m in months {
      forall m | m in series ensures m in inside {
        assert InWindow(m, first, last);
      }
      assert inside == series;
    }
  }

  function Months(rows: map<Key, Row>): set<Date> { set k | k in rows :: k.month }

  /** Every month in which the child has a row of any surface. */
  function GatedMonths(l: Ledger, child: Id): set<Date> {
    Months(Own(l, Snapshot, child)) + Months(Own(l, RvSignal, child)) + Months(Own(l, Returns, child)) + Months(Own(l, RatingPit, child))
  }

  // -------------------------------------------------------------- annual totals

  ghost function Present<K(!new)>(column: map<K, Option<real>>): map<K, real> {
    map k | k in column && column[k].Some? :: column[k].value
  }

  /** SQL's `sum`: null values are skipped, and a group of nulls only is null. */
  ghost function SqlSum<K(!new)>(column: map<K, Option<real>>): Option<real> {
    if Present(column) == map[] then None else Some(MapSum(Present(column)))
  }

  ghost function NullKeys<K(!new)>(column: map<K, Option<real>>): set<K> { set k | k in column && column[k].None? }

  ghost function NullCount<K(!new)>(column: map<K, Option<real>>): nat { |NullKeys(column)| }

  ghost function InMonth(column: map<Key, Option<real>>, m: Date): map<Key, Option<real>> {
    map k | k in column && k.month == m :: column[k]
  }

  /** One row of the month summary table. */
  datatype MonthStat = MonthStat(rows: nat, nulls: nat, total: Option<real>)

  ghost function StatOf(column: map<Key, Option<real>>): MonthStat {
    MonthStat(|column|, NullCount(column), SqlSum(column))
  }

  ghost function Summarize(column: map<Key, Option<real>>, months: set<Date>): map<Date, MonthStat> {
    map m | m in months :: StatOf(InMonth(column, m))
  }

  ghost function RowColumn(stats: map<Date, MonthStat>): map<Date, nat> { map m | m in stats :: stats[m].rows }

  ghost function NullColumn(stats: map<Date, MonthStat>): map<Date, nat> { map m | m in stats :: stats[m].nulls }

  ghost function Partials(stats: map<Date, MonthStat>): map<Date, Option<real>> {
    map m | m in stats :: stats[m].total
  }

  ghost function MonthSize(keys: set<Key>, m: Date): nat { |set k | k in keys && k.month == m| }

  ghost function Sizes(keys: set<Key>, months: set<Date>): map<Date, nat> { map m | m in months :: MonthSize(keys, m) }

  /** Counting month by month counts everything once. */
  lemma {:induction false} CountByMonth(keys: set<Key>, months: set<Date>)
    requires forall k :: k in keys ==> k.month in months
    ensures NatSum(Sizes(keys, months)) == |keys|
    decreases |months|
  {
    if months == {} {
      assert keys == {};
      assert Sizes(keys, months) == map[];
    } else {
      var m := Pick(months);
      hide Sizes, NatSum;
      var here, rest := set k | k in keys && k.month == m, set k | k in keys && k.month != m;
      CountByMonth(rest, months - {m});
      SizesWithout(keys, rest, months, m);
      SizeAt(keys, months, m);
      NatSumRemove(Sizes(keys, months), m);
      assert keys == here + rest && here !! rest;
      assert |keys| == |here| + |rest|;
    }
  }

  lemma SizeAt(keys: set<Key>, months: set<Date>, m: Date)
    requires m in months
    ensures m in Sizes(keys, months) && Sizes(keys, months)[m] == |set k | k in keys && k.month == m|
  {
  }

  lemma SizesWithout(keys: set<Key>, rest: set<Key>, months: set<Date>, m: Date)
    requires m in months
    requires rest == set k | k in keys && k.month != m
    ensures Sizes(keys, months) - {m} == Sizes(rest, months - {m})
  {
    forall n | n in months - {m} ensures MonthSize(rest, n) == MonthSize(keys, n) {
      assert (set k | k in rest && k.month == n) == (set k | k in keys && k.month == n);
    }
  }

  ghost function Without(column: map<Key, Option<real>>, m: Date): map<Key, Option<real>> {
    map k | k in column && k.month != m :: column[k]
  }

  ghost function MonthSums(column: map<Key, Option<real>>, months: set<Date>): map<Date, Option<real>> {
    map m | m in months :: SqlSum(InMonth(column, m))
  }

  lemma MonthSumsWithout(column: map<Key, Option<real>>, months: set<Date>, m: Date)
    requires m in months
    ensures MonthSums(column, months) == MonthSums(Without(column, m), months - {m})[m := SqlSum(InMonth(column, m))]
  {
    forall n | n in months - {m} ensures InMonth(Without(column, m), n) == InMonth(column, n) {}
  }

  /** Adding up the monthly null-skipping sums gives the sum of the whole column. */
  lemma {:induction false} SumByMonth(column: map<Key, Option<real>>, months: set<Date>)
    requires forall k :: k in column ==> k.month in months
    ensures SqlSum(MonthSums(column, months)) == SqlSum(column)
    decreases |months|
  {
    if months == {} {
      assert column == map[];
      assert MonthSums(column, months) == map[];
      assert Present(column) == map[] && Present(MonthSums(column, months)) == map[];
    } else {
      var m := Pick(months);
      var here, rest := InMonth(column, m), Without(column, m);
      SumByMonth(rest, months - {m});
      MonthSumsWithout(column, months, m);
      SqlSumAddOne(MonthSums(rest, months - {m}), m, SqlSum(here));
      assert column == here + rest;
      SqlSumSplit(column, here, rest);
    }
  }

  lemma RowsOfMonth(column: map<Key, Option<real>>, m: Date)
    ensures |InMonth(column, m)| == MonthSize(column.Keys, m)
  {
    assert InMonth(column, m).Keys == set k | k in column.Keys && k.month == m;
  }

  lemma NullsOfMonth(column: map<Key, Option<real>>, m: Date)
    ensures NullCount(InMonth(column, m)) == MonthSize(NullKeys(column), m)
  {
    assert NullKeys(InMonth(column, m)) == set k | k in NullKeys(column) && k.month == m;
  }

  lemma ColumnsAreSizes(column: map<Key, Option<real>>, months: set<Date>)
    ensures RowColumn(Summarize(column, months)) == Sizes(column.Keys, months)
    ensures NullColumn(Summarize(column, months)) == Sizes(NullKeys(column), months)
  {
    forall m | m in months
      ensures |InMonth(column, m)| == MonthSize(column.Keys, m)
        && NullCount(InMonth(column, m)) == MonthSize(NullKeys(column), m)
    {
      RowsOfMonth(column, m);
      NullsOfMonth(column, m);
    }
  }

  /** Annual totals taken from monthly partial sums equal the direct annual
      grouping: row counts, null counts and the null-skipping sum. */
  lemma PartialsEqualDirect(column: map<Key, Option<real>>, months: set<Date>)
    requires forall k :: k in column ==> k.month in months
    ensures NatSum(RowColumn(Summarize(column, months))) == |column|
    ensures NatSum(NullColumn(Summarize(column, months))) == NullCount(column)
    ensures SqlSum(Partials(Summarize(column, months))) == SqlSum(column)
  {
    ColumnsAreSizes(column, months);
    CountByMonth(column.Keys, months);
    CountByMonth(NullKeys(column), months);
    SumByMonth(column, months);
    PartialsAreSums(column, months);
  }

  lemma PartialsAreSums(column: map<Key, Option<real>>, months: set<Date>)
    ensures Partials(Summarize(column, months)) == MonthSums(column, months)
  {
  }

  /** Null-skipping addition. */
  function PlusNull(a: Option<real>, b: Option<real>): Option<real> {
    if a.None? then b else if b.None? then a else Some(a.value + b.value)
  }

  lemma SqlSumSplit<K(!new)>(all: map<K, Option<real>>, a: map<K, Option<real>>, b: map<K, Option<real>>)
    requires forall k :: k in b ==> k !in a
    requires all == a + b
    ensures SqlSum(all) == PlusNull(SqlSum(b), SqlSum(a))
  {
    assert Present(all) == Present(a) + Present(b);
    MapSumUnion(Present(a), Present(b));
    if Present(a) == map[] { assert Present(all) == Present(b); }
    if Present(b) == map[] { assert Present(all) == Present(a); }
    if Present(a) != map[] {
      var k :| k in Present(a);
      assert k in Present(all);
    }
    if Present(b) != map[] {
      var k :| k in Present(b);
      assert k in Present(all);
    }
  }

  lemma SqlSumAddOne<K(!new)>(column: map<K, Option<real>>, k: K, v: Option<real>)
    requires k !in column
    ensures SqlSum(column[k := v]) == PlusNull(SqlSum(column), v)
  {
    var one := map[k := v];
    if v.None? {
      assert Present(column[k := v]) == Present(column);
    } else {
      assert Present(column[k := v]) == Present(column)[k := v.value];
      MapSumAdd(Present(column), k, v.value);
    }
  }
}
