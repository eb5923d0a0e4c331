/** The carry gate's month loop: per-year totals accumulated month by month, with
    SQL's null poisoning, equal the totals taken year by year. */
module CouponPitCarry {
  import opened Prelude
  import opened Panel
  import opened MonthGates
  import opened MonthScans
  import opened CouponPit

  /** SQL's `+`: null as soon as one side is. */
  function NullPlus(a: Option<real>, b: Option<real>): Option<real> {
    if a.Some? && b.Some? then Some(a.value + b.value) else None
  }

  /** The repriced keys of the months visited so far. */
  ghost function InMonths(keys: set<Key>, months: set<Date>): set<Key> { set k | k in keys && k.month in months }

  lemma NextMonthKeys(keys: set<Key>, visited: set<Date>, m: Date)
    requires m !in visited
    ensures InMonths(keys, visited + {m}) == InMonths(keys, visited) + MonthKeys(keys, m)
    ensures InMonths(keys, visited) !! MonthKeys(keys, m)
  {
  }

  lemma PoisonStep(keys: set<Key>, more: set<Key>, rows: map<Key, Row>, m: Date)
    requires keys + more <= rows.Keys && more != {}
    requires (forall k :: k in keys ==> k.month != m) && (forall k :: k in more ==> k.month == m)
    ensures Poisoned(keys + more, rows, YearOf(m)) <==> (Poisoned(keys, rows, YearOf(m)) || SqlSum(Carry(more, rows)).None?)
  {
    hide SqlSum, Carry, YearOf;
    assert MonthKeys(keys + more, m) == more;
    forall k | k in keys ensures MonthKeys(keys + more, k.month) == MonthKeys(keys, k.month) {}
    var k0 := Pick(more);
    assert k0 in keys + more;
    if Poisoned(keys, rows, YearOf(m)) {
      var k :| k in keys && YearOf(k.month) == YearOf(m) && SqlSum(Carry(MonthKeys(keys, k.month), rows)).None?;
      assert k in keys + more;
    }
  }

  /** Adding a whole month adds its sum, or poisons the year. */
  lemma YearTotalStep(keys: set<Key>, more: set<Key>, rows: map<Key, Row>, m: Date)
    requires keys + more <= rows.Keys && more != {}
    requires (forall k :: k in keys ==> k.month != m) && (forall k :: k in more ==> k.month == m)
    ensures YearTotal(keys + more, rows, YearOf(m)) == NullPlus(YearTotal(keys, rows, YearOf(m)), SqlSum(Carry(more, rows)))
  {
    hide SqlSum, Carry, Present, Poisoned, YearOf;
    PoisonStep(keys, more, rows, m);
    YearSumStep(keys, more, rows, m);
  }

  lemma YearSumStep(keys: set<Key>, more: set<Key>, rows: map<Key, Row>, m: Date)
    requires keys + more <= rows.Keys
    requires (forall k :: k in keys ==> k.month != m) && (forall k :: k in more ==> k.month == m)
    ensures MapSum(Present(Carry(YearKeys(keys + more, YearOf(m)), rows)))
      == MapSum(Present(Carry(YearKeys(keys, YearOf(m)), rows))) + MapSum(Present(Carry(more, rows)))
    ensures SqlSum(Carry(more, rows)).Some? ==> SqlSum(Carry(more, rows)).value == MapSum(Present(Carry(more, rows)))
  {
    var y := YearOf(m);
    var a, b := Carry(YearKeys(keys, y), rows), Carry(more, rows);
    assert YearKeys(keys + more, y) == YearKeys(keys, y) + more;
    assert Present(Carry(YearKeys(keys + more, y), rows)) == Present(a) + Present(b);
    MapSumUnion(Present(a), Present(b));
  }

  /** Months of one year leave the other years alone. */
  lemma OtherYears(keys: set<Key>, more: set<Key>, rows: map<Key, Row>, m: Date, y: int)
    requires keys + more <= rows.Keys && y != YearOf(m)
    requires forall k :: k in more ==> k.month == m
    ensures YearKeys(keys + more, y) == YearKeys(keys, y)
    ensures YearTotal(keys + more, rows, y) == YearTotal(keys, rows, y)
  {
    hide SqlSum, Carry, Present, YearOf;
    assert YearKeys(keys + more, y) == YearKeys(keys, y);
    forall k | k in keys && YearOf(k.month) == y ensures MonthKeys(keys + more, k.month) == MonthKeys(keys, k.month) {}
  }

  /** The year totals over a set of keys. */
  ghost function TotalsOf(keys: set<Key>, cand: map<Key, Row>, source: map<Key, Row>, y: int): YearCarry
    requires keys <= cand.Keys && keys <= source.Keys
  {
    YearCarry(|YearKeys(keys, y)|, YearTotal(keys, source, y), YearTotal(keys, cand, y))
  }

  /** What the accumulator table holds: one row per year that has keys. */
  ghost predicate Accumulated(acc: map<int, YearCarry>, keys: set<Key>, cand: map<Key, Row>, source: map<Key, Row>)
    requires keys <= cand.Keys && keys <= source.Keys
  {
    && (forall y :: y in acc <==> YearKeys(keys, y) != {})
    && (forall y :: y in acc ==> acc[y] == TotalsOf(keys, cand, source, y))
  }

  /** `INSERT ... HAVING count(*) > 0 ON CONFLICT (year) DO UPDATE`. */
  function Upsert(acc: map<int, YearCarry>, y: int, add: YearCarry): map<int, YearCarry> {
    if add.rows == 0 then acc
    else if y in acc then acc[y := YearCarry(acc[y].rows + add.rows, NullPlus(acc[y].before, add.before), NullPlus(acc[y].after, add.after))]
    else acc[y := add]
  }

  lemma EmptyYearTotal(keys: set<Key>, rows: map<Key, Row>, y: int)
    requires keys <= rows.Keys && YearKeys(keys, y) == {}
    ensures YearTotal(keys, rows, y) == Some(0.0)
  {
    assert Carry(YearKeys(keys, y), rows) == map[];
    assert Present<Key>(map[]) == map[];
  }

  lemma UpsertKeepsAccumulated(
      acc: map<int, YearCarry>, keys: set<Key>, more: set<Key>, cand: map<Key, Row>, source: map<Key, Row>, m: Date, add: YearCarry)
    requires keys + more <= cand.Keys && keys + more <= source.Keys
    requires Accumulated(acc, keys, cand, source)
    requires (forall k :: k in keys ==> k.month != m) && (forall k :: k in more ==> k.month == m)
    requires add == YearCarry(|more|, SqlSum(Carry(more, source)), SqlSum(Carry(more, cand)))
    ensures Accumulated(Upsert(acc, YearOf(m), add), keys + more, cand, source)
  {
    if more == {} {
      assert keys + more == keys;
    } else {
      var acc' := Upsert(acc, YearOf(m), add);
      hide Accumulated;
      forall y ensures (y in acc' <==> YearKeys(keys + more, y) != {}) && (y in acc' ==> acc'[y] == TotalsOf(keys + more, cand, source, y)) {
        UpsertYear(acc, keys, more, cand, source, m, add, y);
      }
      AccumulatedByYear(acc', keys + more, cand, source);
    }
  }

  lemma AccumulatedByYear(acc: map<int, YearCarry>, keys: set<Key>, cand: map<Key, Row>, source: map<Key, Row>)
    requires keys <= cand.Keys && keys <= source.Keys
    requires forall y :: (y in acc <==> YearKeys(keys, y) != {}) && (y in acc ==> acc[y] == TotalsOf(keys, cand, source, y))
    ensures Accumulated(acc, keys, cand, source)
  {
  }

  lemma UpsertYear(
      acc: map<int, YearCarry>, keys: set<Key>, more: set<Key>, cand: map<Key, Row>, source: map<Key, Row>, m: Date, add: YearCarry, y: int)
    requires keys + more <= cand.Keys && keys + more <= source.Keys && more != {}
    requires Accumulated(acc, keys, cand, source)
    requires (forall k :: k in keys ==> k.month != m) && (forall k :: k in more ==> k.month == m)
    requires add == YearCarry(|more|, SqlSum(Carry(more, source)), SqlSum(Carry(more, cand)))
    ensures var acc' := Upsert(acc, YearOf(m), add);
      && (y in acc' <==> YearKeys(keys + more, y) != {})
      && (y in acc' ==> acc'[y] == TotalsOf(keys + more, cand, source, y))
  {
    hide YearTotal, SqlSum, Carry;
    if y == YearOf(m) {
      var k0 := Pick(more);
      assert YearKeys(keys + more, y) == YearKeys(keys, y) + more && k0 in YearKeys(keys + more, y);
      assert YearKeys(keys, y) !! more;
      YearTotalStep(keys, more, source, m);
      YearTotalStep(keys, more, cand, m);
      if y !in acc {
        EmptyYearTotal(keys, source, y);
        EmptyYearTotal(keys, cand, y);
      }
    } else {
      OtherYears(keys, more, source, m, y);
      OtherYears(keys, more, cand, m, y);
    }
  }

  /** The gate's full join of the expected with the accumulated years. */
  predicate YearsMatch(expected: map<int, YearSum>, acc: map<int, YearCarry>) {
    && expected.Keys == acc.Keys
    && forall y :: y in expected ==> YearMatches(expected[y], acc[y])
  }

  /** Comparing the accumulated years decides the carry gate. */
  lemma YearsMatchIsCarryGate(plan: Plan, acc: map<int, YearCarry>, cand: map<Key, Row>, source: map<Key, Row>)
    requires Accumulated(acc, Repriced(plan, cand, source), cand, source)
    ensures YearsMatch(plan.perYear, acc) <==> CarryGate(plan, cand, source)
  {
    var keys := Repriced(plan, cand, source);
    hide YearTotal, YearMatches;
    if CarryGate(plan, cand, source) {
      forall y ensures y in plan.perYear <==> y in acc {
        if y in acc {
          var k := Pick(YearKeys(keys, y));
          assert k in keys;
        }
      }
    }
    if YearsMatch(plan.perYear, acc) {
      forall k | k in keys ensures YearOf(k.month) in plan.perYear {
        assert k in YearKeys(keys, YearOf(k.month));
      }
    }
  }

  /** One month's aggregate over the repriced keys: `sum` of a nullable column. */
  method SumCarry(keys: set<Key>, rows: map<Key, Row>) returns (total: Option<real>)
    requires keys <= rows.Keys
    ensures total == SqlSum(Carry(keys, rows))
  {
    total := SumColumn(map k | k in keys :: rows[k].carry);
  }
}
