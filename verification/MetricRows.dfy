/** Comparing metric rows and folds: the loops that collect mismatches, and when
    they find none. */
module MetricRows {
  import opened Prelude
  import opened Metrics

  type MetricRow = map<string, Json>
  datatype Issue = MissingField | Different
  datatype Mismatch = Mismatch(fold: string, field: string, issue: Issue)

  function CanonicalRow(row: MetricRow, dump: Json -> string): MetricRow { map k | k in row :: Canonical(row[k], dump) }

  /** Does a field of the two rows agree? */
  predicate FieldAgrees(actual: MetricRow, expected: MetricRow, field: string) {
    field in actual && field in expected && Equivalent(actual[field], expected[field])
  }

  predicate RowsAgree(actual: MetricRow, expected: MetricRow) {
    forall k :: k in actual.Keys + expected.Keys ==> FieldAgrees(actual, expected, k)
  }

  function Fields(mismatches: seq<Mismatch>): set<string> { set m | m in mismatches :: m.field }

  function Disagreeing(actual: MetricRow, expected: MetricRow, among: set<string>): set<string> {
    set k | k in among && !FieldAgrees(actual, expected, k)
  }

  /** One pass over the fields of either row: one mismatch for each field that
      disagrees, marked missing when one side lacks it. */
  method CompareRows(fold: string, actual: MetricRow, expected: MetricRow) returns (mismatches: seq<Mismatch>)
    ensures Fields(mismatches) == Disagreeing(actual, expected, actual.Keys + expected.Keys)
    ensures |mismatches| == |Fields(mismatches)|
    ensures forall m :: m in mismatches ==> m.fold == fold && (m.issue.MissingField? <==> !(m.field in actual && m.field in expected))
    ensures mismatches == [] <==> RowsAgree(actual, expected)
  {
    hide Equivalent, Compared;
    var all := actual.Keys + expected.Keys;
    var left, done: set<string> := all, {};
    mismatches := [];
    NothingCompared(fold, actual, expected);
    while left != {}
      invariant left + done == all && left !! done
      invariant Compared(fold, actual, expected, done, mismatches)
      decreases left
    {
      var key :| key in left;
      CompareField(fold, actual, expected, done, mismatches, key);
      if key !in actual || key !in expected {
        mismatches := mismatches + [Mismatch(fold, key, MissingField)];
      } else if !Equivalent(actual[key], expected[key]) {
        mismatches := mismatches + [Mismatch(fold, key, Different)];
      }
      left, done := left - {key}, done + {key};
    }
    assert done == all;
    AllCompared(fold, actual, expected, mismatches);
  }

  /** The loop after the fields in `done`. */
  ghost predicate Compared(fold: string, actual: MetricRow, expected: MetricRow, done: set<string>, mismatches: seq<Mismatch>) {
    && Fields(mismatches) == Disagreeing(actual, expected, done) && |mismatches| == |Fields(mismatches)|
    && forall m :: m in mismatches ==> m.fold == fold && (m.issue.MissingField? <==> !(m.field in actual && m.field in expected))
  }

  lemma NothingCompared(fold: string, actual: MetricRow, expected: MetricRow)
    ensures Compared(fold, actual, expected, {}, [])
  {
  }

  lemma CompareField(fold: string, actual: MetricRow, expected: MetricRow, done: set<string>, mismatches: seq<Mismatch>, key: string)
    requires Compared(fold, actual, expected, done, mismatches) && key !in done
    ensures var m := Mismatch(fold, key, if key in actual && key in expected then Different else MissingField);
      Compared(fold, actual, expected, done + {key}, if FieldAgrees(actual, expected, key) then mismatches else mismatches + [m])
  {
    var m := Mismatch(fold, key, if key in actual && key in expected then Different else MissingField);
    hide FieldAgrees, Fields, Disagreeing;
    OneMore(mismatches, m);
    OneMoreField(actual, expected, done, key);
  }

  lemma OneMoreField(actual: MetricRow, expected: MetricRow, done: set<string>, key: string)
    requires key !in done
    ensures key !in Disagreeing(actual, expected, done)
    ensures Disagreeing(actual, expected, done + {key})
      == if FieldAgrees(actual, expected, key) then Disagreeing(actual, expected, done) else Disagreeing(actual, expected, done) + {key}
  {
    hide FieldAgrees;
  }

  lemma AllCompared(fold: string, actual: MetricRow, expected: MetricRow, mismatches: seq<Mismatch>)
    requires Compared(fold, actual, expected, actual.Keys + expected.Keys, mismatches)
    ensures Fields(mismatches) == Disagreeing(actual, expected, actual.Keys + expected.Keys) && |mismatches| == |Fields(mismatches)|
    ensures forall m :: m in mismatches ==> m.fold == fold && (m.issue.MissingField? <==> !(m.field in actual && m.field in expected))
    ensures mismatches == [] <==> RowsAgree(actual, expected)
  {
    NoneRecorded(mismatches, actual, expected);
  }

  lemma OneMore(mismatches: seq<Mismatch>, m: Mismatch)
    ensures Fields(mismatches + [m]) == Fields(mismatches) + {m.field}
    ensures m.field !in Fields(mismatches) ==> |Fields(mismatches + [m])| == |Fields(mismatches)| + 1
  {
    assert forall n :: n in mismatches + [m] <==> n in mismatches || n == m;
    assert Fields(mismatches + [m]) == Fields(mismatches) + {m.field};
  }

  lemma NoneRecorded(mismatches: seq<Mismatch>, actual: MetricRow, expected: MetricRow)
    requires Fields(mismatches) == Disagreeing(actual, expected, actual.Keys + expected.Keys)
    ensures mismatches == [] <==> RowsAgree(actual, expected)
  {
    hide FieldAgrees;
    if mismatches != [] {
      assert mismatches[0].field in Fields(mismatches);
    } else {
      forall k | k in actual.Keys + expected.Keys ensures FieldAgrees(actual, expected, k) {
        assert k !in Disagreeing(actual, expected, actual.Keys + expected.Keys);
      }
    }
  }

  /** Rows of comparable cells with equal canonical rows compare without a mismatch. */
  lemma EqualCanonicalRowsAgree(actual: MetricRow, expected: MetricRow, dump: Json -> string)
    requires forall k :: k in actual ==> Comparable(actual[k])
    requires CanonicalRow(actual, dump) == CanonicalRow(expected, dump)
    ensures RowsAgree(actual, expected)
  {
    assert CanonicalRow(actual, dump).Keys == actual.Keys && CanonicalRow(expected, dump).Keys == expected.Keys;
    forall k | k in actual ensures FieldAgrees(actual, expected, k) {
      assert CanonicalRow(actual, dump)[k] == CanonicalRow(expected, dump)[k];
      ComparableAgrees(actual[k], expected[k], dump);
    }
  }

  // ------------------------------------------------------------------------- folds

  datatype FoldRow = FoldRow(fold: string, row: MetricRow)

  /** The rows of one fold, in order. */
  function Of(rows: seq<FoldRow>, fold: string): seq<MetricRow> {
    if rows == [] then []
    else Of(rows[..|rows| - 1], fold) + (if rows[|rows| - 1].fold == fold then [rows[|rows| - 1].row] else [])
  }

  /** `metric_rows_by_fold`. */
  method ByFold(rows: seq<FoldRow>) returns (folds: map<string, seq<MetricRow>>)
    ensures forall f :: f in folds <==> Of(rows, f) != []
    ensures forall f :: f in folds ==> folds[f] == Of(rows, f)
  {
    folds := map[];
    var i := 0;
    while i < |rows|
      invariant 0 <= i <= |rows|
      invariant forall f :: f in folds <==> Of(rows[..i], f) != []
      invariant forall f :: f in folds ==> folds[f] == Of(rows[..i], f)
    {
      assert rows[..i + 1][..i] == rows[..i];
      var f := rows[i].fold;
      folds := folds[f := (if f in folds then folds[f] else []) + [rows[i].row]];
      i := i + 1;
    }
    assert rows[..i] == rows;
  }

  /** A fold passes when each side has it exactly once and the two rows agree. */
  predicate FoldPasses(actual: seq<FoldRow>, expected: seq<FoldRow>, fold: string) {
    |Of(actual, fold)| == 1 && |Of(expected, fold)| == 1 && RowsAgree(Of(actual, fold)[0], Of(expected, fold)[0])
  }

  /** The comparison passes exactly when every fold of either side passes. */
  method CompareExpected(actual: seq<FoldRow>, expected: seq<FoldRow>) returns (passed: bool)
    ensures passed <==> forall f :: Of(actual, f) != [] || Of(expected, f) != [] ==> FoldPasses(actual, expected, f)
  {
    hide RowsAgree, Of;
    var a := ByFold(actual);
    var e := ByFold(expected);
    var left := a.Keys + e.Keys;
    passed := true;
    while left != {}
      invariant left <= a.Keys + e.Keys
      invariant passed <==> forall f :: f in a.Keys + e.Keys - left ==> FoldPasses(actual, expected, f)
      decreases left
    {
      var f :| f in left;
      ghost var done := a.Keys + e.Keys - left;
      left := left - {f};
      assert a.Keys + e.Keys - left == done + {f};
      if f !in a || f !in e || |a[f]| > 1 || |e[f]| > 1 {
        assert !FoldPasses(actual, expected, f);
        passed := false;
      } else {
        var mismatches := CompareRows(f, a[f][0], e[f][0]);
        assert |a[f]| == 1 && |e[f]| == 1;
        if mismatches != [] { passed := false; }
      }
    }
  }
}
