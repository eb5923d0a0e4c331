/** The staged merge of the immutable `psql` transport and the sequential
    preflight of the direct loader: two ways to add a batch of keyed rows to a
    table whose rows may never change. */
module ImmutableBatch {
  import opened Prelude

  datatype Entry<K, R> = Entry(key: K, row: R)

  /** No two staged rows of one key differ. */
  predicate StagedAgree<K(==), R(==)>(rows: seq<Entry<K, R>>) {
    forall i, j :: 0 <= i < j < |rows| && rows[i].key == rows[j].key ==> rows[i].row == rows[j].row
  }

  /** No staged row differs from the row the target already holds. */
  predicate TargetAgrees<K(==), R(==)>(target: map<K, R>, rows: seq<Entry<K, R>>) {
    forall i :: 0 <= i < |rows| && rows[i].key in target ==> target[rows[i].key] == rows[i].row
  }

  /** The rows of a batch by key, the first of each key winning. */
  function RowsOf<K, R>(rows: seq<Entry<K, R>>): map<K, R> {
    if rows == [] then map[] else RowsOf(rows[1..])[rows[0].key := rows[0].row]
  }

  /** The staged transaction: both conflict checks, then `ON CONFLICT DO NOTHING`. */
  function StagedMerge<K(==), R(==)>(target: map<K, R>, rows: seq<Entry<K, R>>): Option<map<K, R>> {
    if StagedAgree(rows) && TargetAgrees(target, rows) then Some(RowsOf(rows) + target) else None
  }

  lemma {:induction false} RowsOfKeys<K, R>(rows: seq<Entry<K, R>>, k: K)
    ensures k in RowsOf(rows) <==> exists i :: 0 <= i < |rows| && rows[i].key == k
    decreases |rows|
  {
    if rows != [] {
      RowsOfKeys(rows[1..], k);
      if i :| 0 <= i < |rows| && rows[i].key == k {
        if i > 0 { assert rows[1..][i - 1].key == k; }
      }
      if k in RowsOf(rows[1..]) {
        var i :| 0 <= i < |rows[1..]| && rows[1..][i].key == k;
        assert rows[i + 1].key == k;
      }
      assert rows[0].key in RowsOf(rows);
    }
  }

  lemma {:induction false} RowsOfValue<K, R>(rows: seq<Entry<K, R>>, i: nat)
    requires i < |rows| && StagedAgree(rows)
    ensures rows[i].key in RowsOf(rows) && RowsOf(rows)[rows[i].key] == rows[i].row
    decreases |rows|
  {
    if i > 0 && rows[i].key != rows[0].key {
      assert StagedAgree(rows[1..]) by {
        forall a, b | 0 <= a < b < |rows[1..]| && rows[1..][a].key == rows[1..][b].key
          ensures rows[1..][a].row == rows[1..][b].row
        {
          assert rows[1..][a] == rows[a + 1] && rows[1..][b] == rows[b + 1];
        }
      }
      RowsOfValue(rows[1..], i - 1);
    }
  }

  /** A batch has at most as many keys as rows, and exactly as many only if it
      repeats no key. */
  lemma {:induction false} RowsOfSize<K, R>(rows: seq<Entry<K, R>>)
    ensures |RowsOf(rows)| <= |rows|
    ensures |RowsOf(rows)| == |rows| ==> forall i, j :: 0 <= i < j < |rows| ==> rows[i].key != rows[j].key
    decreases |rows|
  {
    if rows != [] {
      var rest := RowsOf(rows[1..]);
      RowsOfSize(rows[1..]);
      if rows[0].key in rest {
        assert rest[rows[0].key := rows[0].row].Keys == rest.Keys;
      } else {
        assert rest[rows[0].key := rows[0].row].Keys == rest.Keys + {rows[0].key};
        forall i, j | 0 <= i < j < |rows| && |RowsOf(rows)| == |rows| ensures rows[i].key != rows[j].key {
          if i == 0 {
            RowsOfKeys(rows[1..], rows[0].key);
            assert rows[1..][j - 1].key != rows[0].key;
          } else {
            assert rows[1..][i - 1].key != rows[1..][j - 1].key;
          }
        }
      }
    }
  }

  /** Of two batches in a row, the rows of the first win. */
  lemma {:induction false} RowsOfConcat<K, R>(a: seq<Entry<K, R>>, b: seq<Entry<K, R>>)
    ensures RowsOf(a + b) == RowsOf(b) + RowsOf(a)
    decreases |a|
  {
    if a == [] {
      assert a + b == b;
    } else {
      assert (a + b)[1..] == a[1..] + b;
      RowsOfConcat(a[1..], b);
    }
  }

  // ------------------------------------------------------------ laws of the merge

  /** Rows that agree with each other and with the target. */
  predicate Consistent<K(==), R(==)>(target: map<K, R>, rows: seq<Entry<K, R>>) { StagedAgree(rows) && TargetAgrees(target, rows) }

  lemma MergedValue<K, R>(target: map<K, R>, rows: seq<Entry<K, R>>, i: nat)
    requires Consistent(target, rows) && i < |rows|
    ensures rows[i].key in RowsOf(rows) + target && (RowsOf(rows) + target)[rows[i].key] == rows[i].row
  {
    RowsOfValue(rows, i);
  }

  /** The table with all its old rows, the batch's row under every other key of the
      batch, and nothing else. */
  ghost predicate IsMerged<K, R>(target: map<K, R>, rows: seq<Entry<K, R>>, table: map<K, R>) {
    && (forall k :: k in target ==> k in table && table[k] == target[k])
    && (forall i :: 0 <= i < |rows| ==> rows[i].key in table && table[rows[i].key] == rows[i].row)
    && (forall k :: k in table ==> k in target || exists i :: 0 <= i < |rows| && rows[i].key == k)
  }

  lemma MergedIsOnly<K, R>(target: map<K, R>, rows: seq<Entry<K, R>>, table: map<K, R>)
    requires Consistent(target, rows)
    ensures IsMerged(target, rows, table) <==> table == RowsOf(rows) + target
  {
    hide RowsOf, StagedAgree, TargetAgrees;
    var merged := RowsOf(rows) + target;
    forall i | 0 <= i < |rows| ensures rows[i].key in merged && merged[rows[i].key] == rows[i].row { MergedValue(target, rows, i); }
    forall k ensures k in RowsOf(rows) <==> exists i :: 0 <= i < |rows| && rows[i].key == k { RowsOfKeys(rows, k); }
    if IsMerged(target, rows, table) {
      forall k | k in table ensures k in merged && table[k] == merged[k] {
        if k !in target {
          var i :| 0 <= i < |rows| && rows[i].key == k;
        }
      }
      forall k | k in merged ensures k in table {
        if k !in target {
          RowsOfKeys(rows, k);
          var i :| 0 <= i < |rows| && rows[i].key == k;
        }
      }
    }
  }

  /** The merge in plain terms: it is accepted iff no key comes with two different rows,
      in the batch or against the table, and then leaves the merged table. */
  lemma MergeExactly<K, R>(target: map<K, R>, rows: seq<Entry<K, R>>, table: map<K, R>)
    ensures StagedMerge(target, rows) == Some(table)
      <==> ((forall i, j :: 0 <= i < |rows| && 0 <= j < |rows| && rows[i].key == rows[j].key ==> rows[i].row == rows[j].row)
        && (forall i :: 0 <= i < |rows| && rows[i].key in target ==> target[rows[i].key] == rows[i].row)
        && IsMerged(target, rows, table))
  {
    hide RowsOf, IsMerged;
    if Consistent(target, rows) { MergedIsOnly(target, rows, table); }
  }

  /** Merging the same batch again changes nothing and is accepted. */
  lemma MergeIsIdempotent<K, R>(target: map<K, R>, rows: seq<Entry<K, R>>)
    requires StagedMerge(target, rows).Some?
    ensures StagedMerge(StagedMerge(target, rows).value, rows) == StagedMerge(target, rows)
  {
    var merged := RowsOf(rows) + target;
    forall i | 0 <= i < |rows| && rows[i].key in merged ensures merged[rows[i].key] == rows[i].row {
      MergedValue(target, rows, i);
    }
    assert RowsOf(rows) + merged == merged;
  }

  /** Two batches one after the other are one batch: accepted together or not, and
      with the same result. */
  lemma MergeIsSequential<K, R>(target: map<K, R>, a: seq<Entry<K, R>>, b: seq<Entry<K, R>>)
    ensures StagedMerge(target, a + b)
      == if StagedMerge(target, a).Some? then StagedMerge(StagedMerge(target, a).value, b) else None
  {
    if Consistent(target, a + b) {
      PrefixConsistent(target, a, b);
      SuffixConsistent(target, a, b);
    }
    if Consistent(target, a) && Consistent(RowsOf(a) + target, b) {
      BothConsistent(target, a, b);
    }
    if Consistent(target, a) {
      RowsOfConcat(a, b);
      UnionsAssociate(target, RowsOf(a), RowsOf(b), b);
    }
  }

  lemma UnionsAssociate<K, R>(target: map<K, R>, a: map<K, R>, b: map<K, R>, rows: seq<Entry<K, R>>)
    ensures (b + a) + target == b + (a + target)
  {
  }

  lemma PrefixConsistent<K, R>(target: map<K, R>, a: seq<Entry<K, R>>, b: seq<Entry<K, R>>)
    requires Consistent(target, a + b)
    ensures Consistent(target, a)
  {
    forall i, j | 0 <= i < j < |a| && a[i].key == a[j].key ensures a[i].row == a[j].row {
      assert (a + b)[i] == a[i] && (a + b)[j] == a[j];
    }
    forall i | 0 <= i < |a| && a[i].key in target ensures target[a[i].key] == a[i].row {
      assert (a + b)[i] == a[i];
    }
  }

  lemma SuffixConsistent<K, R>(target: map<K, R>, a: seq<Entry<K, R>>, b: seq<Entry<K, R>>)
    requires Consistent(target, a + b)
    ensures Consistent(RowsOf(a) + target, b)
  {
    PrefixConsistent(target, a, b);
    forall i, j | 0 <= i < j < |b| && b[i].key == b[j].key ensures b[i].row == b[j].row {
      assert (a + b)[|a| + i] == b[i] && (a + b)[|a| + j] == b[j];
    }
    forall i | 0 <= i < |b| && b[i].key in RowsOf(a) + target ensures (RowsOf(a) + target)[b[i].key] == b[i].row {
      assert (a + b)[|a| + i] == b[i];
      if b[i].key in target {
      } else {
        RowsOfKeys(a, b[i].key);
        var j :| 0 <= j < |a| && a[j].key == b[i].key;
        RowsOfValue(a, j);
        assert (a + b)[j] == a[j];
      }
    }
  }

  lemma BothConsistent<K, R>(target: map<K, R>, a: seq<Entry<K, R>>, b: seq<Entry<K, R>>)
    requires Consistent(target, a) && Consistent(RowsOf(a) + target, b)
    ensures Consistent(target, a + b)
  {
    forall i, j | 0 <= i < j < |a + b| && (a + b)[i].key == (a + b)[j].key ensures (a + b)[i].row == (a + b)[j].row {
      if i < |a| && j >= |a| {
        MergedValue(target, a, i);
        assert (a + b)[i] == a[i] && (a + b)[j] == b[j - |a|];
      }
    }
    forall i | 0 <= i < |a + b| && (a + b)[i].key in target ensures target[(a + b)[i].key] == (a + b)[i].row {
      if i >= |a| {
        assert (a + b)[i] == b[i - |a|];
        assert (RowsOf(a) + target)[b[i - |a|].key] == b[i - |a|].row;
      }
    }
  }

  lemma AgreementIsSymmetric<K, R>(target: map<K, R>, a: seq<Entry<K, R>>, b: seq<Entry<K, R>>)
    requires Consistent(target, a + b)
    ensures Consistent(target, b + a)
  {
    PrefixConsistent(target, a, b);
    SuffixConsistent(target, a, b);
    forall i, j | 0 <= i < j < |b + a| && (b + a)[i].key == (b + a)[j].key ensures (b + a)[i].row == (b + a)[j].row {
      if i < |b| && j >= |b| {
        assert (a + b)[|a| + i] == (b + a)[i] && (a + b)[j - |b|] == (b + a)[j];
      }
    }
    forall i | 0 <= i < |b + a| && (b + a)[i].key in target ensures target[(b + a)[i].key] == (b + a)[i].row {
      if i < |b| {
        assert (a + b)[|a| + i] == (b + a)[i];
      } else {
        assert (a + b)[i - |b|] == (b + a)[i];
      }
    }
  }

  /** Mutually consistent batches commute. */
  lemma MergesCommute<K(!new), R>(target: map<K, R>, a: seq<Entry<K, R>>, b: seq<Entry<K, R>>)
    requires Consistent(target, a + b)
    ensures StagedMerge(target, a).Some? && StagedMerge(target, b).Some?
    ensures StagedMerge(StagedMerge(target, a).value, b).Some?
    ensures StagedMerge(StagedMerge(target, a).value, b) == StagedMerge(StagedMerge(target, b).value, a)
  {
    AgreementIsSymmetric(target, a, b);
    MergeIsSequential(target, a, b);
    MergeIsSequential(target, b, a);
    PrefixConsistent(target, a, b);
    PrefixConsistent(target, b, a);
    SameRowsSameMap(a + b, b + a);
  }

  /** Batches with the same rows in any order give the same map. */
  lemma SameRowsSameMap<K(!new), R>(a: seq<Entry<K, R>>, b: seq<Entry<K, R>>)
    requires StagedAgree(a) && StagedAgree(b)
    requires forall e :: e in a <==> e in b
    ensures RowsOf(a) == RowsOf(b)
  {
    forall k ensures (k in RowsOf(a) <==> k in RowsOf(b)) && (k in RowsOf(a) ==> RowsOf(a)[k] == RowsOf(b)[k]) {
      RowsOfKeys(a, k);
      RowsOfKeys(b, k);
      if i :| 0 <= i < |a| && a[i].key == k {
        RowsOfValue(a, i);
        assert a[i] in b;
        var j :| 0 <= j < |b| && b[j] == a[i];
        RowsOfValue(b, j);
      }
      if i :| 0 <= i < |b| && b[i].key == k {
        assert b[i] in a;
        var j :| 0 <= j < |a| && a[j] == b[i];
        assert a[j].key == k;
      }
    }
  }

  /** Reported counts add up: what was inserted and what was already there. */
  lemma InsertedAndExisting<K, R>(target: map<K, R>, rows: seq<Entry<K, R>>)
    requires StagedMerge(target, rows).Some?
    ensures 0 <= |StagedMerge(target, rows).value| - |target| <= |rows|
    ensures |StagedMerge(target, rows).value| - |target| == |RowsOf(rows).Keys - target.Keys|
  {
    assert StagedMerge(target, rows).value.Keys == RowsOf(rows).Keys + target.Keys;
    DifferenceSize(RowsOf(rows).Keys, target.Keys);
    RowsOfSize(rows);
  }

  // ------------------------------------------------------- the sequential preflight

  /** Inserting rows one by one. */
  function InsertAll<K, R>(target: map<K, R>, rows: seq<Entry<K, R>>): map<K, R> {
    if rows == [] then target else InsertAll(target, rows[..|rows| - 1])[rows[|rows| - 1].key := rows[|rows| - 1].row]
  }

  /** The preflight of a direct batch: one pass with a `seen` map that starts with
      the rows found in the target. It accepts exactly the batches the staged
      transaction accepts, and what it leaves to insert gives the same table. */
  method Preflight<K(==,!new), R(==,!new)>(target: map<K, R>, rows: seq<Entry<K, R>>)
      returns (accepted: bool, pending: seq<Entry<K, R>>, existing: nat)
    ensures accepted <==> StagedMerge(target, rows).Some?
    ensures accepted ==> InsertAll(target, pending) == StagedMerge(target, rows).value
    ensures accepted ==> |pending| + existing == |rows|
    ensures accepted ==> |pending| == |StagedMerge(target, rows).value| - |target|
    ensures PendingNew(target, rows, pending)
  {
    hide StagedMerge, InsertAll, Preflighted, PendingNew;
    var seen := target;
    pending, existing, accepted := [], 0, true;
    NothingSeen(target, rows);
    NothingPending(target, rows);
    var i := 0;
    while i < |rows|
      invariant 0 <= i <= |rows| && Preflighted(target, rows, i, seen, pending, existing)
      invariant PendingNew(target, rows, pending)
    {
      PreflightStep(target, rows, i, seen, pending, existing);
      if rows[i].key !in seen {
        PendingOneMore(target, rows, i, seen, pending, existing);
        pending := pending + [rows[i]];
        seen := seen[rows[i].key := rows[i].row];
      } else if seen[rows[i].key] == rows[i].row {
        existing := existing + 1;
      } else {
        NothingPending(target, rows);
        return false, [], 0;
      }
      i := i + 1;
    }
    WholeMerge(target, rows, seen, pending, existing);
  }

  /** The loop after `i` rows: what is seen, what is pending, what was there. */
  ghost predicate Preflighted<K(!new), R>(target: map<K, R>, rows: seq<Entry<K, R>>, i: nat, seen: map<K, R>, pending: seq<Entry<K, R>>, existing: nat) {
    && i <= |rows| && Consistent(target, rows[..i]) && seen == RowsOf(rows[..i]) + target
    && InsertAll(target, pending) == seen
    && |pending| + existing == i && |pending| == |seen| - |target|
  }

  /** What is pending are rows of the batch that the target does not have. */
  ghost predicate PendingNew<K(!new), R(!new)>(target: map<K, R>, rows: seq<Entry<K, R>>, pending: seq<Entry<K, R>>) {
    forall e :: e in pending ==> e in rows && e.key !in target
  }

  lemma NothingPending<K(!new), R(!new)>(target: map<K, R>, rows: seq<Entry<K, R>>)
    ensures PendingNew(target, rows, [])
  {
  }

  lemma PendingOneMore<K(!new), R(!new)>(target: map<K, R>, rows: seq<Entry<K, R>>, i: nat, seen: map<K, R>, pending: seq<Entry<K, R>>, existing: nat)
    requires i < |rows| && Preflighted(target, rows, i, seen, pending, existing) && PendingNew(target, rows, pending)
    requires rows[i].key !in seen
    ensures PendingNew(target, rows, pending + [rows[i]])
  {
  }

  lemma NothingSeen<K(!new), R>(target: map<K, R>, rows: seq<Entry<K, R>>)
    ensures Preflighted(target, rows, 0, target, [], 0)
  {
    assert rows[..0] == [];
    assert RowsOf(rows[..0]) == map[];
  }

  lemma Inserted<K, R>(target: map<K, R>, pending: seq<Entry<K, R>>, e: Entry<K, R>, seen: map<K, R>)
    requires InsertAll(target, pending) == seen && e.key !in seen
    ensures InsertAll(target, pending + [e]) == seen[e.key := e.row] && |seen[e.key := e.row]| == |seen| + 1
  {
    assert (pending + [e])[..|pending|] == pending;
    assert seen[e.key := e.row].Keys == seen.Keys + {e.key};
  }

  lemma PreflightStep<K(!new), R>(target: map<K, R>, rows: seq<Entry<K, R>>, i: nat, seen: map<K, R>, pending: seq<Entry<K, R>>, existing: nat)
    requires i < |rows| && Preflighted(target, rows, i, seen, pending, existing)
    ensures rows[i].key !in seen ==>
      Preflighted(target, rows, i + 1, seen[rows[i].key := rows[i].row], pending + [rows[i]], existing)
    ensures rows[i].key in seen && seen[rows[i].key] == rows[i].row ==> Preflighted(target, rows, i + 1, seen, pending, existing + 1)
    ensures rows[i].key in seen && seen[rows[i].key] != rows[i].row ==> StagedMerge(target, rows).None?
  {
    hide Consistent, RowsOf, InsertAll, StagedMerge;
    NextRow(target, rows, i);
    if rows[i].key !in seen {
      Inserted(target, pending, rows[i], seen);
    } else if seen[rows[i].key] != rows[i].row {
      PrefixRefused(target, rows, i + 1);
    }
  }

  lemma PrefixRefused<K, R>(target: map<K, R>, rows: seq<Entry<K, R>>, n: nat)
    requires n <= |rows| && !Consistent(target, rows[..n])
    ensures StagedMerge(target, rows).None?
  {
    assert rows[..n] + rows[n..] == rows;
    MergeIsSequential(target, rows[..n], rows[n..]);
  }

  lemma WholeMerge<K(!new), R>(target: map<K, R>, rows: seq<Entry<K, R>>, seen: map<K, R>, pending: seq<Entry<K, R>>, existing: nat)
    requires Preflighted(target, rows, |rows|, seen, pending, existing)
    ensures StagedMerge(target, rows) == Some(seen) && InsertAll(target, pending) == seen
    ensures |pending| + existing == |rows| && |pending| == |seen| - |target|
  {
    assert rows[..|rows|] == rows;
  }

  /** One more row: accepted exactly if the rows seen so far do not contradict it. */
  lemma NextRow<K, R>(target: map<K, R>, rows: seq<Entry<K, R>>, i: nat)
    requires i < |rows| && Consistent(target, rows[..i])
    ensures var seen, e := RowsOf(rows[..i]) + target, rows[i];
      && (Consistent(target, rows[..i + 1]) <==> e.key in seen ==> seen[e.key] == e.row)
      && (Consistent(target, rows[..i + 1]) ==> RowsOf(rows[..i + 1]) + target == if e.key in seen then seen else seen[e.key := e.row])
  {
    var seen, one := RowsOf(rows[..i]) + target, [rows[i]];
    assert rows[..i + 1] == rows[..i] + one;
    MergeIsSequential(target, rows[..i], one);
    assert RowsOf(one) == map[rows[i].key := rows[i].row] by { assert one[1..] == []; }
  }

  // --------------------------------------------------- persisting a direct batch

  /** The stored rows of the batch's keys, which is all the preflight reads. */
  function Found<K(==), R>(target: map<K, R>, rows: seq<Entry<K, R>>): map<K, R> {
    map k | k in target && (exists i :: 0 <= i < |rows| && rows[i].key == k) :: target[k]
  }

  lemma FoundDecides<K, R>(target: map<K, R>, rows: seq<Entry<K, R>>)
    ensures Consistent(Found(target, rows), rows) <==> Consistent(target, rows)
  {
    if TargetAgrees(Found(target, rows), rows) {
      forall i | 0 <= i < |rows| && rows[i].key in target ensures target[rows[i].key] == rows[i].row {
        assert rows[i].key in Found(target, rows);
      }
    }
  }

  /** Inserting keys that are not there puts their rows beside the others. */
  lemma {:induction false} InsertAllIsUnion<K, R>(target: map<K, R>, pending: seq<Entry<K, R>>)
    ensures InsertAll(target, pending) == target + InsertAll(map[], pending)
    ensures forall k :: k in InsertAll(map[], pending) <==> exists i :: 0 <= i < |pending| && pending[i].key == k
    decreases |pending|
  {
    if pending != [] {
      InsertAllIsUnion(target, pending[..|pending| - 1]);
      var rest, last := pending[..|pending| - 1], pending[|pending| - 1];
      forall k ensures k in InsertAll(map[], pending) <==> exists i :: 0 <= i < |pending| && pending[i].key == k {
        if i :| 0 <= i < |pending| && pending[i].key == k {
          if i < |rest| { assert rest[i].key == k; }
        }
        if i :| 0 <= i < |rest| && rest[i].key == k { assert pending[i].key == k; }
        assert pending[|pending| - 1].key == last.key;
      }
    }
  }

  lemma PendingCompletes<K(!new), R(!new)>(target: map<K, R>, rows: seq<Entry<K, R>>, pending: seq<Entry<K, R>>)
    requires Consistent(target, rows)
    requires InsertAll(Found(target, rows), pending) == RowsOf(rows) + Found(target, rows)
    requires PendingNew(Found(target, rows), rows, pending)
    ensures InsertAll(target, pending) == RowsOf(rows) + target
  {
    InsertAllIsUnion(target, pending);
    InsertAllIsUnion(Found(target, rows), pending);
    var added := InsertAll(map[], pending);
    assert Found(target, rows) + added == RowsOf(rows) + Found(target, rows);
    forall k ensures (k in target + added <==> k in RowsOf(rows) + target) && (k in target + added ==> (target + added)[k] == (RowsOf(rows) + target)[k]) {
      RowsOfKeys(rows, k);
      if k in added {
        var i :| 0 <= i < |pending| && pending[i].key == k;
        assert pending[i] in pending;
        assert k in Found(target, rows) + added;
      }
    }
  }

  /** `persist_batch`: read the stored rows of the batch's keys, preflight, insert. */
  method Persist<K(==,!new), R(==,!new)>(target: map<K, R>, rows: seq<Entry<K, R>>)
      returns (merged: Option<map<K, R>>, added: nat, already: nat)
    ensures merged == StagedMerge(target, rows)
    ensures merged.Some? ==> added == |merged.value| - |target| && added + already == |rows|
  {
    FoundDecides(target, rows);
    var accepted, pending, existing := Preflight(Found(target, rows), rows);
    if !accepted { return None, 0, 0; }
    PendingCompletes(target, rows, pending);
    hide Consistent, RowsOf, InsertAll, Found;
    var table, i := target, 0;
    assert pending[..0] == [];
    NothingInserted(target);
    while i < |pending|
      invariant 0 <= i <= |pending| && table == InsertAll(target, pending[..i])
    {
      InsertNext(target, pending, i);
      table := table[pending[i].key := pending[i].row];
      i := i + 1;
    }
    assert pending[..i] == pending;
    merged, added, already := Some(table), |pending|, existing;
    AddedCount(target, rows);
    AddedCount(Found(target, rows), rows);
    SameNew(target, rows);
    WholeBatch(target, rows);
  }

  lemma NothingInserted<K, R>(target: map<K, R>)
    ensures InsertAll(target, []) == target
  {
  }

  lemma InsertNext<K, R>(target: map<K, R>, pending: seq<Entry<K, R>>, i: nat)
    requires i < |pending|
    ensures InsertAll(target, pending[..i + 1]) == InsertAll(target, pending[..i])[pending[i].key := pending[i].row]
  {
    assert pending[..i + 1][..i] == pending[..i];
  }

  lemma AddedCount<K, R>(target: map<K, R>, rows: seq<Entry<K, R>>)
    ensures |RowsOf(rows) + target| == |target| + |RowsOf(rows).Keys - target.Keys|
  {
    assert (RowsOf(rows) + target).Keys == RowsOf(rows).Keys + target.Keys;
    DifferenceSize(RowsOf(rows).Keys, target.Keys);
  }

  lemma SameNew<K, R>(target: map<K, R>, rows: seq<Entry<K, R>>)
    ensures RowsOf(rows).Keys - target.Keys == RowsOf(rows).Keys - Found(target, rows).Keys
  {
    forall k | k in RowsOf(rows) ensures k in target <==> k in Found(target, rows) {
      RowsOfKeys(rows, k);
    }
  }

  lemma WholeBatch<K, R>(target: map<K, R>, rows: seq<Entry<K, R>>)
    ensures StagedMerge(target, rows).Some? ==> StagedMerge(target, rows).value == RowsOf(rows) + target
  {
  }
}
