/** Runs of the liquidity loader: with any batch size, stopped anywhere and
    resumed at any reported checkpoint, the table ends as one pass over the
    artifact leaves it. */
module LiquidityRun {
  import opened Prelude
  import opened ImmutableBatch
  import opened Liquidity

  type Table = map<RowKey, LiquidityRow>

  datatype Status = Done | Conflict | Killed

  class Target {
    var rows: Table

    constructor (rows: Table)
      ensures this.rows == rows
    {
      this.rows := rows;
    }
  }

  /** The rows a run started at a cursor will see. */
  function Items(artifact: seq<Resolved>, resumeAfter: nat): seq<Item> {
    Yields(artifact, Min(resumeAfter, |artifact|), |artifact|)
  }

  function BatchEnd(items: seq<Item>, start: nat, batchSize: nat): nat { Min(start + batchSize, |items|) }

  /** The reported checkpoint: the cursor of the last committed row, 0 before any. */
  function Checkpoint(items: seq<Item>, committed: nat): nat
    requires committed <= |items|
  {
    if committed == 0 then 0 else items[committed - 1].row.cursor
  }

  /** The state of a run between two commits. */
  ghost predicate Committed(before: Table, table: Table, items: seq<Item>, committed: nat, inserted: nat, existing: nat, checkpoint: nat) {
    && committed <= |items|
    && StagedMerge(before, items[..committed]) == Some(table)
    && inserted + existing == committed && inserted == |table| - |before|
    && checkpoint == Checkpoint(items, committed)
  }

  lemma NothingCommitted(before: Table, items: seq<Item>)
    ensures Committed(before, before, items, 0, 0, 0, 0)
  {
    NothingMerged(before, items);
  }

  lemma BatchCommitted(before: Table, table: Table, items: seq<Item>, committed: nat, inserted: nat, existing: nat, checkpoint: nat,
      batch: seq<Item>, merged: Table, added: nat, already: nat)
    requires Committed(before, table, items, committed, inserted, existing, checkpoint)
    requires committed + |batch| <= |items| && batch == items[committed..committed + |batch|] && batch != []
    requires StagedMerge(table, batch) == Some(merged) && added == |merged| - |table| && added + already == |batch|
    ensures Committed(before, merged, items, committed + |batch|, inserted + added, existing + already, batch[|batch| - 1].row.cursor)
  {
    hide StagedMerge;
    var end := committed + |batch|;
    assert items[..end] == items[..committed] + batch;
    MergeIsSequential(before, items[..committed], batch);
    assert batch[|batch| - 1] == items[end - 1];
  }

  /** One run: read the stream, commit full batches and the last partial one, stop at
      the first conflict. `killAfter` is the number of commits after which the
      process dies, if it does. */
  method Run(target: Target, artifact: seq<Resolved>, batchSize: nat, resumeAfter: nat, killAfter: Option<nat>)
      returns (status: Status, checkpoint: nat, inserted: nat, existing: nat, ghost committed: nat)
    requires batchSize > 0
    modifies target
    ensures Committed(old(target.rows), target.rows, Items(artifact, resumeAfter), committed, inserted, existing, checkpoint)
    ensures status.Done? ==> committed == |Items(artifact, resumeAfter)|
    ensures status.Conflict? ==> committed < |Items(artifact, resumeAfter)|
    ensures status.Conflict? ==>
      StagedMerge(target.rows, Items(artifact, resumeAfter)[committed..BatchEnd(Items(artifact, resumeAfter), committed, batchSize)]).None?
    ensures killAfter.None? ==> !status.Killed?
  {
    hide Committed, StagedMerge, Items, Yields, Rejections, Min, NatSum;
    var stream := new PanelRowStream(artifact, resumeAfter, None);
    ghost var before, items := target.rows, Items(artifact, resumeAfter);
    checkpoint, inserted, existing, committed := 0, 0, 0, 0;
    NothingCommitted(before, items);
    StreamStart(stream);
    var batch: seq<Item>, over, commits := [], false, 0;
    while !over
      invariant stream.Valid() && fresh(stream) && stream.artifact == artifact && stream.resumeAfter == resumeAfter && stream.maxRows == None
      invariant Committed(before, target.rows, items, committed, inserted, existing, checkpoint)
      invariant committed + |batch| <= |items| && items[..committed + |batch|] == stream.Yielded() && batch == items[committed..committed + |batch|]
      invariant |batch| < batchSize
      invariant over ==> batch == [] && committed == |items|
      decreases |artifact| - stream.lastCursor, !over
    {
      if killAfter.Some? && commits >= killAfter.value { status := Killed; return; }
      ghost var seen := stream.Yielded();
      var item := stream.Next();
      StreamPrefix(stream, items);
      if item.Some? {
        NextItem(items, seen, item.value, stream.Yielded(), committed, batch);
        batch := batch + [item.value];
      } else {
        StreamOver(stream, items);
        over := true;
      }
      if |batch| == batchSize || (over && batch != []) {
        var merged, added, already := Persist(target.rows, batch);
        if merged.None? {
          BatchIsNext(items, committed, batchSize, batch);
          status := Conflict;
          return;
        }
        BatchCommitted(before, target.rows, items, committed, inserted, existing, checkpoint, batch, merged.value, added, already);
        target.rows := merged.value;
        inserted, existing := inserted + added, existing + already;
        checkpoint := batch[|batch| - 1].row.cursor;
        committed := committed + |batch|;
        batch := [];
        commits := commits + 1;
      }
    }
    status := Done;
  }

  lemma BatchIsNext(items: seq<Item>, committed: nat, batchSize: nat, batch: seq<Item>)
    requires committed + |batch| <= |items| && batch == items[committed..committed + |batch|]
    requires |batch| == batchSize || (|batch| < batchSize && committed + |batch| == |items|)
    ensures batch == items[committed..BatchEnd(items, committed, batchSize)]
  {
  }

  lemma StreamStart(stream: PanelRowStream)
    requires stream.Valid() && stream.lastCursor == 0
    ensures stream.Yielded() == []
  {
  }

  /** What the stream has yielded is a prefix of what it will yield. */
  lemma StreamPrefix(stream: PanelRowStream, items: seq<Item>)
    requires stream.Valid() && stream.maxRows == None && items == Items(stream.artifact, stream.resumeAfter)
    ensures |stream.Yielded()| <= |items| && stream.Yielded() == items[..|stream.Yielded()|]
  {
    var from := Min(stream.resumeAfter, |stream.artifact|);
    if stream.lastCursor >= from {
      YieldsSplit(stream.artifact, from, stream.lastCursor, |stream.artifact|);
    } else {
      assert stream.Yielded() == [];
    }
  }

  lemma StreamOver(stream: PanelRowStream, items: seq<Item>)
    requires stream.Valid() && stream.maxRows == None && items == Items(stream.artifact, stream.resumeAfter)
    requires stream.lastCursor == stream.End()
    ensures stream.Yielded() == items
  {
  }

  lemma NextItem(items: seq<Item>, seen: seq<Item>, item: Item, yielded: seq<Item>, committed: nat, batch: seq<Item>)
    requires yielded == seen + [item] && |yielded| <= |items| && yielded == items[..|yielded|]
    requires committed + |batch| <= |items| && items[..committed + |batch|] == seen && batch == items[committed..committed + |batch|]
    ensures committed + |batch| + 1 <= |items| && items[..committed + |batch| + 1] == yielded
    ensures batch + [item] == items[committed..committed + |batch| + 1]
  {
    var n := committed + |batch|;
    assert |seen| == n;
    assert items[n] == yielded[n] == item;
  }

  // ------------------------------------------------------------------- sessions

  /** Merging again from any earlier point: rows already merged change nothing. */
  lemma RestartAnywhere(before: Table, table: Table, items: seq<Item>, committed: nat, from: nat)
    requires from <= committed <= |items| && StagedMerge(before, items[..committed]) == Some(table)
    ensures StagedMerge(table, items[from..]) == StagedMerge(before, items)
  {
    var again, rest := items[from..committed], items[committed..];
    assert items[..committed] == items[..from] + again;
    assert items[from..] == again + rest && items == items[..committed] + rest;
    MergeIsSequential(before, items[..from], again);
    var half := StagedMerge(before, items[..from]).value;
    MergeIsIdempotent(half, again);
    MergeIsSequential(table, again, rest);
    MergeIsSequential(before, items[..committed], rest);
  }

  /** A run resumed at a checkpoint sees exactly the rows after it. */
  lemma ResumedItems(artifact: seq<Resolved>, resumeAfter: nat, committed: nat)
    requires 0 < committed <= |Items(artifact, resumeAfter)|
    ensures Items(artifact, Checkpoint(Items(artifact, resumeAfter), committed)) == Items(artifact, resumeAfter)[committed..]
  {
    ResumeAtCursor(artifact, Min(resumeAfter, |artifact|), |artifact|, committed - 1);
  }

  /** One interrupted session: it started at some reported checkpoint and committed
      some of the rows it saw. */
  datatype Session = Session(start: nat, committed: nat)

  /** Sessions over one artifact: each resumes at 0 or at a checkpoint that was
      reported for rows already in the table, and leaves its merged prefix. */
  ghost predicate Sessions(artifact: seq<Resolved>, before: Table, sessions: seq<Session>, tables: seq<Table>) {
    && |tables| == |sessions| + 1 && tables[0] == before
    && forall i :: 0 <= i < |sessions| ==>
         && sessions[i].committed <= |Items(artifact, sessions[i].start)|
         && StagedMerge(tables[i], Items(artifact, sessions[i].start)[..sessions[i].committed]) == Some(tables[i + 1])
         && Reported(artifact, sessions, i)
  }

  /** A session starts at 0 or at any checkpoint an earlier session reported, the last
      one or one before it. */
  ghost predicate Reported(artifact: seq<Resolved>, sessions: seq<Session>, i: nat)
    requires i < |sessions|
  {
    || sessions[i].start == 0
    || exists j, c: nat :: 0 <= j < i && 0 < c <= sessions[j].committed <= |Items(artifact, sessions[j].start)|
         && sessions[i].start == Checkpoint(Items(artifact, sessions[j].start), c)
  }

  /** How far into the whole artifact a session got. */
  ghost predicate Reaches(artifact: seq<Resolved>, s: Session, n: nat) {
    && n <= |Items(artifact, 0)| && s.committed <= |Items(artifact, s.start)| && s.committed <= n
    && Items(artifact, s.start) == Items(artifact, 0)[n - s.committed..]
  }

  ghost predicate ReachedBy(artifact: seq<Resolved>, s: Session, high: nat) { exists n: nat :: n <= high && Reaches(artifact, s, n) }

  lemma SubSlice<T>(s: seq<T>, a: nat, b: nat)
    requires a <= b <= |s|
    ensures s[a..][..b - a] == s[a..b] && s[a..][b - a..] == s[b..]
  {
  }

  /** After any sessions the table is the merge of some prefix of the artifact, at
      least as long as any session has reached; so a final complete session gives
      what one pass would. */
  lemma {:induction false} SessionsMergeAPrefix(artifact: seq<Resolved>, before: Table, sessions: seq<Session>, tables: seq<Table>, i: nat) returns (high: nat)
    requires Sessions(artifact, before, sessions, tables) && i <= |sessions|
    ensures high <= |Items(artifact, 0)| && StagedMerge(before, Items(artifact, 0)[..high]) == Some(tables[i])
    ensures forall j :: 0 <= j < i ==> ReachedBy(artifact, sessions[j], high)
    decreases i
  {
    hide StagedMerge;
    var all := Items(artifact, 0);
    if i == 0 {
      high := 0;
      NothingMerged(before, all);
    } else {
      var low := SessionsMergeAPrefix(artifact, before, sessions, tables, i - 1);
      var s := sessions[i - 1];
      assert Reported(artifact, sessions, i - 1);
      var from := StartReached(artifact, sessions, i - 1, low);
      var n := from + s.committed;
      SessionMerges(before, tables[i - 1], tables[i], all, low, from, n);
      high := if n > low then n else low;
      assert Reaches(artifact, s, n);
      forall j | 0 <= j < i ensures ReachedBy(artifact, sessions[j], high) {
        if j < i - 1 { ReachedFurther(artifact, sessions[j], low, high); }
      }
    }
  }

  lemma ReachedFurther(artifact: seq<Resolved>, s: Session, low: nat, high: nat)
    requires ReachedBy(artifact, s, low) && low <= high
    ensures ReachedBy(artifact, s, high)
  {
  }

  lemma NothingMerged(before: Table, all: seq<Item>)
    ensures StagedMerge(before, all[..0]) == Some(before)
  {
    assert all[..0] == [];
    assert RowsOf(all[..0]) + before == before;
  }

  lemma StartReached(artifact: seq<Resolved>, sessions: seq<Session>, i: nat, low: nat) returns (from: nat)
    requires i < |sessions| && Reported(artifact, sessions, i) && low <= |Items(artifact, 0)|
    requires forall j :: 0 <= j < i ==> ReachedBy(artifact, sessions[j], low)
    ensures from <= low && Items(artifact, sessions[i].start) == Items(artifact, 0)[from..]
  {
    if sessions[i].start == 0 {
      from := 0;
    } else {
      var j, c: nat :| 0 <= j < i && 0 < c <= sessions[j].committed <= |Items(artifact, sessions[j].start)|
        && sessions[i].start == Checkpoint(Items(artifact, sessions[j].start), c);
      assert ReachedBy(artifact, sessions[j], low);
      var n: nat :| n <= low && Reaches(artifact, sessions[j], n);
      ResumedItems(artifact, sessions[j].start, c);
      var base := n - sessions[j].committed;
      SubSlice(Items(artifact, 0), base, base + c);
      from := base + c;
    }
  }

  lemma SessionMerges(before: Table, table: Table, after: Table, all: seq<Item>, low: nat, from: nat, n: nat)
    requires from <= low <= |all| && from <= n <= |all|
    requires StagedMerge(before, all[..low]) == Some(table)
    requires StagedMerge(table, all[from..][..n - from]) == Some(after)
    ensures StagedMerge(before, all[..if n > low then n else low]) == Some(after)
  {
    SubSlice(all, from, n);
    hide StagedMerge;
    if n > low {
      assert all[..n][..low] == all[..low] && all[..n][from..] == all[from..n];
      RestartAnywhere(before, table, all[..n], low, from);
    } else {
      assert all[..low][..n] == all[..n];
      assert all[..low] == all[..n] + all[n..low] && all[..n] == all[..from] + all[from..n];
      Absorbed(before, table, all, low, from, n);
    }
  }

  /** A slice inside what is merged already is merged without effect. */
  lemma Absorbed(before: Table, table: Table, all: seq<Item>, low: nat, from: nat, n: nat)
    requires from <= n <= low <= |all| && StagedMerge(before, all[..low]) == Some(table)
    ensures StagedMerge(table, all[from..n]) == Some(table)
  {
    assert all[..low] == all[..from] + (all[from..n] + all[n..low]);
    MergeIsSequential(before, all[..from], all[from..n] + all[n..low]);
    var half := StagedMerge(before, all[..from]).value;
    MergeIsSequential(half, all[from..n], all[n..low]);
    forall i | 0 <= i < |all[from..n]| && all[from..n][i].key in table ensures table[all[from..n][i].key] == all[from..n][i].row {
      MergedValue(before, all[..low], from + i);
    }
    forall i | 0 <= i < |all[from..n]| ensures all[from..n][i].key in table {
      MergedValue(before, all[..low], from + i);
    }
    RowsInside(table, all[from..n]);
  }

  lemma RowsInside(table: Table, rows: seq<Item>)
    requires Consistent(table, rows) && forall i :: 0 <= i < |rows| ==> rows[i].key in table
    ensures StagedMerge(table, rows) == Some(table)
  {
    forall k | k in RowsOf(rows) ensures k in table {
      RowsOfKeys(rows, k);
    }
    assert RowsOf(rows) + table == table;
  }

  /** The loader's promise: however it was stopped and resumed, once a session runs
      to the end the table is that of one pass over the artifact; and if one pass
      would conflict, no sequence of sessions ever completes. */
  lemma CompletedSessionsAreOnePass(artifact: seq<Resolved>, before: Table, sessions: seq<Session>, tables: seq<Table>)
    requires Sessions(artifact, before, sessions, tables) && sessions != []
    requires sessions[|sessions| - 1].committed == |Items(artifact, sessions[|sessions| - 1].start)|
    ensures StagedMerge(before, Items(artifact, 0)) == Some(tables[|sessions|])
  {
    hide StagedMerge, Sessions;
    var high := SessionsMergeAPrefix(artifact, before, sessions, tables, |sessions|);
    var s := sessions[|sessions| - 1];
    assert ReachedBy(artifact, s, high);
    var n: nat :| n <= high && Reaches(artifact, s, n);
    assert n == |Items(artifact, 0)|;
    assert Items(artifact, 0)[..high] == Items(artifact, 0);
  }

  predicate DistinctKeys(items: seq<Item>) { forall i, j :: 0 <= i < j < |items| ==> items[i].key != items[j].key }

  predicate StoredEqual(target: Table, items: seq<Item>) {
    forall i :: 0 <= i < |items| && items[i].key in target ==> target[items[i].key] == items[i].row
  }

  /** Row equality includes the artifact cursor, so equal rows under one key still
      conflict: one pass accepts an artifact exactly when no key occurs twice in it and
      every stored row under one of its keys is that very row. */
  lemma OnePassAcceptsExactly(artifact: seq<Resolved>, target: Table)
    ensures StagedMerge(target, Items(artifact, 0)).Some?
      <==> DistinctKeys(Items(artifact, 0)) && StoredEqual(target, Items(artifact, 0))
  {
    var items := Items(artifact, 0);
    YieldsIncrease(artifact, 0, |artifact|);
    if StagedMerge(target, items).Some? {
      forall i, j | 0 <= i < j < |items| ensures items[i].key != items[j].key {
        assert items[i].row.cursor < items[j].row.cursor;
      }
    }
  }

  /** So a key that occurs twice blocks every session that gets to the end. */
  lemma RepeatedKeyNeverCompletes(artifact: seq<Resolved>, before: Table, sessions: seq<Session>, tables: seq<Table>)
    requires Sessions(artifact, before, sessions, tables) && sessions != []
    requires !DistinctKeys(Items(artifact, 0))
    ensures sessions[|sessions| - 1].committed < |Items(artifact, sessions[|sessions| - 1].start)|
  {
    hide StagedMerge, DistinctKeys, Sessions;
    OnePassAcceptsExactly(artifact, before);
    if sessions[|sessions| - 1].committed == |Items(artifact, sessions[|sessions| - 1].start)| {
      CompletedSessionsAreOnePass(artifact, before, sessions, tables);
    }
    LastSession(artifact, before, sessions, tables);
  }

  lemma LastSession(artifact: seq<Resolved>, before: Table, sessions: seq<Session>, tables: seq<Table>)
    requires Sessions(artifact, before, sessions, tables) && sessions != []
    ensures sessions[|sessions| - 1].committed <= |Items(artifact, sessions[|sessions| - 1].start)|
  {
  }
}
