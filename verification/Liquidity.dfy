/** The resumable liquidity loader: a single-use stream over an artifact with
    post-consumption accounting, and a run that commits its rows in batches,
    reports a checkpoint per batch, and stops at the first conflict. */
module Liquidity {
  import opened Prelude
  import opened ImmutableBatch

  datatype RowKey = RowKey(cusip9: string, month: string, source: string)

  /** A row as it is stored: the resolved content and the artifact row it came from. */
  datatype LiquidityRow = LiquidityRow(content: string, quoted: bool, cursor: nat)

  /** What the resolver makes of one artifact row. */
  datatype Resolved = Valid(key: RowKey, content: string, quoted: bool) | Rejected(code: string)

  type Item = Entry<RowKey, LiquidityRow>

  /** The rows a stream yields from the artifact rows with cursors in (low, high]. */
  function Yields(artifact: seq<Resolved>, low: nat, high: nat): seq<Item>
    requires low <= high <= |artifact|
    decreases high - low
  {
    if low == high then []
    else
      var rest := Yields(artifact, low, high - 1);
      match artifact[high - 1]
      case Valid(key, content, quoted) => rest + [Entry(key, LiquidityRow(content, quoted, high))]
      case Rejected(_) => rest
  }

  /** How many of those artifact rows are rejected. */
  function Rejections(artifact: seq<Resolved>, low: nat, high: nat): nat
    requires low <= high <= |artifact|
    decreases high - low
  {
    if low == high then 0 else Rejections(artifact, low, high - 1) + (if artifact[high - 1].Rejected? then 1 else 0)
  }

  lemma {:induction false} YieldsAndRejections(artifact: seq<Resolved>, low: nat, high: nat)
    requires low <= high <= |artifact|
    ensures |Yields(artifact, low, high)| + Rejections(artifact, low, high) == high - low
    decreases high
  {
    if low < high { YieldsAndRejections(artifact, low, high - 1); }
  }

  lemma {:induction false} YieldsSplit(artifact: seq<Resolved>, low: nat, mid: nat, high: nat)
    requires low <= mid <= high <= |artifact|
    ensures Yields(artifact, low, high) == Yields(artifact, low, mid) + Yields(artifact, mid, high)
    decreases high
  {
    if mid < high { YieldsSplit(artifact, low, mid, high - 1); }
  }

  /** A stream yields exactly the resolved rows of its range, each as resolved and with
      the position of its artifact row. */
  lemma {:induction false} YieldsExactly(artifact: seq<Resolved>, low: nat, high: nat, item: Item)
    requires low <= high <= |artifact|
    ensures item in Yields(artifact, low, high)
      <==> (low < item.row.cursor <= high && artifact[item.row.cursor - 1] == Valid(item.key, item.row.content, item.row.quoted))
    decreases high
  {
    if low < high {
      YieldsExactly(artifact, low, high - 1, item);
      if item.row.cursor == high && artifact[high - 1] == Valid(item.key, item.row.content, item.row.quoted) {
        assert Entry(item.key, LiquidityRow(item.row.content, item.row.quoted, high)) == item;
      }
    }
  }

  /** Cursors of yielded rows lie in the range and increase: no row is yielded twice. */
  lemma {:induction false} YieldsIncrease(artifact: seq<Resolved>, low: nat, high: nat)
    requires low <= high <= |artifact|
    ensures forall i :: 0 <= i < |Yields(artifact, low, high)| ==> low < Yields(artifact, low, high)[i].row.cursor <= high
    ensures forall i, j :: 0 <= i < j < |Yields(artifact, low, high)| ==> Yields(artifact, low, high)[i].row.cursor < Yields(artifact, low, high)[j].row.cursor
    decreases high
  {
    if low < high { YieldsIncrease(artifact, low, high - 1); }
  }

  /** Resuming at the cursor of the i-th yielded row yields exactly what came after it. */
  lemma {:induction false} ResumeAtCursor(artifact: seq<Resolved>, low: nat, high: nat, i: nat)
    requires low <= high <= |artifact| && i < |Yields(artifact, low, high)|
    ensures low < Yields(artifact, low, high)[i].row.cursor <= high
    ensures Yields(artifact, Yields(artifact, low, high)[i].row.cursor, high) == Yields(artifact, low, high)[i + 1..]
    ensures Yields(artifact, low, Yields(artifact, low, high)[i].row.cursor) == Yields(artifact, low, high)[..i + 1]
    decreases high
  {
    var all := Yields(artifact, low, high);
    YieldsIncrease(artifact, low, high);
    if i < |Yields(artifact, low, high - 1)| {
      ResumeAtCursor(artifact, low, high - 1, i);
      assert all[i] == Yields(artifact, low, high - 1)[i];
    } else {
      assert all[i + 1..] == [];
    }
  }

  // ------------------------------------------------------------------- the stream

  function Min(a: nat, b: nat): nat { if a < b then a else b }

  class PanelRowStream {
    const artifact: seq<Resolved>
    const resumeAfter: nat
    const maxRows: Option<nat>
    var sourceRows: nat
    var attemptedRows: nat
    var resumeSkippedRows: nat
    var lastCursor: nat
    var rejectedRows: nat
    var reasonCounts: map<string, nat>

    constructor (artifact: seq<Resolved>, resumeAfter: nat, maxRows: Option<nat>)
      requires maxRows.Some? ==> maxRows.value > 0
      ensures this.artifact == artifact && this.resumeAfter == resumeAfter && this.maxRows == maxRows
      ensures Valid() && lastCursor == 0
    {
      this.artifact, this.resumeAfter, this.maxRows := artifact, resumeAfter, maxRows;
      sourceRows, attemptedRows, resumeSkippedRows, lastCursor, rejectedRows, reasonCounts := 0, 0, 0, 0, 0, map[];
      new;
      assert NatSum(reasonCounts) == 0;
    }

    /** Where the resume skip ends, and where the slice ends. */
    function Start(): nat { Min(resumeAfter, |artifact|) }

    function End(): nat { if maxRows.Some? then Min(resumeAfter + maxRows.value, |artifact|) else |artifact| }

    /** The first artifact row not skipped that was or will be attempted. */
    function AttemptedFrom(): nat
      reads this
    {
      Min(Start(), lastCursor)
    }

    /** The counters account for every consumed artifact row. */
    ghost predicate Valid()
      reads this
    {
      && lastCursor <= End()
      && sourceRows == lastCursor
      && resumeSkippedRows == Min(lastCursor, resumeAfter)
      && attemptedRows == lastCursor - resumeSkippedRows
      && rejectedRows == Rejections(artifact, AttemptedFrom(), lastCursor)
      && NatSum(reasonCounts) == rejectedRows
    }

    /** The rows yielded so far. */
    ghost function Yielded(): seq<Item>
      requires Valid()
      reads this
    {
      Yields(artifact, AttemptedFrom(), lastCursor)
    }

    /** The generator's next row, or none when the slice or the artifact is over. */
    method Next() returns (item: Option<Item>)
      requires Valid()
      modifies this
      ensures Valid()
      ensures Yielded() == old(Yielded()) + (if item.Some? then [item.value] else [])
      ensures item.Some? ==> lastCursor == item.value.row.cursor && lastCursor > old(lastCursor)
      ensures item.None? ==> lastCursor == End()
    {
      hide NatSum;
      item := None;
      while lastCursor < |artifact|
        invariant Valid() && old(lastCursor) <= lastCursor && Yielded() == old(Yielded())
        decreases |artifact| - lastCursor
      {
        var cursor := lastCursor + 1;
        if cursor > resumeAfter && maxRows.Some? && attemptedRows >= maxRows.value { return; }
        sourceRows := sourceRows + 1;
        lastCursor := cursor;
        if cursor <= resumeAfter {
          resumeSkippedRows := resumeSkippedRows + 1;
        } else {
          attemptedRows := attemptedRows + 1;
          match artifact[cursor - 1]
          case Rejected(code) =>
            rejectedRows := rejectedRows + 1;
            CountReason(reasonCounts, code);
            reasonCounts := reasonCounts[code := (if code in reasonCounts then reasonCounts[code] else 0) + 1];
          case Valid(key, content, quoted) =>
            item := Some(Entry(key, LiquidityRow(content, quoted, cursor)));
            return;
        }
      }
    }
  }

  /** Counting one more rejection under its code. */
  lemma CountReason(counts: map<string, nat>, code: string)
    ensures NatSum(counts[code := (if code in counts then counts[code] else 0) + 1]) == NatSum(counts) + 1
  {
    var counted := counts[code := (if code in counts then counts[code] else 0) + 1];
    NatSumRemove(counted, code);
    if code in counts {
      NatSumRemove(counts, code);
      assert counted - {code} == counts - {code};
    } else {
      assert counted - {code} == counts;
    }
  }

  /** The reported accounting: source rows are skipped or attempted, and attempted
      rows are yielded or rejected. */
  lemma AccountingAddsUp(artifact: seq<Resolved>, resumeAfter: nat, consumed: nat)
    requires consumed <= |artifact|
    ensures var from := Min(resumeAfter, consumed);
      consumed == Min(consumed, resumeAfter) + (|Yields(artifact, from, consumed)| + Rejections(artifact, from, consumed))
  {
    YieldsAndRejections(artifact, Min(resumeAfter, consumed), consumed);
  }

  /** The counters of a stream at any moment: every consumed row is skipped or attempted,
      skipped up to the resume cursor, and attempted rows were yielded or rejected, the
      rejections counted by reason. */
  lemma CountersAddUp(stream: PanelRowStream)
    requires stream.Valid()
    ensures stream.sourceRows == stream.lastCursor == stream.resumeSkippedRows + stream.attemptedRows
    ensures stream.resumeSkippedRows == if stream.lastCursor < stream.resumeAfter then stream.lastCursor else stream.resumeAfter
    ensures stream.attemptedRows == |stream.Yielded()| + stream.rejectedRows
    ensures stream.rejectedRows == NatSum(stream.reasonCounts)
  {
    hide NatSum;
    YieldsAndRejections(stream.artifact, stream.AttemptedFrom(), stream.lastCursor);
  }
}
