/** The bounded, resumable filing-search sweep: a cursor over queries, variants
    and pages that is checkpointed after every answered page, and a metadata map
    that keeps the first document seen under each key. */
module Crawler {
  import opened Prelude

  datatype Document = Document(accession: string, key: string, entry: string)

  /** What the search service answers to one query and page; none is a failure. */
  type Answers = (nat, nat) -> Option<seq<Document>>

  /** The checkpoint and the metadata map. `queries` are numbered by reference and
      variant: `variants` of them per reference. */
  datatype Sweep = Sweep(reference: nat, variant: nat, page: nat, total: nat, known: map<string, string>)

  datatype Scope = Scope(references: nat, variants: nat)

  function Query(scope: Scope, s: Sweep): nat { s.reference * scope.variants + s.variant }

  predicate Completed(scope: Scope, s: Sweep) { s.reference >= scope.references }

  /** Keeps the first document with an accession under each key. */
  function AddMetadata(known: map<string, string>, documents: seq<Document>): map<string, string>
    decreases |documents|
  {
    if documents == [] then known
    else
      var d := documents[0];
      AddMetadata(if d.accession != "" && d.key !in known then known[d.key := d.entry] else known, documents[1..])
  }

  /** After an answered page: the next page, or the next query after an empty one. */
  function Answered(scope: Scope, s: Sweep, documents: seq<Document>): Sweep {
    var last := s.variant + 1 >= scope.variants;
    Sweep(
      if documents == [] && last then s.reference + 1 else s.reference,
      if documents != [] then s.variant else if last then 0 else s.variant + 1,
      if documents != [] then s.page + 1 else 1,
      s.total + |documents|, AddMetadata(s.known, documents))
  }

  /** At most `budget` requests, fewer if the sweep completes or a request fails. */
  function RunFor(answers: Answers, scope: Scope, s: Sweep, budget: nat): Sweep
    decreases budget
  {
    if budget == 0 || Completed(scope, s) then s
    else
      match answers(Query(scope, s), s.page)
      case None => s
      case Some(documents) => RunFor(answers, scope, Answered(scope, s, documents), budget - 1)
  }

  /** Two calls with budgets `a` and then `b` reach the state and the metadata of
      one call with budget `a + b`. */
  lemma {:induction false} BudgetsAdd(answers: Answers, scope: Scope, s: Sweep, a: nat, b: nat)
    ensures RunFor(answers, scope, RunFor(answers, scope, s, a), b) == RunFor(answers, scope, s, a + b)
    decreases a
  {
    if a > 0 && !Completed(scope, s) {
      match answers(Query(scope, s), s.page)
      case None => StuckRun(answers, scope, s, b);
      case Some(documents) => BudgetsAdd(answers, scope, Answered(scope, s, documents), a - 1, b);
    }
  }

  lemma StuckRun(answers: Answers, scope: Scope, s: Sweep, b: nat)
    requires answers(Query(scope, s), s.page).None?
    ensures RunFor(answers, scope, s, b) == s
  {
  }

  // ------------------------------------------------------------ the metadata map

  lemma {:induction false} MetadataConcat(known: map<string, string>, a: seq<Document>, b: seq<Document>)
    ensures AddMetadata(known, a + b) == AddMetadata(AddMetadata(known, a), b)
    decreases |a|
  {
    if a == [] {
      assert a + b == b;
    } else {
      var d := a[0];
      assert (a + b)[1..] == a[1..] + b;
      MetadataConcat(if d.accession != "" && d.key !in known then known[d.key := d.entry] else known, a[1..], b);
    }
  }

  /** The first document with an accession and this key, if there is one. */
  predicate FirstUnder(documents: seq<Document>, key: string, i: nat) {
    && i < |documents| && documents[i].accession != "" && documents[i].key == key
    && forall j :: 0 <= j < i ==> documents[j].accession == "" || documents[j].key != key
  }

  /** What was known stays; otherwise the first document under a key decides it, and
      keys without a document with an accession stay out. */
  lemma {:induction false} MetadataIsFirst(known: map<string, string>, documents: seq<Document>, key: string)
    ensures key in known ==> key in AddMetadata(known, documents) && AddMetadata(known, documents)[key] == known[key]
    ensures key !in known ==>
      (key in AddMetadata(known, documents) <==> exists i :: 0 <= i < |documents| && documents[i].accession != "" && documents[i].key == key)
    ensures forall i: nat :: key !in known && FirstUnder(documents, key, i) ==>
      key in AddMetadata(known, documents) && AddMetadata(known, documents)[key] == documents[i].entry
    decreases |documents|
  {
    if documents != [] {
      var d, rest := documents[0], documents[1..];
      var next := if d.accession != "" && d.key !in known then known[d.key := d.entry] else known;
      MetadataIsFirst(next, rest, key);
      if key !in known {
        if i :| 0 <= i < |documents| && documents[i].accession != "" && documents[i].key == key {
          if i > 0 { assert rest[i - 1] == documents[i]; }
        }
        if i :| 0 <= i < |rest| && rest[i].accession != "" && rest[i].key == key {
          assert documents[i + 1] == rest[i];
        }
        forall i: nat | FirstUnder(documents, key, i)
          ensures key in AddMetadata(known, documents) && AddMetadata(known, documents)[key] == documents[i].entry
        {
          if i > 0 {
            assert documents[0].accession == "" || documents[0].key != key;
            assert FirstUnder(rest, key, i - 1) by {
              forall j | 0 <= j < i - 1 ensures rest[j].accession == "" || rest[j].key != key { assert rest[j] == documents[j + 1]; }
            }
          }
        }
      }
    }
  }

  lemma OneKeyMore(known: map<string, string>, key: string, entry: string)
    ensures known.Keys <= known[key := entry].Keys && |known| <= |known[key := entry]| <= |known| + 1
  {
    assert known[key := entry].Keys == known.Keys + {key};
  }

  /** How many entries a page adds: the count the summary reports. */
  lemma {:induction false} MetadataGrows(known: map<string, string>, documents: seq<Document>)
    ensures known.Keys <= AddMetadata(known, documents).Keys
    ensures |known| <= |AddMetadata(known, documents)| <= |known| + |documents|
    decreases |documents|
  {
    if documents != [] {
      var d := documents[0];
      var next := if d.accession != "" && d.key !in known then known[d.key := d.entry] else known;
      OneKeyMore(known, d.key, d.entry);
      MetadataGrows(next, documents[1..]);
    }
  }

  // ----------------------------------------------------------- complete sweeps

  /** The documents of the first `n` pages of a query. */
  function PageDocuments(answers: Answers, query: nat, n: nat): seq<Document> {
    if n == 0 then [] else PageDocuments(answers, query, n - 1) + answers(query, n).GetOr([])
  }

  /** The documents of the finished queries, `pages[q]` pages of query `q`. */
  function QueryDocuments(answers: Answers, pages: seq<nat>): seq<Document> {
    if pages == [] then []
    else QueryDocuments(answers, pages[..|pages| - 1]) + PageDocuments(answers, |pages| - 1, pages[|pages| - 1])
  }

  /** The first `n` pages of a query hold documents, and the next one is empty. */
  predicate EndsAfter(answers: Answers, query: nat, n: nat) { NonEmpty(answers, query, n) && answers(query, n + 1) == Some([]) }

  predicate NonEmpty(answers: Answers, query: nat, n: nat) {
    forall p :: 1 <= p <= n ==> answers(query, p).Some? && answers(query, p) != Some([])
  }

  lemma EndIsUnique(answers: Answers, query: nat, a: nat, b: nat)
    requires EndsAfter(answers, query, a) && EndsAfter(answers, query, b)
    ensures a == b
  {
  }

  /** Where a sweep from the start has got to, as a list of page counts. */
  ghost predicate Swept(answers: Answers, scope: Scope, before: map<string, string>, s: Sweep, pages: seq<nat>) {
    && s.variant < scope.variants && s.page >= 1 && |pages| == Query(scope, s)
    && (forall q :: 0 <= q < |pages| ==> EndsAfter(answers, q, pages[q]))
    && NonEmpty(answers, |pages|, s.page - 1)
    && s.known == AddMetadata(before, QueryDocuments(answers, pages) + PageDocuments(answers, |pages|, s.page - 1))
    && s.total == |QueryDocuments(answers, pages) + PageDocuments(answers, |pages|, s.page - 1)|
  }

  lemma SweptPage(answers: Answers, scope: Scope, before: map<string, string>, s: Sweep, pages: seq<nat>, documents: seq<Document>)
    requires Swept(answers, scope, before, s, pages) && answers(|pages|, s.page) == Some(documents) && documents != []
    ensures Swept(answers, scope, before, Answered(scope, s, documents), pages)
  {
    var done := QueryDocuments(answers, pages);
    MetadataConcat(before, done + PageDocuments(answers, |pages|, s.page - 1), documents);
    assert done + PageDocuments(answers, |pages|, s.page - 1) + documents == done + PageDocuments(answers, |pages|, s.page);
  }

  lemma SweptQuery(answers: Answers, scope: Scope, before: map<string, string>, s: Sweep, pages: seq<nat>)
    requires Swept(answers, scope, before, s, pages) && answers(|pages|, s.page) == Some([])
    ensures Swept(answers, scope, before, Answered(scope, s, []), pages + [s.page - 1])
  {
    var more := pages + [s.page - 1];
    NextQuery(scope, s);
    assert more[..|pages|] == pages;
    assert QueryDocuments(answers, more) + [] == QueryDocuments(answers, pages) + PageDocuments(answers, |pages|, s.page - 1);
    assert PageDocuments(answers, |more|, 0) == [];
    forall q | 0 <= q < |more| ensures EndsAfter(answers, q, more[q]) {
      if q < |pages| { assert more[q] == pages[q]; }
    }
  }

  lemma NextQuery(scope: Scope, s: Sweep)
    requires s.variant < scope.variants
    ensures Query(scope, Answered(scope, s, [])) == Query(scope, s) + 1
    ensures Answered(scope, s, []).variant < scope.variants
  {
    if s.variant + 1 >= scope.variants {
      assert (s.reference + 1) * scope.variants == s.reference * scope.variants + scope.variants;
    }
  }

  lemma {:induction false} RunSweeps(answers: Answers, scope: Scope, before: map<string, string>, s: Sweep, pages: seq<nat>, budget: nat) returns (after: seq<nat>)
    requires Swept(answers, scope, before, s, pages)
    ensures Swept(answers, scope, before, RunFor(answers, scope, s, budget), after)
    decreases budget
  {
    hide Swept, Answered;
    after := pages;
    if budget > 0 && !Completed(scope, s) {
      SweptCursor(answers, scope, before, s, pages);
      match answers(Query(scope, s), s.page)
      case None =>
      case Some(documents) =>
        if documents == [] {
          SweptQuery(answers, scope, before, s, pages);
          after := RunSweeps(answers, scope, before, Answered(scope, s, documents), pages + [s.page - 1], budget - 1);
        } else {
          SweptPage(answers, scope, before, s, pages, documents);
          after := RunSweeps(answers, scope, before, Answered(scope, s, documents), pages, budget - 1);
        }
    }
  }

  lemma SweptCursor(answers: Answers, scope: Scope, before: map<string, string>, s: Sweep, pages: seq<nat>)
    requires Swept(answers, scope, before, s, pages)
    ensures |pages| == Query(scope, s) && s.page >= 1
  {
  }

  /** A completed sweep has met, for every query of every reference and variant,
      every page before its first empty one, and the metadata are exactly what those
      documents add, the first one winning per key. */
  lemma CompletedSweepIsComplete(answers: Answers, scope: Scope, known: map<string, string>, budget: nat) returns (pages: seq<nat>)
    requires scope.variants > 0
    requires Completed(scope, RunFor(answers, scope, Sweep(0, 0, 1, 0, known), budget))
    ensures |pages| == scope.references * scope.variants
    ensures forall q :: 0 <= q < |pages| ==> EndsAfter(answers, q, pages[q])
    ensures RunFor(answers, scope, Sweep(0, 0, 1, 0, known), budget).known == AddMetadata(known, QueryDocuments(answers, pages))
    ensures RunFor(answers, scope, Sweep(0, 0, 1, 0, known), budget).total == |QueryDocuments(answers, pages)|
  {
    var start := Sweep(0, 0, 1, 0, known);
    assert QueryDocuments(answers, []) + PageDocuments(answers, 0, 0) == [];
    assert Query(scope, start) == 0;
    assert Swept(answers, scope, known, start, []);
    pages := RunSweeps(answers, scope, known, start, [], budget);
    var end := RunFor(answers, scope, start, budget);
    StopsAtEnd(answers, scope, start, budget);
    assert Query(scope, end) == scope.references * scope.variants;
    assert PageDocuments(answers, |pages|, end.page - 1) == [];
    assert QueryDocuments(answers, pages) + [] == QueryDocuments(answers, pages);
  }

  /** A completed sweep stops right after the last query. */
  lemma {:induction false} StopsAtEnd(answers: Answers, scope: Scope, s: Sweep, budget: nat)
    requires s.reference < scope.references || (s.reference == scope.references && s.variant == 0 && s.page == 1)
    ensures var end := RunFor(answers, scope, s, budget);
      end.reference < scope.references || (end.reference == scope.references && end.variant == 0 && end.page == 1)
    decreases budget
  {
    if budget > 0 && !Completed(scope, s) {
      match answers(Query(scope, s), s.page)
      case None =>
      case Some(documents) => StopsAtEnd(answers, scope, Answered(scope, s, documents), budget - 1);
    }
  }

  lemma RunStep(answers: Answers, scope: Scope, s: Sweep, rest: nat)
    requires !Completed(scope, s)
    ensures RunFor(answers, scope, s, rest + 1)
      == match answers(Query(scope, s), s.page) { case None => s case Some(documents) => RunFor(answers, scope, Answered(scope, s, documents), rest) }
  {
  }

  lemma RunStops(answers: Answers, scope: Scope, s: Sweep, rest: nat)
    ensures rest == 0 || Completed(scope, s) || (answers(Query(scope, s), s.page).None?) ==> RunFor(answers, scope, s, rest) == s
  {
  }

  // --------------------------------------------------------------------- the loop

  /** The checkpoint file and the metadata file, updated in place. */
  class Checkpoint {
    var reference: nat
    var variant: nat
    var page: nat
    var total: nat
    var completed: bool
    var known: map<string, string>

    constructor ()
      ensures State() == Sweep(0, 0, 1, 0, map[])
    {
      reference, variant, page, total, completed, known := 0, 0, 1, 0, false, map[];
    }

    function State(): Sweep
      reads this
    {
      Sweep(reference, variant, page, total, known)
    }

    /** One answered page: metadata, count and cursor. */
    method Advance(scope: Scope, documents: seq<Document>)
      modifies this
      ensures State() == Answered(scope, old(State()), documents) && completed == old(completed)
      ensures |old(known)| <= |known|
    {
      MetadataGrows(known, documents);
      known, total := AddMetadata(known, documents), total + |documents|;
      if documents != [] {
        page := page + 1;
      } else {
        variant, page := variant + 1, 1;
        if variant >= scope.variants {
          reference, variant := reference + 1, 0;
        }
      }
    }

    /** The loop of one bounded call. */
    method Discover(answers: Answers, scope: Scope, limit: nat) returns (requests: nat, added: nat, failures: nat)
      requires limit >= 1 && scope.variants > 0
      modifies this
      ensures State() == RunFor(answers, scope, old(State()), limit)
      ensures completed <==> Completed(scope, State())
      ensures requests <= limit && failures <= 1
      ensures added == |known| - |old(known)|
      ensures failures == 0 && !completed ==> requests == limit
    {
      hide AddMetadata, RunFor, Answered;
      requests, added, failures := 0, 0, 0;
      ghost var start := State();
      while reference < scope.references && requests < limit
        invariant requests <= limit && failures == 0
        invariant RunFor(answers, scope, State(), limit - requests) == RunFor(answers, scope, start, limit)
        invariant added == |known| - |start.known|
        decreases limit - requests
      {
        requests := requests + 1;
        RunStep(answers, scope, State(), limit - requests);
        var answer := answers(reference * scope.variants + variant, page);
        if answer.None? {
          failures := failures + 1;
          break;
        }
        var size := |known|;
        Advance(scope, answer.value);
        added := added + |known| - size;
      }
      RunStops(answers, scope, State(), limit - requests);
      completed := reference >= scope.references;
    }
  }
}
