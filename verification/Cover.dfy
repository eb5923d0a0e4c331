/** The prospectus scan: every page of every phrase is read, the hits are taken newest
    first, and a filing is kept exactly when it is the newest one covering some targeted
    series. */
module Cover {
  import opened Prelude

  const PAGE_SIZE: nat := 100
  const MAX_PAGES: nat := 20

  /** One full-text search hit, with the series its EDGAR header names. A filing without
      a date sorts as the oldest. */
  datatype Hit = Hit(accession: string, filedAt: nat, series: set<string>)

  // ------------------------------------------------------------- newest first

  /** A stable descending order: equal dates keep the order they came in. */
  function Insert(h: Hit, ordered: seq<Hit>): (r: seq<Hit>)
    ensures multiset(r) == multiset(ordered) + multiset{h}
  {
    if ordered == [] then [h]
    else if ordered[0].filedAt <= h.filedAt then
      assert [h] + ordered == [h] + ordered[..];
      [h] + ordered
    else
      assert ordered == [ordered[0]] + ordered[1..];
      [ordered[0]] + Insert(h, ordered[1..])
  }

  function NewestFirst(hits: seq<Hit>): (r: seq<Hit>)
    ensures multiset(r) == multiset(hits)
  {
    if hits == [] then []
    else
      assert hits == [hits[0]] + hits[1..];
      Insert(hits[0], NewestFirst(hits[1..]))
  }

  predicate Descending(s: seq<Hit>) {
    forall i, j :: 0 <= i < j < |s| ==> s[i].filedAt >= s[j].filedAt
  }

  lemma DescendsAt(s: seq<Hit>, i: nat, j: nat)
    requires Descending(s) && i <= j < |s|
    ensures s[i].filedAt >= s[j].filedAt
  {
  }

  lemma {:induction false} InsertKeepsOrder(h: Hit, ordered: seq<Hit>)
    requires Descending(ordered)
    ensures Descending(Insert(h, ordered))
  {
    if ordered != [] && ordered[0].filedAt > h.filedAt {
      var rest := ordered[1..];
      InsertKeepsOrder(h, rest);
      var tail := Insert(h, rest);
      forall j | 0 <= j < |tail| ensures tail[j].filedAt <= ordered[0].filedAt {
        assert tail[j] in multiset(rest) + multiset{h};
        if tail[j] != h { assert tail[j] in rest; }
      }
    }
  }

  lemma {:induction false} NewestFirstDescends(hits: seq<Hit>)
    ensures Descending(NewestFirst(hits))
  {
    if hits != [] {
      NewestFirstDescends(hits[1..]);
      InsertKeepsOrder(hits[0], NewestFirst(hits[1..]));
    }
  }

  /** Sorting neither drops nor invents a hit. */
  lemma SameHits(hits: seq<Hit>, h: Hit)
    ensures h in NewestFirst(hits) <==> h in hits
  {
    assert h in multiset(NewestFirst(hits)) <==> h in multiset(hits);
  }

  // ------------------------------------------------------------- the cover loop

  /** The hit at `i` is the first of the list that covers the series. */
  predicate FirstCovering(ordered: seq<Hit>, s: string, i: nat)
    requires i < |ordered|
  {
    s in ordered[i].series && forall j :: 0 <= j < i ==> s !in ordered[j].series
  }

  ghost predicate Needed(ordered: seq<Hit>, wanted: set<string>, i: nat)
    requires i < |ordered|
  {
    exists s :: s in wanted && FirstCovering(ordered, s, i)
  }

  predicate Increasing(kept: seq<nat>) { forall a, b :: 0 <= a < b < |kept| ==> kept[a] < kept[b] }

  /** A series that some hit covers has a first covering hit. */
  lemma {:induction false} FirstExists(ordered: seq<Hit>, s: string, i: nat) returns (first: nat)
    requires i < |ordered| && s in ordered[i].series
    ensures first <= i && FirstCovering(ordered, s, first)
  {
    if j: nat :| j < i && s in ordered[j].series {
      first := FirstExists(ordered, s, j);
    } else {
      first := i;
    }
  }

  /** A hit is kept iff no newer hit covers everything it would add: the kept positions
      are exactly those that are first for some targeted series. */
  method CoverLoop(ordered: seq<Hit>, wanted: set<string>) returns (kept: seq<nat>, covered: set<string>)
    ensures Increasing(kept) && forall k :: 0 <= k < |kept| ==> kept[k] < |ordered|
    ensures forall i: nat :: i < |ordered| ==> (i in kept <==> Needed(ordered, wanted, i))
    ensures forall s :: s in wanted ==> (s in covered <==> exists j :: 0 <= j < |ordered| && s in ordered[j].series)
  {
    kept, covered := [], {};
    var i := 0;
    while i < |ordered| && !(wanted <= covered)
      invariant 0 <= i <= |ordered|
      invariant Increasing(kept) && forall k :: 0 <= k < |kept| ==> kept[k] < i
      invariant forall j: nat :: j < i ==> (j in kept <==> Needed(ordered, wanted, j))
      invariant forall s :: s in wanted ==> (s in covered <==> exists j :: 0 <= j < i && s in ordered[j].series)
    {
      var series := ordered[i].series;
      if series * (wanted - covered) != {} {
        ghost var s :| s in series * (wanted - covered);
        assert FirstCovering(ordered, s, i);
        kept, covered := kept + [i], covered + series;
      } else {
        forall s | s in wanted ensures !FirstCovering(ordered, s, i) {
          if s in series {
            assert s !in series * (wanted - covered);
          }
        }
      }
      i := i + 1;
    }
    forall j: nat, s | i <= j < |ordered| && s in wanted ensures !FirstCovering(ordered, s, j) {
      assert s in covered;
    }
  }

  // ------------------------------------------------------------- reading every page

  /** Records a hit unless its accession is already known. */
  function AddHit(hits: seq<Hit>, h: Hit): seq<Hit> {
    if exists k :: k in hits && k.accession == h.accession then hits else hits + [h]
  }

  function AddAll(hits: seq<Hit>, found: seq<Hit>): seq<Hit> {
    if found == [] then hits else AddHit(AddAll(hits, found[..|found| - 1]), found[|found| - 1])
  }

  lemma {:induction false} AddAllConcat(hits: seq<Hit>, a: seq<Hit>, b: seq<Hit>)
    ensures AddAll(AddAll(hits, a), b) == AddAll(hits, a + b)
  {
    if b == [] {
      assert a + b == a;
    } else {
      var n := |b| - 1;
      AddAllConcat(hits, a, b[..n]);
      assert (a + b)[..|a + b| - 1] == a + b[..n];
    }
  }

  /** One accession is always reported with the same date and header. */
  ghost predicate Consistent(found: seq<Hit>) {
    forall a, b :: a in found && b in found && a.accession == b.accession ==> a == b
  }

  /** With consistent answers, deduplicating by accession loses nothing. */
  lemma {:induction false} AddAllHolds(hits: seq<Hit>, found: seq<Hit>, h: Hit)
    requires Consistent(hits + found)
    ensures h in AddAll(hits, found) <==> h in hits || h in found
  {
    if found != [] {
      var n := |found| - 1;
      var last := found[n];
      var before := AddAll(hits, found[..n]);
      assert found == found[..n] + [last];
      assert forall x :: x in hits + found[..n] ==> x in hits + found;
      AddAllHolds(hits, found[..n], h);
      if k :| k in before && k.accession == last.accession {
        AddAllHolds(hits, found[..n], k);
        assert k in hits + found && last in hits + found;
      }
    }
  }

  /** Page `p`, counted from one, of what a phrase finds. */
  function PageOf(found: seq<Hit>, p: nat): seq<Hit>
    requires p >= 1
  {
    found[Least((p - 1) * PAGE_SIZE, |found|)..Least(p * PAGE_SIZE, |found|)]
  }

  function Least(a: nat, b: nat): nat { if a <= b then a else b }

  lemma PagesChain(found: seq<Hit>, p: nat)
    requires p >= 1
    ensures found[..Least((p - 1) * PAGE_SIZE, |found|)] + PageOf(found, p) == found[..Least(p * PAGE_SIZE, |found|)]
  {
  }

  /** Pages are read until the reported total is reached; a phrase with more pages than the
      limit is an error, never a partial answer. */
  method ReadPhrase(hits: seq<Hit>, found: seq<Hit>) returns (r: Option<seq<Hit>>)
    ensures r == if |found| > 2000 then None else Some(AddAll(hits, found))
  {
    var page: nat, all := 1, hits;
    while true
      invariant 1 <= page <= MAX_PAGES
      invariant (page - 1) * PAGE_SIZE <= |found|
      invariant all == AddAll(hits, found[..(page - 1) * PAGE_SIZE])
      invariant page > 1 ==> (page - 1) * PAGE_SIZE < |found|
      decreases MAX_PAGES - page
    {
      var filings := PageOf(found, page);
      PagesChain(found, page);
      AddAllConcat(hits, found[..(page - 1) * PAGE_SIZE], filings);
      all := AddAll(all, filings);
      if filings == [] || page * PAGE_SIZE >= |found| {
        assert found[..Least(page * PAGE_SIZE, |found|)] == found;
        return Some(all);
      }
      page := page + 1;
      if page > MAX_PAGES {
        return None;
      }
    }
  }

  ghost function Concat(phrases: seq<seq<Hit>>): seq<Hit> {
    if phrases == [] then [] else Concat(phrases[..|phrases| - 1]) + phrases[|phrases| - 1]
  }

  /** Some phrase finds more than twenty pages of a hundred. */
  ghost predicate TooMany(phrases: seq<seq<Hit>>) {
    exists k :: 0 <= k < |phrases| && |phrases[k]| > 2000
  }

  /** The newest of all filings found that cover the series. */
  ghost predicate IsNewest(found: seq<Hit>, s: string, h: Hit) {
    h in found && s in h.series && forall o :: o in found && s in o.series ==> o.filedAt <= h.filedAt
  }

  lemma FirstIsNewest(hits: seq<Hit>, s: string, i: nat)
    requires i < |NewestFirst(hits)| && FirstCovering(NewestFirst(hits), s, i)
    ensures IsNewest(hits, s, NewestFirst(hits)[i])
  {
    hide Descending, NewestFirst;
    var ordered := NewestFirst(hits);
    NewestFirstDescends(hits);
    SameHits(hits, ordered[i]);
    forall o | o in hits && s in o.series ensures o.filedAt <= ordered[i].filedAt {
      SameHits(hits, o);
      var j :| 0 <= j < |ordered| && ordered[j] == o;
      DescendsAt(ordered, i, j);
    }
  }

  lemma Deduplicated(found: seq<Hit>)
    requires Consistent(found)
    ensures forall h :: h in AddAll([], found) <==> h in found
  {
    assert [] + found == found;
    forall h ensures h in AddAll([], found) <==> h in found {
      AddAllHolds([], found, h);
    }
  }

  /** The filings at the kept positions. */
  function At(ordered: seq<Hit>, kept: seq<nat>): seq<Hit>
    requires forall k :: 0 <= k < |kept| ==> kept[k] < |ordered|
  {
    seq(|kept|, k requires 0 <= k < |kept| => ordered[kept[k]])
  }

  /** Each kept filing is the newest for some targeted series. */
  ghost predicate OnlyNewest(found: seq<Hit>, wanted: set<string>, matches: seq<Hit>) {
    forall h :: h in matches ==> exists s :: s in wanted && IsNewest(found, s, h)
  }

  /** Each targeted series that any filing covers has a newest one kept. */
  ghost predicate EachNewest(found: seq<Hit>, wanted: set<string>, matches: seq<Hit>) {
    forall s, o :: s in wanted && o in found && s in o.series ==> exists h :: h in matches && IsNewest(found, s, h)
  }

  lemma KeptAreNewest(hits: seq<Hit>, wanted: set<string>, kept: seq<nat>)
    requires forall k :: 0 <= k < |kept| ==> kept[k] < |NewestFirst(hits)|
    requires forall k :: 0 <= k < |kept| ==> Needed(NewestFirst(hits), wanted, kept[k])
    ensures OnlyNewest(hits, wanted, At(NewestFirst(hits), kept))
  {
    hide IsNewest;
    var ordered := NewestFirst(hits);
    var matches := At(ordered, kept);
    forall h | h in matches ensures exists s :: s in wanted && IsNewest(hits, s, h) {
      var k :| 0 <= k < |kept| && matches[k] == h;
      var s :| s in wanted && FirstCovering(ordered, s, kept[k]);
      FirstIsNewest(hits, s, kept[k]);
    }
  }

  lemma NewestAreKept(hits: seq<Hit>, wanted: set<string>, kept: seq<nat>)
    requires forall k :: 0 <= k < |kept| ==> kept[k] < |NewestFirst(hits)|
    requires forall i: nat :: i < |NewestFirst(hits)| && Needed(NewestFirst(hits), wanted, i) ==> i in kept
    ensures EachNewest(hits, wanted, At(NewestFirst(hits), kept))
  {
    hide IsNewest;
    var ordered := NewestFirst(hits);
    var matches := At(ordered, kept);
    forall s, o | s in wanted && o in hits && s in o.series ensures exists h :: h in matches && IsNewest(hits, s, h) {
      SameHits(hits, o);
      var i :| 0 <= i < |ordered| && ordered[i] == o;
      var first := FirstExists(ordered, s, i);
      FirstIsNewest(hits, s, first);
      assert Needed(ordered, wanted, first);
      var k :| 0 <= k < |kept| && kept[k] == first;
      assert matches[k] == ordered[first];
    }
  }

  lemma KeptDescend(hits: seq<Hit>, kept: seq<nat>)
    requires Increasing(kept) && forall k :: 0 <= k < |kept| ==> kept[k] < |NewestFirst(hits)|
    ensures Descending(At(NewestFirst(hits), kept))
  {
    NewestFirstDescends(hits);
  }

  lemma SameFilingsSameNewest(hits: seq<Hit>, found: seq<Hit>, wanted: set<string>, matches: seq<Hit>)
    requires forall h :: h in hits <==> h in found
    ensures OnlyNewest(hits, wanted, matches) ==> OnlyNewest(found, wanted, matches)
    ensures EachNewest(hits, wanted, matches) ==> EachNewest(found, wanted, matches)
  {
    assert forall s, h :: IsNewest(hits, s, h) <==> IsNewest(found, s, h);
    hide IsNewest;
  }

  lemma NothingFound()
    ensures AddAll([], Concat([])) == []
  {
  }

  lemma ConcatNext(phrases: seq<seq<Hit>>, p: nat)
    requires p < |phrases|
    ensures Concat(phrases[..p + 1]) == Concat(phrases[..p]) + phrases[p]
  {
    assert phrases[..p + 1][..p] == phrases[..p];
  }

  /** Reads every page of every phrase and keeps, of everything found, the newest filing of
      each targeted series and nothing else; it fails only when a phrase has more pages
      than are read. */
  method Scan(phrases: seq<seq<Hit>>, wanted: set<string>) returns (r: Option<seq<Hit>>)
    requires Consistent(Concat(phrases))
    ensures r == None <==> TooMany(phrases)
    ensures r.Some? ==> Descending(r.value)
    ensures r.Some? ==> OnlyNewest(Concat(phrases), wanted, r.value) && EachNewest(Concat(phrases), wanted, r.value)
  {
    hide Descending, OnlyNewest, EachNewest, Consistent, AddAll, Concat;
    var hits: seq<Hit> := [];
    NothingFound();
    assert phrases[..0] == [];
    for p := 0 to |phrases|
      invariant hits == AddAll([], Concat(phrases[..p]))
      invariant forall k :: 0 <= k < p ==> |phrases[k]| <= 2000
    {
      var all := ReadPhrase(hits, phrases[p]);
      if all == None {
        assert |phrases[p]| > 2000;
        return None;
      }
      AddAllConcat([], Concat(phrases[..p]), phrases[p]);
      ConcatNext(phrases, p);
      hits := all.value;
    }
    assert phrases[..|phrases|] == phrases;
    Deduplicated(Concat(phrases));
    var ordered := NewestFirst(hits);
    var kept, covered := CoverLoop(ordered, wanted);
    KeptAreNewest(hits, wanted, kept);
    NewestAreKept(hits, wanted, kept);
    KeptDescend(hits, kept);
    r := Some(At(ordered, kept));
    SameFilingsSameNewest(hits, Concat(phrases), wanted, r.value);
  }
}
