/** The evidence collectors and the offline completeness check: what the check reports
    missing is exactly what the collectors would still have to ask for. */
module EvidenceCache {
  import opened Prelude

  datatype SecTag = Latest(cls: string) | FirstOf(cls: string, ticker: string) | LastOf(cls: string, ticker: string)
                  | SeriesLatest(series: string)
  datatype NcenTag = ByCik(cik: nat) | BySeries(series: string)

  /** What a plan rests on; an insurance pair names a series and its registrant. */
  datatype Targets = Targets(
    pairs: seq<(string, string)>, classes: set<string>, series: seq<string>, tiingo: seq<string>,
    insurance: seq<(string, nat)>)

  /** The cached answers: an N-CEN answer is the set of series it lists (empty for none), a
      Tiingo answer counts once it carries its observation time, a prospectus answer
      records the series that were searched for. */
  datatype Caches = Caches(
    sec: map<SecTag, string>, ncen: map<NcenTag, set<string>>, tiingo: map<string, Option<nat>>,
    prospectus: map<nat, set<string>>)

  // ---------------------------------------------------------------- grouping

  /** The series wanted of each registrant. */
  function ByRegistrant(insurance: seq<(string, nat)>): map<nat, set<string>> {
    if insurance == [] then map[]
    else
      var before := ByRegistrant(insurance[..|insurance| - 1]);
      var (s, cik) := insurance[|insurance| - 1];
      before[cik := (if cik in before then before[cik] else {}) + {s}]
  }

  lemma {:induction false} ByRegistrantHolds(insurance: seq<(string, nat)>, cik: nat, s: string)
    ensures (cik in ByRegistrant(insurance) && s in ByRegistrant(insurance)[cik]) <==> (s, cik) in insurance
  {
    if insurance != [] {
      var n := |insurance| - 1;
      var last := insurance[n];
      ByRegistrantHolds(insurance[..n], cik, s);
      assert insurance == insurance[..n] + [last];
      assert (s, cik) == last <==> s == last.0 && cik == last.1;
    }
  }

  method GroupByRegistrant(insurance: seq<(string, nat)>) returns (groups: map<nat, set<string>>)
    ensures groups == ByRegistrant(insurance)
  {
    groups := map[];
    for i := 0 to |insurance|
      invariant groups == ByRegistrant(insurance[..i])
    {
      assert insurance[..i + 1][..i] == insurance[..i];
      var (s, cik) := insurance[i];
      groups := groups[cik := (if cik in groups then groups[cik] else {}) + {s}];
    }
    assert insurance[..|insurance|] == insurance;
  }

  // ------------------------------------------- what each collector needs cached

  ghost predicate SecNeeds(t: Targets, tag: SecTag) {
    match tag
    case Latest(c) => c in t.classes || exists p :: p in t.pairs && p.0 == c
    case FirstOf(c, k) => (c, k) in t.pairs
    case LastOf(c, k) => (c, k) in t.pairs
    case SeriesLatest(s) => s in t.series
  }

  ghost predicate SecComplete(t: Targets, sec: map<SecTag, string>) {
    forall tag :: SecNeeds(t, tag) ==> tag in sec
  }

  ghost predicate TiingoComplete(tickers: seq<string>, tiingo: map<string, Option<nat>>) {
    forall k :: k in tickers ==> k in tiingo && tiingo[k].Some?
  }

  predicate Observed(tiingo: map<string, Option<nat>>, ticker: string) {
    ticker in tiingo && tiingo[ticker].Some?
  }

  /** A registrant is answered when its own filing is cached and so is the answer for each
      wanted series that filing does not list. */
  ghost predicate RegistrantComplete(ncen: map<NcenTag, set<string>>, cik: nat, wanted: set<string>) {
    ByCik(cik) in ncen && forall s :: s in wanted - ncen[ByCik(cik)] ==> BySeries(s) in ncen
  }

  ghost predicate NcenComplete(insurance: seq<(string, nat)>, ncen: map<NcenTag, set<string>>) {
    forall cik :: cik in ByRegistrant(insurance) ==> RegistrantComplete(ncen, cik, ByRegistrant(insurance)[cik])
  }

  function Searched(prospectus: map<nat, set<string>>, cik: nat): set<string> {
    if cik in prospectus then prospectus[cik] else {}
  }

  ghost predicate ProspectusComplete(insurance: seq<(string, nat)>, prospectus: map<nat, set<string>>) {
    forall s, cik :: (s, cik) in insurance ==> cik in prospectus && s in prospectus[cik]
  }

  /** Registrant by registrant the wanted series have been searched for. */
  lemma ProspectusByRegistrant(insurance: seq<(string, nat)>, prospectus: map<nat, set<string>>)
    ensures ProspectusComplete(insurance, prospectus)
      <==> forall cik :: cik in ByRegistrant(insurance) ==> ByRegistrant(insurance)[cik] <= Searched(prospectus, cik)
  {
    hide ByRegistrant;
    forall s, cik ensures (cik in ByRegistrant(insurance) && s in ByRegistrant(insurance)[cik]) <==> (s, cik) in insurance {
      ByRegistrantHolds(insurance, cik, s);
    }
    if forall cik :: cik in ByRegistrant(insurance) ==> ByRegistrant(insurance)[cik] <= Searched(prospectus, cik) {
      forall s, cik | (s, cik) in insurance ensures cik in prospectus && s in prospectus[cik] {
        assert s in Searched(prospectus, cik);
      }
    }
  }

  // --------------------------------------------------------------- collectors

  /** What a service answers; no answer means its attempts are exhausted. */
  type Service<!Tag, Answer> = Tag -> Option<Answer>

  /** Cached answers stay as they are, and a cache grew only if something was asked. */
  ghost predicate Grew<K, V>(before: map<K, V>, after: map<K, V>, asked: nat) {
    (forall k :: k in before ==> k in after && after[k] == before[k]) && (asked == 0 ==> after == before)
  }

  method Search<Tag, Answer>(cache: map<Tag, Answer>, tag: Tag, service: Service<Tag, Answer>)
    returns (ok: bool, after: map<Tag, Answer>, asked: nat)
    ensures Grew(cache, after, asked)
    ensures asked == 0 <==> tag in cache
    ensures ok <==> tag in cache || service(tag).Some?
    ensures ok ==> tag in after
    ensures !ok ==> after == cache
  {
    if tag in cache {
      return true, cache, 0;
    }
    match service(tag)
    case None => return false, cache, 1;
    case Some(answer) => return true, cache[tag := answer], 1;
  }

  /** Asks for a list of tags in turn, and stops at the first that stays unanswered. */
  method SearchAll<Tag, Answer>(cache: map<Tag, Answer>, tags: seq<Tag>, service: Service<Tag, Answer>)
    returns (ok: bool, after: map<Tag, Answer>, asked: nat)
    ensures Grew(cache, after, asked)
    ensures ok ==> forall tag :: tag in tags ==> tag in after
    ensures !ok ==> asked > 0
    ensures asked == 0 <==> forall tag :: tag in tags ==> tag in cache
  {
    ok, after, asked := true, cache, 0;
    for i := 0 to |tags|
      invariant ok && Grew(cache, after, asked)
      invariant forall tag :: tag in tags[..i] ==> tag in after
      invariant asked == 0 <==> forall tag :: tag in tags[..i] ==> tag in cache
    {
      assert tags[..i + 1] == tags[..i] + [tags[i]];
      assert tags[i] in tags;
      var more: nat;
      var now;
      ok, now, more := Search(after, tags[i], service);
      after, asked := now, asked + more;
      if !ok {
        return;
      }
    }
    assert tags[..|tags|] == tags;
  }

  method InSomeOrder<T>(s: set<T>) returns (list: seq<T>)
    ensures forall x :: x in list <==> x in s
  {
    list := [];
    var left := s;
    while left != {}
      invariant forall x :: x in s <==> x in left || x in list
      decreases |left|
    {
      ghost var any := Pick(left);
      var x :| x in left;
      list, left := list + [x], left - {x};
    }
  }

  function Each<T, U>(f: T -> U, list: seq<T>): (r: seq<U>)
    ensures forall y :: y in r ==> exists x :: x in list && f(x) == y
    ensures forall x :: x in list ==> f(x) in r
  {
    if list == [] then []
    else
      assert list == list[..|list| - 1] + [list[|list| - 1]];
      Each(f, list[..|list| - 1]) + [f(list[|list| - 1])]
  }

  method SecTags(t: Targets) returns (tags: seq<SecTag>)
    ensures forall tag :: tag in tags <==> SecNeeds(t, tag)
  {
    var ofPairs := set p | p in t.pairs :: p.0;
    var classes := InSomeOrder(ofPairs + t.classes);
    var latest := Each(c => Latest(c), classes);
    var first := Each((p: (string, string)) => FirstOf(p.0, p.1), t.pairs);
    var last := Each((p: (string, string)) => LastOf(p.0, p.1), t.pairs);
    var series := Each(s => SeriesLatest(s), t.series);
    tags := latest + first + last + series;
    forall tag | SecNeeds(t, tag) ensures tag in tags {
      match tag
      case Latest(c) =>
        if c !in t.classes {
          var p :| p in t.pairs && p.0 == c;
          assert p.0 in ofPairs;
        }
        assert c in classes;
        assert Latest(c) in latest;
      case FirstOf(c, k) =>
        assert (c, k) in t.pairs;
        assert FirstOf(c, k) in first;
      case LastOf(c, k) =>
        assert (c, k) in t.pairs;
        assert LastOf(c, k) in last;
      case SeriesLatest(s) =>
        assert s in t.series;
        assert SeriesLatest(s) in series;
    }
  }

  method CollectSec(t: Targets, sec: map<SecTag, string>, service: Service<SecTag, string>)
    returns (ok: bool, after: map<SecTag, string>, asked: nat)
    ensures Grew(sec, after, asked)
    ensures ok ==> SecComplete(t, after)
    ensures !ok ==> asked > 0
    ensures asked == 0 <==> SecComplete(t, sec)
  {
    var tags := SecTags(t);
    ok, after, asked := SearchAll(sec, tags, service);
  }

  /** A registrant that is answered stays answered when the cache grows. */
  lemma StaysComplete(before: map<NcenTag, set<string>>, after: map<NcenTag, set<string>>, asked: nat, cik: nat, wanted: set<string>)
    requires Grew(before, after, asked)
    requires RegistrantComplete(before, cik, wanted)
    ensures RegistrantComplete(after, cik, wanted)
  {
  }

  method CollectRegistrant(ncen: map<NcenTag, set<string>>, cik: nat, wanted: set<string>, service: Service<NcenTag, set<string>>)
    returns (ok: bool, after: map<NcenTag, set<string>>, asked: nat)
    ensures Grew(ncen, after, asked)
    ensures ok ==> RegistrantComplete(after, cik, wanted)
    ensures !ok ==> asked > 0
    ensures asked == 0 <==> RegistrantComplete(ncen, cik, wanted)
  {
    ok, after, asked := Search(ncen, ByCik(cik), service);
    if !ok {
      return;
    }
    var own := after;
    var unlisted := InSomeOrder(wanted - own[ByCik(cik)]);
    var tags := seq(|unlisted|, i requires 0 <= i < |unlisted| => BySeries(unlisted[i]));
    assert forall tag :: tag in tags <==> tag.BySeries? && tag.series in wanted - own[ByCik(cik)] by {
      forall s | s in unlisted ensures BySeries(s) in tags {
        var i :| 0 <= i < |unlisted| && unlisted[i] == s;
        assert tags[i] == BySeries(s);
      }
    }
    var more: nat;
    ok, after, more := SearchAll(own, tags, service);
    asked := asked + more;
    assert forall s :: s in wanted - own[ByCik(cik)] ==> BySeries(s) in tags;
  }

  method CollectNcen(insurance: seq<(string, nat)>, ncen: map<NcenTag, set<string>>, service: Service<NcenTag, set<string>>)
    returns (ok: bool, after: map<NcenTag, set<string>>, asked: nat)
    ensures Grew(ncen, after, asked)
    ensures ok ==> NcenComplete(insurance, after)
    ensures !ok ==> asked > 0
    ensures asked == 0 <==> NcenComplete(insurance, ncen)
  {
    hide RegistrantComplete;
    var groups := GroupByRegistrant(insurance);
    var ciks := InSomeOrder(groups.Keys);
    ok, after, asked := true, ncen, 0;
    for i := 0 to |ciks|
      invariant ok && Grew(ncen, after, asked)
      invariant forall k :: 0 <= k < i ==> RegistrantComplete(after, ciks[k], groups[ciks[k]])
      invariant asked == 0 <==> forall k :: 0 <= k < i ==> RegistrantComplete(ncen, ciks[k], groups[ciks[k]])
    {
      var more: nat;
      ghost var before := after;
      assert ciks[i] in groups;
      ok, after, more := CollectRegistrant(after, ciks[i], groups[ciks[i]], service);
      forall k | 0 <= k < i && ok ensures RegistrantComplete(after, ciks[k], groups[ciks[k]]) {
        StaysComplete(before, after, more, ciks[k], groups[ciks[k]]);
      }
      if RegistrantComplete(ncen, ciks[i], groups[ciks[i]]) {
        StaysComplete(ncen, before, asked, ciks[i], groups[ciks[i]]);
      }
      asked := asked + more;
      if !ok {
        assert ciks[i] in groups;
        return;
      }
    }
  }

  /** Searches the prospectuses of every registrant whose recorded search misses a wanted
      series; a search that succeeds covers the whole wanted set. */
  method CollectProspectus(insurance: seq<(string, nat)>, prospectus: map<nat, set<string>>, succeeds: nat -> bool)
    returns (ok: bool, after: map<nat, set<string>>, asked: nat)
    ensures ok ==> ProspectusComplete(insurance, after)
    ensures !ok ==> asked > 0
    ensures asked == 0 <==> ProspectusComplete(insurance, prospectus)
    ensures asked == 0 ==> after == prospectus
    ensures forall cik :: Searched(after, cik) == Searched(prospectus, cik)
                          || (cik in ByRegistrant(insurance) && Searched(after, cik) == ByRegistrant(insurance)[cik])
  {
    hide ByRegistrant, ProspectusComplete;
    var groups := GroupByRegistrant(insurance);
    var ciks := InSomeOrder(groups.Keys);
    ok, after, asked := true, prospectus, 0;
    ProspectusByRegistrant(insurance, prospectus);
    for i := 0 to |ciks|
      invariant ok
      invariant forall k :: 0 <= k < i ==> groups[ciks[k]] <= Searched(after, ciks[k])
      invariant forall cik :: Searched(after, cik) == Searched(prospectus, cik)
                              || (cik in groups && Searched(after, cik) == groups[cik])
      invariant asked == 0 ==> forall k :: 0 <= k < i ==> groups[ciks[k]] <= Searched(prospectus, ciks[k])
      invariant asked == 0 ==> after == prospectus
      invariant asked > 0 ==> !ProspectusComplete(insurance, prospectus)
    {
      var cik := ciks[i];
      assert cik in groups;
      if !(groups[cik] <= Searched(after, cik)) {
        asked := asked + 1;
        if !succeeds(cik) {
          ok := false;
          return;
        }
        after := after[cik := groups[cik]];
      }
    }
    ProspectusByRegistrant(insurance, after);
  }

  method CollectTiingo(tickers: seq<string>, tiingo: map<string, Option<nat>>, refresh: bool, service: Service<string, nat>)
    returns (ok: bool, after: map<string, Option<nat>>, asked: nat)
    ensures ok ==> TiingoComplete(tickers, after)
    ensures !ok ==> asked > 0
    ensures !refresh ==> (asked == 0 <==> TiingoComplete(tickers, tiingo))
    ensures refresh && ok ==> asked == |tickers|
    ensures asked == 0 ==> after == tiingo
    ensures forall k :: Observed(tiingo, k) ==> Observed(after, k)
  {
    ok, after, asked := true, tiingo, 0;
    for i := 0 to |tickers|
      invariant ok && (asked == 0 ==> after == tiingo)
      invariant forall k :: k in tickers[..i] ==> Observed(after, k)
      invariant forall k :: Observed(tiingo, k) ==> Observed(after, k)
      invariant forall k :: k in after && k !in tickers[..i] ==> k in tiingo && after[k] == tiingo[k]
      invariant !refresh ==> (asked == 0 <==> forall k :: k in tickers[..i] ==> Observed(tiingo, k))
      invariant refresh ==> asked == i
    {
      var ticker := tickers[i];
      assert tickers[..i + 1] == tickers[..i] + [ticker];
      if refresh || !Observed(after, ticker) {
        asked := asked + 1;
        var answer := service(ticker);
        if answer == None {
          assert ticker in tickers;
          ok := false;
          return;
        }
        after := after[ticker := answer];
      }
    }
    assert tickers[..|tickers|] == tickers;
  }

  // ------------------------------------------------------ the completeness check

  datatype Missing = SecAnswer(tag: SecTag) | TiingoAnswer(ticker: string) | NcenAnswer(ncen: NcenTag)
                   | ProspectusSearch(cik: nat)

  ghost predicate UnansweredSeries(groups: map<nat, set<string>>, ncen: map<NcenTag, set<string>>, cik: nat, s: string) {
    cik in groups && ByCik(cik) in ncen && s in groups[cik] - ncen[ByCik(cik)] && BySeries(s) !in ncen
  }

  /** An answer the targets need and the caches lack. A series answer is known to be needed
      only once its registrant's own filing is cached. */
  ghost predicate Lacks(t: Targets, c: Caches, m: Missing) {
    var groups := ByRegistrant(t.insurance);
    match m
    case SecAnswer(tag) => SecNeeds(t, tag) && tag !in c.sec
    case TiingoAnswer(k) => k in t.tiingo && (k !in c.tiingo || c.tiingo[k].None?)
    case NcenAnswer(ByCik(cik)) => cik in groups && ByCik(cik) !in c.ncen
    case NcenAnswer(BySeries(s)) => exists cik :: UnansweredSeries(groups, c.ncen, cik, s)
    case ProspectusSearch(cik) => cik in groups && !(groups[cik] <= Searched(c.prospectus, cik))
  }

  ghost predicate Complete(t: Targets, c: Caches) {
    && SecComplete(t, c.sec)
    && NcenComplete(t.insurance, c.ncen)
    && ProspectusComplete(t.insurance, c.prospectus)
    && TiingoComplete(t.tiingo, c.tiingo)
  }

  /** Nothing is lacking exactly when every collector is satisfied. */
  lemma LacksNothingExactly(t: Targets, c: Caches)
    ensures (forall m :: !Lacks(t, c, m)) <==> Complete(t, c)
  {
    ProspectusByRegistrant(t.insurance, c.prospectus);
    if forall m :: !Lacks(t, c, m) {
      forall tag | SecNeeds(t, tag) ensures tag in c.sec {
        assert !Lacks(t, c, SecAnswer(tag));
      }
      forall k | k in t.tiingo ensures Observed(c.tiingo, k) {
        assert !Lacks(t, c, TiingoAnswer(k));
      }
      var groups := ByRegistrant(t.insurance);
      forall cik | cik in groups
        ensures RegistrantComplete(c.ncen, cik, groups[cik]) && groups[cik] <= Searched(c.prospectus, cik)
      {
        assert !Lacks(t, c, ProspectusSearch(cik));
        assert !Lacks(t, c, NcenAnswer(ByCik(cik)));
        forall s | s in groups[cik] - c.ncen[ByCik(cik)] ensures BySeries(s) in c.ncen {
          assert !Lacks(t, c, NcenAnswer(BySeries(s)));
          assert !UnansweredSeries(groups, c.ncen, cik, s);
        }
      }
    }
  }

  /** The answers one registrant still lacks. */
  ghost predicate RegistrantLacks(groups: map<nat, set<string>>, c: Caches, cik: nat, m: Missing)
    requires cik in groups
  {
    match m
    case NcenAnswer(ByCik(k)) => k == cik && ByCik(cik) !in c.ncen
    case NcenAnswer(BySeries(s)) => UnansweredSeries(groups, c.ncen, cik, s)
    case ProspectusSearch(k) => k == cik && !(groups[cik] <= Searched(c.prospectus, cik))
    case _ => false
  }

  method MissingOfRegistrant(ghost groups: map<nat, set<string>>, c: Caches, cik: nat, wanted: set<string>)
    returns (missing: seq<Missing>)
    requires cik in groups && groups[cik] == wanted
    ensures forall m :: m in missing <==> RegistrantLacks(groups, c, cik, m)
  {
    missing := [];
    if ByCik(cik) !in c.ncen {
      missing := missing + [NcenAnswer(ByCik(cik))];
    } else {
      var unlisted := InSomeOrder(set s | s in wanted - c.ncen[ByCik(cik)] && BySeries(s) !in c.ncen);
      missing := missing + Each(s => NcenAnswer(BySeries(s)), unlisted);
      assert forall s :: s in unlisted ==> NcenAnswer(BySeries(s)) in missing;
    }
    if !(wanted <= Searched(c.prospectus, cik)) {
      missing := missing + [ProspectusSearch(cik)];
    }
  }

  /** Every registrant's missing answers, one registrant after the other. */
  method MissingOfRegistrants(insurance: seq<(string, nat)>, c: Caches) returns (missing: seq<Missing>)
    ensures forall m :: m in missing <==> exists cik :: cik in ByRegistrant(insurance) && RegistrantLacks(ByRegistrant(insurance), c, cik, m)
  {
    hide RegistrantLacks, ByRegistrant;
    var groups := GroupByRegistrant(insurance);
    var ciks := InSomeOrder(groups.Keys);
    missing := [];
    assert forall k :: 0 <= k < |ciks| ==> ciks[k] in groups;
    for i := 0 to |ciks|
      invariant forall m :: m in missing <==> exists k :: 0 <= k < i && RegistrantLacks(groups, c, ciks[k], m)
    {
      var some := MissingOfRegistrant(groups, c, ciks[i], groups[ciks[i]]);
      missing := missing + some;
    }
    forall m ensures m in missing <==> exists cik :: cik in groups && RegistrantLacks(groups, c, cik, m) {
      if cik :| cik in groups && RegistrantLacks(groups, c, cik, m) {
        var k :| 0 <= k < |ciks| && ciks[k] == cik;
      }
    }
  }

  method MissingSec(t: Targets, cache: map<SecTag, string>) returns (sec: seq<SecTag>)
    ensures forall tag :: tag in sec <==> SecNeeds(t, tag) && tag !in cache
  {
    var ofPairs := set p | p in t.pairs :: p.0;
    var classes := InSomeOrder(ofPairs + t.classes);
    sec := [];
    for i := 0 to |classes|
      invariant forall tag :: tag in sec <==> tag.Latest? && tag.cls in classes[..i] && tag !in cache
    {
      assert classes[..i + 1] == classes[..i] + [classes[i]];
      if Latest(classes[i]) !in cache {
        sec := sec + [Latest(classes[i])];
      }
    }
    assert classes[..|classes|] == classes;
    ghost var latest := sec;
    for i := 0 to |t.pairs|
      invariant forall tag :: tag in sec <==>
                  tag in latest || ((tag.FirstOf? || tag.LastOf?) && (tag.cls, tag.ticker) in t.pairs[..i] && tag !in cache)
    {
      var (cls, ticker) := t.pairs[i];
      assert t.pairs[..i + 1] == t.pairs[..i] + [(cls, ticker)];
      if FirstOf(cls, ticker) !in cache {
        sec := sec + [FirstOf(cls, ticker)];
      }
      if LastOf(cls, ticker) !in cache {
        sec := sec + [LastOf(cls, ticker)];
      }
    }
    assert t.pairs[..|t.pairs|] == t.pairs;
    ghost var paired := sec;
    for i := 0 to |t.series|
      invariant forall tag :: tag in sec <==>
                  tag in paired || (tag.SeriesLatest? && tag.series in t.series[..i] && tag !in cache)
    {
      assert t.series[..i + 1] == t.series[..i] + [t.series[i]];
      if SeriesLatest(t.series[i]) !in cache {
        sec := sec + [SeriesLatest(t.series[i])];
      }
    }
    assert t.series[..|t.series|] == t.series;
  }

  method MissingTiingo(tickers: seq<string>, tiingo: map<string, Option<nat>>) returns (missing: seq<string>)
    ensures forall k :: k in missing <==> k in tickers && (k !in tiingo || tiingo[k].None?)
  {
    missing := [];
    for i := 0 to |tickers|
      invariant forall k :: k in missing <==> k in tickers[..i] && !Observed(tiingo, k)
    {
      assert tickers[..i + 1] == tickers[..i] + [tickers[i]];
      if !Observed(tiingo, tickers[i]) {
        missing := missing + [tickers[i]];
      }
    }
    assert tickers[..|tickers|] == tickers;
  }

  /** Reports exactly the lacking answers, so the list is empty exactly when no collector
      would ask anything. */
  method MissingCacheEntries(t: Targets, c: Caches) returns (missing: seq<Missing>)
    ensures forall m :: m in missing <==> Lacks(t, c, m)
    ensures missing == [] <==> Complete(t, c)
  {
    hide Complete, ByRegistrant, SecNeeds, Observed;
    var sec := MissingSec(t, c.sec);
    var tiingo := MissingTiingo(t.tiingo, c.tiingo);
    var ofRegistrants := MissingOfRegistrants(t.insurance, c);
    missing := Each(tag => SecAnswer(tag), sec) + Each(k => TiingoAnswer(k), tiingo) + ofRegistrants;
    forall m ensures m in missing <==> Lacks(t, c, m) {
      match m
      case SecAnswer(tag) => assert tag in sec ==> SecAnswer(tag) in missing;
      case TiingoAnswer(k) => assert k in tiingo ==> TiingoAnswer(k) in missing;
      case _ =>
    }
    LacksNothingExactly(t, c);
    assert missing == [] || missing[0] in missing;
  }

  /** One online collection: the four collectors in turn, stopped by the first failure.
      When it succeeds the completeness check finds nothing; it asks nothing exactly when
      the check found nothing before; and a failure keeps the SEC and N-CEN answers. */
  method CollectOnline(
      t: Targets, c: Caches, sec: Service<SecTag, string>, ncen: Service<NcenTag, set<string>>, prospectus: nat -> bool,
      tiingo: Service<string, nat>, refresh: bool)
    returns (ok: bool, after: Caches, asked: nat)
    ensures ok ==> Complete(t, after)
    ensures !ok ==> asked > 0
    ensures !refresh ==> (asked == 0 <==> Complete(t, c))
    ensures asked == 0 ==> after == c
    ensures Grew(c.sec, after.sec, asked) && Grew(c.ncen, after.ncen, asked)
  {
    hide SecComplete, NcenComplete, ProspectusComplete, TiingoComplete, ByRegistrant;
    after := c;
    var more: nat;
    var secCache, ncenCache, prospectusCache, tiingoCache;
    ok, secCache, asked := CollectSec(t, c.sec, sec);
    after := after.(sec := secCache);
    if !ok {
      return;
    }
    ok, ncenCache, more := CollectNcen(t.insurance, c.ncen, ncen);
    after, asked := after.(ncen := ncenCache), asked + more;
    if !ok {
      return;
    }
    ok, prospectusCache, more := CollectProspectus(t.insurance, c.prospectus, prospectus);
    after, asked := after.(prospectus := prospectusCache), asked + more;
    if !ok {
      return;
    }
    ok, tiingoCache, more := CollectTiingo(t.tiingo, c.tiingo, refresh, tiingo);
    after, asked := after.(tiingo := tiingoCache), asked + more;
  }
}
