/** N-PORT equity rollups: which filing stands for a series and report date, what
    its holdings add up to, and how a loaded quarter replaces the stored one.
    Percentages are exact. Accessions are numbered in their text order. */
module Nport {
  import opened Prelude

  type Accession = nat
  datatype Report = Report(date: int, series: string)

  /** A submission row whose report date parsed; a missing filing date is the least one. */
  datatype Submission = Submission(accession: Accession, date: Option<int>, filed: int, last: bool)

  datatype Priority = Priority(last: bool, filed: int, accession: Accession)

  function PriorityOf(s: Submission): Priority { Priority(s.last, s.filed, s.accession) }

  /** Tuple order. */
  predicate Below(a: Priority, b: Priority) {
    || (!a.last && b.last)
    || (a.last == b.last && (a.filed < b.filed || (a.filed == b.filed && a.accession < b.accession)))
  }

  /** The report a submission is a candidate for, if any. */
  function CandidateFor(s: Submission, series: map<Accession, string>, only: Option<set<int>>): Option<Report> {
    if s.accession in series && s.date.Some? && (only.None? || s.date.value in only.value)
    then Some(Report(s.date.value, series[s.accession]))
    else None
  }

  /** The kept priority of a report is that of one of its candidates, and no
      candidate has a higher one. */
  ghost predicate IsSelection(rows: seq<Submission>, series: map<Accession, string>, only: Option<set<int>>, kept: map<Report, Priority>) {
    && (forall i :: 0 <= i < |rows| && CandidateFor(rows[i], series, only).Some? ==>
          CandidateFor(rows[i], series, only).value in kept)
    && (forall r :: r in kept ==> Chosen(rows, series, only, r, kept[r]))
  }

  ghost predicate Chosen(rows: seq<Submission>, series: map<Accession, string>, only: Option<set<int>>, r: Report, p: Priority) {
    && (exists s :: s in rows && CandidateFor(s, series, only) == Some(r) && PriorityOf(s) == p)
    && forall s :: s in rows && CandidateFor(s, series, only) == Some(r) ==> !Below(p, PriorityOf(s))
  }

  /** The selection loop. */
  method Select(rows: seq<Submission>, series: map<Accession, string>, only: Option<set<int>>) returns (kept: map<Report, Priority>)
    ensures IsSelection(rows, series, only, kept)
  {
    hide CandidateFor;
    kept := map[];
    var i := 0;
    while i < |rows|
      invariant 0 <= i <= |rows|
      invariant IsSelection(rows[..i], series, only, kept)
    {
      assert rows[..i + 1] == rows[..i] + [rows[i]];
      var candidate := CandidateFor(rows[i], series, only);
      ghost var before := kept;
      if candidate.Some? && (candidate.value !in kept || Below(kept[candidate.value], PriorityOf(rows[i]))) {
        kept := kept[candidate.value := PriorityOf(rows[i])];
      }
      SelectNext(rows[..i], rows[i], series, only, before);
      i := i + 1;
    }
    assert rows[..i] == rows;
  }

  lemma SelectNext(rows: seq<Submission>, s: Submission, series: map<Accession, string>, only: Option<set<int>>, kept: map<Report, Priority>)
    requires IsSelection(rows, series, only, kept)
    ensures var c := CandidateFor(s, series, only);
      IsSelection(rows + [s], series, only,
        if c.Some? && (c.value !in kept || Below(kept[c.value], PriorityOf(s))) then kept[c.value := PriorityOf(s)] else kept)
  {
    hide CandidateFor, PriorityOf, Chosen, Below;
    var c := CandidateFor(s, series, only);
    var takes := c.Some? && (c.value !in kept || Below(kept[c.value], PriorityOf(s)));
    var after := if takes then kept[c.value := PriorityOf(s)] else kept;
    forall r | r in after ensures Chosen(rows + [s], series, only, r, after[r]) {
      if takes && r == c.value {
        if r !in kept { NoCandidate(rows, series, only, kept, r); } else { assert Chosen(rows, series, only, r, kept[r]); }
        TakesOver(rows, s, series, only, r, if r in kept then Some(kept[r]) else None);
      } else {
        assert Chosen(rows, series, only, r, kept[r]);
        StaysChosen(rows, s, series, only, r, kept[r]);
      }
    }
    assert forall i :: 0 <= i < |rows| ==> (rows + [s])[i] == rows[i];
  }

  /** A new row that is not preferred leaves a choice standing. */
  lemma StaysChosen(rows: seq<Submission>, s: Submission, series: map<Accession, string>, only: Option<set<int>>, r: Report, p: Priority)
    requires Chosen(rows, series, only, r, p) && (CandidateFor(s, series, only) == Some(r) ==> !Below(p, PriorityOf(s)))
    ensures Chosen(rows + [s], series, only, r, p)
  {
    hide CandidateFor, PriorityOf, Below;
    var t :| t in rows && CandidateFor(t, series, only) == Some(r) && PriorityOf(t) == p;
    assert t in rows + [s];
  }

  /** A new candidate that is preferred, or the first, is chosen. */
  lemma TakesOver(rows: seq<Submission>, s: Submission, series: map<Accession, string>, only: Option<set<int>>, r: Report, before: Option<Priority>)
    requires CandidateFor(s, series, only) == Some(r)
    requires before.Some? ==> Chosen(rows, series, only, r, before.value) && Below(before.value, PriorityOf(s))
    requires before.None? ==> forall t :: t in rows ==> CandidateFor(t, series, only) != Some(r)
    ensures Chosen(rows + [s], series, only, r, PriorityOf(s))
  {
    hide CandidateFor, PriorityOf, Below;
    assert s in rows + [s];
    forall t | t in rows + [s] && CandidateFor(t, series, only) == Some(r) ensures !Below(PriorityOf(s), PriorityOf(t)) {
      if t in rows {
        NotAbove(before.value, PriorityOf(s), PriorityOf(t));
      } else {
        NotAbove(PriorityOf(s), PriorityOf(s), PriorityOf(s));
      }
    }
  }

  /** Tuple order is strict and total. */
  lemma NotAbove(a: Priority, b: Priority, c: Priority)
    ensures Below(a, b) && !Below(a, c) ==> !Below(b, c)
    ensures !Below(b, b)
  {
  }

  lemma NoCandidate(rows: seq<Submission>, series: map<Accession, string>, only: Option<set<int>>, kept: map<Report, Priority>, r: Report)
    requires IsSelection(rows, series, only, kept) && r !in kept
    ensures forall s :: s in rows ==> CandidateFor(s, series, only) != Some(r)
  {
    hide CandidateFor, Chosen;
  }

  /** The same submissions in any file order give the same selection. */
  lemma SelectionIgnoresOrder(a: seq<Submission>, b: seq<Submission>, series: map<Accession, string>, only: Option<set<int>>, ka: map<Report, Priority>, kb: map<Report, Priority>)
    requires forall s :: s in a <==> s in b
    requires IsSelection(a, series, only, ka) && IsSelection(b, series, only, kb)
    ensures ka == kb
  {
    SelectionIncluded(a, b, series, only, ka, kb);
    SelectionIncluded(b, a, series, only, kb, ka);
    assert ka.Keys == kb.Keys;
  }

  lemma SelectionIncluded(a: seq<Submission>, b: seq<Submission>, series: map<Accession, string>, only: Option<set<int>>, ka: map<Report, Priority>, kb: map<Report, Priority>)
    requires forall s :: s in a <==> s in b
    requires IsSelection(a, series, only, ka) && IsSelection(b, series, only, kb)
    ensures forall r :: r in ka ==> r in kb && ka[r] == kb[r]
  {
    hide CandidateFor;
    forall r | r in ka ensures r in kb && ka[r] == kb[r] {
      assert Chosen(a, series, only, r, ka[r]);
      var s :| s in a && CandidateFor(s, series, only) == Some(r) && PriorityOf(s) == ka[r];
      assert s in b;
      if r !in kb { NoCandidate(b, series, only, kb, r); }
      assert Chosen(b, series, only, r, kb[r]);
    }
  }

  /** With one submission row per accession no accession stands for two reports, so
      the returned map from accession to report loses nothing. */
  lemma SelectionInverts(rows: seq<Submission>, series: map<Accession, string>, only: Option<set<int>>, kept: map<Report, Priority>, r: Report, q: Report)
    requires UniqueAccessions(rows)
    requires IsSelection(rows, series, only, kept) && r in kept && q in kept && kept[r].accession == kept[q].accession
    ensures r == q
  {
    assert Chosen(rows, series, only, r, kept[r]) && Chosen(rows, series, only, q, kept[q]);
  }

  /** The kept filing in plain terms: a submission of that series and date, and for
      every other one the last-filing flag, then the filing date, then the accession is
      no higher. */
  lemma KeptIsHighest(rows: seq<Submission>, series: map<Accession, string>, only: Option<set<int>>, kept: map<Report, Priority>, s: Submission)
    requires IsSelection(rows, series, only, kept)
    requires s in rows && s.accession in series && s.date.Some? && (only.Some? ==> s.date.value in only.value)
    ensures var r := Report(s.date.value, series[s.accession]);
      && r in kept
      && (exists t ::
            && t in rows && t.accession == kept[r].accession && t.last == kept[r].last && t.filed == kept[r].filed
            && t.date == s.date && t.accession in series && series[t.accession] == r.series)
      && (s.last ==> kept[r].last)
      && (s.last == kept[r].last ==> s.filed <= kept[r].filed)
      && (s.last == kept[r].last && s.filed == kept[r].filed ==> s.accession <= kept[r].accession)
  {
    var i :| 0 <= i < |rows| && rows[i] == s;
    assert CandidateFor(rows[i], series, only).Some?;
    var r := Report(s.date.value, series[s.accession]);
    assert Chosen(rows, series, only, r, kept[r]);
    var t :| t in rows && CandidateFor(t, series, only) == Some(r) && PriorityOf(t) == kept[r];
  }

  /** And only such reports are kept. */
  lemma KeptIsSubmitted(rows: seq<Submission>, series: map<Accession, string>, only: Option<set<int>>, kept: map<Report, Priority>, r: Report)
    requires IsSelection(rows, series, only, kept) && r in kept
    ensures only.Some? ==> r.date in only.value
    ensures exists s ::
      && s in rows && s.accession == kept[r].accession && s.date == Some(r.date)
      && s.accession in series && series[s.accession] == r.series
  {
    assert Chosen(rows, series, only, r, kept[r]);
  }

  predicate UniqueAccessions(rows: seq<Submission>) {
    forall s, t :: s in rows && t in rows && s.accession == t.accession ==> s == t
  }

  /** The returned map from accession to report and the kept priorities are inverse. */
  ghost predicate Inverts(kept: map<Report, Priority>, selected: map<Accession, Report>) {
    && (forall r :: r in kept ==> kept[r].accession in selected && selected[kept[r].accession] == r)
    && (forall a :: a in selected ==> selected[a] in kept && kept[selected[a]].accession == a)
  }

  /** The kept accessions with their reports: the inverse of the selection when the file
      has one row per accession. */
  method SelectedReports(rows: seq<Submission>, series: map<Accession, string>, only: Option<set<int>>)
      returns (selected: map<Accession, Report>, ghost kept: map<Report, Priority>)
    ensures IsSelection(rows, series, only, kept)
    ensures UniqueAccessions(rows) ==> Inverts(kept, selected)
    ensures selected.Values <= kept.Keys
  {
    hide IsSelection, CandidateFor;
    var chosen := Select(rows, series, only);
    kept, selected := chosen, map[];
    var left := chosen.Keys;
    while left != {}
      invariant left <= chosen.Keys
      invariant forall a :: a in selected ==> selected[a] in chosen.Keys - left && chosen[selected[a]].accession == a
      invariant forall r :: r in chosen.Keys - left ==> chosen[r].accession in selected
      decreases left
    {
      var r :| r in left;
      selected, left := selected[chosen[r].accession := r], left - {r};
    }
    if UniqueAccessions(rows) {
      forall r | r in chosen ensures selected[chosen[r].accession] == r {
        SelectionInverts(rows, series, only, chosen, r, selected[chosen[r].accession]);
      }
    }
  }

  // --------------------------------------------------------------------- rollups

  datatype Payoff = Long | Short | OtherPayoff

  /** A row of the holdings file, with its country and holding key resolved. */
  datatype HoldingRow = HoldingRow(
    accession: Accession, equity: bool, pct: Option<real>, payoff: Payoff, country: string, key: Option<string>)

  /** An equity holding row with a percentage, of a selected accession. */
  datatype Holding = Holding(report: Report, pct: real, payoff: Payoff, country: string, key: Option<string>)

  function Signed(h: Holding): real {
    match h.payoff
    case Short => -Abs(h.pct)
    case Long => Abs(h.pct)
    case OtherPayoff => h.pct
  }

  datatype Totals = Totals(gross: real, net: real)
  datatype Slot = Slot(report: Report, name: string)
  datatype Rollups = Rollups(summaries: map<Report, Totals>, countries: map<Slot, real>, holdings: map<Slot, Totals>)

  function At(m: map<Slot, real>, k: Slot): real { if k in m then m[k] else 0.0 }
  function TotalsAt(m: map<Slot, Totals>, k: Slot): Totals { if k in m then m[k] else Totals(0.0, 0.0) }
  function SummaryAt(m: map<Report, Totals>, r: Report): Totals { if r in m then m[r] else Totals(0.0, 0.0) }

  function More(t: Totals, signed: real): Totals { Totals(t.gross + Abs(signed), t.net + signed) }

  /** One row added to the accumulators. */
  function Added(u: Rollups, h: Holding): Rollups {
    var signed, c := Signed(h), Slot(h.report, h.country);
    Rollups(
      u.summaries[h.report := More(SummaryAt(u.summaries, h.report), signed)],
      u.countries[c := At(u.countries, c) + signed],
      match h.key
      case None => u.holdings
      case Some(key) => u.holdings[Slot(h.report, key) := More(TotalsAt(u.holdings, Slot(h.report, key)), signed)])
  }

  function Start(selected: set<Report>): Rollups { Rollups(map r | r in selected :: Totals(0.0, 0.0), map[], map[]) }

  /** What the rows up to some point add up to. */
  function RolledUp(selected: set<Report>, rows: seq<Holding>): Rollups {
    if rows == [] then Start(selected) else Added(RolledUp(selected, rows[..|rows| - 1]), rows[|rows| - 1])
  }

  /** What a file row counts as: nothing unless it is an equity row of a selected
      accession with a percentage. */
  function Counted(selected: map<Accession, Report>, row: HoldingRow): Option<Holding> {
    if row.accession in selected && row.equity && row.pct.Some?
    then Some(Holding(selected[row.accession], row.pct.value, row.payoff, row.country, row.key))
    else None
  }

  function Attributed(selected: map<Accession, Report>, file: seq<HoldingRow>): seq<Holding> {
    if file == [] then []
    else
      var before := Attributed(selected, file[..|file| - 1]);
      match Counted(selected, file[|file| - 1])
      case None => before
      case Some(h) => before + [h]
  }

  lemma AttributedNext(selected: map<Accession, Report>, file: seq<HoldingRow>, i: nat)
    requires i < |file|
    ensures Attributed(selected, file[..i + 1])
      == match Counted(selected, file[i]) { case None => Attributed(selected, file[..i]) case Some(h) => Attributed(selected, file[..i]) + [h] }
  {
    hide Counted;
    assert file[..i + 1][..i] == file[..i];
  }

  lemma RolledUpNext(reports: set<Report>, rows: seq<Holding>, h: Holding)
    ensures RolledUp(reports, rows + [h]) == Added(RolledUp(reports, rows), h)
  {
    hide Added;
    assert (rows + [h])[..|rows|] == rows;
  }

  /** The accumulation loop over in-place dictionaries. */
  method BuildRollups(selected: map<Accession, Report>, file: seq<HoldingRow>) returns (u: Rollups)
    ensures u == RolledUp(selected.Values, Attributed(selected, file))
  {
    hide Signed, More, RolledUp, Attributed, Added, Counted;
    var summaries: map<Report, Totals> := map r | r in selected.Values :: Totals(0.0, 0.0);
    var countries: map<Slot, real> := map[];
    var holdings: map<Slot, Totals> := map[];
    Nothing(selected);
    assert file[..0] == [];
    for i := 0 to |file|
      invariant Rollups(summaries, countries, holdings) == RolledUp(selected.Values, Attributed(selected, file[..i]))
    {
      var row := file[i];
      AttributedNext(selected, file, i);
      var counted := Counted(selected, row);
      if counted == None { continue; }
      var h := counted.value;
      RolledUpNext(selected.Values, Attributed(selected, file[..i]), h);
      AddedInPlace(Rollups(summaries, countries, holdings), h);
      var signed := Signed(h);
      if h.report !in summaries { summaries := summaries[h.report := Totals(0.0, 0.0)]; }
      summaries := summaries[h.report := More(summaries[h.report], signed)];
      var c := Slot(h.report, h.country);
      countries := countries[c := (if c in countries then countries[c] else 0.0) + signed];
      if h.key.Some? {
        var k := Slot(h.report, h.key.value);
        if k !in holdings { holdings := holdings[k := Totals(0.0, 0.0)]; }
        holdings := holdings[k := More(holdings[k], signed)];
      }
    }
    assert file[..|file|] == file;
    u := Rollups(summaries, countries, holdings);
  }

  lemma Nothing(selected: map<Accession, Report>)
    ensures RolledUp(selected.Values, Attributed(selected, [])) == Rollups(map r | r in selected.Values :: Totals(0.0, 0.0), map[], map[])
  {
  }

  /** Filling in a missing total first and then adding to it. */
  lemma AddedInPlace(u: Rollups, h: Holding)
    ensures var signed, c := Signed(h), Slot(h.report, h.country);
      && Added(u, h).summaries == u.summaries[h.report := Totals(0.0, 0.0)][h.report := More(SummaryAt(u.summaries, h.report), signed)]
      && Added(u, h).summaries == u.summaries[h.report := More(SummaryAt(u.summaries, h.report), signed)]
      && Added(u, h).countries == u.countries[c := (if c in u.countries then u.countries[c] else 0.0) + signed]
      && (h.key.None? ==> Added(u, h).holdings == u.holdings)
      && (h.key.Some? ==>
            var k := Slot(h.report, h.key.value);
            && Added(u, h).holdings == u.holdings[k := More(TotalsAt(u.holdings, k), signed)]
            && Added(u, h).holdings == u.holdings[k := Totals(0.0, 0.0)][k := More(TotalsAt(u.holdings, k), signed)])
  {
    hide Signed, More;
  }

  // ------------------------------------------- what the file rows themselves add up to

  /** The rows of a filing one table row adds up: all of them, those of a country, or
      those of a holding key. */
  datatype Part = Whole | OfCountry(country: string) | OfKey(key: string)

  predicate InPart(row: HoldingRow, part: Part) {
    match part
    case Whole => true
    case OfCountry(country) => row.country == country
    case OfKey(key) => row.key == Some(key)
  }

  /** An equity row of the filing that has a percentage. */
  predicate Weighs(row: HoldingRow, a: Accession, part: Part) {
    row.accession == a && row.equity && row.pct.Some? && InPart(row, part)
  }

  /** The absolute percentages of the rows of one payoff profile. */
  ghost function Sized(file: seq<HoldingRow>, a: Accession, part: Part, payoff: Payoff): real {
    if file == [] then 0.0
    else
      var before, row := Sized(file[..|file| - 1], a, part, payoff), file[|file| - 1];
      if Weighs(row, a, part) && row.payoff == payoff
      then before + (if row.pct.value < 0.0 then -row.pct.value else row.pct.value)
      else before
  }

  /** The percentages as filed of the rows that are neither long nor short. */
  ghost function AsFiled(file: seq<HoldingRow>, a: Accession, part: Part): real {
    if file == [] then 0.0
    else
      var before, row := AsFiled(file[..|file| - 1], a, part), file[|file| - 1];
      if Weighs(row, a, part) && !row.payoff.Long? && !row.payoff.Short? then before + row.pct.value else before
  }

  /** Gross counts every row by size; net counts long rows up, short ones down and the
      others as filed. */
  ghost function Exposure(file: seq<HoldingRow>, a: Accession, part: Part): Totals {
    Totals(
      Sized(file, a, part, Long) + Sized(file, a, part, Short) + Sized(file, a, part, OtherPayoff),
      Sized(file, a, part, Long) - Sized(file, a, part, Short) + AsFiled(file, a, part))
  }

  ghost predicate Occurs(file: seq<HoldingRow>, a: Accession, part: Part) {
    exists row :: row in file && Weighs(row, a, part)
  }

  /** Everything the three tables say about one report, read off the rows of one filing. */
  ghost predicate ReportStands(u: Rollups, r: Report, file: seq<HoldingRow>, a: Accession) {
    && r in u.summaries && u.summaries[r] == Exposure(file, a, Whole)
    && (forall name ::
          && (Slot(r, name) in u.countries <==> Occurs(file, a, OfCountry(name)))
          && (Slot(r, name) in u.countries ==> u.countries[Slot(r, name)] == Exposure(file, a, OfCountry(name)).net))
    && (forall name ::
          && (Slot(r, name) in u.holdings <==> Occurs(file, a, OfKey(name)))
          && (Slot(r, name) in u.holdings ==> u.holdings[Slot(r, name)] == Exposure(file, a, OfKey(name))))
  }

  /** One more row changes a part's exposure by its signed percentage if it weighs there. */
  lemma ExposureNext(file: seq<HoldingRow>, row: HoldingRow, a: Accession, part: Part)
    ensures Exposure(file + [row], a, part)
      == (if Weighs(row, a, part)
          then More(Exposure(file, a, part), Signed(Holding(Report(0, ""), row.pct.value, row.payoff, row.country, row.key)))
          else Exposure(file, a, part))
    ensures Occurs(file + [row], a, part) <==> Occurs(file, a, part) || Weighs(row, a, part)
  {
    assert (file + [row])[..|file|] == file;
    hide InPart;
    if Occurs(file + [row], a, part) {
      var q :| q in file + [row] && Weighs(q, a, part);
    }
    if Occurs(file, a, part) {
      var q :| q in file && Weighs(q, a, part);
      assert q in file + [row];
    }
    assert row in file + [row];
  }

  lemma SignedOf(h: Holding, g: Holding)
    requires h.pct == g.pct && h.payoff == g.payoff
    ensures Signed(h) == Signed(g)
  {
  }

  lemma NothingStands(reports: set<Report>, r: Report, a: Accession)
    requires r in reports
    ensures ReportStands(Start(reports), r, [], a)
  {
  }

  /** One country's, and one holding's, table row after one more row of the filing. */
  lemma OwnCountry(u: Rollups, r: Report, file: seq<HoldingRow>, row: HoldingRow, a: Accession, name: string)
    requires ReportStands(u, r, file, a) && Weighs(row, a, Whole)
    ensures var w := Added(u, Holding(r, row.pct.value, row.payoff, row.country, row.key));
      && (Slot(r, name) in w.countries <==> Occurs(file + [row], a, OfCountry(name)))
      && (Slot(r, name) in w.countries ==> w.countries[Slot(r, name)] == Exposure(file + [row], a, OfCountry(name)).net)
  {
    SignedOf(Holding(r, row.pct.value, row.payoff, row.country, row.key), Holding(Report(0, ""), row.pct.value, row.payoff, row.country, row.key));
    ExposureNext(file, row, a, OfCountry(name));
    if !Occurs(file, a, OfCountry(name)) { NoExposure(file, a, OfCountry(name)); }
    hide Signed, Exposure, Occurs;
  }

  lemma OwnHolding(u: Rollups, r: Report, file: seq<HoldingRow>, row: HoldingRow, a: Accession, name: string)
    requires ReportStands(u, r, file, a) && Weighs(row, a, Whole)
    ensures var w := Added(u, Holding(r, row.pct.value, row.payoff, row.country, row.key));
      && (Slot(r, name) in w.holdings <==> Occurs(file + [row], a, OfKey(name)))
      && (Slot(r, name) in w.holdings ==> w.holdings[Slot(r, name)] == Exposure(file + [row], a, OfKey(name)))
  {
    SignedOf(Holding(r, row.pct.value, row.payoff, row.country, row.key), Holding(Report(0, ""), row.pct.value, row.payoff, row.country, row.key));
    ExposureNext(file, row, a, OfKey(name));
    if !Occurs(file, a, OfKey(name)) { NoExposure(file, a, OfKey(name)); }
    hide Signed, Exposure, Occurs, More;
  }

  /** The tables after one more row of the filing. */
  lemma OwnRowStands(u: Rollups, r: Report, file: seq<HoldingRow>, row: HoldingRow, a: Accession)
    requires ReportStands(u, r, file, a) && Weighs(row, a, Whole)
    ensures ReportStands(Added(u, Holding(r, row.pct.value, row.payoff, row.country, row.key)), r, file + [row], a)
  {
    OwnSummary(u, r, file, row, a);
    forall name { OwnCountry(u, r, file, row, a, name); }
    forall name { OwnHolding(u, r, file, row, a, name); }
    hide Added, Exposure, Occurs;
  }

  lemma OwnSummary(u: Rollups, r: Report, file: seq<HoldingRow>, row: HoldingRow, a: Accession)
    requires ReportStands(u, r, file, a) && Weighs(row, a, Whole)
    ensures var w := Added(u, Holding(r, row.pct.value, row.payoff, row.country, row.key));
      r in w.summaries && w.summaries[r] == Exposure(file + [row], a, Whole)
  {
    SignedOf(Holding(r, row.pct.value, row.payoff, row.country, row.key), Holding(Report(0, ""), row.pct.value, row.payoff, row.country, row.key));
    ExposureNext(file, row, a, Whole);
    hide Signed, Exposure, Occurs;
  }

  lemma {:induction false} NoExposure(file: seq<HoldingRow>, a: Accession, part: Part)
    requires !Occurs(file, a, part)
    ensures Exposure(file, a, part) == Totals(0.0, 0.0)
    decreases |file|
  {
    if file != [] {
      var n := |file| - 1;
      assert file[..n] + [file[n]] == file;
      ExposureNext(file[..n], file[n], a, part);
      NoExposure(file[..n], a, part);
    }
  }

  /** A row that does not weigh, or of another report, leaves a report's tables. */
  lemma OtherRowStands(u: Rollups, w: Rollups, r: Report, file: seq<HoldingRow>, row: HoldingRow, a: Accession)
    requires ReportStands(u, r, file, a) && !Weighs(row, a, Whole)
    requires w == u || exists h: Holding :: h.report != r && w == Added(u, h)
    ensures ReportStands(w, r, file + [row], a)
  {
    ExposureNext(file, row, a, Whole);
    hide Signed, Exposure, Occurs, More;
    forall name ensures Exposure(file + [row], a, OfCountry(name)) == Exposure(file, a, OfCountry(name))
      && (Occurs(file + [row], a, OfCountry(name)) <==> Occurs(file, a, OfCountry(name)))
    {
      ExposureNext(file, row, a, OfCountry(name));
    }
    forall name ensures Exposure(file + [row], a, OfKey(name)) == Exposure(file, a, OfKey(name))
      && (Occurs(file + [row], a, OfKey(name)) <==> Occurs(file, a, OfKey(name)))
    {
      ExposureNext(file, row, a, OfKey(name));
    }
    if w != u {
      var h: Holding :| h.report != r && w == Added(u, h);
    }
  }

  /** The rollups of a report that one accession stands for are that filing's exposure. */
  lemma {:induction false} TotalsOfFiling(reports: set<Report>, selected: map<Accession, Report>, file: seq<HoldingRow>, r: Report, a: Accession)
    requires forall b :: b in selected ==> (selected[b] == r <==> b == a)
    requires a in selected && r in reports
    ensures ReportStands(RolledUp(reports, Attributed(selected, file)), r, file, a)
    decreases |file|
  {
    if file == [] {
      NothingStands(reports, r, a);
    } else {
      var n := |file| - 1;
      var row, u := file[n], RolledUp(reports, Attributed(selected, file[..n]));
      TotalsOfFiling(reports, selected, file[..n], r, a);
      assert file[..n + 1] == file && file[..n] + [row] == file;
      AttributedNext(selected, file, n);
      var counted := Counted(selected, row);
      if counted.Some? { RolledUpNext(reports, Attributed(selected, file[..n]), counted.value); }
      hide RolledUp, Added, ReportStands, Attributed;
      if Weighs(row, a, Whole) {
        OwnRowStands(u, r, file[..n], row, a);
      } else {
        OtherRowStands(u, if counted.Some? then Added(u, counted.value) else u, r, file[..n], row, a);
      }
    }
  }

  /** Every report stands for one filing: the reports are exactly the selected ones, and
      all a report's rows in the three tables are the exposure of the rows of its kept
      accession, the one of highest priority, and of no other. */
  lemma SummariesStandForKept(rows: seq<Submission>, series: map<Accession, string>, only: Option<set<int>>,
      kept: map<Report, Priority>, selected: map<Accession, Report>, file: seq<HoldingRow>)
    requires UniqueAccessions(rows) && IsSelection(rows, series, only, kept) && Inverts(kept, selected)
    ensures var u := RolledUp(selected.Values, Attributed(selected, file));
      && u.summaries.Keys == kept.Keys
      && forall r :: r in kept ==> ReportStands(u, r, file, kept[r].accession)
  {
    hide IsSelection, ReportStands;
    var u := RolledUp(selected.Values, Attributed(selected, file));
    AttributedReports(selected, file);
    SummaryKeys(selected.Values, Attributed(selected, file));
    assert selected.Values == kept.Keys by {
      forall r | r in kept ensures r in selected.Values { assert selected[kept[r].accession] == r; }
    }
    forall r | r in kept ensures ReportStands(u, r, file, kept[r].accession) {
      TotalsOfFiling(selected.Values, selected, file, r, kept[r].accession);
    }
  }

  lemma {:induction false} AttributedReports(selected: map<Accession, Report>, file: seq<HoldingRow>)
    ensures forall h :: h in Attributed(selected, file) ==> h.report in selected.Values
    decreases |file|
  {
    if file != [] { AttributedReports(selected, file[..|file| - 1]); }
  }

  lemma {:induction false} SummaryKeys(reports: set<Report>, rows: seq<Holding>)
    requires forall h :: h in rows ==> h.report in reports
    ensures RolledUp(reports, rows).summaries.Keys == reports
    decreases |rows|
  {
    if rows != [] {
      assert rows[|rows| - 1] in rows;
      SummaryKeys(reports, rows[..|rows| - 1]);
    }
  }

  /** The whole build: selection and accumulation over the two files. */
  method BuildEquityRollups(rows: seq<Submission>, series: map<Accession, string>, only: Option<set<int>>, file: seq<HoldingRow>)
      returns (u: Rollups, ghost kept: map<Report, Priority>)
    ensures IsSelection(rows, series, only, kept)
    ensures UniqueAccessions(rows) ==>
      && u.summaries.Keys == kept.Keys
      && forall r :: r in kept ==> ReportStands(u, r, file, kept[r].accession)
    ensures Summarized(u)
  {
    hide IsSelection, ReportStands, UniqueAccessions, RolledUp, Attributed, Inverts;
    var selected;
    selected, kept := SelectedReports(rows, series, only);
    u := BuildRollups(selected, file);
    DetailsSummarized(selected.Values, Attributed(selected, file));
    if UniqueAccessions(rows) { SummariesStandForKept(rows, series, only, kept, selected, file); }
  }

  ghost function CountriesOf(u: Rollups, r: Report): map<Slot, real> { map k | k in u.countries && k.report == r :: u.countries[k] }
  ghost function NetsOf(u: Rollups, r: Report): map<Slot, real> { map k | k in u.holdings && k.report == r :: u.holdings[k].net }
  ghost function GrossesOf(u: Rollups, r: Report): map<Slot, real> { map k | k in u.holdings && k.report == r :: u.holdings[k].gross }

  lemma SumAfterPut(m: map<Slot, real>, k: Slot, v: real)
    ensures MapSum(m[k := (if k in m then m[k] else 0.0) + v]) == MapSum(m) + v
  {
    if k in m { MapSumUpdate(m, k, m[k] + v); } else { MapSumAdd(m, k, 0.0 + v); }
  }

  lemma CountryStep(u: Rollups, h: Holding, r: Report)
    ensures MapSum(CountriesOf(Added(u, h), r)) == MapSum(CountriesOf(u, r)) + (if h.report == r then Signed(h) else 0.0)
  {
    var c := Slot(h.report, h.country);
    if h.report == r {
      SumAfterPut(CountriesOf(u, r), c, Signed(h));
      assert CountriesOf(Added(u, h), r) == CountriesOf(u, r)[c := At(u.countries, c) + Signed(h)];
    } else {
      assert CountriesOf(Added(u, h), r) == CountriesOf(u, r);
    }
  }

  lemma NetColumn(u: Rollups, h: Holding, r: Report)
    ensures NetsOf(Added(u, h), r)
      == if h.report == r && h.key.Some? then NetsOf(u, r)[Slot(r, h.key.value) := (if Slot(r, h.key.value) in NetsOf(u, r) then NetsOf(u, r)[Slot(r, h.key.value)] else 0.0) + Signed(h)]
         else NetsOf(u, r)
  {
    hide Signed;
  }

  lemma GrossColumn(u: Rollups, h: Holding, r: Report)
    ensures GrossesOf(Added(u, h), r)
      == if h.report == r && h.key.Some? then GrossesOf(u, r)[Slot(r, h.key.value) := (if Slot(r, h.key.value) in GrossesOf(u, r) then GrossesOf(u, r)[Slot(r, h.key.value)] else 0.0) + Abs(Signed(h))]
         else GrossesOf(u, r)
  {
    hide Signed, Abs;
  }

  lemma HoldingStep(u: Rollups, h: Holding, r: Report)
    ensures MapSum(NetsOf(Added(u, h), r)) == MapSum(NetsOf(u, r)) + (if h.report == r && h.key.Some? then Signed(h) else 0.0)
    ensures MapSum(GrossesOf(Added(u, h), r)) == MapSum(GrossesOf(u, r)) + (if h.report == r && h.key.Some? then Abs(Signed(h)) else 0.0)
  {
    hide NetsOf, GrossesOf, MapSum, Signed, Added, Abs;
    NetColumn(u, h, r);
    GrossColumn(u, h, r);
    if h.report == r && h.key.Some? {
      SumAfterPut(NetsOf(u, r), Slot(r, h.key.value), Signed(h));
      SumAfterPut(GrossesOf(u, r), Slot(r, h.key.value), Abs(Signed(h)));
    }
  }

  /** Every row of the report has a holding key. */
  predicate AllKeyed(rows: seq<Holding>, r: Report) { forall i :: 0 <= i < |rows| && rows[i].report == r ==> rows[i].key.Some? }

  /** Conservation, report by report: the countries add up to net equity, net never
      exceeds gross, and the holdings add up to both totals when every row has a key;
      in general they fall short by exactly the rows without one. */
  lemma {:induction false} RollupsConserve(selected: set<Report>, rows: seq<Holding>, r: Report)
    ensures var u := RolledUp(selected, rows);
      && MapSum(CountriesOf(u, r)) == SummaryAt(u.summaries, r).net
      && Abs(SummaryAt(u.summaries, r).net) <= SummaryAt(u.summaries, r).gross
      && MapSum(NetsOf(u, r)) + Keyless(rows, r).net == SummaryAt(u.summaries, r).net
      && MapSum(GrossesOf(u, r)) + Keyless(rows, r).gross == SummaryAt(u.summaries, r).gross
    decreases |rows|
  {
    if rows == [] {
      var u := RolledUp(selected, rows);
      assert CountriesOf(u, r) == map[] && NetsOf(u, r) == map[] && GrossesOf(u, r) == map[];
    } else {
      var before, h := RolledUp(selected, rows[..|rows| - 1]), rows[|rows| - 1];
      RollupsConserve(selected, rows[..|rows| - 1], r);
      hide MapSum, CountriesOf, NetsOf, GrossesOf, Signed;
      CountryStep(before, h, r);
      HoldingStep(before, h, r);
    }
  }

  /** The totals of the report's rows without a holding key. */
  function Keyless(rows: seq<Holding>, r: Report): Totals {
    if rows == [] then Totals(0.0, 0.0)
    else
      var rest, h := Keyless(rows[..|rows| - 1], r), rows[|rows| - 1];
      if h.report == r && h.key.None? then More(rest, Signed(h)) else rest
  }

  lemma {:induction false} AllKeyedMissNothing(rows: seq<Holding>, r: Report)
    requires AllKeyed(rows, r)
    ensures Keyless(rows, r) == Totals(0.0, 0.0)
    decreases |rows|
  {
    if rows != [] {
      assert rows[|rows| - 1].report == r ==> rows[|rows| - 1].key.Some?;
      AllKeyedMissNothing(rows[..|rows| - 1], r);
    }
  }

  lemma KeyedHoldingsConserve(selected: set<Report>, rows: seq<Holding>, r: Report)
    requires AllKeyed(rows, r)
    ensures var u := RolledUp(selected, rows);
      && MapSum(NetsOf(u, r)) == SummaryAt(u.summaries, r).net
      && MapSum(GrossesOf(u, r)) == SummaryAt(u.summaries, r).gross
  {
    RollupsConserve(selected, rows, r);
    AllKeyedMissNothing(rows, r);
  }

  /** Detail rows only exist under a summarized report. */
  lemma {:induction false} DetailsSummarized(selected: set<Report>, rows: seq<Holding>)
    ensures var u := RolledUp(selected, rows);
      && (forall k :: k in u.countries ==> k.report in u.summaries)
      && (forall k :: k in u.holdings ==> k.report in u.summaries)
      && selected <= u.summaries.Keys
    decreases |rows|
  {
    if rows != [] { DetailsSummarized(selected, rows[..|rows| - 1]); }
  }

  // ---------------------------------------------------------------------- upsert

  predicate Summarized(u: Rollups) {
    && (forall k :: k in u.countries ==> k.report in u.summaries)
    && (forall k :: k in u.holdings ==> k.report in u.summaries)
  }

  function KeepOthers<V>(table: map<Slot, V>, loaded: set<Report>): map<Slot, V> { map k | k in table && k.report !in loaded :: table[k] }

  class Tables {
    var summaries: map<Report, Totals>
    var countries: map<Slot, real>
    var holdings: map<Slot, Totals>

    constructor ()
      ensures State() == Rollups(map[], map[], map[])
    {
      summaries, countries, holdings := map[], map[], map[];
    }

    function State(): Rollups
      reads this
    {
      Rollups(summaries, countries, holdings)
    }

    /** Upserts the summaries, and replaces the detail rows of their reports: each loaded
        report ends exactly as loaded, stale detail rows gone, and every other report is
        exactly as it was. */
    method Upsert(loaded: Rollups)
      requires Summarized(loaded)
      modifies this
      ensures forall r :: SameReport(State(), if r in loaded.summaries then loaded else old(State()), r)
    {
      hide SameReport, Summarized;
      UpsertedReports(State(), loaded);
      summaries := summaries + loaded.summaries;
      countries := KeepOthers(countries, loaded.summaries.Keys);
      countries := countries + loaded.countries;
      holdings := KeepOthers(holdings, loaded.summaries.Keys);
      holdings := holdings + loaded.holdings;
      assert State() == Upserted(old(State()), loaded);
    }
  }

  function Upserted(u: Rollups, loaded: Rollups): Rollups {
    Rollups(
      u.summaries + loaded.summaries,
      KeepOthers(u.countries, loaded.summaries.Keys) + loaded.countries,
      KeepOthers(u.holdings, loaded.summaries.Keys) + loaded.holdings)
  }

  /** The part of the tables that belongs to one report. */
  ghost predicate SameReport(u: Rollups, w: Rollups, r: Report) {
    && (r in u.summaries <==> r in w.summaries) && (r in u.summaries && r in w.summaries ==> u.summaries[r] == w.summaries[r])
    && (forall name :: Slot(r, name) in u.countries <==> Slot(r, name) in w.countries)
    && (forall name :: Slot(r, name) in u.countries && Slot(r, name) in w.countries ==> u.countries[Slot(r, name)] == w.countries[Slot(r, name)])
    && (forall name :: Slot(r, name) in u.holdings <==> Slot(r, name) in w.holdings)
    && (forall name :: Slot(r, name) in u.holdings && Slot(r, name) in w.holdings ==> u.holdings[Slot(r, name)] == w.holdings[Slot(r, name)])
  }

  /** Tables that agree report by report are the same tables. */
  lemma SameReportsSameTables(u: Rollups, w: Rollups)
    requires forall r :: SameReport(u, w, r)
    ensures u == w
  {
    assert u.summaries == w.summaries by {
      forall r ensures (r in u.summaries <==> r in w.summaries) && (r in u.summaries && r in w.summaries ==> u.summaries[r] == w.summaries[r]) {
        assert SameReport(u, w, r);
      }
    }
    forall k: Slot ensures k in u.countries <==> k in w.countries { SlotOf(u, w, k); }
    forall k: Slot | k in u.countries ensures u.countries[k] == w.countries[k] { SlotOf(u, w, k); }
    forall k: Slot ensures k in u.holdings <==> k in w.holdings { SlotOf(u, w, k); }
    forall k: Slot | k in u.holdings ensures u.holdings[k] == w.holdings[k] { SlotOf(u, w, k); }
    assert u.countries.Keys == w.countries.Keys && u.holdings.Keys == w.holdings.Keys;
  }

  lemma SlotOf(u: Rollups, w: Rollups, k: Slot)
    requires SameReport(u, w, k.report)
    ensures (k in u.countries <==> k in w.countries) && (k in u.countries && k in w.countries ==> u.countries[k] == w.countries[k])
    ensures (k in u.holdings <==> k in w.holdings) && (k in u.holdings && k in w.holdings ==> u.holdings[k] == w.holdings[k])
  {
    assert k == Slot(k.report, k.name);
  }

  /** Replacing exactly the loaded reports fixes the tables an upsert leaves. */
  lemma UpsertReplacesLoaded(u: Rollups, loaded: Rollups, w: Rollups)
    requires Summarized(loaded)
    ensures w == Upserted(u, loaded) <==> forall r :: SameReport(w, if r in loaded.summaries then loaded else u, r)
  {
    hide SameReport, Upserted, Summarized;
    UpsertedReports(u, loaded);
    if forall r :: SameReport(w, if r in loaded.summaries then loaded else u, r) {
      forall r ensures SameReport(w, Upserted(u, loaded), r) {
        AlikeReports(w, Upserted(u, loaded), if r in loaded.summaries then loaded else u, r);
      }
      SameReportsSameTables(w, Upserted(u, loaded));
    }
  }

  lemma AlikeReports(a: Rollups, b: Rollups, c: Rollups, r: Report)
    requires SameReport(a, c, r) && SameReport(b, c, r)
    ensures SameReport(a, b, r)
  {
  }

  lemma UpsertedReports(u: Rollups, loaded: Rollups)
    requires Summarized(loaded)
    ensures forall r :: SameReport(Upserted(u, loaded), if r in loaded.summaries then loaded else u, r)
  {
    hide SameReport, Upserted, Summarized;
    forall r ensures SameReport(Upserted(u, loaded), if r in loaded.summaries then loaded else u, r) {
      UpsertedReport(u, loaded, r);
    }
  }

  lemma UpsertedReport(u: Rollups, loaded: Rollups, r: Report)
    requires Summarized(loaded)
    ensures SameReport(Upserted(u, loaded), if r in loaded.summaries then loaded else u, r)
  {
  }

  /** Loading the same quarter again changes nothing. */
  lemma UpsertTwice(u: Rollups, loaded: Rollups)
    requires Summarized(loaded)
    ensures Upserted(Upserted(u, loaded), loaded) == Upserted(u, loaded)
  {
    var once := Upserted(u, loaded);
    assert once.summaries + loaded.summaries == once.summaries;
    SameDetail(u.countries, loaded.countries, loaded.summaries.Keys);
    SameDetail(u.holdings, loaded.holdings, loaded.summaries.Keys);
  }

  lemma SameDetail<V>(table: map<Slot, V>, loaded: map<Slot, V>, reports: set<Report>)
    requires forall k :: k in loaded ==> k.report in reports
    ensures KeepOthers(KeepOthers(table, reports) + loaded, reports) + loaded == KeepOthers(table, reports) + loaded
  {
  }
}
