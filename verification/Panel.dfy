/** The ledger of `bond_panel_v1`: publications in parent chains, immutable
    fact rows, return tombstones and the one-row application pointer, with the
    guards that the schema's triggers put on every writer, and the nearest-depth
    overlay that the `bond_panel_current_*_v1` views serve. */
module Panel {
  import opened Prelude

  type Id = nat
  type Cusip = string

  /** A calendar date coded as 372 * year + 31 * (month - 1) + (day - 1): the
      code orders dates as the calendar does. */
  type Date = int

  function YearOf(d: Date): int { d / 372 }
  predicate FirstOfMonth(d: Date) { d % 31 == 0 }
  function NextMonth(d: Date): Date { d + 31 }
  function MakeDate(year: int, month: int, day: int): Date { 372 * year + 31 * (month - 1) + (day - 1) }

  datatype Key = Key(month: Date, cusip: Cusip)
  datatype Surface = Snapshot | RvSignal | Returns | RatingPit
  datatype Config = Legacy | RegSOnly | Dual
  datatype Status = Prepared | Validated | Failed

  /** What a repair writes into lineage, payload and gate evidence. */
  datatype Marker = Marker(contract: string, fromHead: Id, pins: string)
  datatype Value = Text(text: string) | Mark(marker: Marker)
  /** A jsonb object, by its top-level members. */
  type Doc = map<string, Value>

  /** The jsonb containment test `a @> b`. */
  predicate Contains(a: Doc, b: Doc) { forall k :: k in b ==> k in a && a[k] == b[k] }

  datatype Counts = Counts(snapshotRows: int, signalRows: int, returnRows: int, ratingRows: int) {
    function Of(s: Surface): int {
      match s
      case Snapshot => snapshotRows
      case RvSignal => signalRows
      case Returns => returnRows
      case RatingPit => ratingRows
    }
  }

  datatype Publication = Publication(
    parent: Option<Id>, status: Status, config: Config, fingerprint: string, revision: string,
    first: Date, lastClosed: Date, open: Option<Date>, declared: Counts, lineage: Doc, evidence: Doc)

  datatype Identity = Identity(rule: Option<string>, reference: Option<string>, decision: Option<string>)

  /** What `btrim` leaves empty. */
  predicate Blank(text: string) { forall c :: c in text ==> c == ' ' }

  /** The dual-series identity rules every finalize and the pointer trigger check. */
  predicate IdentityValid(k: Key, i: Identity) {
    && i.rule.Some? && i.reference.Some? && !Blank(i.reference.value)
    && (i.rule == Some("rule_144a") ==> k.cusip == i.reference.value && i.decision.None?)
    && (i.rule == Some("reg_s") ==> i.decision.Some? && i.decision.value != "")
  }

  /** A served identity filled for the dual series: a row without a rule is a 144A row. */
  function FilledIdentity(k: Key, i: Identity): Identity {
    Identity(Some(i.rule.GetOr("rule_144a")), Some(i.reference.GetOr(k.cusip)), if i.rule.None? then None else i.decision)
  }

  /** What filling means: a present rule stays with its decision, a present reference
      stays, a row without a rule becomes a 144A row without a decision, and a row
      without a reference refers to itself. */
  ghost predicate IdentityFilled(k: Key, now: Identity, before: Identity) {
    && (before.rule.Some? ==> now.rule == before.rule && now.decision == before.decision)
    && (before.rule.None? ==> now.rule == Some("rule_144a") && now.decision.None?)
    && (before.reference.Some? ==> now.reference == before.reference)
    && (before.reference.None? ==> now.reference == Some(k.cusip))
  }

  lemma FilledExactly(k: Key, now: Identity, before: Identity)
    ensures now == FilledIdentity(k, before) <==> IdentityFilled(k, now, before)
  {
  }

  /** One fact row of any surface. Columns a surface lacks are left at a fixed
      value; columns no transaction looks at one by one are kept in `rest`. */
  datatype Row = Row(
    identity: Identity, included: bool, priceSource: Option<string>, volume: Option<real>,
    total: real, price: Option<real>, carry: Option<real>, exitBasis: string,
    exitReason: Option<string>, suspect: bool, lineage: Doc, payload: Doc, rest: string)

  datatype Slot = Slot(surface: Surface, pub: Id)

  datatype Ledger = Ledger(
    pubs: map<Id, Publication>, pointer: Option<Id>, facts: map<Slot, map<Key, Row>>,
    tombs: map<Id, set<Key>>, attested: map<Id, map<nat, nat>>)

  /** The rows one publication wrote itself. */
  function Own(l: Ledger, s: Surface, p: Id): map<Key, Row> {
    if Slot(s, p) in l.facts then l.facts[Slot(s, p)] else map[]
  }

  /** The keys one publication withdraws: only the returns surface has tombstones. */
  function Tombs(l: Ledger, s: Surface, p: Id): set<Key> {
    if s.Returns? && p in l.tombs then l.tombs[p] else {}
  }

  function Attested(l: Ledger, p: Id): map<nat, nat> {
    if p in l.attested then l.attested[p] else map[]
  }

  // ------------------------------------------------------------------ ancestry

  /** The three recursive walks over parents: a plain lineage walk, the source
      walk of the finalize gates, and the walk of the served views. */
  datatype Walk = Lineage | Source | View

  /** May a walk go on from a child of configuration `c` to this parent? */
  predicate Passes(walk: Walk, c: Config, parent: Publication) {
    && (walk.Lineage? || parent.config == c || (c.Dual? && parent.config.Legacy?))
    && (walk.View? ==> parent.status.Validated?)
  }

  /** The recursive query: follow parents, never to a publication already on the path. */
  function Chain(pubs: map<Id, Publication>, p: Id, path: set<Id>, walk: Walk): seq<Id>
    requires p in pubs && p !in path
    decreases pubs.Keys - path
  {
    match pubs[p].parent
    case None => [p]
    case Some(q) =>
      if q in pubs && q !in path + {p} && Passes(walk, pubs[p].config, pubs[q])
      then
        assert p in pubs.Keys - path;
        [p] + Chain(pubs, q, path + {p}, walk)
      else [p]
  }

  // ------------------------------------------------------------------- overlay

  /** A fact of depth `i` that the view's tombstone filter lets through. */
  ghost predicate Visible(l: Ledger, s: Surface, chain: seq<Id>, k: Key, i: nat) {
    && i < |chain|
    && k in Own(l, s, chain[i])
    && forall j :: 0 <= j <= i ==> k !in Tombs(l, s, chain[j])
  }

  /** The depth the view takes a key from. */
  ghost predicate Nearest(l: Ledger, s: Surface, chain: seq<Id>, k: Key, i: nat) {
    Visible(l, s, chain, k, i) && forall j: nat :: j < i ==> !Visible(l, s, chain, k, j)
  }

  /** `SELECT DISTINCT ON (month, cusip_id) ... ORDER BY ..., depth` over the
      visible facts: each key once, from the least depth. */
  ghost predicate IsProjection(l: Ledger, s: Surface, chain: seq<Id>, out: map<Key, Row>) {
    && (forall k :: k in out <==> exists i: nat :: Visible(l, s, chain, k, i))
    && (forall k, i: nat :: Nearest(l, s, chain, k, i) ==> k in out && out[k] == Own(l, s, chain[i])[k])
  }

  /** Own tombstone hides, else own row, else the row below. */
  function Over(own: map<Key, Row>, below: map<Key, Row>, hidden: set<Key>): map<Key, Row> {
    map k | k in below.Keys + own.Keys && k !in hidden :: if k in own then own[k] else below[k]
  }

  /** The overlay of a chain, nearest publication first. */
  function Overlay(l: Ledger, s: Surface, chain: seq<Id>): map<Key, Row> {
    if chain == [] then map[]
    else Over(Own(l, s, chain[0]), Overlay(l, s, chain[1..]), Tombs(l, s, chain[0]))
  }

  /** What the view of a surface returns with the pointer at `p`. */
  function Served(l: Ledger, s: Surface, p: Id): map<Key, Row> {
    if p in l.pubs && l.pubs[p].status.Validated? && (l.pubs[p].config.Legacy? || l.pubs[p].config.Dual?)
    then Overlay(l, s, Chain(l.pubs, p, {}, View))
    else map[]
  }

  /** What the current view of a surface returns. */
  function Current(l: Ledger, s: Surface): map<Key, Row> {
    match l.pointer
    case None => map[]
    case Some(p) => Served(l, s, p)
  }

  lemma VisibleShift(l: Ledger, s: Surface, chain: seq<Id>, k: Key, i: nat)
    requires chain != []
    ensures Visible(l, s, chain, k, i + 1) <==> k !in Tombs(l, s, chain[0]) && Visible(l, s, chain[1..], k, i)
  {
    if k !in Tombs(l, s, chain[0]) && Visible(l, s, chain[1..], k, i) {
      forall j | 0 <= j <= i + 1 ensures k !in Tombs(l, s, chain[j]) {
        if j > 0 { assert chain[j] == chain[1..][j - 1]; }
      }
    }
    if Visible(l, s, chain, k, i + 1) {
      forall j | 0 <= j <= i ensures k !in Tombs(l, s, chain[1..][j]) {
        assert chain[1..][j] == chain[j + 1];
      }
    }
  }

  /** The declarative projection and the recursive overlay are the same map, for
      chains of any length. */
  lemma OverlayIsProjection(l: Ledger, s: Surface, chain: seq<Id>)
    ensures IsProjection(l, s, chain, Overlay(l, s, chain))
  {
    forall k ensures k in Overlay(l, s, chain) <==> exists i: nat :: Visible(l, s, chain, k, i) {
      OverlayKey(l, s, chain, k);
    }
    forall k, i: nat | Nearest(l, s, chain, k, i)
      ensures k in Overlay(l, s, chain) && Overlay(l, s, chain)[k] == Own(l, s, chain[i])[k]
    {
      OverlayValue(l, s, chain, k, i);
    }
  }

  lemma {:induction false} OverlayKey(l: Ledger, s: Surface, chain: seq<Id>, k: Key)
    ensures k in Overlay(l, s, chain) <==> exists i: nat :: Visible(l, s, chain, k, i)
    decreases |chain|
  {
    if chain != [] {
      OverlayKey(l, s, chain[1..], k);
      if i: nat :| Visible(l, s, chain, k, i) {
        if i > 0 {
          VisibleShift(l, s, chain, k, i - 1);
        }
      }
      if k in Overlay(l, s, chain) {
        if k in Own(l, s, chain[0]) {
          assert Visible(l, s, chain, k, 0);
        } else {
          var i: nat :| Visible(l, s, chain[1..], k, i);
          VisibleShift(l, s, chain, k, i);
        }
      }
    }
  }

  lemma {:induction false} OverlayValue(l: Ledger, s: Surface, chain: seq<Id>, k: Key, i: nat)
    requires Visible(l, s, chain, k, i)
    requires forall j: nat :: j < i ==> !Visible(l, s, chain, k, j)
    ensures k in Overlay(l, s, chain) && Overlay(l, s, chain)[k] == Own(l, s, chain[i])[k]
    decreases i
  {
    if i > 0 {
      VisibleShift(l, s, chain, k, i - 1);
      forall j: nat | j < i - 1 ensures !Visible(l, s, chain[1..], k, j) {
        VisibleShift(l, s, chain, k, j);
      }
      OverlayValue(l, s, chain[1..], k, i - 1);
      assert !Visible(l, s, chain, k, 0);
    }
  }

  /** There is only one projection: the least visible depth decides every key. */
  lemma ProjectionUnique(l: Ledger, s: Surface, chain: seq<Id>, a: map<Key, Row>, b: map<Key, Row>)
    requires IsProjection(l, s, chain, a) && IsProjection(l, s, chain, b)
    ensures a == b
  {
    ProjectionIncluded(l, s, chain, a, b);
    ProjectionIncluded(l, s, chain, b, a);
    MutualInclusion(a, b);
  }

  ghost predicate Included(a: map<Key, Row>, b: map<Key, Row>) { forall k :: k in a ==> k in b && a[k] == b[k] }

  lemma MutualInclusion(a: map<Key, Row>, b: map<Key, Row>)
    requires Included(a, b) && Included(b, a)
    ensures a == b
  {
    assert a.Keys == b.Keys;
  }

  lemma ProjectionIncluded(l: Ledger, s: Surface, chain: seq<Id>, a: map<Key, Row>, b: map<Key, Row>)
    requires IsProjection(l, s, chain, a) && IsProjection(l, s, chain, b)
    ensures Included(a, b)
  {
    forall k | k in a ensures k in b && a[k] == b[k] {
      ProjectionAgrees(l, s, chain, a, b, k);
    }
  }

  lemma ProjectionAgrees(l: Ledger, s: Surface, chain: seq<Id>, a: map<Key, Row>, b: map<Key, Row>, k: Key)
    requires IsProjection(l, s, chain, a) && IsProjection(l, s, chain, b)
    requires k in a
    ensures k in b && a[k] == b[k]
  {
    var i: nat :| Visible(l, s, chain, k, i);
    var d := LeastVisible(l, s, chain, k, i);
    assert Nearest(l, s, chain, k, d);
  }

  lemma {:induction false} LeastVisible(l: Ledger, s: Surface, chain: seq<Id>, k: Key, i: nat) returns (d: nat)
    requires Visible(l, s, chain, k, i)
    ensures Nearest(l, s, chain, k, d)
    decreases i
  {
    d := i;
    if j: nat :| j < i && Visible(l, s, chain, k, j) {
      d := LeastVisible(l, s, chain, k, j);
    }
  }

  // ---------------------------------------------------- what the triggers keep

  ghost predicate Ranked(pubs: map<Id, Publication>, rank: map<Id, nat>) {
    && rank.Keys == pubs.Keys
    && forall p :: p in pubs && pubs[p].parent.Some? ==>
         && pubs[p].parent.value in pubs
         && rank[pubs[p].parent.value] < rank[p]
         && pubs[pubs[p].parent.value].status.Validated?
  }

  /** Parents exist, are validated, and never form a cycle; rows and tombstones
      belong to known publications and never share a key within one. */
  ghost predicate Sound(l: Ledger) {
    && (exists rank :: Ranked(l.pubs, rank))
    && FactsSound(l)
  }

  ghost predicate FactsSound(l: Ledger) {
    && (forall slot :: slot in l.facts ==> slot.pub in l.pubs)
    && (forall p :: p in l.tombs ==> p in l.pubs)
    && (forall p, k :: k in Own(l, Returns, p) ==> k !in Tombs(l, Returns, p))
  }

  /** One committed transaction of any writer, as the triggers allow it. The
      publications in `mine` are touched by nobody else. */
  ghost predicate DdlStep(l: Ledger, m: Ledger, mine: set<Id>) {
    && PubsStep(l.pubs, m.pubs, mine)
    && FactsStep(l, m, mine)
    && FactsSound(m)
    && (forall p :: p in mine ==> Attested(l, p) == Attested(m, p))
    && (m.pointer == l.pointer || (m.pointer.Some? && m.pointer.value in m.pubs && m.pubs[m.pointer.value].status.Validated?))
  }

  /** Publications start prepared under a validated parent, and end once. */
  ghost predicate PubsStep(pubs: map<Id, Publication>, pubs': map<Id, Publication>, mine: set<Id>) {
    && (forall p :: p in pubs ==> p in pubs' && Evolves(pubs[p], pubs'[p]) && (p in mine ==> pubs'[p] == pubs[p]))
    && (forall p :: p in pubs' && p !in pubs ==> p !in mine && ParentValidated(pubs, pubs'[p]))
  }

  predicate ParentValidated(pubs: map<Id, Publication>, child: Publication) {
    child.parent.Some? ==> child.parent.value in pubs && pubs[child.parent.value].status.Validated?
  }

  /** Rows and tombstones are only inserted, and only under a prepared publication. */
  ghost predicate FactsStep(l: Ledger, m: Ledger, mine: set<Id>) {
    && (forall s, p :: Grows(l, p, mine, Own(l, s, p), Own(m, s, p)))
    && (forall p :: Tombs(l, Returns, p) <= Tombs(m, Returns, p))
    && (forall p :: (p in mine || Closed(l, p)) ==> Tombs(l, Returns, p) == Tombs(m, Returns, p))
  }

  /** Only a prepared publication changes, and it keeps its parent. */
  predicate Evolves(before: Publication, after: Publication) {
    && after.parent == before.parent
    && (!before.status.Prepared? ==> after == before)
  }

  /** A publication that exists and is no longer prepared takes no more rows. */
  predicate Closed(l: Ledger, p: Id) { p in l.pubs && !l.pubs[p].status.Prepared? }

  ghost predicate Grows(l: Ledger, p: Id, mine: set<Id>, before: map<Key, Row>, after: map<Key, Row>) {
    && (forall k :: k in before ==> k in after && after[k] == before[k])
    && ((p in mine || Closed(l, p)) ==> after == before)
  }

  /** Every writer keeps the ledger sound. */
  lemma DdlStepKeepsSound(l: Ledger, m: Ledger, mine: set<Id>)
    requires Sound(l) && DdlStep(l, m, mine)
    ensures Sound(m)
  {
    var rank :| Ranked(l.pubs, rank);
    var rank' := RanksExtend(l.pubs, m.pubs, mine, rank);
  }

  lemma RanksExtend(pubs: map<Id, Publication>, pubs': map<Id, Publication>, mine: set<Id>, rank: map<Id, nat>)
      returns (rank': map<Id, nat>)
    requires Ranked(pubs, rank) && PubsStep(pubs, pubs', mine)
    ensures Ranked(pubs', rank')
  {
    rank' := map p | p in pubs' ::
      if p in pubs then rank[p]
      else if pubs'[p].parent.Some? && pubs'[p].parent.value in pubs then rank[pubs'[p].parent.value] + 1 else 0;
    forall p | p in pubs' && pubs'[p].parent.Some?
      ensures pubs'[p].parent.value in pubs'
        && rank'[pubs'[p].parent.value] < rank'[p]
        && pubs'[pubs'[p].parent.value].status.Validated?
    {
      var q := pubs'[p].parent.value;
      if p in pubs {
        assert pubs[p].parent == Some(q);
      } else {
        assert ParentValidated(pubs, pubs'[p]);
      }
      assert Evolves(pubs[q], pubs'[q]);
    }
  }

  /** Under the triggers no row is ever changed or removed, no tombstone is lifted, and a
      publication that is no longer prepared takes neither. */
  lemma RowsStay(l: Ledger, m: Ledger, mine: set<Id>, s: Surface, p: Id, k: Key)
    requires DdlStep(l, m, mine)
    ensures k in Own(l, s, p) ==> k in Own(m, s, p) && Own(m, s, p)[k] == Own(l, s, p)[k]
    ensures k in Tombs(l, s, p) ==> k in Tombs(m, s, p)
    ensures p in l.pubs && !l.pubs[p].status.Prepared? ==> Own(m, s, p) == Own(l, s, p) && Tombs(m, s, p) == Tombs(l, s, p)
  {
    hide PubsStep, FactsSound, Own;
    assert Grows(l, p, mine, Own(l, s, p), Own(m, s, p));
    assert Tombs(l, Returns, p) <= Tombs(m, Returns, p);
  }

  // ----------------------------------------------------------- frozen ancestry

  /** In a ranked ledger the cycle guard never cuts: a chain is the publication
      followed by its parent's own chain. */
  lemma {:induction false} GuardIsInert(pubs: map<Id, Publication>, rank: map<Id, nat>, p: Id, path: set<Id>, walk: Walk)
    requires Ranked(pubs, rank) && p in pubs
    requires forall q :: q in path && q in pubs ==> rank[p] < rank[q]
    ensures p !in path && Chain(pubs, p, path, walk) == Chain(pubs, p, {}, walk)
    decreases rank[p]
  {
    match pubs[p].parent {
      case None =>
      case Some(q) =>
        if Passes(walk, pubs[p].config, pubs[q]) {
          GuardIsInert(pubs, rank, q, path + {p}, walk);
          GuardIsInert(pubs, rank, q, {} + {p}, walk);
        }
    }
  }

  /** What a publication's parent passes on to it. */
  function Below(l: Ledger, s: Surface, p: Id): map<Key, Row>
    requires p in l.pubs
  {
    match l.pubs[p].parent
    case None => map[]
    case Some(q) =>
      if q in l.pubs && Passes(View, l.pubs[p].config, l.pubs[q]) then Served(l, s, q) else map[]
  }

  function ParentChain(pubs: map<Id, Publication>, p: Id, walk: Walk): seq<Id>
    requires p in pubs
  {
    match pubs[p].parent
    case None => []
    case Some(q) => if q in pubs && Passes(walk, pubs[p].config, pubs[q]) then Chain(pubs, q, {}, walk) else []
  }

  lemma ChainByParent(pubs: map<Id, Publication>, rank: map<Id, nat>, p: Id, walk: Walk)
    requires Ranked(pubs, rank) && p in pubs
    ensures Chain(pubs, p, {}, walk) == [p] + ParentChain(pubs, p, walk)
  {
    if pubs[p].parent.Some? && Passes(walk, pubs[p].config, pubs[pubs[p].parent.value]) {
      GuardIsInert(pubs, rank, pubs[p].parent.value, {} + {p}, walk);
    }
  }

  lemma BelowIsOverlay(l: Ledger, s: Surface, p: Id)
    requires p in l.pubs && !l.pubs[p].config.RegSOnly?
    ensures Below(l, s, p) == Overlay(l, s, ParentChain(l.pubs, p, View))
  {
  }

  /** Served surface of a validated publication, by its parent: own tombstone
      hides, else own row, else the parent's surface when the edge is allowed. */
  lemma ServedByParent(l: Ledger, s: Surface, p: Id)
    requires Sound(l) && p in l.pubs && l.pubs[p].status.Validated? && !l.pubs[p].config.RegSOnly?
    ensures Served(l, s, p) == (Below(l, s, p) + Own(l, s, p)) - Tombs(l, s, p)
  {
    var rank :| Ranked(l.pubs, rank);
    ChainByParent(l.pubs, rank, p, View);
    BelowIsOverlay(l, s, p);
    OverlayCons(l, s, p, ParentChain(l.pubs, p, View));
  }

  /** The edges the views cross, by the configurations at their ends: a parent of the
      same configuration, the legacy one included, and the legacy parent of a
      dual-series child; across any other edge a child serves its own rows only. */
  lemma EdgeCrossed(l: Ledger, s: Surface, p: Id, q: Id)
    requires Sound(l) && p in l.pubs && l.pubs[p].status.Validated? && !l.pubs[p].config.RegSOnly? && l.pubs[p].parent == Some(q)
    ensures q in l.pubs
    ensures var child, parent := l.pubs[p].config, l.pubs[q].config;
      Served(l, s, p) ==
        (if (child.Legacy? && parent.Legacy?) || (child.Dual? && !parent.RegSOnly?)
         then Served(l, s, q) + Own(l, s, p) else Own(l, s, p)) - Tombs(l, s, p)
  {
    hide Sound, Served, Own, Tombs, Below;
    ServedByParent(l, s, p);
    ParentKnown(l, p, q);
    BelowByEdge(l, s, p, q);
    assert map[] + Own(l, s, p) == Own(l, s, p);
  }

  lemma ParentKnown(l: Ledger, p: Id, q: Id)
    requires Sound(l) && p in l.pubs && l.pubs[p].parent == Some(q)
    ensures q in l.pubs && l.pubs[q].status.Validated?
  {
    hide FactsSound;
  }

  lemma BelowByEdge(l: Ledger, s: Surface, p: Id, q: Id)
    requires p in l.pubs && !l.pubs[p].config.RegSOnly? && l.pubs[p].parent == Some(q) && q in l.pubs && l.pubs[q].status.Validated?
    ensures var child, parent := l.pubs[p].config, l.pubs[q].config;
      Below(l, s, p) == if (child.Legacy? && parent.Legacy?) || (child.Dual? && !parent.RegSOnly?) then Served(l, s, q) else map[]
  {
    hide Served;
  }

  /** What is not validated, or of the retired configuration, is not served at all. */
  lemma NotServed(l: Ledger, s: Surface, p: Id)
    requires p in l.pubs && (!l.pubs[p].status.Validated? || l.pubs[p].config.RegSOnly?)
    ensures l.pointer == Some(p) ==> Current(l, s) == map[]
  {
  }

  /** Every walk goes on exactly along these edges: the lineage along all, the others to a
      parent of the same configuration and from a dual-series child to a legacy parent. */
  lemma WalkByParent(pubs: map<Id, Publication>, rank: map<Id, nat>, p: Id, walk: Walk)
    requires Ranked(pubs, rank) && p in pubs
    ensures pubs[p].parent.None? ==> Chain(pubs, p, {}, walk) == [p]
    ensures pubs[p].parent.Some? ==>
      var q := pubs[p].parent.value;
      && q in pubs
      && Chain(pubs, p, {}, walk)
        == [p] + (if walk.Lineage? || pubs[q].config == pubs[p].config || (pubs[p].config == Dual && pubs[q].config == Legacy)
                  then Chain(pubs, q, {}, walk) else [])
  {
    ChainByParent(pubs, rank, p, walk);
    hide Chain;
    if pubs[p].parent.None? { assert [p] + [] == [p]; }
  }

  lemma OverlayCons(l: Ledger, s: Surface, p: Id, rest: seq<Id>)
    ensures Overlay(l, s, [p] + rest) == (Overlay(l, s, rest) + Own(l, s, p)) - Tombs(l, s, p)
  {
    assert ([p] + rest)[1..] == rest;
  }

  /** The overlay reads nothing but the rows and tombstones of its chain. */
  lemma {:induction false} OverlayFrame(l: Ledger, m: Ledger, s: Surface, chain: seq<Id>)
    requires forall p :: p in chain ==> Own(l, s, p) == Own(m, s, p) && Tombs(l, s, p) == Tombs(m, s, p)
    ensures Overlay(l, s, chain) == Overlay(m, s, chain)
    decreases |chain|
  {
    if chain != [] {
      OverlayFrame(l, m, s, chain[1..]);
    }
  }

  /** A validated publication's ancestry is validated, so no step changes it. */
  lemma {:induction false} ChainFrozen(
      pubs: map<Id, Publication>, pubs': map<Id, Publication>, rank: map<Id, nat>, p: Id, path: set<Id>, walk: Walk, mine: set<Id>)
    requires Ranked(pubs, rank) && PubsStep(pubs, pubs', mine)
    requires p in pubs && p !in path && pubs[p].status.Validated?
    ensures p in pubs' && Chain(pubs', p, path, walk) == Chain(pubs, p, path, walk)
    ensures forall q :: q in Chain(pubs, p, path, walk) ==> q in pubs && pubs[q].status.Validated?
    decreases rank[p]
  {
    assert Evolves(pubs[p], pubs'[p]);
    match pubs[p].parent {
      case None =>
      case Some(q) =>
        assert Evolves(pubs[q], pubs'[q]);
        if q !in path + {p} && Passes(walk, pubs[p].config, pubs[q]) {
          ChainFrozen(pubs, pubs', rank, q, path + {p}, walk, mine);
        }
    }
  }

  lemma ClosedFrozen(l: Ledger, m: Ledger, s: Surface, q: Id, mine: set<Id>)
    requires FactsStep(l, m, mine) && Closed(l, q)
    ensures Own(l, s, q) == Own(m, s, q) && Tombs(l, s, q) == Tombs(m, s, q)
  {
    assert Grows(l, q, mine, Own(l, s, q), Own(m, s, q));
    assert Tombs(l, Returns, q) == Tombs(m, Returns, q);
  }

  /** The surface a validated publication serves never changes again, whatever
      other publications, repairs or pointer moves commit. */
  lemma ServedFrozen(l: Ledger, m: Ledger, s: Surface, p: Id, mine: set<Id>)
    requires Sound(l) && DdlStep(l, m, mine) && p in l.pubs && l.pubs[p].status.Validated?
    ensures p in m.pubs && m.pubs[p] == l.pubs[p]
    ensures Served(m, s, p) == Served(l, s, p)
  {
    var rank :| Ranked(l.pubs, rank);
    ChainFrozen(l.pubs, m.pubs, rank, p, {}, View, mine);
    var chain := Chain(l.pubs, p, {}, View);
    forall q | q in chain ensures Own(l, s, q) == Own(m, s, q) && Tombs(l, s, q) == Tombs(m, s, q) {
      ClosedFrozen(l, m, s, q, mine);
    }
    assert Evolves(l.pubs[p], m.pubs[p]);
    OverlayFrame(l, m, s, chain);
  }

  /** In a sound ledger the source walk of the finalize gates and the walk of the
      views meet the same publications: all ancestors are validated. */
  lemma {:induction false} SourceWalkIsView(pubs: map<Id, Publication>, rank: map<Id, nat>, p: Id, path: set<Id>)
    requires Ranked(pubs, rank) && p in pubs && p !in path
    ensures Chain(pubs, p, path, Source) == Chain(pubs, p, path, View)
    decreases rank[p]
  {
    match pubs[p].parent {
      case None =>
      case Some(q) =>
        if q !in path + {p} && Passes(Source, pubs[p].config, pubs[q]) {
          SourceWalkIsView(pubs, rank, q, path + {p});
        }
    }
  }

  /** An atomic row insert with `ON CONFLICT DO NOTHING`: rows already there win. */
  function InsertMissing(table: map<Key, Row>, rows: map<Key, Row>): map<Key, Row> {
    map k | k in rows.Keys + table.Keys :: if k in table then table[k] else rows[k]
  }

  lemma InsertMissingIsUnion(table: map<Key, Row>, rows: map<Key, Row>)
    ensures InsertMissing(table, rows) == rows + table
  {
  }
}
