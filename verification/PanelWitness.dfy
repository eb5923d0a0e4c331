/** A small ledger shape for the witnesses of the repair protocols: a legacy root, a
    dual-series head over it, and a prepared child over the head. */
module PanelWitness {
  import opened Prelude
  import opened Panel
  import opened LedgerSteps

  const ROOT: Id := 0
  const HEAD: Id := 1
  const CHILD: Id := 2

  ghost predicate ThreeDeep(l: Ledger) {
    && l.pubs.Keys == {ROOT, HEAD, CHILD} && l.tombs == map[]
    && l.pubs[ROOT].parent == None && l.pubs[ROOT].config.Legacy? && l.pubs[ROOT].status.Validated?
    && l.pubs[HEAD].parent == Some(ROOT) && l.pubs[HEAD].config.Dual? && l.pubs[HEAD].status.Validated?
    && l.pubs[CHILD].parent == Some(HEAD) && l.pubs[CHILD].config.Dual?
    && (forall slot :: slot in l.facts ==> slot.pub in l.pubs)
  }

  lemma RootChain(l: Ledger, path: set<Id>, walk: Walk)
    requires ThreeDeep(l) && ROOT !in path
    ensures Chain(l.pubs, ROOT, path, walk) == [ROOT]
  {
  }

  lemma HeadChain(l: Ledger, path: set<Id>, walk: Walk)
    requires ThreeDeep(l) && path <= {CHILD}
    ensures Chain(l.pubs, HEAD, path, walk) == [HEAD, ROOT]
  {
    RootChain(l, path + {HEAD}, walk);
  }

  lemma ChildChain(l: Ledger, walk: Walk)
    requires ThreeDeep(l)
    ensures Chain(l.pubs, CHILD, {}, walk) == [CHILD, HEAD, ROOT]
  {
    HeadChain(l, {CHILD}, walk);
    assert {} + {CHILD} == {CHILD};
    assert Passes(walk, l.pubs[CHILD].config, l.pubs[HEAD]);
  }

  lemma IsSound(l: Ledger)
    requires ThreeDeep(l)
    ensures Sound(l)
  {
    var rank: map<Id, nat> := map[ROOT := 0, HEAD := 1, CHILD := 2];
    assert rank.Keys == {ROOT, HEAD, CHILD};
    assert Ranked(l.pubs, rank);
  }

  lemma PlainOverlay(l: Ledger, s: Surface, p: Id, rest: seq<Id>)
    requires l.tombs == map[]
    ensures Overlay(l, s, [p] + rest) == Overlay(l, s, rest) + Own(l, s, p)
  {
    assert ([p] + rest)[1..] == rest;
  }

  /** The root holds nothing here: the head serves its own rows, by either walk. */
  lemma HeadServes(l: Ledger, s: Surface)
    requires ThreeDeep(l) && Own(l, s, ROOT) == map[]
    ensures Served(l, s, HEAD) == Own(l, s, HEAD)
    ensures Overlay(l, s, Chain(l.pubs, HEAD, {}, Source)) == Own(l, s, HEAD)
  {
    HeadChain(l, {}, View);
    HeadChain(l, {}, Source);
    hide Chain;
    PlainOverlay(l, s, HEAD, [ROOT]);
    PlainOverlay(l, s, ROOT, []);
    assert [HEAD] + [ROOT] == [HEAD, ROOT] && [ROOT] + [] == [ROOT];
    hide Overlay;
    assert Overlay(l, s, []) == map[] by { EmptyOverlay(l, s); }
  }

  lemma EmptyOverlay(l: Ledger, s: Surface)
    ensures Overlay(l, s, []) == map[]
  {
  }

  /** A child that repeats the head's keys serves its own rows once it is validated. */
  lemma ChildServes(l: Ledger, s: Surface)
    requires ThreeDeep(l) && l.pubs[CHILD].status.Validated?
    requires Own(l, s, ROOT) == map[] && Own(l, s, HEAD).Keys <= Own(l, s, CHILD).Keys
    ensures Served(l, s, CHILD) == Own(l, s, CHILD)
  {
    ChildChain(l, View);
    hide Chain;
    PlainOverlay(l, s, CHILD, [HEAD, ROOT]);
    PlainOverlay(l, s, HEAD, [ROOT]);
    PlainOverlay(l, s, ROOT, []);
    assert [CHILD] + [HEAD, ROOT] == [CHILD, HEAD, ROOT] && [HEAD] + [ROOT] == [HEAD, ROOT] && [ROOT] + [] == [ROOT];
    hide Overlay;
    assert Overlay(l, s, []) == map[] by { EmptyOverlay(l, s); }
  }
}
