/** The access-profile classifier: what an actual privilege profile may lack of the
    expected one and still be repaired, and why it may never exceed it. */
module Access {
  import opened Prelude

  type Name = string
  const SELECT := "SELECT"

  /** Privileges on a table or view. */
  datatype Relation = Relation(
    effective: set<string>, direct: set<string>, columnEffective: set<string>,
    grantable: set<string>, public: set<string>, columnAcl: set<string>)

  datatype Sequence = Sequence(effective: set<string>, public: bool)
  datatype Routine = Routine(execute: bool, direct: bool, grantable: bool, public: bool, definer: Option<bool>)
  datatype SchemaAccess = SchemaAccess(usage: bool, create: bool, publicCreate: bool)

  datatype Profile = Profile(
    roleExists: bool, roleFlags: set<string>, relations: map<Name, Relation>, sequences: map<Name, Sequence>,
    functions: map<Name, Routine>, schema: SchemaAccess, unsafeMembership: set<string>)

  /** The read models and the functions the role may be granted. */
  datatype Grants = Grants(readRelations: set<Name>, executeFunctions: set<Name>)

  datatype Class = RoleMissing | Exact | Repairable | Incomplete | Unsafe

  // -------------------------------------------------------------- the repair

  /** Adds the expected SELECT to a privilege set that lacks it. */
  function WithSelect(present: set<string>, wanted: set<string>): set<string> {
    if SELECT in wanted && SELECT !in present then present + {SELECT} else present
  }

  function RepairedRelation(g: Grants, name: Name, present: Relation, wanted: Relation): Relation {
    if name in g.readRelations
    then present.(
      effective := WithSelect(present.effective, wanted.effective), direct := WithSelect(present.direct, wanted.direct),
      columnEffective := WithSelect(present.columnEffective, wanted.columnEffective))
    else present
  }

  function RepairedRoutine(g: Grants, name: Name, present: Routine, wanted: Routine): Routine {
    if name in g.executeFunctions
    then present.(execute := present.execute || wanted.execute, direct := present.direct || wanted.direct)
    else present
  }

  /** Absent objects as expected, and only the permitted grants restored. */
  function Repair(g: Grants, expected: Profile, actual: Profile): Profile {
    actual.(
      relations := map n | n in expected.relations.Keys + actual.relations.Keys ::
        if n !in expected.relations then actual.relations[n]
        else if n !in actual.relations then expected.relations[n]
        else RepairedRelation(g, n, actual.relations[n], expected.relations[n]),
      sequences := map n | n in expected.sequences.Keys + actual.sequences.Keys ::
        if n in actual.sequences then actual.sequences[n] else expected.sequences[n],
      functions := map n | n in expected.functions.Keys + actual.functions.Keys ::
        if n !in expected.functions then actual.functions[n]
        else if n !in actual.functions then expected.functions[n]
        else RepairedRoutine(g, n, actual.functions[n], expected.functions[n]))
  }

  function WithUsage(p: Profile): Profile { p.(schema := p.schema.(usage := true)) }

  function Classify(g: Grants, expected: Profile, actual: Profile): Class {
    if !actual.roleExists then RoleMissing
    else if actual == expected then Exact
    else if Repair(g, expected, actual) == expected then Repairable
    else if expected.schema.usage && !actual.schema.usage && WithUsage(Repair(g, expected, actual)) == expected then Incomplete
    else Unsafe
  }

  // ---------------------------------------------- what the classes say, declaratively

  predicate LacksAtMostSelect(present: set<string>, wanted: set<string>) { present <= wanted <= present + {"SELECT"} }

  predicate RelationShort(g: Grants, name: Name, present: Relation, wanted: Relation) {
    && present.grantable == wanted.grantable && present.public == wanted.public && present.columnAcl == wanted.columnAcl
    && (if name in g.readRelations
        then
          && LacksAtMostSelect(present.effective, wanted.effective) && LacksAtMostSelect(present.direct, wanted.direct)
          && LacksAtMostSelect(present.columnEffective, wanted.columnEffective)
        else present == wanted)
  }

  predicate RoutineShort(g: Grants, name: Name, present: Routine, wanted: Routine) {
    && present.grantable == wanted.grantable && present.public == wanted.public && present.definer == wanted.definer
    && (if name in g.executeFunctions
        then (present.execute ==> wanted.execute) && (present.direct ==> wanted.direct)
        else present == wanted)
  }

  /** The actual profile equals the expected one but for missing objects, missing
      SELECT on read models and missing EXECUTE on the snapshot functions. */
  predicate OnlyShort(g: Grants, expected: Profile, actual: Profile) {
    && actual.roleExists == expected.roleExists && actual.roleFlags == expected.roleFlags
    && actual.schema == expected.schema && actual.unsafeMembership == expected.unsafeMembership
    && ObjectsShort(g, expected, actual)
  }

  predicate ObjectsShort(g: Grants, expected: Profile, actual: Profile) {
    && actual.relations.Keys <= expected.relations.Keys && actual.sequences.Keys <= expected.sequences.Keys
    && actual.functions.Keys <= expected.functions.Keys
    && (forall n :: n in actual.relations && n in expected.relations ==> RelationShort(g, n, actual.relations[n], expected.relations[n]))
    && (forall n :: n in actual.sequences && n in expected.sequences ==> actual.sequences[n] == expected.sequences[n])
    && (forall n :: n in actual.functions && n in expected.functions ==> RoutineShort(g, n, actual.functions[n], expected.functions[n]))
  }

  lemma SelectRestored(present: set<string>, wanted: set<string>)
    ensures WithSelect(present, wanted) == wanted <==> LacksAtMostSelect(present, wanted)
  {
  }

  lemma RelationRestored(g: Grants, name: Name, present: Relation, wanted: Relation)
    ensures RepairedRelation(g, name, present, wanted) == wanted <==> RelationShort(g, name, present, wanted)
  {
    SelectRestored(present.effective, wanted.effective);
    SelectRestored(present.direct, wanted.direct);
    SelectRestored(present.columnEffective, wanted.columnEffective);
    hide WithSelect, LacksAtMostSelect;
  }

  /** The repair reaches the expected objects exactly from the permitted shortfalls. */
  lemma ObjectsRestored(g: Grants, expected: Profile, actual: Profile)
    ensures var r := Repair(g, expected, actual);
      (r.relations == expected.relations && r.sequences == expected.sequences && r.functions == expected.functions) <==> ObjectsShort(g, expected, actual)
  {
    RelationsRestored(g, expected, actual);
    SequencesRestored(g, expected, actual);
    FunctionsRestored(g, expected, actual);
    hide RelationShort, RoutineShort, RepairedRelation, RepairedRoutine, Repair;
  }

  lemma RelationsRestored(g: Grants, expected: Profile, actual: Profile)
    ensures Repair(g, expected, actual).relations == expected.relations
      <==> (actual.relations.Keys <= expected.relations.Keys
        && forall n :: n in actual.relations && n in expected.relations ==> RelationShort(g, n, actual.relations[n], expected.relations[n]))
  {
    var r := Repair(g, expected, actual).relations;
    hide RelationShort, RepairedRelation;
    assert r.Keys == expected.relations.Keys + actual.relations.Keys;
    forall n | n in actual.relations && n in expected.relations
      ensures r[n] == expected.relations[n] <==> RelationShort(g, n, actual.relations[n], expected.relations[n])
    {
      RelationRestored(g, n, actual.relations[n], expected.relations[n]);
    }
    if r == expected.relations {
      forall n | n in actual.relations ensures n in expected.relations { assert n in r; }
    }
  }

  lemma SequencesRestored(g: Grants, expected: Profile, actual: Profile)
    ensures Repair(g, expected, actual).sequences == expected.sequences
      <==> (actual.sequences.Keys <= expected.sequences.Keys
        && forall n :: n in actual.sequences && n in expected.sequences ==> actual.sequences[n] == expected.sequences[n])
  {
    var r := Repair(g, expected, actual).sequences;
    assert r.Keys == expected.sequences.Keys + actual.sequences.Keys;
    if r == expected.sequences {
      forall n | n in actual.sequences ensures n in expected.sequences { assert n in r; }
      forall n | n in actual.sequences && n in expected.sequences ensures actual.sequences[n] == expected.sequences[n] {
        assert r[n] == actual.sequences[n];
      }
    }
  }

  lemma FunctionsRestored(g: Grants, expected: Profile, actual: Profile)
    ensures Repair(g, expected, actual).functions == expected.functions
      <==> (actual.functions.Keys <= expected.functions.Keys
        && forall n :: n in actual.functions && n in expected.functions ==> RoutineShort(g, n, actual.functions[n], expected.functions[n]))
  {
    var r := Repair(g, expected, actual).functions;
    assert r.Keys == expected.functions.Keys + actual.functions.Keys;
    forall n | n in actual.functions && n in expected.functions
      ensures r[n] == expected.functions[n] <==> RoutineShort(g, n, actual.functions[n], expected.functions[n])
    {
    }
    hide RoutineShort, RepairedRoutine;
    if r == expected.functions {
      forall n | n in actual.functions ensures n in expected.functions { assert n in r; }
    }
  }

  /** A missing role is a class of its own. For an existing role: exact means equal,
      repairable means short only by permitted amounts, and of something; incomplete
      means short besides of schema USAGE only; everything else, so any surplus
      whatever, is unsafe. */
  lemma ClassesExactly(g: Grants, expected: Profile, actual: Profile)
    ensures Classify(g, expected, actual) == RoleMissing <==> !actual.roleExists
    ensures Classify(g, expected, actual) == Exact <==> actual.roleExists && actual == expected
    ensures Classify(g, expected, actual) == Repairable <==> actual.roleExists && actual != expected && OnlyShort(g, expected, actual)
    ensures Classify(g, expected, actual) == Incomplete
      <==> (actual.roleExists && expected.schema.usage && !actual.schema.usage && OnlyShort(g, expected, WithUsage(actual)))
  {
    ObjectsRestored(g, expected, actual);
    ObjectsRestored(g, expected, WithUsage(actual));
    ExpectedIsShort(g, expected);
    RepairLeaves(g, expected, actual);
    hide ObjectsShort, Repair;
    assert Repair(g, expected, WithUsage(actual)) == WithUsage(Repair(g, expected, actual)) by { UsageApart(g, expected, actual); }
    RepairLeaves(g, expected, WithUsage(actual));
  }

  lemma UsageApart(g: Grants, expected: Profile, actual: Profile)
    ensures Repair(g, expected, WithUsage(actual)) == WithUsage(Repair(g, expected, actual))
  {
  }

  lemma RepairLeaves(g: Grants, expected: Profile, actual: Profile)
    ensures var r := Repair(g, expected, actual);
      r.roleExists == actual.roleExists && r.roleFlags == actual.roleFlags && r.schema == actual.schema && r.unsafeMembership == actual.unsafeMembership
  {
  }

  lemma ExpectedIsShort(g: Grants, expected: Profile)
    ensures ObjectsShort(g, expected, expected)
  {
  }

  /** No privilege, object, flag or membership beyond the expected profile. */
  predicate NoSurplus(expected: Profile, actual: Profile) {
    && actual.roleFlags <= expected.roleFlags && actual.unsafeMembership <= expected.unsafeMembership
    && (actual.schema.usage ==> expected.schema.usage) && (actual.schema.create ==> expected.schema.create)
    && (actual.schema.publicCreate ==> expected.schema.publicCreate)
    && (forall n :: n in actual.relations ==> n in expected.relations && RelationWithin(actual.relations[n], expected.relations[n]))
    && (forall n :: n in actual.sequences ==> n in expected.sequences && actual.sequences[n] == expected.sequences[n])
    && (forall n :: n in actual.functions ==> n in expected.functions && RoutineWithin(actual.functions[n], expected.functions[n]))
  }

  predicate RelationWithin(a: Relation, b: Relation) {
    && a.effective <= b.effective && a.direct <= b.direct && a.columnEffective <= b.columnEffective
    && a.grantable <= b.grantable && a.public <= b.public && a.columnAcl <= b.columnAcl
  }

  predicate RoutineWithin(a: Routine, b: Routine) {
    (a.execute ==> b.execute) && (a.direct ==> b.direct) && (a.grantable ==> b.grantable) && (a.public ==> b.public)
  }

  /** A profile classed exact, repairable or incomplete exceeds the expected one in
      nothing; so any surplus of an existing role is unsafe. */
  lemma SurplusIsUnsafe(g: Grants, expected: Profile, actual: Profile)
    requires actual.roleExists && !NoSurplus(expected, actual)
    ensures Classify(g, expected, actual) == Unsafe
  {
    ClassesExactly(g, expected, actual);
    if OnlyShort(g, expected, actual) { ShortIsWithin(g, expected, actual); }
    if OnlyShort(g, expected, WithUsage(actual)) && expected.schema.usage { ShortIsWithin(g, expected, WithUsage(actual)); }
    hide Classify, OnlyShort;
  }

  lemma ShortIsWithin(g: Grants, expected: Profile, actual: Profile)
    requires OnlyShort(g, expected, actual)
    ensures NoSurplus(expected, actual)
  {
    forall n | n in actual.relations ensures n in expected.relations && RelationWithin(actual.relations[n], expected.relations[n]) {
      assert RelationShort(g, n, actual.relations[n], expected.relations[n]);
    }
    forall n | n in actual.functions ensures n in expected.functions && RoutineWithin(actual.functions[n], expected.functions[n]) {
      assert RoutineShort(g, n, actual.functions[n], expected.functions[n]);
    }
  }

  // ------------------------------------------- the permitted additions, one by one

  /** One statement of the schema script: an object created unless it exists, or a grant
      to the role. */
  datatype Addition = AddRelation(name: Name) | AddSequence(name: Name) | AddFunction(name: Name)
                    | GrantSelect(name: Name) | GrantExecute(name: Name)

  predicate Permitted(g: Grants, a: Addition) {
    (a.GrantSelect? ==> a.name in g.readRelations) && (a.GrantExecute? ==> a.name in g.executeFunctions)
  }

  function Selectable(r: Relation): Relation {
    r.(effective := r.effective + {SELECT}, direct := r.direct + {SELECT}, columnEffective := r.columnEffective + {SELECT})
  }

  /** A created object has the expected entry; a grant on an absent object does nothing. */
  function Applied(expected: Profile, p: Profile, a: Addition): Profile {
    match a
    case AddRelation(n) =>
      if n in expected.relations && n !in p.relations then p.(relations := p.relations[n := expected.relations[n]]) else p
    case AddSequence(n) =>
      if n in expected.sequences && n !in p.sequences then p.(sequences := p.sequences[n := expected.sequences[n]]) else p
    case AddFunction(n) =>
      if n in expected.functions && n !in p.functions then p.(functions := p.functions[n := expected.functions[n]]) else p
    case GrantSelect(n) =>
      if n in p.relations then p.(relations := p.relations[n := Selectable(p.relations[n])]) else p
    case GrantExecute(n) =>
      if n in p.functions then p.(functions := p.functions[n := p.functions[n].(execute := true, direct := true)]) else p
  }

  function AppliedAll(expected: Profile, p: Profile, additions: seq<Addition>): Profile {
    if additions == [] then p else Applied(expected, AppliedAll(expected, p, additions[..|additions| - 1]), additions[|additions| - 1])
  }

  /** The expected profile holds what the script grants. */
  predicate GrantsExpected(g: Grants, expected: Profile) {
    && (forall n :: n in g.readRelations ==> n in expected.relations && Selectable(expected.relations[n]) == expected.relations[n])
    && (forall n :: n in g.executeFunctions ==> n in expected.functions && expected.functions[n].execute && expected.functions[n].direct)
  }

  /** Every expected object and every permitted grant, each at least once, in any order. */
  ghost predicate WholeScript(g: Grants, expected: Profile, additions: seq<Addition>) {
    && (forall i :: 0 <= i < |additions| ==> Permitted(g, additions[i]))
    && (forall n :: n in expected.relations ==> AddRelation(n) in additions)
    && (forall n :: n in expected.sequences ==> AddSequence(n) in additions)
    && (forall n :: n in expected.functions ==> AddFunction(n) in additions)
    && (forall n :: n in g.readRelations ==> GrantSelect(n) in additions)
    && (forall n :: n in g.executeFunctions ==> GrantExecute(n) in additions)
  }

  /** The addition has left its mark. */
  predicate Made(p: Profile, a: Addition) {
    match a
    case AddRelation(n) => n in p.relations
    case AddSequence(n) => n in p.sequences
    case AddFunction(n) => n in p.functions
    case GrantSelect(n) => n in p.relations ==> Selectable(p.relations[n]) == p.relations[n]
    case GrantExecute(n) => n in p.functions ==> p.functions[n].execute && p.functions[n].direct
  }

  predicate Known(expected: Profile, a: Addition) {
    match a
    case AddRelation(n) => n in expected.relations
    case AddSequence(n) => n in expected.sequences
    case AddFunction(n) => n in expected.functions
    case _ => true
  }

  /** What was made stays made. */
  lemma StaysMade(g: Grants, expected: Profile, p: Profile, made: Addition, a: Addition)
    requires GrantsExpected(g, expected) && Permitted(g, made)
    ensures Known(expected, a) ==> Made(Applied(expected, p, a), a)
    ensures Made(p, made) ==> Made(Applied(expected, p, a), made)
  {
  }

  lemma SelectStaysShort(present: set<string>, wanted: set<string>)
    requires SELECT in wanted
    ensures LacksAtMostSelect(present + {SELECT}, wanted) <==> LacksAtMostSelect(present, wanted)
  {
  }

  lemma GrantKeepsShort(g: Grants, expected: Profile, p: Profile, n: Name)
    requires GrantsExpected(g, expected) && n in g.readRelations && n in p.relations
    ensures RelationShort(g, n, Selectable(p.relations[n]), expected.relations[n]) <==> RelationShort(g, n, p.relations[n], expected.relations[n])
  {
    var present, wanted := p.relations[n], expected.relations[n];
    assert Selectable(wanted) == wanted;
    assert SELECT in wanted.effective && SELECT in wanted.direct && SELECT in wanted.columnEffective;
    SelectStaysShort(present.effective, wanted.effective);
    SelectStaysShort(present.direct, wanted.direct);
    SelectStaysShort(present.columnEffective, wanted.columnEffective);
    hide LacksAtMostSelect;
  }

  lemma AddedRelationKeepsShort(g: Grants, expected: Profile, p: Profile, n: Name)
    ensures OnlyShort(g, expected, Applied(expected, p, AddRelation(n))) <==> OnlyShort(g, expected, p)
  {
    RelationIsShort(g, expected);
    hide RelationShort, RoutineShort;
  }

  lemma AddedSequenceKeepsShort(g: Grants, expected: Profile, p: Profile, n: Name)
    ensures OnlyShort(g, expected, Applied(expected, p, AddSequence(n))) <==> OnlyShort(g, expected, p)
  {
    hide RelationShort, RoutineShort;
  }

  lemma AddedFunctionKeepsShort(g: Grants, expected: Profile, p: Profile, n: Name)
    ensures OnlyShort(g, expected, Applied(expected, p, AddFunction(n))) <==> OnlyShort(g, expected, p)
  {
    RoutineIsShort(g, expected);
    hide RelationShort, RoutineShort;
  }

  lemma SelectKeepsShort(g: Grants, expected: Profile, p: Profile, n: Name)
    requires GrantsExpected(g, expected) && n in g.readRelations
    ensures OnlyShort(g, expected, Applied(expected, p, GrantSelect(n))) <==> OnlyShort(g, expected, p)
  {
    if n in p.relations {
      var after := Applied(expected, p, GrantSelect(n));
      GrantKeepsShort(g, expected, p, n);
      hide RelationShort, RoutineShort, Selectable;
      assert after.relations.Keys == p.relations.Keys;
      forall m | m in p.relations && m in expected.relations
        ensures RelationShort(g, m, after.relations[m], expected.relations[m]) <==> RelationShort(g, m, p.relations[m], expected.relations[m])
      {
      }
    }
  }

  lemma ExecuteKeepsShort(g: Grants, expected: Profile, p: Profile, n: Name)
    requires GrantsExpected(g, expected) && n in g.executeFunctions
    ensures OnlyShort(g, expected, Applied(expected, p, GrantExecute(n))) <==> OnlyShort(g, expected, p)
  {
    hide RelationShort;
    if n in p.functions {
      var after := Applied(expected, p, GrantExecute(n));
      assert RoutineShort(g, n, after.functions[n], expected.functions[n]) <==> RoutineShort(g, n, p.functions[n], expected.functions[n]);
      hide RoutineShort;
      assert after.functions.Keys == p.functions.Keys;
      forall m | m in p.functions && m in expected.functions
        ensures RoutineShort(g, m, after.functions[m], expected.functions[m]) <==> RoutineShort(g, m, p.functions[m], expected.functions[m])
      {
      }
    }
  }

  /** A permitted addition neither causes nor cures anything but a permitted shortfall. */
  lemma AdditionKeepsShort(g: Grants, expected: Profile, p: Profile, a: Addition)
    requires GrantsExpected(g, expected) && Permitted(g, a)
    ensures OnlyShort(g, expected, Applied(expected, p, a)) <==> OnlyShort(g, expected, p)
  {
    hide OnlyShort, Applied, GrantsExpected;
    match a
    case AddRelation(n) => AddedRelationKeepsShort(g, expected, p, n);
    case AddSequence(n) => AddedSequenceKeepsShort(g, expected, p, n);
    case AddFunction(n) => AddedFunctionKeepsShort(g, expected, p, n);
    case GrantSelect(n) => SelectKeepsShort(g, expected, p, n);
    case GrantExecute(n) => ExecuteKeepsShort(g, expected, p, n);
  }

  lemma RoutineIsShort(g: Grants, expected: Profile)
    ensures forall n :: n in expected.functions ==> RoutineShort(g, n, expected.functions[n], expected.functions[n])
  {
  }

  lemma RelationIsShort(g: Grants, expected: Profile)
    ensures forall n :: n in expected.relations ==> RelationShort(g, n, expected.relations[n], expected.relations[n])
  {
  }

  lemma {:induction false} ScriptKeepsShort(g: Grants, expected: Profile, p: Profile, additions: seq<Addition>)
    requires GrantsExpected(g, expected) && forall i :: 0 <= i < |additions| ==> Permitted(g, additions[i])
    ensures OnlyShort(g, expected, AppliedAll(expected, p, additions)) <==> OnlyShort(g, expected, p)
    ensures forall i :: 0 <= i < |additions| && Known(expected, additions[i]) ==> Made(AppliedAll(expected, p, additions), additions[i])
    decreases |additions|
  {
    hide OnlyShort, Made, Known, Applied, GrantsExpected, Permitted;
    if additions != [] {
      var rest, last := additions[..|additions| - 1], additions[|additions| - 1];
      ScriptKeepsShort(g, expected, p, rest);
      var before := AppliedAll(expected, p, rest);
      AdditionKeepsShort(g, expected, before, last);
      forall i | 0 <= i < |additions| && Known(expected, additions[i]) ensures Made(Applied(expected, before, last), additions[i]) {
        StaysMade(g, expected, before, additions[i], last);
        if i < |rest| { assert Made(before, rest[i]); }
      }
    }
  }

  /** A profile that is short of nothing any more is the expected one. */
  lemma NothingShort(g: Grants, expected: Profile, p: Profile)
    requires OnlyShort(g, expected, p)
    requires p.relations.Keys == expected.relations.Keys && p.sequences.Keys == expected.sequences.Keys && p.functions.Keys == expected.functions.Keys
    requires forall n :: n in g.readRelations ==> Made(p, GrantSelect(n))
    requires forall n :: n in g.executeFunctions ==> Made(p, GrantExecute(n))
    ensures p == expected
  {
    forall n | n in p.relations ensures p.relations[n] == expected.relations[n] {
      assert RelationShort(g, n, p.relations[n], expected.relations[n]);
      if n in g.readRelations {
        assert Made(p, GrantSelect(n));
        var r := p.relations[n];
        assert SELECT in r.effective && SELECT in r.direct && SELECT in r.columnEffective by { assert Selectable(r) == r; }
      }
    }
    forall n | n in p.functions ensures p.functions[n] == expected.functions[n] {
      assert RoutineShort(g, n, p.functions[n], expected.functions[n]);
      if n in g.executeFunctions { assert Made(p, GrantExecute(n)); }
    }
    assert p.relations == expected.relations && p.sequences == expected.sequences && p.functions == expected.functions;
  }

  /** The whole script, in any order and with any repetitions, makes a profile the
      expected one exactly when it was short of permitted things only. */
  lemma ScriptReachesExactly(g: Grants, expected: Profile, p: Profile, additions: seq<Addition>)
    requires GrantsExpected(g, expected) && WholeScript(g, expected, additions)
    ensures AppliedAll(expected, p, additions) == expected <==> OnlyShort(g, expected, p)
  {
    hide OnlyShort, Applied, GrantsExpected, Permitted, AppliedAll;
    ScriptKeepsShort(g, expected, p, additions);
    var after := AppliedAll(expected, p, additions);
    if OnlyShort(g, expected, p) {
      AllMade(g, expected, after, additions);
      NothingShort(g, expected, after);
    }
    if after == expected { ExpectedOnlyShort(g, expected); }
  }

  lemma ExpectedOnlyShort(g: Grants, expected: Profile)
    ensures OnlyShort(g, expected, expected)
  {
    ExpectedIsShort(g, expected);
    hide ObjectsShort;
  }

  lemma AllMade(g: Grants, expected: Profile, p: Profile, additions: seq<Addition>)
    requires WholeScript(g, expected, additions) && OnlyShort(g, expected, p)
    requires forall i :: 0 <= i < |additions| && Known(expected, additions[i]) ==> Made(p, additions[i])
    ensures p.relations.Keys == expected.relations.Keys && p.sequences.Keys == expected.sequences.Keys && p.functions.Keys == expected.functions.Keys
    ensures forall n :: n in g.readRelations ==> Made(p, GrantSelect(n))
    ensures forall n :: n in g.executeFunctions ==> Made(p, GrantExecute(n))
  {
    hide RelationShort, RoutineShort;
    assert forall a :: a in additions && Known(expected, a) ==> Made(p, a);
    forall n | n in expected.relations ensures n in p.relations { assert Made(p, AddRelation(n)); }
    forall n | n in expected.sequences ensures n in p.sequences { assert Made(p, AddSequence(n)); }
    forall n | n in expected.functions ensures n in p.functions { assert Made(p, AddFunction(n)); }
  }

  /** So for an existing role the script makes exactly the exact and repairable profiles
      exact, and the incomplete ones once USAGE is granted from outside; an unsafe
      profile is never normalized away. */
  lemma RepairMakesExact(g: Grants, expected: Profile, actual: Profile, additions: seq<Addition>)
    requires actual.roleExists && GrantsExpected(g, expected) && WholeScript(g, expected, additions)
    ensures Classify(g, expected, actual) in {Exact, Repairable} <==> AppliedAll(expected, actual, additions) == expected
    ensures Classify(g, expected, actual) == Incomplete
      <==> (expected.schema.usage && !actual.schema.usage && AppliedAll(expected, WithUsage(actual), additions) == expected)
  {
    hide Classify, OnlyShort, WholeScript, GrantsExpected, AppliedAll, WithUsage;
    ClassesExactly(g, expected, actual);
    ExpectedOnlyShort(g, expected);
    ScriptReachesExactly(g, expected, actual, additions);
    ScriptReachesExactly(g, expected, WithUsage(actual), additions);
  }

  // ---------------------------------------------------------------- the two loops

  /** The classifier with its private copy edited bucket by bucket, name by name. */
  method ClassifyAccess(g: Grants, expected: Profile, actual: Profile) returns (verdict: Class)
    ensures verdict == Classify(g, expected, actual)
  {
    if !actual.roleExists { return RoleMissing; }
    if actual == expected { return Exact; }
    var relations := RepairRelations(g, expected, actual);
    var functions := RepairFunctions(g, expected, actual);
    var sequences := RepairSequences(g, expected, actual);
    var repaired := actual.(relations := relations, sequences := sequences, functions := functions);
    assert repaired == Repair(g, expected, actual);
    if repaired == expected { return Repairable; }
    if expected.schema.usage && !repaired.schema.usage {
      repaired := WithUsage(repaired);
      if repaired == expected { return Incomplete; }
    }
    return Unsafe;
  }

  lemma RepairRelationsAt(g: Grants, expected: Profile, actual: Profile)
    ensures var goal := Repair(g, expected, actual).relations;
      && goal.Keys == actual.relations.Keys + expected.relations.Keys
      && (forall n :: n in actual.relations && n !in expected.relations ==> goal[n] == actual.relations[n])
      && (forall n :: n in expected.relations && n !in actual.relations ==> goal[n] == expected.relations[n])
      && (forall n :: n in expected.relations && n in actual.relations ==> goal[n] == RepairedRelation(g, n, actual.relations[n], expected.relations[n]))
  {
    hide RepairedRelation;
  }

  method RepairRelations(g: Grants, expected: Profile, actual: Profile) returns (table: map<Name, Relation>)
    ensures table == Repair(g, expected, actual).relations
  {
    hide Repair, RepairedRelation;
    ghost var goal := Repair(g, expected, actual).relations;
    RepairRelationsAt(g, expected, actual);
    table := actual.relations;
    var left := expected.relations.Keys;
    while left != {}
      invariant left <= expected.relations.Keys
      invariant table.Keys == actual.relations.Keys + (expected.relations.Keys - left)
      invariant forall n :: n in table ==> table[n] == if n in left then actual.relations[n] else goal[n]
      decreases left
    {
      var name :| name in left;
      if name !in table {
        table := table[name := expected.relations[name]];
      } else {
        table := table[name := RepairedRelation(g, name, table[name], expected.relations[name])];
      }
      left := left - {name};
    }
  }

  lemma RepairFunctionsAt(g: Grants, expected: Profile, actual: Profile)
    ensures var goal := Repair(g, expected, actual).functions;
      && goal.Keys == actual.functions.Keys + expected.functions.Keys
      && (forall n :: n in actual.functions && n !in expected.functions ==> goal[n] == actual.functions[n])
      && (forall n :: n in expected.functions && n !in actual.functions ==> goal[n] == expected.functions[n])
      && (forall n :: n in expected.functions && n in actual.functions ==> goal[n] == RepairedRoutine(g, n, actual.functions[n], expected.functions[n]))
  {
    hide RepairedRoutine;
  }

  method RepairFunctions(g: Grants, expected: Profile, actual: Profile) returns (table: map<Name, Routine>)
    ensures table == Repair(g, expected, actual).functions
  {
    hide Repair, RepairedRoutine;
    ghost var goal := Repair(g, expected, actual).functions;
    RepairFunctionsAt(g, expected, actual);
    table := actual.functions;
    var left := expected.functions.Keys;
    while left != {}
      invariant left <= expected.functions.Keys
      invariant table.Keys == actual.functions.Keys + (expected.functions.Keys - left)
      invariant forall n :: n in table ==> table[n] == if n in left then actual.functions[n] else goal[n]
      decreases left
    {
      var name :| name in left;
      if name !in table {
        table := table[name := expected.functions[name]];
      } else {
        table := table[name := RepairedRoutine(g, name, table[name], expected.functions[name])];
      }
      left := left - {name};
    }
  }

  method RepairSequences(g: Grants, expected: Profile, actual: Profile) returns (table: map<Name, Sequence>)
    ensures table == Repair(g, expected, actual).sequences
  {
    table := actual.sequences;
    var left := expected.sequences.Keys;
    while left != {}
      invariant left <= expected.sequences.Keys
      invariant table.Keys == actual.sequences.Keys + (expected.sequences.Keys - left)
      invariant forall n :: n in table ==> table[n] == if n in actual.sequences then actual.sequences[n] else expected.sequences[n]
      decreases left
    {
      var name :| name in left;
      if name !in table { table := table[name := expected.sequences[name]]; }
      left := left - {name};
    }
  }
}
