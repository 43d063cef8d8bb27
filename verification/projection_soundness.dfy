/** The routing projection against the policy evaluator: two readings of one policy. */
module ProjectionSoundness {
  import opened Common
  import opened Json
  import opened Policy
  import opened Evaluator
  import opened RoutingPolicies
  import opened RoutingProjection

  /** The facts under which the evaluator sees the candidate the router sees. */
  ghost predicate Describes(context: Value, c: Candidate) {
    && Trim(c.region) == c.region
    && Get(context, "region") == Some(Str(c.region))
    && (Get(context, "remote_execution") == Some(Bool(false)) <==> !c.remote)
    && (Get(context, "retention_mode") == Some(Str("none")) <==> c.noRetention)
    && (Get(context, "encryption_available") == Some(Bool(true)) <==> c.encrypted)
    && (Get(context, "policy_manifest_present") == Some(Bool(true)) <==> c.manifest)
    && (forall text ::
          Rank(LevelOf(text)).Some? && Get(context, "manifest_identity_level") == Some(Str(text)) ==>
            c.manifest && Meets(c, LevelOf(text)))
  }

  /** A region written the way the projection stores it. */
  ghost predicate CanonicalRegion(v: Value) {
    v.Str? && RegionValue(v) == Some(v.s)
  }

  /** No identity comparison, and every region in canonical form. */
  ghost predicate CanonicalArguments(arguments: seq<Value>)
    requires |arguments| == 2
  {
    && arguments[0] != Str("manifest_identity_level")
    && (arguments[0] == Str("region") && arguments[1].Str? ==> CanonicalRegion(arguments[1]))
    && (arguments[1].Arr? ==> forall v :: v in arguments[1].items ==> CanonicalRegion(v))
  }

  /** The region and the identity that are stated are spelled as the comparison spells them. */
  ghost predicate SpelledEq(arguments: seq<Value>, context: Value) {
    && |arguments| == 2 && arguments[0].Str?
    && (arguments[0].s == "region" || arguments[0].s == "manifest_identity_level" ==>
          Get(context, arguments[0].s) == Some(arguments[1]))
  }

  /** The region that is stated is listed as it is spelled. */
  ghost predicate SpelledIn(arguments: seq<Value>, context: Value) {
    && |arguments| == 2 && arguments[1].Arr?
    && Get(context, "region").Some? && Get(context, "region").value in arguments[1].items
  }

  /** Every comparison of the policy finds region and identity spelled its own way. */
  ghost predicate Spelled(e: Value, context: Value)
    decreases Nodes(e), 0
  {
    if GetArray(e, "all").Some? then AllSpelled(GetArray(e, "all").value, context)
    else if GetArray(e, "eq").Some? then SpelledEq(GetArray(e, "eq").value, context)
    else GetArray(e, "in").Some? && SpelledIn(GetArray(e, "in").value, context)
  }

  ghost predicate AllSpelled(items: seq<Value>, context: Value)
    decreases NodesAll(items), 1
  {
    items == [] || (Spelled(items[0], context) && AllSpelled(items[1..], context))
  }

  lemma {:induction false} EqTrue(arguments: seq<Value>, context: Value)
    requires |arguments| == 2 && arguments[0].Str?
    ensures EvalBinary("eq", arguments, context) == True <==>
            Get(context, arguments[0].s) == Some(arguments[1]) && !arguments[1].Null?
  {
  }

  lemma {:induction false} EqAgrees(arguments: seq<Value>, atom: Atom, context: Value, c: Candidate)
    requires EqAtom(arguments) == Some(atom) && Describes(context, c)
    ensures EvalBinary("eq", arguments, context) == True <==> Satisfies(c, atom) && SpelledEq(arguments, context)
    ensures CanonicalArguments(arguments) && Lower(c.region) == c.region && Satisfies(c, atom) ==>
              SpelledEq(arguments, context)
  {
    EqTrue(arguments, context);
    var fact, expected := arguments[0].s, arguments[1];
    if fact == "region" {
      assert atom == RegionIn({Lower(Trim(expected.s))});
    } else if fact == "manifest_identity_level" {
      assert atom == IdentityAtLeast(LevelOf(expected.s));
    }
  }

  lemma {:induction false} RegionValuesMember(vs: seq<Value>, low: string)
    requires RegionValues(vs).Some?
    ensures low in RegionValues(vs).value <==> exists v :: v in vs && RegionValue(v) == Some(low)
  {
    if vs == [] {
    } else {
      RegionValuesMember(vs[1..], low);
      assert vs == [vs[0]] + vs[1..];
      assert RegionValue(vs[0]).Some?;
      if RegionValue(vs[0]) == Some(low) {
        assert vs[0] in vs;
      }
    }
  }

  lemma {:induction false} RegionValuesAllDefined(vs: seq<Value>, v: Value)
    requires RegionValues(vs).Some? && v in vs
    ensures RegionValue(v).Some?
  {
    if v != vs[0] {
      RegionValuesAllDefined(vs[1..], v);
    }
  }

  lemma {:induction false} InAgrees(arguments: seq<Value>, atom: Atom, context: Value, c: Candidate)
    requires InAtom(arguments) == Some(atom) && Describes(context, c)
    ensures EvalBinary("in", arguments, context) == True <==> Satisfies(c, atom) && SpelledIn(arguments, context)
    ensures CanonicalArguments(arguments) && Lower(c.region) == c.region && Satisfies(c, atom) ==>
              SpelledIn(arguments, context)
  {
    var values := arguments[1].items;
    RegionValuesMember(values, Lower(c.region));
    assert EvalBinary("in", arguments, context) == FromBool(Str(c.region) in values);
    if Str(c.region) in values {
      RegionValuesAllDefined(values, Str(c.region));
    }
  }

  /** A policy is canonical when each of its comparisons is. */
  ghost predicate Canonical(e: Value)
    decreases Nodes(e), 0
  {
    if GetArray(e, "all").Some? then AllCanonical(GetArray(e, "all").value)
    else
      && (GetArray(e, "eq").Some? && |GetArray(e, "eq").value| == 2 ==> CanonicalArguments(GetArray(e, "eq").value))
      && (GetArray(e, "in").Some? && |GetArray(e, "in").value| == 2 ==> CanonicalArguments(GetArray(e, "in").value))
  }

  ghost predicate AllCanonical(items: seq<Value>)
    decreases NodesAll(items), 1
  {
    items == [] || (Canonical(items[0]) && AllCanonical(items[1..]))
  }

  lemma {:induction false} SingleKey(e: Value, a: string, b: string)
    requires e.Obj? && |e.keys| == 1 && Has(e, a) && Has(e, b)
    ensures a == b
  {
    assert e.values != [];
    assert Find(e.keys[1..], e.values[1..], a).None?;
    assert Find(e.keys[1..], e.values[1..], b).None?;
  }

  ghost predicate AllSatisfied(c: Candidate, atoms: seq<Atom>) {
    forall atom :: atom in atoms ==> Satisfies(c, atom)
  }

  lemma {:induction false} MeaningAgrees(e: Value, context: Value, c: Candidate)
    requires Atoms(e).Some? && Describes(context, c)
    ensures Meaning(e, context) == True <==> AllSatisfied(c, Atoms(e).value) && Spelled(e, context)
    ensures Canonical(e) && Lower(c.region) == c.region && AllSatisfied(c, Atoms(e).value) ==> Spelled(e, context)
    decreases Nodes(e), 0
  {
    if GetArray(e, "all").Some? {
      AllMeaningAgrees(GetArray(e, "all").value, context, c);
    } else {
      var atom := Atoms(e).value[0];
      assert AllSatisfied(c, [atom]) <==> Satisfies(c, atom);
      if GetArray(e, "eq").Some? {
        if Has(e, "any") {
          SingleKey(e, "any", "eq");
        }
        EqAgrees(GetArray(e, "eq").value, atom, context, c);
      } else {
        if Has(e, "any") {
          SingleKey(e, "any", "in");
        }
        if Has(e, "lte") {
          SingleKey(e, "lte", "in");
        }
        InAgrees(GetArray(e, "in").value, atom, context, c);
      }
    }
  }

  lemma {:induction false} AllMeaningAgrees(items: seq<Value>, context: Value, c: Candidate)
    requires AtomsAll(items).Some? && Describes(context, c)
    ensures MeaningAll(items, context) == True <==>
            AllSatisfied(c, AtomsAll(items).value) && AllSpelled(items, context)
    ensures AllCanonical(items) && Lower(c.region) == c.region && AllSatisfied(c, AtomsAll(items).value) ==>
              AllSpelled(items, context)
    decreases NodesAll(items), 1
  {
    if items == [] {
    } else {
      MeaningAgrees(items[0], context, c);
      AllMeaningAgrees(items[1..], context, c);
      var head, tail := Atoms(items[0]).value, AtomsAll(items[1..]).value;
      assert AllSatisfied(c, head + tail) <==> AllSatisfied(c, head) && AllSatisfied(c, tail);
    }
  }

  /**
   The evaluator says True of exactly those candidates the router admits whose region and identity
   are spelled in the facts as the policy spells them: the router folds case, trims, and takes a
   higher identity for a lower one. On canonical policies the two agree on every candidate with a
   lower-case region.
   */
  lemma {:induction false} ProjectionAgreesWithEvaluator(e: Value, context: Value, c: Candidate)
    requires Project(e, INITIAL).Ok? && Describes(context, c)
    ensures Meaning(e, context) == True <==> Passes(Project(e, INITIAL).value, c) && Spelled(e, context)
    ensures Canonical(e) && Lower(c.region) == c.region ==>
              (Meaning(e, context) == True <==> Passes(Project(e, INITIAL).value, c))
  {
    ProjectionPreservesMeaning(e, INITIAL, c);
    MeaningAgrees(e, context, c);
  }
}
