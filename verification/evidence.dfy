/** What later evidence can and cannot do to an answer the evaluator has already given. */
module Evidence {
  import opened Common
  import opened Json
  import opened Policy
  import opened Evaluator

  /** `later` keeps every fact that `now` states with a value; absent and null facts may be filled in. */
  ghost predicate Supplies(now: Value, later: Value) {
    forall name :: Get(now, name).Some? && !Get(now, name).value.Null? ==> Get(later, name) == Get(now, name)
  }

  predicate Missing(context: Value, name: string) {
    Get(context, name).None? || Get(context, name).value.Null?
  }

  predicate Decided(r: Eval) {
    r == True || r == False
  }

  /** A verdict that ends the evaluation of everything around it. */
  predicate Fatal(r: Eval) {
    r == Stale || r == Invalid || r == Limit
  }

  // ---------------------------------------------------------------- exposure

  /**
   Whether missing facts can still spoil an answer: some comparison that fails on the facts at
   hand, or that compares a missing fact by anything but equality, stands before the item that is
   already True in every `any` above it.
   */
  predicate Exposed(e: Value, now: Value)
    decreases Nodes(e), 0
  {
    if !e.Obj? then true
    else if GetArray(e, "all").Some? then ExposedAll(GetArray(e, "all").value, now)
    else if GetArray(e, "any").Some? then ExposedAny(GetArray(e, "any").value, now)
    else Fatal(EvalKnownBinary(e, now)) || (EvalKnownBinary(e, now) == Unknown && GetArray(e, "eq").None?)
  }

  predicate ExposedAll(items: seq<Value>, now: Value)
    decreases NodesAll(items), 1
  {
    items != [] && (Exposed(items[0], now) || ExposedAll(items[1..], now))
  }

  predicate ExposedAny(items: seq<Value>, now: Value)
    decreases NodesAll(items), 1
  {
    items != [] && (Exposed(items[0], now) || (Meaning(items[0], now) != True && ExposedAny(items[1..], now)))
  }

  // ---------------------------------------------------------------- what is not exposed is safe

  /** Whatever is supplied, an expression that is not exposed stays within three verdicts and keeps a decided one. */
  ghost predicate Safe(before: Eval, after: Eval) {
    !Fatal(before) && !Fatal(after) && (Decided(before) ==> after == before)
  }

  /** A stated fact is compared with the same result whatever else is supplied. */
  lemma {:induction false} StatedStays(operator: string, arguments: seq<Value>, now: Value, later: Value)
    requires Supplies(now, later) && EvalBinary(operator, arguments, now) != Unknown
    ensures EvalBinary(operator, arguments, later) == EvalBinary(operator, arguments, now)
  {
  }

  lemma {:induction false} EqualityNeverFails(arguments: seq<Value>, now: Value, later: Value)
    requires EvalBinary("eq", arguments, now) == Unknown
    ensures !Fatal(EvalBinary("eq", arguments, later))
  {
  }

  lemma {:induction false} StatedLeafStays(e: Value, now: Value, later: Value)
    requires Supplies(now, later) && EvalKnownBinary(e, now) != Unknown
    ensures EvalKnownBinary(e, later) == EvalKnownBinary(e, now)
  {
    if GetArray(e, "eq").Some? {
      StatedStays("eq", GetArray(e, "eq").value, now, later);
    } else if GetArray(e, "lte").Some? {
      StatedStays("lte", GetArray(e, "lte").value, now, later);
    } else if GetArray(e, "in").Some? {
      StatedStays("in", GetArray(e, "in").value, now, later);
    } else if GetArray(e, "contains").Some? {
      StatedStays("contains", GetArray(e, "contains").value, now, later);
    }
  }

  lemma {:induction false} LeafIsSafe(e: Value, now: Value, later: Value)
    requires Supplies(now, later) && !Fatal(EvalKnownBinary(e, now))
    requires EvalKnownBinary(e, now) == Unknown ==> GetArray(e, "eq").Some?
    ensures Safe(EvalKnownBinary(e, now), EvalKnownBinary(e, later))
  {
    if EvalKnownBinary(e, now) == Unknown {
      EqualityNeverFails(GetArray(e, "eq").value, now, later);
    } else {
      StatedLeafStays(e, now, later);
    }
  }

  lemma {:induction false} UnexposedIsSafe(e: Value, now: Value, later: Value)
    requires Supplies(now, later) && !Exposed(e, now)
    ensures Safe(Meaning(e, now), Meaning(e, later))
    decreases Nodes(e), 0
  {
    if GetArray(e, "all").Some? {
      UnexposedAllIsSafe(GetArray(e, "all").value, now, later);
    } else if GetArray(e, "any").Some? {
      UnexposedAnyIsSafe(GetArray(e, "any").value, now, later);
    } else {
      LeafIsSafe(e, now, later);
    }
  }

  lemma {:induction false} UnexposedAllIsSafe(items: seq<Value>, now: Value, later: Value)
    requires Supplies(now, later) && !ExposedAll(items, now)
    ensures Safe(MeaningAll(items, now), MeaningAll(items, later))
    decreases NodesAll(items), 1
  {
    if items == [] {
    } else {
      UnexposedIsSafe(items[0], now, later);
      UnexposedAllIsSafe(items[1..], now, later);
    }
  }

  lemma {:induction false} UnexposedAnyIsSafe(items: seq<Value>, now: Value, later: Value)
    requires Supplies(now, later) && !ExposedAny(items, now)
    ensures Safe(MeaningAny(items, now), MeaningAny(items, later))
    decreases NodesAll(items), 1
  {
    if items == [] {
    } else {
      UnexposedIsSafe(items[0], now, later);
      if Meaning(items[0], now) != True {
        UnexposedAnyIsSafe(items[1..], now, later);
      }
    }
  }

  /** No completion of the facts turns one decided answer into the other, or into an open one. */
  lemma {:induction false} DecidedNeverFlips(e: Value, now: Value, later: Value)
    requires Supplies(now, later) && Decided(Meaning(e, now))
    ensures Meaning(e, later) == Meaning(e, now) || Fatal(Meaning(e, later))
    decreases Nodes(e), 0
  {
    if GetArray(e, "all").Some? {
      DecidedAllNeverFlips(GetArray(e, "all").value, now, later);
    } else if GetArray(e, "any").Some? {
      DecidedAnyNeverFlips(GetArray(e, "any").value, now, later);
    } else {
      StatedLeafStays(e, now, later);
    }
  }

  lemma {:induction false} DecidedAllNeverFlips(items: seq<Value>, now: Value, later: Value)
    requires Supplies(now, later) && Decided(MeaningAll(items, now))
    ensures MeaningAll(items, later) == MeaningAll(items, now) || Fatal(MeaningAll(items, later))
    decreases NodesAll(items), 1
  {
    if items == [] {
    } else {
      DecidedNeverFlips(items[0], now, later);
      DecidedAllNeverFlips(items[1..], now, later);
    }
  }

  lemma {:induction false} DecidedAnyNeverFlips(items: seq<Value>, now: Value, later: Value)
    requires Supplies(now, later) && Decided(MeaningAny(items, now))
    ensures MeaningAny(items, later) == MeaningAny(items, now) || Fatal(MeaningAny(items, later))
    decreases NodesAll(items), 1
  {
    if items == [] {
    } else {
      if Decided(Meaning(items[0], now)) {
        DecidedNeverFlips(items[0], now, later);
      }
      if Meaning(items[0], now) != True {
        DecidedAnyNeverFlips(items[1..], now, later);
      }
    }
  }

  // ---------------------------------------------------------------- the adverse context

  /** All texts in a value; among them the names of the facts its comparisons look at. */
  function Texts(v: Value): set<string>
    decreases v, 1
  {
    match v
    case Str(s) => {s}
    case Arr(items) => TextsAll(items)
    case Obj(_, values) => TextsAll(values)
    case _ => {}
  }

  function TextsAll(vs: seq<Value>): set<string>
    decreases vs, 0
  {
    if vs == [] then {} else Texts(vs[0]) + TextsAll(vs[1..])
  }

  function Nested(inner: Value): (v: Value)
    ensures Nodes(v) == Nodes(inner) + 1
    ensures WellFormed(inner) ==> WellFormed(v)
  {
    var values := [inner];
    assert values[1..] == [] && NodesAll(values[1..]) == 0;
    assert NodesAll(values) == Nodes(values[0]) + NodesAll(values[1..]);
    assert AllWellFormed(values) == (WellFormed(values[0]) && AllWellFormed(values[1..]));
    Obj(["x"], values)
  }

  /** A value that no comparison matches: an object larger than anything the expression mentions. */
  function Oversized(n: nat): (v: Value)
    ensures v.Obj? && Nodes(v) == n + 1 && WellFormed(v)
  {
    if n == 0 then Obj([], []) else Nested(Oversized(n - 1))
  }

  lemma {:induction false} OversizedFits(n: nat, cap: nat)
    ensures CollectionsFit(Oversized(n), cap)
  {
    if n == 0 {
    } else {
      OversizedFits(n - 1, cap);
      assert Oversized(n).values[1..] == [];
    }
  }

  /** `later` supplies every missing fact among `names` with `filler` and changes nothing stated. */
  ghost predicate Adverse(now: Value, later: Value, names: set<string>, filler: Value) {
    && Supplies(now, later)
    && forall name :: name in names && Missing(now, name) ==> Get(later, name) == Some(filler)
  }

  lemma {:induction false} FoundTexts(keys: seq<string>, values: seq<Value>, key: string)
    ensures Find(keys, values, key).Some? ==> Texts(Find(keys, values, key).value) <= TextsAll(values)
  {
    if keys == [] || values == [] {
    } else if keys[0] != key {
      FoundTexts(keys[1..], values[1..], key);
    }
  }

  lemma {:induction false} TextsAt(vs: seq<Value>, k: nat)
    requires k < |vs|
    ensures Texts(vs[k]) <= TextsAll(vs)
  {
    if k == 0 {
    } else {
      TextsAt(vs[1..], k - 1);
    }
  }

  lemma {:induction false} ArrayTexts(e: Value, key: string)
    ensures GetArray(e, key).Some? ==> TextsAll(GetArray(e, key).value) <= Texts(e)
  {
    if e.Obj? {
      FoundTexts(e.keys, e.values, key);
    }
  }

  /** A comparison on a missing fact: equality turns out False, everything else ends the evaluation. */
  lemma {:induction false} AdverseBinary(operator: string, arguments: seq<Value>, now: Value, later: Value,
        names: set<string>, filler: Value)
    requires operator == "eq" || operator == "lte" || operator == "in" || operator == "contains"
    requires Adverse(now, later, names, filler) && filler.Obj?
    requires TextsAll(arguments) <= names && NodesAll(arguments) < Nodes(filler)
    ensures
      var before, after := EvalBinary(operator, arguments, now), EvalBinary(operator, arguments, later);
      && (before == Unknown ==> after == if operator == "eq" then False else Invalid)
      && (before != Unknown ==> after == before)
  {
    if |arguments| == 2 && arguments[0].Str? {
      TextsAt(arguments, 0);
      NodesAllAt(arguments, 1);
    }
  }

  lemma {:induction false} AdverseOperator(e: Value, operator: string, now: Value, later: Value, names: set<string>,
        filler: Value)
    requires Adverse(now, later, names, filler) && filler.Obj? && Texts(e) <= names && Nodes(e) <= Nodes(filler)
    requires operator in {"eq", "lte", "in", "contains"} && GetArray(e, operator).Some?
    ensures
      var before := EvalBinary(operator, GetArray(e, operator).value, now);
      var after := EvalBinary(operator, GetArray(e, operator).value, later);
      && (before == Unknown ==> after == if operator == "eq" then False else Invalid)
      && (before != Unknown ==> after == before)
  {
    ArrayTexts(e, operator);
    AdverseBinary(operator, GetArray(e, operator).value, now, later, names, filler);
  }

  lemma {:induction false} AdverseLeaf(e: Value, now: Value, later: Value, names: set<string>, filler: Value)
    requires Adverse(now, later, names, filler) && filler.Obj? && Texts(e) <= names && Nodes(e) <= Nodes(filler)
    ensures
      var before, after := EvalKnownBinary(e, now), EvalKnownBinary(e, later);
      && (before == Unknown ==> after == if GetArray(e, "eq").Some? then False else Invalid)
      && (before != Unknown ==> after == before)
  {
    if GetArray(e, "eq").Some? {
      AdverseOperator(e, "eq", now, later, names, filler);
    } else if GetArray(e, "lte").Some? {
      AdverseOperator(e, "lte", now, later, names, filler);
    } else if GetArray(e, "in").Some? {
      AdverseOperator(e, "in", now, later, names, filler);
    } else if GetArray(e, "contains").Some? {
      AdverseOperator(e, "contains", now, later, names, filler);
    }
  }

  /** In the adverse context what is exposed ends badly, and what is not exposed is True only if it is True now. */
  ghost predicate WorstCase(exposed: bool, before: Eval, after: Eval) {
    if exposed then Fatal(after) else after == if before == True then True else False
  }

  lemma {:induction false} AdverseIsWorstCase(e: Value, now: Value, later: Value, names: set<string>, filler: Value)
    requires Adverse(now, later, names, filler) && filler.Obj? && Texts(e) <= names && Nodes(e) <= Nodes(filler)
    ensures WorstCase(Exposed(e, now), Meaning(e, now), Meaning(e, later))
    decreases Nodes(e), 0
  {
    if !e.Obj? {
    } else if GetArray(e, "all").Some? {
      ArrayTexts(e, "all");
      AdverseAllIsWorstCase(GetArray(e, "all").value, now, later, names, filler);
    } else if GetArray(e, "any").Some? {
      ArrayTexts(e, "any");
      AdverseAnyIsWorstCase(GetArray(e, "any").value, now, later, names, filler);
    } else {
      AdverseLeaf(e, now, later, names, filler);
    }
  }

  lemma {:induction false} UnexposedNow(e: Value, now: Value)
    requires !Exposed(e, now)
    ensures !Fatal(Meaning(e, now))
  {
    UnexposedIsSafe(e, now, now);
  }

  lemma {:induction false} AdverseAllIsWorstCase(items: seq<Value>, now: Value, later: Value, names: set<string>,
        filler: Value)
    requires Adverse(now, later, names, filler) && filler.Obj? && TextsAll(items) <= names
             && NodesAll(items) <= Nodes(filler)
    ensures WorstCase(ExposedAll(items, now), MeaningAll(items, now), MeaningAll(items, later))
    decreases NodesAll(items), 1
  {
    if items == [] {
    } else {
      AdverseIsWorstCase(items[0], now, later, names, filler);
      AdverseAllIsWorstCase(items[1..], now, later, names, filler);
      if !Exposed(items[0], now) {
        UnexposedNow(items[0], now);
      }
    }
  }

  lemma {:induction false} AdverseAnyIsWorstCase(items: seq<Value>, now: Value, later: Value, names: set<string>,
        filler: Value)
    requires Adverse(now, later, names, filler) && filler.Obj? && TextsAll(items) <= names
             && NodesAll(items) <= Nodes(filler)
    ensures WorstCase(ExposedAny(items, now), MeaningAny(items, now), MeaningAny(items, later))
    decreases NodesAll(items), 1
  {
    if items == [] {
    } else {
      AdverseIsWorstCase(items[0], now, later, names, filler);
      AdverseAnyIsWorstCase(items[1..], now, later, names, filler);
      if !Exposed(items[0], now) {
        UnexposedNow(items[0], now);
      }
    }
  }

  // ---------------------------------------------------------------- there is such a context

  /** The fields of an object with `key` set to `v`. */
  function PutIn(keys: seq<string>, values: seq<Value>, key: string, v: Value): (seq<string>, seq<Value>) {
    if keys == [] || values == [] then ([key], [v])
    else if keys[0] == key then (keys, [v] + values[1..])
    else
      var (ks, vs) := PutIn(keys[1..], values[1..], key, v);
      ([keys[0]] + ks, [values[0]] + vs)
  }

  /** The context with the fact `key` set to `v`. */
  function Put(context: Value, key: string, v: Value): Value {
    if context.Obj? then
      var (keys, values) := PutIn(context.keys, context.values, key, v);
      Obj(keys, values)
    else Obj([key], [v])
  }

  lemma {:induction false} PutInFinds(keys: seq<string>, values: seq<Value>, key: string, v: Value, other: string)
    ensures
      var (ks, vs) := PutIn(keys, values, key, v);
      Find(ks, vs, other) == if other == key then Some(v) else Find(keys, values, other)
  {
    if keys == [] || values == [] {
      assert [key][1..] == [];
    } else if keys[0] == key {
      assert ([v] + values[1..])[1..] == values[1..];
    } else {
      var (ks, vs) := PutIn(keys[1..], values[1..], key, v);
      PutInFinds(keys[1..], values[1..], key, v, other);
      assert ([keys[0]] + ks)[1..] == ks && ([values[0]] + vs)[1..] == vs;
    }
  }

  lemma {:induction false} PutGets(context: Value, key: string, v: Value, other: string)
    ensures Get(Put(context, key, v), other) == if other == key then Some(v) else Get(context, other)
  {
    if context.Obj? {
      PutInFinds(context.keys, context.values, key, v, other);
    } else {
      assert [key][1..] == [];
    }
  }

  lemma {:induction false} PutInFits(keys: seq<string>, values: seq<Value>, key: string, v: Value, cap: nat)
    requires AllCollectionsFit(values, cap) && CollectionsFit(v, cap)
    ensures AllCollectionsFit(PutIn(keys, values, key, v).1, cap)
  {
    if keys == [] || values == [] {
      assert [v][1..] == [];
    } else if keys[0] == key {
      assert ([v] + values[1..])[1..] == values[1..];
    } else {
      var vs := PutIn(keys[1..], values[1..], key, v).1;
      PutInFits(keys[1..], values[1..], key, v, cap);
      assert ([values[0]] + vs)[1..] == vs;
    }
  }

  lemma {:induction false} PutFits(context: Value, key: string, v: Value, cap: nat)
    requires CollectionsFit(context, cap) && CollectionsFit(v, cap)
    ensures CollectionsFit(Put(context, key, v), cap)
  {
    if context.Obj? {
      PutInFits(context.keys, context.values, key, v, cap);
    } else {
      assert [v][1..] == [];
    }
  }

  lemma {:induction false} PutInIsWellFormed(keys: seq<string>, values: seq<Value>, key: string, v: Value)
    requires WellFormed(Obj(keys, values)) && WellFormed(v)
    ensures
      var (ks, vs) := PutIn(keys, values, key, v);
      WellFormed(Obj(ks, vs)) && forall k :: k in ks <==> k in keys || k == key
  {
    if keys == [] || values == [] {
      assert [v][1..] == [];
    } else if keys[0] == key {
      assert ([v] + values[1..])[1..] == values[1..];
    } else {
      var (ks, vs) := PutIn(keys[1..], values[1..], key, v);
      assert WellFormed(Obj(keys[1..], values[1..]));
      PutInIsWellFormed(keys[1..], values[1..], key, v);
      var longer := [keys[0]] + ks;
      assert ([values[0]] + vs)[1..] == vs;
      assert keys == [keys[0]] + keys[1..];
      forall i, j | 0 <= i < j < |longer| ensures longer[i] != longer[j] {
        assert longer[j] == ks[j - 1] && ks[j - 1] in ks;
        assert i > 0 ==> longer[i] == ks[i - 1];
      }
    }
  }

  lemma {:induction false} PutIsWellFormed(context: Value, key: string, v: Value)
    requires WellFormed(context) && WellFormed(v)
    ensures WellFormed(Put(context, key, v))
  {
    if context.Obj? {
      PutInIsWellFormed(context.keys, context.values, key, v);
    } else {
      assert [v][1..] == [];
    }
  }

  /** A later context is as admissible as the one it completes. */
  ghost predicate AsGood(now: Value, later: Value) {
    && (WellFormed(now) ==> WellFormed(later))
    && forall cap: nat :: CollectionsFit(now, cap) ==> CollectionsFit(later, cap)
  }

  lemma {:induction false} AdverseContextExists(now: Value, names: set<string>, filler: Value) returns (later: Value)
    requires !filler.Null? && WellFormed(filler) && forall cap: nat :: CollectionsFit(filler, cap)
    ensures Adverse(now, later, names, filler) && AsGood(now, later)
  {
    if names == {} {
      later := now;
    } else {
      var name :| name in names;
      var rest := AdverseContextExists(now, names - {name}, filler);
      if Missing(now, name) {
        later := Put(rest, name, filler);
        forall other ensures Get(later, other) == if other == name then Some(filler) else Get(rest, other) {
          PutGets(rest, name, filler, other);
        }
        if WellFormed(rest) {
          PutIsWellFormed(rest, name, filler);
        }
        forall cap: nat | CollectionsFit(rest, cap) ensures CollectionsFit(later, cap) {
          PutFits(rest, name, filler, cap);
        }
      } else {
        later := rest;
      }
    }
  }

  /** Setting one missing fact is a completion. */
  lemma {:induction false} PutIsCompletion(now: Value, key: string, v: Value)
    requires Missing(now, key) && WellFormed(v) && forall cap: nat :: CollectionsFit(v, cap)
    ensures Supplies(now, Put(now, key, v)) && AsGood(now, Put(now, key, v))
  {
    var later := Put(now, key, v);
    forall other ensures Get(later, other) == if other == key then Some(v) else Get(now, other) {
      PutGets(now, key, v, other);
    }
    if WellFormed(now) {
      PutIsWellFormed(now, key, v);
    }
    forall cap: nat | CollectionsFit(now, cap) ensures CollectionsFit(later, cap) {
      PutFits(now, key, v, cap);
    }
  }

  lemma {:induction false} AdverseOversized(now: Value, names: set<string>, n: nat) returns (later: Value)
    ensures Adverse(now, later, names, Oversized(n)) && AsGood(now, later)
  {
    forall cap: nat ensures CollectionsFit(Oversized(n), cap) {
      OversizedFits(n, cap);
    }
    later := AdverseContextExists(now, names, Oversized(n));
  }

  // ---------------------------------------------------------------- exactly when an answer stands

  /** No completion of the facts changes the answer. */
  ghost predicate Standing(e: Value, now: Value) {
    forall later :: Supplies(now, later) ==> Meaning(e, later) == Meaning(e, now)
  }

  /** An exposed answer is spoiled by some completion, as admissible as the facts it completes. */
  lemma {:induction false} ExposedIsSpoiled(e: Value, now: Value) returns (later: Value)
    requires Exposed(e, now)
    ensures Supplies(now, later) && AsGood(now, later) && Fatal(Meaning(e, later))
  {
    later := AdverseOversized(now, Texts(e), Nodes(e));
    AdverseIsWorstCase(e, now, later, Texts(e), Oversized(Nodes(e)));
  }

  /**
   For every expression whatsoever: a True or a False survives every supply of missing facts
   exactly when it is not exposed.
   */
  lemma {:induction false} DecidedAnswerStandsIff(e: Value, now: Value)
    requires Decided(Meaning(e, now))
    ensures Standing(e, now) <==> !Exposed(e, now)
  {
    if Exposed(e, now) {
      var later := ExposedIsSpoiled(e, now);
    } else {
      forall later | Supplies(now, later) ensures Meaning(e, later) == Meaning(e, now) {
        UnexposedIsSafe(e, now, later);
      }
    }
  }

  // ---------------------------------------------------------------- equality queries

  /** Expressions built from `all`, `any` and a two-argument `eq` over a named fact. */
  ghost predicate EqQuery(e: Value)
    decreases Nodes(e), 0
  {
    && e.Obj? && |e.keys| == |e.values| == 1 && e.values[0].Arr?
    && match e.keys[0]
       case "all" => Get(e, "all") == Some(e.values[0]) && AllEqQuery(e.values[0].items)
       case "any" => Get(e, "any") == Some(e.values[0]) && AllEqQuery(e.values[0].items)
       case "eq" => |e.values[0].items| == 2 && e.values[0].items[0].Str?
       case _ => false
  }

  ghost predicate AllEqQuery(items: seq<Value>)
    decreases NodesAll(items), 1
  {
    items == [] || (EqQuery(items[0]) && AllEqQuery(items[1..]))
  }

  /** Equality is never exposed. */
  lemma {:induction false} EqQueryIsUnexposed(e: Value, now: Value)
    requires EqQuery(e)
    ensures !Exposed(e, now)
    decreases Nodes(e), 0
  {
    assert e.keys[1..] == [] && e.values[1..] == [];
    if e.keys[0] == "all" || e.keys[0] == "any" {
      EqQueriesAreUnexposed(e.values[0].items, now);
    } else {
      assert Find(e.keys, e.values, "all") == None;
      assert Find(e.keys, e.values, "any") == None;
      assert Find(e.keys, e.values, "eq") == Some(e.values[0]);
    }
  }

  lemma {:induction false} EqQueriesAreUnexposed(items: seq<Value>, now: Value)
    requires AllEqQuery(items)
    ensures !ExposedAll(items, now) && !ExposedAny(items, now)
    decreases NodesAll(items), 1
  {
    if items == [] {
    } else {
      EqQueryIsUnexposed(items[0], now);
      EqQueriesAreUnexposed(items[1..], now);
    }
  }

  /**
   A decided answer of an equality query survives every supply of missing facts; an open one stays
   within the three verdicts.
   */
  lemma {:induction false} DecidedMeaningIsStable(e: Value, now: Value, later: Value)
    requires EqQuery(e) && Supplies(now, later)
    ensures Decided(Meaning(e, now)) || Meaning(e, now) == Unknown
    ensures Decided(Meaning(e, now)) ==> Meaning(e, later) == Meaning(e, now)
  {
    EqQueryIsUnexposed(e, now);
    UnexposedIsSafe(e, now, later);
  }
}
