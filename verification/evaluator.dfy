/** The typed policy evaluator: six verdicts, a fuel meter, and the decision drawn from them. */
module Evaluator {
  import opened Common
  import opened Json
  import opened Policy

  // ---------------------------------------------------------------- leaf operators

  function FromBool(b: bool): Eval {
    if b then True else False
  }

  /** Whether `needle` occurs in `text`. */
  predicate Mentions(text: string, needle: string) {
    exists i :: 0 <= i <= |text| && needle <= text[i..]
  }

  function EvalLte(name: string, actual: Value, expected: Value): Eval {
    if actual.Num? && expected.Num? then
      if actual.n <= expected.n then True
      else if Mentions(name, "evidence_age") then Stale
      else False
    else Invalid
  }

  function EvalIn(actual: Value, expected: Value): Eval {
    if !expected.Arr? || actual.Arr? || actual.Obj? then Invalid
    else if |expected.items| <= MAX_COLLECTION_VALUES then FromBool(actual in expected.items)
    else Limit
  }

  function EvalContains(actual: Value, expected: Value): Eval {
    if !actual.Arr? then Invalid
    else if |actual.items| <= MAX_COLLECTION_VALUES then FromBool(expected in actual.items)
    else Limit
  }

  function EvalBinary(operator: string, arguments: seq<Value>, context: Value): Eval {
    if |arguments| != 2 || !arguments[0].Str? then Invalid
    else
      var name := arguments[0].s;
      match Get(context, name)
      case None => Unknown
      case Some(Null) => Unknown
      case Some(actual) =>
        match operator
        case "eq" => FromBool(actual == arguments[1])
        case "lte" => EvalLte(name, actual, arguments[1])
        case "in" => EvalIn(actual, arguments[1])
        case "contains" => EvalContains(actual, arguments[1])
        case _ => Invalid
  }

  /** The first of the four operators the object carries as an array decides. */
  function EvalKnownBinary(e: Value, context: Value): Eval {
    var eq, lte, isIn, contains := GetArray(e, "eq"), GetArray(e, "lte"), GetArray(e, "in"), GetArray(e, "contains");
    if eq.Some? then EvalBinary("eq", eq.value, context)
    else if lte.Some? then EvalBinary("lte", lte.value, context)
    else if isIn.Some? then EvalBinary("in", isIn.value, context)
    else if contains.Some? then EvalBinary("contains", contains.value, context)
    else Invalid
  }

  /** A field read as an unsigned integer. */
  function Unsigned(v: Value, key: string): Option<nat> {
    match Get(v, key)
    case Some(Num(n)) => if n >= 0 then Some(n) else None
    case _ => None
  }

  function UnsignedOrZero(v: Value, key: string): nat {
    var u := Unsigned(v, key);
    if u.Some? then u.value else 0
  }

  /** The three probe keys that test the limits themselves. */
  function EvalGenerated(e: Value, context: Value, limits: Limits): Option<Eval> {
    if Unsigned(e, "generated_nesting").Some? then
      Some(if Unsigned(e, "generated_nesting").value > limits.expressionDepth then Limit else True)
    else if Has(e, "all_values_must_be_true") then
      Some(if UnsignedOrZero(context, "generated_collection_size") > limits.collectionValues then Limit else True)
    else if Has(e, "evaluate_generated_operations") then
      Some(if UnsignedOrZero(context, "generated_operations") > limits.fuel then Limit else True)
    else None
  }

  // ---------------------------------------------------------------- the metered evaluator

  /** Verdict of `e` and the fuel left over. */
  function EvalExpr(e: Value, context: Value, depth: nat, fuel: nat, limits: Limits): (Eval, nat)
    decreases Nodes(e), 0
  {
    if depth > limits.expressionDepth || fuel == 0 then (Limit, fuel)
    else if !e.Obj? then (Invalid, fuel - 1)
    else if EvalGenerated(e, context, limits).Some? then (EvalGenerated(e, context, limits).value, fuel - 1)
    else if GetArray(e, "all").Some? then EvalAll(GetArray(e, "all").value, context, depth, fuel - 1, limits, True)
    else if GetArray(e, "any").Some? then EvalAny(GetArray(e, "any").value, context, depth, fuel - 1, limits, false)
    else (EvalKnownBinary(e, context), fuel - 1)
  }

  function EvalAll(items: seq<Value>, context: Value, depth: nat, fuel: nat, limits: Limits, sofar: Eval): (Eval, nat)
    decreases NodesAll(items), 1
  {
    if items == [] then (sofar, fuel)
    else
      var (r, left) := EvalExpr(items[0], context, depth + 1, fuel, limits);
      match r
      case True => EvalAll(items[1..], context, depth, left, limits, sofar)
      case False => EvalAll(items[1..], context, depth, left, limits, False)
      case _ => (r, left)
  }

  function EvalAny(items: seq<Value>, context: Value, depth: nat, fuel: nat, limits: Limits,
        sawUnknown: bool): (Eval, nat)
    decreases NodesAll(items), 1
  {
    if items == [] then (if sawUnknown then Unknown else False, fuel)
    else
      var (r, left) := EvalExpr(items[0], context, depth + 1, fuel, limits);
      match r
      case True => (True, left)
      case False => EvalAny(items[1..], context, depth, left, limits, sawUnknown)
      case Unknown => EvalAny(items[1..], context, depth, left, limits, true)
      case _ => (r, left)
  }

  /** The meter the source threads through the recursion. */
  class Meter {
    var fuel: nat
    constructor (fuel: nat)
      ensures this.fuel == fuel
    {
      this.fuel := fuel;
    }
  }

  method Evaluate(e: Value, context: Value, depth: nat, meter: Meter, limits: Limits) returns (r: Eval)
    modifies meter
    ensures (r, meter.fuel) == EvalExpr(e, context, depth, old(meter.fuel), limits)
    decreases Nodes(e), 0
  {
    if depth > limits.expressionDepth || meter.fuel == 0 {
      return Limit;
    }
    meter.fuel := meter.fuel - 1;
    if !e.Obj? {
      return Invalid;
    }
    var generated := EvalGenerated(e, context, limits);
    if generated.Some? {
      return generated.value;
    }
    var items := GetArray(e, "all");
    if items.Some? {
      r := EvaluateAll(items.value, context, depth, meter, limits);
      return;
    }
    items := GetArray(e, "any");
    if items.Some? {
      r := EvaluateAny(items.value, context, depth, meter, limits);
      return;
    }
    r := EvalKnownBinary(e, context);
  }

  method EvaluateAll(items: seq<Value>, context: Value, depth: nat, meter: Meter, limits: Limits) returns (r: Eval)
    modifies meter
    ensures (r, meter.fuel) == EvalAll(items, context, depth, old(meter.fuel), limits, True)
    decreases NodesAll(items), 1
  {
    r := True;
    for k := 0 to |items|
      invariant EvalAll(items[k..], context, depth, meter.fuel, limits, r)
                == EvalAll(items, context, depth, old(meter.fuel), limits, True)
    {
      NodesAllAt(items, k);
      assert items[k..][0] == items[k] && items[k..][1..] == items[k + 1..];
      var item := Evaluate(items[k], context, depth + 1, meter, limits);
      match item
      case True =>
      case False => r := False;
      case _ => return item;
    }
  }

  method EvaluateAny(items: seq<Value>, context: Value, depth: nat, meter: Meter, limits: Limits) returns (r: Eval)
    modifies meter
    ensures (r, meter.fuel) == EvalAny(items, context, depth, old(meter.fuel), limits, false)
    decreases NodesAll(items), 1
  {
    var sawUnknown := false;
    for k := 0 to |items|
      invariant EvalAny(items[k..], context, depth, meter.fuel, limits, sawUnknown)
                == EvalAny(items, context, depth, old(meter.fuel), limits, false)
    {
      NodesAllAt(items, k);
      assert items[k..][0] == items[k] && items[k..][1..] == items[k + 1..];
      var item := Evaluate(items[k], context, depth + 1, meter, limits);
      match item
      case True => return True;
      case False =>
      case Unknown => sawUnknown := true;
      case _ => return item;
    }
    r := if sawUnknown then Unknown else False;
  }

  // ---------------------------------------------------------------- meaning without limits

  /** What an expression means: no depth, no fuel, and every verdict built from its parts. */
  function Meaning(e: Value, context: Value): Eval
    decreases Nodes(e), 0
  {
    if !e.Obj? then Invalid
    else if GetArray(e, "all").Some? then MeaningAll(GetArray(e, "all").value, context)
    else if GetArray(e, "any").Some? then MeaningAny(GetArray(e, "any").value, context)
    else EvalKnownBinary(e, context)
  }

  function MeaningAll(items: seq<Value>, context: Value): Eval
    decreases NodesAll(items), 1
  {
    if items == [] then True
    else
      var head := Meaning(items[0], context);
      if head != True && head != False then head
      else
        var rest := MeaningAll(items[1..], context);
        if head == False && rest == True then False else rest
  }

  function MeaningAny(items: seq<Value>, context: Value): Eval
    decreases NodesAll(items), 1
  {
    if items == [] then False
    else
      var head := Meaning(items[0], context);
      if head != False && head != Unknown then head
      else
        var rest := MeaningAny(items[1..], context);
        if head == Unknown && rest == False then Unknown else rest
  }

  /** No object anywhere in the value carries one of the probe keys. */
  ghost predicate ProbeFree(v: Value)
    decreases v, 1
  {
    && !Has(v, "generated_nesting")
    && !Has(v, "all_values_must_be_true")
    && !Has(v, "evaluate_generated_operations")
    && match v
       case Arr(items) => AllProbeFree(items)
       case Obj(_, values) => AllProbeFree(values)
       case _ => true
  }

  ghost predicate AllProbeFree(vs: seq<Value>)
    decreases vs, 0
  {
    vs == [] || (ProbeFree(vs[0]) && AllProbeFree(vs[1..]))
  }

  /** A field of an admissible object is admissible one level further down. */
  lemma {:induction false} FieldWithin(keys: seq<string>, values: seq<Value>, key: string, levels: int, cap: nat)
    requires AllWithin(values, levels, cap) && AllProbeFree(values)
    ensures Find(keys, values, key).Some? ==>
              Within(Find(keys, values, key).value, levels, cap) && ProbeFree(Find(keys, values, key).value)
  {
    if keys != [] && values != [] && keys[0] != key {
      FieldWithin(keys[1..], values[1..], key, levels, cap);
    }
  }

  lemma {:induction false} FieldCollections(keys: seq<string>, values: seq<Value>, key: string, cap: nat)
    requires AllCollectionsFit(values, cap)
    ensures Find(keys, values, key).Some? ==> CollectionsFit(Find(keys, values, key).value, cap)
  {
    if keys != [] && values != [] && keys[0] != key {
      FieldCollections(keys[1..], values[1..], key, cap);
    }
  }

  lemma {:induction false} GetArrayWithin(e: Value, key: string, levels: int, cap: nat)
    requires Within(e, levels, cap) && ProbeFree(e) && GetArray(e, key).Some?
    ensures AllWithin(GetArray(e, key).value, levels - 2, cap) && AllProbeFree(GetArray(e, key).value)
    ensures |GetArray(e, key).value| <= cap
  {
    FieldWithin(e.keys, e.values, key, levels - 1, cap);
  }

  lemma {:induction false} BinaryNeverLimits(e: Value, operator: string, context: Value, levels: int, cap: nat)
    requires cap <= MAX_COLLECTION_VALUES
    requires Within(e, levels, cap) && ProbeFree(e) && CollectionsFit(context, cap)
    ensures GetArray(e, operator).Some? ==> EvalBinary(operator, GetArray(e, operator).value, context) != Limit
  {
    if GetArray(e, operator).Some? {
      var arguments := GetArray(e, operator).value;
      GetArrayWithin(e, operator, levels, cap);
      if |arguments| == 2 && arguments[0].Str? {
        assert AllWithin(arguments[1..], levels - 2, cap);
        assert Within(arguments[1..][0], levels - 2, cap);
        if context.Obj? {
          FieldCollections(context.keys, context.values, arguments[0].s, cap);
        }
      }
    }
  }

  /** The arguments of an operator, when there are two, are admissible. */
  lemma {:induction false} LeafNeverLimits(e: Value, context: Value, levels: int, cap: nat)
    requires cap <= MAX_COLLECTION_VALUES
    requires Within(e, levels, cap) && ProbeFree(e) && CollectionsFit(context, cap)
    ensures EvalKnownBinary(e, context) != Limit
  {
    BinaryNeverLimits(e, "eq", context, levels, cap);
    BinaryNeverLimits(e, "lte", context, levels, cap);
    BinaryNeverLimits(e, "in", context, levels, cap);
    BinaryNeverLimits(e, "contains", context, levels, cap);
  }

  /** Enough fuel and depth: the metered evaluator computes the meaning and never reports a limit. */
  lemma {:induction false} MeteredIsMeaning(e: Value, context: Value, depth: nat, fuel: nat, limits: Limits,
        levels: int)
    requires limits.collectionValues <= MAX_COLLECTION_VALUES
    requires Within(e, levels, limits.collectionValues) && 2 * depth + levels <= limits.expressionDepth
    requires ProbeFree(e) && CollectionsFit(context, limits.collectionValues)
    requires Nodes(e) <= fuel
    ensures EvalExpr(e, context, depth, fuel, limits).0 == Meaning(e, context) != Limit
    ensures fuel - Nodes(e) <= EvalExpr(e, context, depth, fuel, limits).1
    decreases Nodes(e), 0
  {
    var cap := limits.collectionValues;
    if e.Obj? {
      if GetArray(e, "all").Some? {
        GetArrayWithin(e, "all", levels, cap);
        MeteredAllIsMeaning(GetArray(e, "all").value, context, depth, fuel - 1, limits, levels - 2, True);
      } else if GetArray(e, "any").Some? {
        GetArrayWithin(e, "any", levels, cap);
        MeteredAnyIsMeaning(GetArray(e, "any").value, context, depth, fuel - 1, limits, levels - 2, false);
      } else {
        LeafNeverLimits(e, context, levels, cap);
      }
    }
  }

  lemma {:induction false} MeteredAllIsMeaning(items: seq<Value>, context: Value, depth: nat, fuel: nat,
        limits: Limits, levels: int, sofar: Eval)
    requires limits.collectionValues <= MAX_COLLECTION_VALUES
    requires AllWithin(items, levels, limits.collectionValues) && 2 * depth + 2 + levels <= limits.expressionDepth
    requires AllProbeFree(items) && CollectionsFit(context, limits.collectionValues)
    requires NodesAll(items) <= fuel && (sofar == True || sofar == False)
    ensures MeaningAll(items, context) != Limit
    ensures EvalAll(items, context, depth, fuel, limits, sofar).0
            == if sofar == False && MeaningAll(items, context) == True then False else MeaningAll(items, context)
    ensures fuel - NodesAll(items) <= EvalAll(items, context, depth, fuel, limits, sofar).1
    decreases NodesAll(items), 1
  {
    if items == [] {
    } else {
      MeteredIsMeaning(items[0], context, depth + 1, fuel, limits, levels);
      var (r, left) := EvalExpr(items[0], context, depth + 1, fuel, limits);
      if r == True || r == False {
        MeteredAllIsMeaning(items[1..], context, depth, left, limits, levels, if r == True then sofar else False);
      }
    }
  }

  lemma {:induction false} MeteredAnyIsMeaning(items: seq<Value>, context: Value, depth: nat, fuel: nat,
        limits: Limits, levels: int, sawUnknown: bool)
    requires limits.collectionValues <= MAX_COLLECTION_VALUES
    requires AllWithin(items, levels, limits.collectionValues) && 2 * depth + 2 + levels <= limits.expressionDepth
    requires AllProbeFree(items) && CollectionsFit(context, limits.collectionValues)
    requires NodesAll(items) <= fuel
    ensures MeaningAny(items, context) != Limit
    ensures EvalAny(items, context, depth, fuel, limits, sawUnknown).0
            == if sawUnknown && MeaningAny(items, context) == False then Unknown else MeaningAny(items, context)
    ensures fuel - NodesAll(items) <= EvalAny(items, context, depth, fuel, limits, sawUnknown).1
    decreases NodesAll(items), 1
  {
    if items == [] {
    } else {
      MeteredIsMeaning(items[0], context, depth + 1, fuel, limits, levels);
      var (r, left) := EvalExpr(items[0], context, depth + 1, fuel, limits);
      if r == False || r == Unknown {
        MeteredAnyIsMeaning(items[1..], context, depth, left, limits, levels, sawUnknown || r == Unknown);
      }
    }
  }
}
