/** What the policy evaluator and its preparation steps share: verdicts, limits, admissible shapes. */
module Policy {
  import opened Common
  import opened Json

  datatype Eval = True | False | Unknown | Stale | Invalid | Limit

  const MAX_POLICY_DEPTH: nat := 16
  const MAX_COLLECTION_VALUES: nat := 1024
  const MAX_POLICY_FUEL: nat := 50_000
  const MAX_POLICY_RULES: nat := 1_000
  const MAX_AST_NODES_PER_RULE: nat := 256
  const MAX_REFERENCE_DEPTH: nat := 16

  datatype Limits = Limits(
    rules: nat,
    astNodesPerRule: nat,
    expressionDepth: nat,
    collectionValues: nat,
    referenceDepth: nat,
    fuel: nat)
  {
    predicate ProfileCompliant() {
      && 0 < rules <= MAX_POLICY_RULES
      && 0 < astNodesPerRule <= MAX_AST_NODES_PER_RULE
      && 0 < expressionDepth <= MAX_POLICY_DEPTH
      && 0 < collectionValues <= MAX_COLLECTION_VALUES
      && 0 < referenceDepth <= MAX_REFERENCE_DEPTH
      && 0 < fuel <= MAX_POLICY_FUEL
    }
  }

  /** At most `levels` levels below `v`, and no array of more than `cap` items. */
  predicate Within(v: Value, levels: int, cap: nat)
    decreases v, 1
  {
    && levels >= 0
    && match v
       case Arr(items) => |items| <= cap && AllWithin(items, levels - 1, cap)
       case Obj(_, values) => AllWithin(values, levels - 1, cap)
       case _ => true
  }

  predicate AllWithin(vs: seq<Value>, levels: int, cap: nat)
    decreases vs, 0
  {
    vs == [] || (Within(vs[0], levels, cap) && AllWithin(vs[1..], levels, cap))
  }

  /** A rule or policy the limits admit. */
  predicate ShapeFits(v: Value, limits: Limits) {
    && Within(v, limits.expressionDepth, limits.collectionValues)
    && Nodes(v) <= limits.astNodesPerRule
  }

  /** No array anywhere in `v` has more than `cap` items. */
  predicate CollectionsFit(v: Value, cap: nat)
    decreases v, 1
  {
    match v
    case Arr(items) => |items| <= cap && AllCollectionsFit(items, cap)
    case Obj(_, values) => AllCollectionsFit(values, cap)
    case _ => true
  }

  predicate AllCollectionsFit(vs: seq<Value>, cap: nat)
    decreases vs, 0
  {
    vs == [] || (CollectionsFit(vs[0], cap) && AllCollectionsFit(vs[1..], cap))
  }

  /** The running count of values and the running depth together decide exactly `ShapeFits`. */
  method ValidateValueShape(v: Value, limits: Limits, depth: nat, nodes: nat) returns (r: Eval, after: nat)
    ensures r == True || r == Limit
    ensures r == True <==>
            && Within(v, limits.expressionDepth - depth, limits.collectionValues)
            && nodes + Nodes(v) <= limits.astNodesPerRule
    ensures r == True ==> after == nodes + Nodes(v)
    decreases v, 1
  {
    after := nodes;
    if depth > limits.expressionDepth {
      return Limit, after;
    }
    after := after + 1;
    if after > limits.astNodesPerRule {
      return Limit, after;
    }
    match v
    case Arr(items) =>
      if |items| > limits.collectionValues {
        return Limit, after;
      }
      r, after := ValidateItems(items, limits, depth + 1, after);
    case Obj(_, values) =>
      r, after := ValidateItems(values, limits, depth + 1, after);
    case _ =>
      r := True;
  }

  method ValidateItems(vs: seq<Value>, limits: Limits, depth: nat, nodes: nat) returns (r: Eval, after: nat)
    requires nodes <= limits.astNodesPerRule
    ensures r == True || r == Limit
    ensures r == True <==>
            && AllWithin(vs, limits.expressionDepth - depth, limits.collectionValues)
            && nodes + NodesAll(vs) <= limits.astNodesPerRule
    ensures r == True ==> after == nodes + NodesAll(vs)
    decreases vs, 0
  {
    r, after := True, nodes;
    for k := 0 to |vs|
      invariant r == True
      invariant after <= limits.astNodesPerRule
      invariant AllWithin(vs, limits.expressionDepth - depth, limits.collectionValues)
                <==> AllWithin(vs[k..], limits.expressionDepth - depth, limits.collectionValues)
      invariant after + NodesAll(vs[k..]) == nodes + NodesAll(vs)
    {
      assert vs[k..][0] == vs[k] && vs[k..][1..] == vs[k + 1..];
      r, after := ValidateValueShape(vs[k], limits, depth, after);
      if r != True {
        return;
      }
    }
  }

  method ValidateContextCollections(v: Value, limit: nat) returns (r: Eval)
    ensures r == if CollectionsFit(v, limit) then True else Limit
    decreases v, 1
  {
    match v
    case Arr(items) =>
      if |items| > limit {
        return Limit;
      }
      r := ValidateContextItems(items, limit);
    case Obj(_, values) =>
      r := ValidateContextItems(values, limit);
    case _ =>
      r := True;
  }

  method ValidateContextItems(vs: seq<Value>, limit: nat) returns (r: Eval)
    ensures r == if AllCollectionsFit(vs, limit) then True else Limit
    decreases vs, 0
  {
    r := True;
    for k := 0 to |vs|
      invariant r == True
      invariant AllCollectionsFit(vs, limit) <==> AllCollectionsFit(vs[k..], limit)
    {
      assert vs[k..][0] == vs[k] && vs[k..][1..] == vs[k + 1..];
      r := ValidateContextCollections(vs[k], limit);
      if r != True {
        return;
      }
    }
  }
}
