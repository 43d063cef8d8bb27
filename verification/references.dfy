/**
 Named rule references inside a policy (`{"ref": "name"}`) and their resolution by inlining.
 The source resolves with a stack of open names and refuses a name that is already open; the
 theorems here say what that amounts to in terms of plain inlining and of reference chains.
 */
module References {
  import opened Common
  import opened Json
  import opened Policy

  type Rules = map<string, Value>

  predicate IsRef(v: Value) {
    && v.Obj?
    && |v.keys| == |v.values| == 1
    && v.keys[0] == "ref"
    && v.values[0].Str?
  }

  function RefName(v: Value): string
    requires IsRef(v)
  {
    v.values[0].s
  }

  // ---------------------------------------------------------------- the resolver

  /** Resolution with `stack` holding the names currently being inlined. */
  function Resolve(v: Value, rules: Rules, limit: nat, stack: seq<string>): Result<Value, Eval>
    decreases if |stack| < limit then limit - |stack| else 0, v, 1
  {
    if IsRef(v) then
      var name := RefName(v);
      if name in stack then Err(Invalid)
      else if |stack| >= limit then Err(Limit)
      else if name !in rules then Err(Invalid)
      else Resolve(rules[name], rules, limit, stack + [name])
    else
      match v
      case Arr(items) =>
        var rs :- ResolveAll(items, rules, limit, stack);
        Ok(Arr(rs))
      case Obj(keys, values) =>
        var rs :- ResolveAll(values, rules, limit, stack);
        Ok(Obj(keys, rs))
      case _ => Ok(v)
  }

  function ResolveAll(vs: seq<Value>, rules: Rules, limit: nat, stack: seq<string>): (r: Result<seq<Value>, Eval>)
    ensures r.Ok? ==> |r.value| == |vs|
    decreases if |stack| < limit then limit - |stack| else 0, vs, 0
  {
    if vs == [] then Ok([])
    else
      var head :- Resolve(vs[0], rules, limit, stack);
      var tail :- ResolveAll(vs[1..], rules, limit, stack);
      Ok([head] + tail)
  }

  /** The first failure among the children is the failure of the whole. */
  lemma {:induction false} ResolveAllStep(vs: seq<Value>, rules: Rules, limit: nat, stack: seq<string>, k: nat)
    requires k < |vs|
    requires ResolveAll(vs[..k], rules, limit, stack).Ok?
    ensures Resolve(vs[k], rules, limit, stack).Err? ==>
              ResolveAll(vs, rules, limit, stack) == Err(Resolve(vs[k], rules, limit, stack).error)
    ensures Resolve(vs[k], rules, limit, stack).Ok? ==>
              ResolveAll(vs[..k + 1], rules, limit, stack)
              == Ok(ResolveAll(vs[..k], rules, limit, stack).value + [Resolve(vs[k], rules, limit, stack).value])
    decreases k
  {
    if k == 0 {
      assert vs[..1] == [vs[0]] && vs[..0] == [];
      assert ResolveAll([vs[0]][1..], rules, limit, stack) == Ok([]);
      if Resolve(vs[0], rules, limit, stack).Ok? {
        var first := [Resolve(vs[0], rules, limit, stack).value];
        assert first + [] == first && [] + first == first;
      }
    } else {
      assert vs[..k][0] == vs[0] && vs[..k][1..] == vs[1..][..k - 1];
      assert vs[..k + 1][0] == vs[0] && vs[..k + 1][1..] == vs[1..][..k];
      ResolveAllStep(vs[1..], rules, limit, stack, k - 1);
      if Resolve(vs[k], rules, limit, stack).Ok? {
        var head := [Resolve(vs[0], rules, limit, stack).value];
        var mid := ResolveAll(vs[1..][..k - 1], rules, limit, stack).value;
        var last := [Resolve(vs[k], rules, limit, stack).value];
        assert head + (mid + last) == (head + mid) + last;
      }
    }
  }

  /**
   The resolver as the source runs it: one shared stack, pushed before a rule body is entered
   and popped after it, and loops over the children that stop at the first failure.
   */
  class Stack {
    var names: seq<string>
    constructor ()
      ensures names == []
    {
      names := [];
    }
  }

  method ResolveValue(v: Value, rules: Rules, limit: nat, stack: Stack) returns (r: Result<Value, Eval>)
    modifies stack
    ensures stack.names == old(stack.names)
    ensures r == Resolve(v, rules, limit, old(stack.names))
    decreases if |stack.names| < limit then limit - |stack.names| else 0, v, 1
  {
    if IsRef(v) {
      var name := RefName(v);
      if name in stack.names {
        return Err(Invalid);
      }
      if |stack.names| >= limit {
        return Err(Limit);
      }
      if name !in rules {
        return Err(Invalid);
      }
      stack.names := stack.names + [name];
      var resolved := ResolveValue(rules[name], rules, limit, stack);
      stack.names := stack.names[..|stack.names| - 1];
      return resolved;
    }
    match v
    case Arr(items) =>
      var rs := ResolveItems(items, rules, limit, stack);
      return if rs.Ok? then Ok(Arr(rs.value)) else Err(rs.error);
    case Obj(keys, values) =>
      var rs := ResolveItems(values, rules, limit, stack);
      return if rs.Ok? then Ok(Obj(keys, rs.value)) else Err(rs.error);
    case _ =>
      return Ok(v);
  }

  method ResolveItems(vs: seq<Value>, rules: Rules, limit: nat, stack: Stack) returns (r: Result<seq<Value>, Eval>)
    modifies stack
    ensures stack.names == old(stack.names)
    ensures r == ResolveAll(vs, rules, limit, old(stack.names))
    decreases if |stack.names| < limit then limit - |stack.names| else 0, vs, 0
  {
    var done: seq<Value> := [];
    for k := 0 to |vs|
      invariant stack.names == old(stack.names)
      invariant ResolveAll(vs[..k], rules, limit, stack.names) == Ok(done)
    {
      var item := ResolveValue(vs[k], rules, limit, stack);
      ResolveAllStep(vs, rules, limit, stack.names, k);
      if item.Err? {
        return Err(item.error);
      }
      done := done + [item.value];
    }
    assert vs[..|vs|] == vs;
    return Ok(done);
  }

  // ---------------------------------------------------------------- plain inlining

  /** Inlining with no stack at all: `d` bounds only how deeply rule bodies may nest. */
  function Inline(v: Value, rules: Rules, d: nat): Option<Value>
    decreases d, v, 1
  {
    if IsRef(v) then
      if d == 0 || RefName(v) !in rules then None else Inline(rules[RefName(v)], rules, d - 1)
    else
      match v
      case Arr(items) =>
        var rs := InlineAll(items, rules, d);
        if rs.Some? then Some(Arr(rs.value)) else None
      case Obj(keys, values) =>
        var rs := InlineAll(values, rules, d);
        if rs.Some? then Some(Obj(keys, rs.value)) else None
      case _ => Some(v)
  }

  function InlineAll(vs: seq<Value>, rules: Rules, d: nat): (r: Option<seq<Value>>)
    ensures r.Some? ==> |r.value| == |vs|
    decreases d, vs, 0
  {
    if vs == [] then Some([])
    else
      var head := Inline(vs[0], rules, d);
      var tail := InlineAll(vs[1..], rules, d);
      if head.Some? && tail.Some? then Some([head.value] + tail.value) else None
  }

  /** A deeper budget never changes a result that was already reached. */
  lemma {:induction false} InlineStable(v: Value, rules: Rules, d: nat, e: nat)
    requires d <= e && Inline(v, rules, d).Some?
    ensures Inline(v, rules, e) == Inline(v, rules, d)
    decreases d, v, 1
  {
    if IsRef(v) {
      InlineStable(rules[RefName(v)], rules, d - 1, e - 1);
    } else {
      match v
      case Arr(items) => InlineAllStable(items, rules, d, e);
      case Obj(_, values) => InlineAllStable(values, rules, d, e);
      case _ =>
    }
  }

  lemma {:induction false} InlineAllStable(vs: seq<Value>, rules: Rules, d: nat, e: nat)
    requires d <= e && InlineAll(vs, rules, d).Some?
    ensures InlineAll(vs, rules, e) == InlineAll(vs, rules, d)
    decreases d, vs, 0
  {
    if vs == [] {
    } else {
      InlineStable(vs[0], rules, d, e);
      InlineAllStable(vs[1..], rules, d, e);
    }
  }

  /** The least budget with which `v` can be inlined. */
  lemma {:induction false} LeastBudget(v: Value, rules: Rules, d: nat) returns (least: nat)
    requires Inline(v, rules, d).Some?
    ensures least <= d && Inline(v, rules, least) == Inline(v, rules, d)
    ensures forall e: nat :: e < least ==> Inline(v, rules, e).None?
  {
    if d > 0 && Inline(v, rules, d - 1).Some? {
      least := LeastBudget(v, rules, d - 1);
      InlineStable(v, rules, d - 1, d);
    } else {
      least := d;
      forall e: nat | e < least ensures Inline(v, rules, e).None? {
        if Inline(v, rules, e).Some? {
          InlineStable(v, rules, e, d - 1);
        }
      }
    }
  }

  // ------------------------------------------- the stack check changes nothing

  lemma {:induction false} ResolvedIsInlined(v: Value, rules: Rules, limit: nat, stack: seq<string>)
    requires |stack| <= limit && Resolve(v, rules, limit, stack).Ok?
    ensures Inline(v, rules, limit - |stack|) == Some(Resolve(v, rules, limit, stack).value)
    decreases limit - |stack|, v, 1
  {
    if IsRef(v) {
      ResolvedIsInlined(rules[RefName(v)], rules, limit, stack + [RefName(v)]);
    } else {
      match v
      case Arr(items) => ResolvedAllIsInlined(items, rules, limit, stack);
      case Obj(_, values) => ResolvedAllIsInlined(values, rules, limit, stack);
      case _ =>
    }
  }

  lemma {:induction false} ResolvedAllIsInlined(vs: seq<Value>, rules: Rules, limit: nat, stack: seq<string>)
    requires |stack| <= limit && ResolveAll(vs, rules, limit, stack).Ok?
    ensures InlineAll(vs, rules, limit - |stack|) == Some(ResolveAll(vs, rules, limit, stack).value)
    decreases limit - |stack|, vs, 0
  {
    if vs == [] {
    } else {
      ResolvedIsInlined(vs[0], rules, limit, stack);
      ResolvedAllIsInlined(vs[1..], rules, limit, stack);
    }
  }

  /** No open name can be inlined with a budget below `d`. */
  ghost predicate OpenNamesNeed(stack: seq<string>, rules: Rules, d: nat) {
    forall name :: name in stack ==> name in rules && (forall e: nat :: e < d ==> Inline(rules[name], rules, e).None?)
  }

  /**
   If inlining succeeds, the name check never fires: an open name would have to be inlined
   inside its own expansion, with a smaller budget than the least one that suffices for it.
   */
  lemma {:induction false} InlinedIsResolved(v: Value, rules: Rules, limit: nat, stack: seq<string>, d: nat)
    requires d + |stack| <= limit && Inline(v, rules, d).Some?
    requires OpenNamesNeed(stack, rules, d)
    ensures Resolve(v, rules, limit, stack) == Ok(Inline(v, rules, d).value)
    decreases d, v, 1
  {
    if IsRef(v) {
      var name := RefName(v);
      var least := LeastBudget(rules[name], rules, d - 1);
      assert name !in stack;
      InlinedIsResolved(rules[name], rules, limit, stack + [name], least);
    } else {
      match v
      case Arr(items) => InlinedAllIsResolved(items, rules, limit, stack, d);
      case Obj(_, values) => InlinedAllIsResolved(values, rules, limit, stack, d);
      case _ =>
    }
  }

  lemma {:induction false} InlinedAllIsResolved(vs: seq<Value>, rules: Rules, limit: nat, stack: seq<string>, d: nat)
    requires d + |stack| <= limit && InlineAll(vs, rules, d).Some?
    requires OpenNamesNeed(stack, rules, d)
    ensures ResolveAll(vs, rules, limit, stack) == Ok(InlineAll(vs, rules, d).value)
    decreases d, vs, 0
  {
    if vs == [] {
    } else {
      InlinedIsResolved(vs[0], rules, limit, stack, d);
      InlinedAllIsResolved(vs[1..], rules, limit, stack, d);
    }
  }

  /** Resolution from an empty stack is exactly inlining to the reference depth. */
  lemma {:induction false} ResolutionIsInlining(entry: Value, rules: Rules, limit: nat, r: Value)
    ensures Resolve(entry, rules, limit, []) == Ok(r) <==> Inline(entry, rules, limit) == Some(r)
  {
    if Resolve(entry, rules, limit, []).Ok? {
      ResolvedIsInlined(entry, rules, limit, []);
    }
    if Inline(entry, rules, limit).Some? {
      InlinedIsResolved(entry, rules, limit, [], limit);
    }
  }

  // ---------------------------------------------------------------- reference chains

  /** `path` is a chain of references starting inside `v`: each name occurs in the body of the one before. */
  ghost predicate Chain(v: Value, rules: Rules, path: seq<string>)
    decreases |path|, v, 1
  {
    if path == [] then true
    else if IsRef(v) then
      path[0] == RefName(v) && (path[0] in rules ==> Chain(rules[path[0]], rules, path[1..]))
        && (path[0] !in rules ==> |path| == 1)
    else
      match v
      case Arr(items) => ChainAny(items, rules, path)
      case Obj(_, values) => ChainAny(values, rules, path)
      case _ => false
  }

  ghost predicate ChainAny(vs: seq<Value>, rules: Rules, path: seq<string>)
    requires path != []
    decreases |path|, vs, 0
  {
    vs != [] && (Chain(vs[0], rules, path) || ChainAny(vs[1..], rules, path))
  }

  ghost predicate Bounded(path: seq<string>, rules: Rules, d: nat) {
    |path| <= d && forall i :: 0 <= i < |path| ==> path[i] in rules
  }

  lemma {:induction false} InlinedChainsAreBounded(v: Value, rules: Rules, d: nat, path: seq<string>)
    requires Inline(v, rules, d).Some? && Chain(v, rules, path)
    ensures Bounded(path, rules, d)
    ensures path != [] ==> Inline(rules[path[|path| - 1]], rules, d - |path|).Some?
    decreases |path|, v, 1
  {
    if path == [] {
    } else {
      if IsRef(v) {
        InlinedChainsAreBounded(rules[path[0]], rules, d - 1, path[1..]);
        assert forall i :: 1 <= i < |path| ==> path[i] == path[1..][i - 1];
      } else {
        match v
        case Arr(items) => InlinedAllChainsAreBounded(items, rules, d, path);
        case Obj(_, values) => InlinedAllChainsAreBounded(values, rules, d, path);
        case _ =>
      }
    }
  }

  lemma {:induction false} InlinedAllChainsAreBounded(vs: seq<Value>, rules: Rules, d: nat, path: seq<string>)
    requires path != [] && InlineAll(vs, rules, d).Some? && ChainAny(vs, rules, path)
    ensures Bounded(path, rules, d) && Inline(rules[path[|path| - 1]], rules, d - |path|).Some?
    decreases |path|, vs, 0
  {
    if Chain(vs[0], rules, path) {
      InlinedChainsAreBounded(vs[0], rules, d, path);
    } else {
      InlinedAllChainsAreBounded(vs[1..], rules, d, path);
    }
  }

  /** When inlining fails there is a chain to blame. */
  lemma {:induction false} UnboundedChain(v: Value, rules: Rules, d: nat) returns (path: seq<string>)
    requires Inline(v, rules, d).None?
    ensures Chain(v, rules, path) && !Bounded(path, rules, d)
    decreases d, v, 1
  {
    if IsRef(v) {
      var name := RefName(v);
      if d == 0 || name !in rules {
        path := [name];
      } else {
        var rest := UnboundedChain(rules[name], rules, d - 1);
        path := [name] + rest;
        assert path[1..] == rest;
        if |rest| <= d - 1 {
          var i :| 0 <= i < |rest| && rest[i] !in rules;
          assert path[i + 1] !in rules;
        }
      }
    } else {
      match v
      case Arr(items) => path := UnboundedChainAny(items, rules, d);
      case Obj(_, values) => path := UnboundedChainAny(values, rules, d);
      case _ =>
    }
  }

  lemma {:induction false} UnboundedChainAny(vs: seq<Value>, rules: Rules, d: nat) returns (path: seq<string>)
    requires InlineAll(vs, rules, d).None?
    ensures path != [] && ChainAny(vs, rules, path) && !Bounded(path, rules, d)
    decreases d, vs, 0
  {
    if Inline(vs[0], rules, d).None? {
      path := UnboundedChain(vs[0], rules, d);
    } else {
      path := UnboundedChainAny(vs[1..], rules, d);
    }
  }

  /**
   What the resolver accepts: exactly the policies in which every chain of references from the
   entry is at most `limit` names long and every name on it is defined.
   */
  lemma {:induction false} AcceptedExactlyWhenChainsBounded(entry: Value, rules: Rules, limit: nat)
    ensures Resolve(entry, rules, limit, []).Ok? <==>
            forall path :: Chain(entry, rules, path) ==> Bounded(path, rules, limit)
  {
    if Resolve(entry, rules, limit, []).Ok? {
      ResolvedIsInlined(entry, rules, limit, []);
      forall path | Chain(entry, rules, path) ensures Bounded(path, rules, limit) {
        InlinedChainsAreBounded(entry, rules, limit, path);
      }
    } else {
      if Inline(entry, rules, limit).Some? {
        InlinedIsResolved(entry, rules, limit, [], limit);
      }
      var path := UnboundedChain(entry, rules, limit);
    }
  }

  /**
   A chain of references that ends in what the resolver refuses, with the reason: all names before
   the last are defined and different and within the depth, and the last one is open already, or
   would be one too deep, or is not defined.
   */
  predicate Refused(rules: Rules, limit: nat, stack: seq<string>, path: seq<string>, e: Eval) {
    && path != []
    && var open, last := stack + path[..|path| - 1], path[|path| - 1];
    && |open| <= limit
    && (forall i, j :: 0 <= i < j < |open| ==> open[i] != open[j])
    && (forall i :: 0 <= i < |path| - 1 ==> path[i] in rules)
    && if last in open then e == Invalid else if |open| == limit then e == Limit else e == Invalid && last !in rules
  }

  lemma {:induction false} RefusedFurther(rules: Rules, limit: nat, stack: seq<string>, name: string, rest: seq<string>,
        e: Eval)
    requires name in rules && Refused(rules, limit, stack + [name], rest, e)
    ensures Refused(rules, limit, stack, [name] + rest, e)
  {
    var path := [name] + rest;
    assert stack + path[..|path| - 1] == (stack + [name]) + rest[..|rest| - 1];
    assert path[|path| - 1] == rest[|rest| - 1];
    assert forall i :: 1 <= i < |path| - 1 ==> path[i] == rest[i - 1];
  }

  lemma {:induction false} RefusedChain(v: Value, rules: Rules, limit: nat, stack: seq<string>)
    returns (path: seq<string>)
    requires |stack| <= limit && forall i, j :: 0 <= i < j < |stack| ==> stack[i] != stack[j]
    requires Resolve(v, rules, limit, stack).Err?
    ensures Chain(v, rules, path) && Refused(rules, limit, stack, path, Resolve(v, rules, limit, stack).error)
    decreases limit - |stack|, v, 1
  {
    if IsRef(v) {
      var name := RefName(v);
      if name in stack || |stack| == limit || name !in rules {
        path := [name];
        assert stack + path[..0] == stack;
      } else {
        var rest := RefusedChain(rules[name], rules, limit, stack + [name]);
        path := [name] + rest;
        assert path[1..] == rest;
        RefusedFurther(rules, limit, stack, name, rest, Resolve(v, rules, limit, stack).error);
      }
    } else {
      match v
      case Arr(items) => path := RefusedChainAny(items, rules, limit, stack);
      case Obj(_, values) => path := RefusedChainAny(values, rules, limit, stack);
      case _ =>
    }
  }

  lemma {:induction false} RefusedChainAny(vs: seq<Value>, rules: Rules, limit: nat, stack: seq<string>)
    returns (path: seq<string>)
    requires |stack| <= limit && forall i, j :: 0 <= i < j < |stack| ==> stack[i] != stack[j]
    requires ResolveAll(vs, rules, limit, stack).Err?
    ensures path != [] && ChainAny(vs, rules, path)
    ensures Refused(rules, limit, stack, path, ResolveAll(vs, rules, limit, stack).error)
    decreases limit - |stack|, vs, 0
  {
    if Resolve(vs[0], rules, limit, stack).Err? {
      path := RefusedChain(vs[0], rules, limit, stack);
    } else {
      path := RefusedChainAny(vs[1..], rules, limit, stack);
    }
  }

  /** A refused policy has a chain from its entry that ends in just what the refusal reports. */
  lemma {:induction false} RefusalHasItsChain(entry: Value, rules: Rules, limit: nat)
    requires Resolve(entry, rules, limit, []).Err?
    ensures exists path ::
              Chain(entry, rules, path) && Refused(rules, limit, [], path, Resolve(entry, rules, limit, []).error)
  {
    var path := RefusedChain(entry, rules, limit, []);
  }

  /** Chains inside chains: what follows a name on a chain is a chain from that name's body. */
  lemma {:induction false} ChainSuffix(v: Value, rules: Rules, path: seq<string>, i: nat)
    requires Chain(v, rules, path) && i < |path| && (forall k :: 0 <= k < |path| ==> path[k] in rules)
    ensures Chain(rules[path[i]], rules, path[i + 1..])
    decreases |path|, v, 1
  {
    if IsRef(v) {
      assert forall k :: 0 <= k < |path| - 1 ==> path[1..][k] == path[k + 1];
      if i > 0 {
        ChainSuffix(rules[path[0]], rules, path[1..], i - 1);
        assert path[1..][i..] == path[i + 1..];
      }
    } else {
      match v
      case Arr(items) => ChainSuffixAny(items, rules, path, i);
      case Obj(_, values) => ChainSuffixAny(values, rules, path, i);
      case _ =>
    }
  }

  lemma {:induction false} ChainSuffixAny(vs: seq<Value>, rules: Rules, path: seq<string>, i: nat)
    requires path != [] && ChainAny(vs, rules, path) && i < |path| && (forall k :: 0 <= k < |path| ==> path[k] in rules)
    ensures Chain(rules[path[i]], rules, path[i + 1..])
    decreases |path|, vs, 0
  {
    if Chain(vs[0], rules, path) {
      ChainSuffix(vs[0], rules, path, i);
    } else {
      ChainSuffixAny(vs[1..], rules, path, i);
    }
  }

  /** A prefix of a chain is a chain. */
  lemma {:induction false} ChainPrefix(v: Value, rules: Rules, path: seq<string>, n: nat)
    requires Chain(v, rules, path) && n <= |path|
    ensures Chain(v, rules, path[..n])
    decreases |path|, v, 1
  {
    if n == 0 {
    } else {
      if IsRef(v) {
        assert path[..n][0] == path[0] && path[..n][1..] == path[1..][..n - 1];
        if path[0] in rules {
          ChainPrefix(rules[path[0]], rules, path[1..], n - 1);
        }
      } else {
        match v
        case Arr(items) => ChainPrefixAny(items, rules, path, n);
        case Obj(_, values) => ChainPrefixAny(values, rules, path, n);
        case _ =>
      }
    }
  }

  lemma {:induction false} ChainPrefixAny(vs: seq<Value>, rules: Rules, path: seq<string>, n: nat)
    requires path != [] && ChainAny(vs, rules, path) && 0 < n <= |path|
    ensures ChainAny(vs, rules, path[..n])
    decreases |path|, vs, 0
  {
    if Chain(vs[0], rules, path) {
      ChainPrefix(vs[0], rules, path, n);
    } else {
      ChainPrefixAny(vs[1..], rules, path, n);
    }
  }

  /** A name whose body leads back to itself can be inlined with no budget whatsoever. */
  lemma {:induction false} CycleNeverInlines(name: string, rules: Rules, cycle: seq<string>, d: nat)
    requires name in rules && cycle != [] && cycle[|cycle| - 1] == name && Chain(rules[name], rules, cycle)
    ensures Inline(rules[name], rules, d).None?
    decreases d
  {
    if Inline(rules[name], rules, d).Some? {
      InlinedChainsAreBounded(rules[name], rules, d, cycle);
      CycleNeverInlines(name, rules, cycle, d - |cycle|);
    }
  }

  /** An accepted policy has no cycle anywhere within reach of its entry. */
  lemma {:induction false} AcceptedMeansAcyclic(entry: Value, rules: Rules, limit: nat, path: seq<string>)
    requires Resolve(entry, rules, limit, []).Ok? && Chain(entry, rules, path)
    ensures forall i, j :: 0 <= i < j < |path| ==> path[i] != path[j]
  {
    ResolvedIsInlined(entry, rules, limit, []);
    InlinedChainsAreBounded(entry, rules, limit, path);
    forall i, j | 0 <= i < j < |path| ensures path[i] != path[j] {
      if path[i] == path[j] {
        ChainSuffix(entry, rules, path, i);
        ChainPrefix(rules[path[i]], rules, path[i + 1..], j - i);
        ChainPrefix(entry, rules, path, i + 1);
        InlinedChainsAreBounded(entry, rules, limit, path[..i + 1]);
        CycleNeverInlines(path[i], rules, path[i + 1..][..j - i], limit - (i + 1));
      }
    }
  }

  // ---------------------------------------------------------------- size of the result

  function Power(base: nat, e: nat): nat {
    if e == 0 then 1 else base * Power(base, e - 1)
  }

  lemma {:induction false} PowerPositive(base: nat, e: nat)
    requires base >= 1
    ensures Power(base, e) >= 1
  {
    if e == 0 {
    } else {
      PowerPositive(base, e - 1);
      assert base * Power(base, e - 1) >= 1 * 1;
    }
  }

  lemma Scale(a: nat, b: nat, p: nat)
    requires a <= b
    ensures a * p <= b * p
  {
  }

  /** Inlining multiplies the size by at most the largest rule, once per level of nesting. */
  lemma {:induction false} InlinedSize(v: Value, rules: Rules, d: nat, largest: nat)
    requires Inline(v, rules, d).Some?
    requires largest >= 1 && forall name :: name in rules ==> Nodes(rules[name]) <= largest
    ensures Nodes(Inline(v, rules, d).value) <= Nodes(v) * Power(largest, d)
    decreases d, v, 1
  {
    PowerPositive(largest, d);
    var p := Power(largest, d);
    if IsRef(v) {
      var body := rules[RefName(v)];
      InlinedSize(body, rules, d - 1, largest);
      Scale(Nodes(body), largest, Power(largest, d - 1));
      Scale(1, Nodes(v), p);
    } else {
      match v
      case Arr(items) =>
        InlinedAllSize(items, rules, d, largest);
        assert (1 + NodesAll(items)) * p == p + NodesAll(items) * p;
      case Obj(_, values) =>
        InlinedAllSize(values, rules, d, largest);
        assert (1 + NodesAll(values)) * p == p + NodesAll(values) * p;
      case _ =>
    }
  }

  lemma {:induction false} InlinedAllSize(vs: seq<Value>, rules: Rules, d: nat, largest: nat)
    requires InlineAll(vs, rules, d).Some?
    requires largest >= 1 && forall name :: name in rules ==> Nodes(rules[name]) <= largest
    ensures NodesAll(InlineAll(vs, rules, d).value) <= NodesAll(vs) * Power(largest, d)
    decreases d, vs, 0
  {
    if vs == [] {
    } else {
      var p := Power(largest, d);
      InlinedSize(vs[0], rules, d, largest);
      InlinedAllSize(vs[1..], rules, d, largest);
      assert (Nodes(vs[0]) + NodesAll(vs[1..])) * p == Nodes(vs[0]) * p + NodesAll(vs[1..]) * p;
    }
  }

  /** The resolver cannot blow a policy up beyond the rule size raised to the reference depth. */
  lemma {:induction false} ResolvedSizeBound(entry: Value, rules: Rules, limit: nat, largest: nat)
    requires Resolve(entry, rules, limit, []).Ok?
    requires largest >= 1 && forall name :: name in rules ==> Nodes(rules[name]) <= largest
    ensures Nodes(Resolve(entry, rules, limit, []).value) <= Nodes(entry) * Power(largest, limit)
  {
    ResolvedIsInlined(entry, rules, limit, []);
    InlinedSize(entry, rules, limit, largest);
  }

  // ---------------------------------------------------------------- references left behind

  ghost predicate RefFree(v: Value)
    decreases v, 1
  {
    && !IsRef(v)
    && match v
       case Arr(items) => AllRefFree(items)
       case Obj(_, values) => AllRefFree(values)
       case _ => true
  }

  ghost predicate AllRefFree(vs: seq<Value>)
    decreases vs, 0
  {
    vs == [] || (RefFree(vs[0]) && AllRefFree(vs[1..]))
  }

  /** Following references from `v` ends at a bare string. */
  ghost predicate StringBehind(v: Value, rules: Rules, d: nat)
    decreases d
  {
    if IsRef(v) then d > 0 && RefName(v) in rules && StringBehind(rules[RefName(v)], rules, d - 1) else v.Str?
  }

  /** Somewhere within reach stands `{"ref": r}` where `r` is itself a reference to a bare string. */
  ghost predicate Hazard(v: Value, rules: Rules, d: nat)
    decreases d, v, 1
  {
    if IsRef(v) then d > 0 && RefName(v) in rules && Hazard(rules[RefName(v)], rules, d - 1)
    else
      match v
      case Arr(items) => HazardAny(items, rules, d)
      case Obj(keys, values) =>
        || (keys == ["ref"] && |values| == 1 && StringBehind(values[0], rules, d))
        || HazardAny(values, rules, d)
      case _ => false
  }

  ghost predicate HazardAny(vs: seq<Value>, rules: Rules, d: nat)
    decreases d, vs, 0
  {
    vs != [] && (Hazard(vs[0], rules, d) || HazardAny(vs[1..], rules, d))
  }

  lemma {:induction false} StringResult(v: Value, rules: Rules, d: nat)
    requires Inline(v, rules, d).Some?
    ensures Inline(v, rules, d).value.Str? <==> StringBehind(v, rules, d)
    decreases d
  {
    if IsRef(v) {
      StringResult(rules[RefName(v)], rules, d - 1);
    }
  }

  lemma {:induction false} LeftoverReferences(v: Value, rules: Rules, d: nat)
    requires Inline(v, rules, d).Some?
    ensures RefFree(Inline(v, rules, d).value) <==> !Hazard(v, rules, d)
    decreases d, v, 1
  {
    if IsRef(v) {
      LeftoverReferences(rules[RefName(v)], rules, d - 1);
    } else {
      match v
      case Arr(items) => LeftoverReferencesAll(items, rules, d);
      case Obj(keys, values) =>
        LeftoverReferencesAll(values, rules, d);
        if |keys| == |values| == 1 {
          StringResult(values[0], rules, d);
          assert keys[0] == "ref" <==> keys == ["ref"];
        }
      case _ =>
    }
  }

  lemma {:induction false} LeftoverReferencesAll(vs: seq<Value>, rules: Rules, d: nat)
    requires InlineAll(vs, rules, d).Some?
    ensures AllRefFree(InlineAll(vs, rules, d).value) <==> !HazardAny(vs, rules, d)
    decreases d, vs, 0
  {
    if vs == [] {
    } else {
      LeftoverReferences(vs[0], rules, d);
      LeftoverReferencesAll(vs[1..], rules, d);
    }
  }

  /** A resolved policy is free of references exactly when its rules hide no such reference. */
  lemma {:induction false} ResolvedIsRefFreeIff(entry: Value, rules: Rules, limit: nat)
    requires Resolve(entry, rules, limit, []).Ok?
    ensures RefFree(Resolve(entry, rules, limit, []).value) <==> !Hazard(entry, rules, limit)
  {
    ResolvedIsInlined(entry, rules, limit, []);
    LeftoverReferences(entry, rules, limit);
  }

  lemma {:induction false} NoStringBehind(v: Value, rules: Rules, d: nat)
    requires forall name :: name in rules ==> !rules[name].Str?
    requires !v.Str?
    ensures !StringBehind(v, rules, d)
    decreases d
  {
    if IsRef(v) && d > 0 && RefName(v) in rules {
      NoStringBehind(rules[RefName(v)], rules, d - 1);
    }
  }

  lemma {:induction false} NoStringRulesNoHazard(v: Value, rules: Rules, d: nat)
    requires forall name :: name in rules ==> !rules[name].Str?
    ensures !Hazard(v, rules, d)
    decreases d, v, 1
  {
    if IsRef(v) {
      if d > 0 && RefName(v) in rules {
        NoStringRulesNoHazard(rules[RefName(v)], rules, d - 1);
      }
    } else {
      match v
      case Arr(items) => NoStringRulesNoHazardAny(items, rules, d);
      case Obj(keys, values) =>
        NoStringRulesNoHazardAny(values, rules, d);
        if keys == ["ref"] && |values| == 1 {
          NoStringBehind(values[0], rules, d);
        }
      case _ =>
    }
  }

  lemma {:induction false} NoStringRulesNoHazardAny(vs: seq<Value>, rules: Rules, d: nat)
    requires forall name :: name in rules ==> !rules[name].Str?
    ensures !HazardAny(vs, rules, d)
    decreases d, vs, 0
  {
    if vs == [] {
    } else {
      NoStringRulesNoHazard(vs[0], rules, d);
      NoStringRulesNoHazardAny(vs[1..], rules, d);
    }
  }

  /** The condition an author can check at a glance: no rule body is a bare string. */
  lemma ResolvedIsRefFree(entry: Value, rules: Rules, limit: nat)
    requires Resolve(entry, rules, limit, []).Ok?
    requires forall name :: name in rules ==> !rules[name].Str?
    ensures RefFree(Resolve(entry, rules, limit, []).value)
  {
    ResolvedIsRefFreeIff(entry, rules, limit);
    NoStringRulesNoHazard(entry, rules, limit);
  }

  /** Without that condition a resolved policy can still contain a reference. */
  lemma BareStringRuleLeavesReference(limit: nat)
    requires limit >= 1
    ensures
      var inner := Obj(["ref"], [Str("x")]);
      var r := Resolve(Obj(["ref"], [inner]), map["x" := Str("y")], limit, []);
      r == Ok(Obj(["ref"], [Str("y")])) && !RefFree(r.value)
  {
    var rules: Rules := map["x" := Str("y")];
    var inner := Obj(["ref"], [Str("x")]);
    assert Resolve(inner, rules, limit, []) == Ok(Str("y"));
    assert ResolveAll([inner][1..], rules, limit, []) == Ok([]);
    var y: seq<Value> := [Str("y")];
    assert y + [] == y;
    assert ResolveAll([inner], rules, limit, []) == Ok(y);
  }
}
