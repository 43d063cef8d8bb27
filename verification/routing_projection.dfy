/** Compiling policy expressions into a routing policy through a mutable accumulator. */
module RoutingProjection {
  import opened Common
  import opened Json
  import opened RoutingPolicies

  datatype ProjectionError = UnsupportedPolicy | EmptyPolicy

  /** What one supported comparison asks of a candidate. */
  datatype Atom =
    | RegionIn(regions: set<string>)
    | NotRemote
    | NoRetention
    | Encrypted
    | ManifestPresent
    | IdentityAtLeast(level: Level)

  // ---------------------------------------------------------------- reading comparisons

  function TrimStart(s: string): string {
    if s != "" && WhiteSpace(s[0]) then TrimStart(s[1..]) else s
  }

  function TrimEnd(s: string): string {
    if s != "" && WhiteSpace(s[|s| - 1]) then TrimEnd(s[..|s| - 1]) else s
  }

  function Trim(s: string): string {
    TrimEnd(TrimStart(s))
  }

  function RegionValue(v: Value): Option<string> {
    if v.Str? && 0 < |Trim(v.s)| <= 64 then Some(Lower(Trim(v.s))) else None
  }

  function RegionValues(vs: seq<Value>): Option<set<string>> {
    if vs == [] then Some({})
    else
      var head, tail := RegionValue(vs[0]), RegionValues(vs[1..]);
      if head.Some? && tail.Some? then Some({head.value} + tail.value) else None
  }

  function LevelOf(text: string): Level {
    match text
    case "signed_valid" => SignedValid
    case "operator_bound" => OperatorBound
    case "known_operator" => KnownOperator
    case _ => Unrecognized(text)
  }

  function EqAtom(arguments: seq<Value>): Option<Atom> {
    if |arguments| != 2 || !arguments[0].Str? then None
    else
      var expected := arguments[1];
      match arguments[0].s
      case "region" =>
        var region := RegionValue(expected);
        if region.Some? then Some(RegionIn({region.value})) else None
      case "remote_execution" => if expected == Bool(false) then Some(NotRemote) else None
      case "retention_mode" => if expected == Str("none") then Some(NoRetention) else None
      case "encryption_available" => if expected == Bool(true) then Some(Encrypted) else None
      case "policy_manifest_present" => if expected == Bool(true) then Some(ManifestPresent) else None
      case "manifest_identity_level" =>
        if expected.Str? && Rank(LevelOf(expected.s)).Some? then Some(IdentityAtLeast(LevelOf(expected.s))) else None
      case _ => None
  }

  function InAtom(arguments: seq<Value>): Option<Atom> {
    if |arguments| != 2 || arguments[0] != Str("region") || !arguments[1].Arr? then None
    else if |arguments[1].items| == 0 || |arguments[1].items| > 64 then None
    else
      var regions := RegionValues(arguments[1].items);
      if regions.Some? then Some(RegionIn(regions.value)) else None
  }

  // ---------------------------------------------------------------- the accumulator

  datatype Acc = Acc(
    regions: Option<set<string>>,
    encryption: bool,
    manifest: bool,
    noRetention: bool,
    remote: bool,
    identity: Option<Level>,
    rules: nat,
    denyAll: bool)

  const INITIAL := Acc(None, false, false, false, true, None, 0, false)

  function WithRegions(acc: Acc, regions: set<string>): Acc {
    var next := if acc.regions.None? then regions else acc.regions.value * regions;
    acc.(regions := Some(next), denyAll := acc.denyAll || next == {})
  }

  function WithIdentity(acc: Acc, level: Level): Acc {
    var raise := acc.identity.None? || Rank(acc.identity.value).None?
                 || (Rank(level).Some? && Rank(level).value > Rank(acc.identity.value).value);
    acc.(identity := if raise then Some(level) else acc.identity, manifest := true)
  }

  function Absorb(acc: Acc, atom: Atom): Acc {
    var counted := acc.(rules := acc.rules + 1);
    match atom
    case RegionIn(regions) => WithRegions(counted, regions)
    case NotRemote => counted.(remote := false)
    case NoRetention => counted.(noRetention := true)
    case Encrypted => counted.(encryption := true)
    case ManifestPresent => counted.(manifest := true)
    case IdentityAtLeast(level) => WithIdentity(counted, level)
  }

  function AbsorbOption(acc: Acc, atom: Option<Atom>): Result<Acc, ProjectionError> {
    if atom.Some? then Ok(Absorb(acc, atom.value)) else Err(UnsupportedPolicy)
  }

  /** Projection of one expression onto an accumulator. */
  function Project(e: Value, acc: Acc): Result<Acc, ProjectionError>
    decreases Nodes(e), 0
  {
    if !e.Obj? || |e.keys| != 1 then Err(UnsupportedPolicy)
    else if GetArray(e, "all").Some? then
      var items := GetArray(e, "all").value;
      if items == [] then Err(EmptyPolicy) else ProjectAll(items, acc)
    else if GetArray(e, "eq").Some? then AbsorbOption(acc, EqAtom(GetArray(e, "eq").value))
    else if GetArray(e, "in").Some? then AbsorbOption(acc, InAtom(GetArray(e, "in").value))
    else Err(UnsupportedPolicy)
  }

  function ProjectAll(items: seq<Value>, acc: Acc): Result<Acc, ProjectionError>
    decreases NodesAll(items), 1
  {
    if items == [] then Ok(acc)
    else
      var next :- Project(items[0], acc);
      ProjectAll(items[1..], next)
  }

  class Accumulator {
    var regions: Option<set<string>>
    var encryption: bool
    var manifest: bool
    var noRetention: bool
    var remote: bool
    var identity: Option<Level>
    var rules: nat
    var denyAll: bool

    function View(): Acc
      reads this
    {
      Acc(regions, encryption, manifest, noRetention, remote, identity, rules, denyAll)
    }

    constructor ()
      ensures View() == INITIAL
    {
      regions, identity := None, None;
      encryption, manifest, noRetention, remote, denyAll := false, false, false, true, false;
      rules := 0;
    }

    method ApplyRegions(next: set<string>)
      modifies this
      ensures View() == WithRegions(old(View()), next)
    {
      var remaining := next;
      if regions.Some? {
        remaining := regions.value * next;
      }
      if remaining == {} {
        denyAll := true;
      }
      regions := Some(remaining);
    }

    method ApplyIdentity(text: string) returns (ok: bool)
      modifies this
      ensures ok <==> Rank(LevelOf(text)).Some?
      ensures ok ==> View() == WithIdentity(old(View()), LevelOf(text))
    {
      var level := LevelOf(text);
      if Rank(level).None? {
        return false;
      }
      if identity.None? || Rank(identity.value).None? || Rank(level).value > Rank(identity.value).value {
        identity := Some(level);
      }
      manifest := true;
      return true;
    }

    method ProjectEq(arguments: seq<Value>) returns (ok: bool)
      modifies this
      ensures ok <==> EqAtom(arguments).Some?
      ensures ok ==> View() == Absorb(old(View()), EqAtom(arguments).value)
    {
      if |arguments| != 2 || !arguments[0].Str? {
        return false;
      }
      rules := rules + 1;
      var fact, expected := arguments[0].s, arguments[1];
      ok := true;
      if fact == "region" {
        var region := RegionValue(expected);
        if region.None? {
          return false;
        }
        ApplyRegions({region.value});
      } else if fact == "remote_execution" && expected == Bool(false) {
        remote := false;
      } else if fact == "retention_mode" && expected == Str("none") {
        noRetention := true;
      } else if fact == "encryption_available" && expected == Bool(true) {
        encryption := true;
      } else if fact == "policy_manifest_present" && expected == Bool(true) {
        manifest := true;
      } else if fact == "manifest_identity_level" && expected.Str? {
        ok := ApplyIdentity(expected.s);
      } else {
        return false;
      }
    }

    method ProjectIn(arguments: seq<Value>) returns (ok: bool)
      modifies this
      ensures ok <==> InAtom(arguments).Some?
      ensures ok ==> View() == Absorb(old(View()), InAtom(arguments).value)
    {
      if |arguments| != 2 || arguments[0] != Str("region") || !arguments[1].Arr? {
        return false;
      }
      var values := arguments[1].items;
      if |values| == 0 || |values| > 64 {
        return false;
      }
      var collected: set<string> := {};
      for k := 0 to |values|
        invariant RegionValues(values).Some? <==> RegionValues(values[k..]).Some?
        invariant RegionValues(values).Some? ==>
                  RegionValues(values).value == collected + RegionValues(values[k..]).value
      {
        assert values[k..][0] == values[k] && values[k..][1..] == values[k + 1..];
        var region := RegionValue(values[k]);
        if region.None? {
          return false;
        }
        collected := collected + {region.value};
      }
      rules := rules + 1;
      ApplyRegions(collected);
      return true;
    }

    method ProjectExpression(e: Value) returns (error: Option<ProjectionError>)
      modifies this
      ensures error == (match Project(e, old(View())) case Ok(_) => None case Err(x) => Some(x))
      ensures error.None? ==> View() == Project(e, old(View())).value
      decreases Nodes(e)
    {
      if !e.Obj? || |e.keys| != 1 {
        return Some(UnsupportedPolicy);
      }
      var all := GetArray(e, "all");
      if all.Some? {
        var items := all.value;
        if items == [] {
          return Some(EmptyPolicy);
        }
        for k := 0 to |items|
          invariant ProjectAll(items[k..], View()) == Project(e, old(View()))
        {
          NodesAllAt(items, k);
          assert items[k..][0] == items[k] && items[k..][1..] == items[k + 1..];
          error := ProjectExpression(items[k]);
          if error.Some? {
            return;
          }
        }
        return None;
      }
      var eq := GetArray(e, "eq");
      if eq.Some? {
        var ok := ProjectEq(eq.value);
        return if ok then None else Some(UnsupportedPolicy);
      }
      var isIn := GetArray(e, "in");
      if isIn.Some? {
        var ok := ProjectIn(isIn.value);
        return if ok then None else Some(UnsupportedPolicy);
      }
      return Some(UnsupportedPolicy);
    }
  }

  // ---------------------------------------------------------------- atoms, independent of nesting

  /** The comparisons of a supported expression, from left to right, whatever the nesting of `all`. */
  function Atoms(e: Value): Option<seq<Atom>>
    decreases Nodes(e), 0
  {
    if !e.Obj? || |e.keys| != 1 then None
    else if GetArray(e, "all").Some? then
      var items := GetArray(e, "all").value;
      if items == [] then None else AtomsAll(items)
    else
      var atom := if GetArray(e, "eq").Some? then EqAtom(GetArray(e, "eq").value)
                  else if GetArray(e, "in").Some? then InAtom(GetArray(e, "in").value)
                  else None;
      if atom.Some? then Some([atom.value]) else None
  }

  function AtomsAll(items: seq<Value>): Option<seq<Atom>>
    decreases NodesAll(items), 1
  {
    if items == [] then Some([])
    else
      var head, tail := Atoms(items[0]), AtomsAll(items[1..]);
      if head.Some? && tail.Some? then Some(head.value + tail.value) else None
  }

  function AbsorbAll(acc: Acc, atoms: seq<Atom>): Acc
    decreases |atoms|
  {
    if atoms == [] then acc else AbsorbAll(Absorb(acc, atoms[0]), atoms[1..])
  }

  lemma {:induction false} AbsorbAppend(acc: Acc, first: seq<Atom>, second: seq<Atom>)
    ensures AbsorbAll(acc, first + second) == AbsorbAll(AbsorbAll(acc, first), second)
    decreases |first|
  {
    if first == [] {
      assert first + second == second;
    } else {
      assert (first + second)[0] == first[0] && (first + second)[1..] == first[1..] + second;
      AbsorbAppend(Absorb(acc, first[0]), first[1..], second);
    }
  }

  /** Projection succeeds exactly on expressions made of supported atoms, and then absorbs them in order. */
  lemma {:induction false} ProjectionAbsorbsAtoms(e: Value, acc: Acc)
    ensures Project(e, acc).Ok? <==> Atoms(e).Some?
    ensures Atoms(e).Some? ==> Project(e, acc) == Ok(AbsorbAll(acc, Atoms(e).value))
    decreases Nodes(e), 0
  {
    if e.Obj? && |e.keys| == 1 {
      if GetArray(e, "all").Some? {
        ProjectionAbsorbsAllAtoms(GetArray(e, "all").value, acc);
      } else if Atoms(e).Some? {
        var atom := Atoms(e).value[0];
        assert [atom][1..] == [];
        assert AbsorbAll(Absorb(acc, atom), []) == Absorb(acc, atom);
      }
    }
  }

  lemma {:induction false} ProjectionAbsorbsAllAtoms(items: seq<Value>, acc: Acc)
    ensures ProjectAll(items, acc).Ok? <==> AtomsAll(items).Some?
    ensures AtomsAll(items).Some? ==> ProjectAll(items, acc) == Ok(AbsorbAll(acc, AtomsAll(items).value))
    decreases NodesAll(items), 1
  {
    if items == [] {
    } else {
      ProjectionAbsorbsAtoms(items[0], acc);
      if Atoms(items[0]).Some? {
        var next := AbsorbAll(acc, Atoms(items[0]).value);
        ProjectionAbsorbsAllAtoms(items[1..], next);
        if AtomsAll(items[1..]).Some? {
          AbsorbAppend(acc, Atoms(items[0]).value, AtomsAll(items[1..]).value);
        }
      }
    }
  }

  // ---------------------------------------------------------------- meaning of the result

  function PolicyOf(acc: Acc): RoutingPolicy {
    RoutingPolicy(
      if acc.regions.Some? then acc.regions.value else {},
      acc.encryption, acc.manifest, acc.noRetention, acc.remote,
      acc.identity == Some(KnownOperator), acc.identity)
  }

  /** A candidate passes when the policy admits it and nothing has set the deny flag. */
  ghost predicate Passes(acc: Acc, c: Candidate) {
    !acc.denyAll && Admits(PolicyOf(acc), c)
  }

  ghost predicate Satisfies(c: Candidate, atom: Atom) {
    match atom
    case RegionIn(regions) => Lower(c.region) in regions
    case NotRemote => !c.remote
    case NoRetention => c.noRetention
    case Encrypted => c.encrypted
    case ManifestPresent => c.manifest
    case IdentityAtLeast(level) => c.manifest && Meets(c, level)
  }

  ghost predicate LowerCased(regions: set<string>) {
    forall region :: region in regions ==> Lower(region) == region
  }

  /** The deny flag says exactly that the region constraints contradict each other. */
  ghost predicate Consistent(acc: Acc) {
    && (acc.denyAll <==> acc.regions == Some({}))
    && (acc.regions.Some? ==> LowerCased(acc.regions.value))
    && (acc.identity.Some? ==> acc.manifest && Rank(acc.identity.value).Some?)
  }

  ghost predicate GoodAtom(atom: Atom) {
    match atom
    case RegionIn(regions) => LowerCased(regions)
    case IdentityAtLeast(level) => Rank(level).Some?
    case _ => true
  }

  lemma {:induction false} LowerCasedRegions(vs: seq<Value>)
    ensures RegionValues(vs).Some? ==> LowerCased(RegionValues(vs).value)
  {
    if vs == [] {
    } else {
      LowerCasedRegions(vs[1..]);
      if vs[0].Str? {
        LowerIdempotent(Trim(vs[0].s));
      }
    }
  }

  lemma {:induction false} AtomsAreGood(e: Value)
    requires Atoms(e).Some?
    ensures forall atom :: atom in Atoms(e).value ==> GoodAtom(atom)
    decreases Nodes(e), 0
  {
    if GetArray(e, "all").Some? {
      AllAtomsAreGood(GetArray(e, "all").value);
    } else if GetArray(e, "eq").Some? {
      var arguments := GetArray(e, "eq").value;
      if arguments[1].Str? {
        LowerIdempotent(Trim(arguments[1].s));
      }
    } else {
      LowerCasedRegions(GetArray(e, "in").value[1].items);
    }
  }

  lemma {:induction false} AllAtomsAreGood(items: seq<Value>)
    requires AtomsAll(items).Some?
    ensures forall atom :: atom in AtomsAll(items).value ==> GoodAtom(atom)
    decreases NodesAll(items), 1
  {
    if items == [] {
    } else {
      AtomsAreGood(items[0]);
      AllAtomsAreGood(items[1..]);
    }
  }

  lemma {:induction false} LowerCasedIsOwnImage(regions: set<string>)
    requires LowerCased(regions)
    ensures LowerAll(regions) == regions
  {
    forall region | region in regions ensures region in LowerAll(regions) {
      assert Lower(region) == region;
    }
  }

  lemma {:induction false} AbsorbStaysConsistent(acc: Acc, atom: Atom)
    requires Consistent(acc) && GoodAtom(atom)
    ensures Consistent(Absorb(acc, atom))
  {
    if atom.RegionIn? && acc.denyAll {
      assert {} * atom.regions == {};
    }
  }

  /** Region constraints meet; a contradiction denies every region instead of admitting all of them. */
  lemma {:induction false} RegionsMeet(acc: Acc, regions: set<string>, c: Candidate)
    requires Consistent(acc) && LowerCased(regions)
    ensures
      var next := WithRegions(acc, regions);
      (!next.denyAll && RegionAdmitted(PolicyOf(next), c)) <==>
      (!acc.denyAll && RegionAdmitted(PolicyOf(acc), c) && Lower(c.region) in regions)
  {
    AbsorbStaysConsistent(acc, RegionIn(regions));
    var next := WithRegions(acc, regions);
    LowerCasedIsOwnImage(next.regions.value);
    var low := Lower(c.region);
    if acc.regions.Some? {
      LowerCasedIsOwnImage(acc.regions.value);
      assert low in next.regions.value <==> low in acc.regions.value && low in regions;
      assert !acc.denyAll ==> (RegionAdmitted(PolicyOf(acc), c) <==> low in acc.regions.value);
    }
    assert !next.denyAll ==> (RegionAdmitted(PolicyOf(next), c) <==> low in next.regions.value);
  }

  lemma {:induction false} RegionAtomMeans(acc: Acc, regions: set<string>, c: Candidate)
    requires Consistent(acc) && LowerCased(regions)
    ensures Passes(Absorb(acc, RegionIn(regions)), c) <==> Passes(acc, c) && Satisfies(c, RegionIn(regions))
  {
    RegionsMeet(acc.(rules := acc.rules + 1), regions, c);
    assert Demands(PolicyOf(Absorb(acc, RegionIn(regions)))) == Demands(PolicyOf(acc));
  }

  /** The projected policy demands the one level the accumulator has reached. */
  lemma {:induction false} PolicyDemands(acc: Acc, c: Candidate)
    ensures MeetsAll(c, Demands(PolicyOf(acc))) <==> (acc.identity.Some? ==> Meets(c, acc.identity.value))
  {
    var demands := Demands(PolicyOf(acc));
    assert acc.identity.Some? ==> acc.identity.value in demands;
    assert forall level :: level in demands ==> acc.identity == Some(level);
  }

  lemma {:induction false} IdentityAtomMeans(acc: Acc, level: Level, c: Candidate)
    requires Consistent(acc) && Rank(level).Some?
    ensures Passes(Absorb(acc, IdentityAtLeast(level)), c) <==> Passes(acc, c) && Satisfies(c, IdentityAtLeast(level))
  {
    var next := Absorb(acc, IdentityAtLeast(level));
    PolicyDemands(acc, c);
    PolicyDemands(next, c);
    assert RegionAdmitted(PolicyOf(next), c) <==> RegionAdmitted(PolicyOf(acc), c);
  }

  lemma {:induction false} OtherAtomMeans(acc: Acc, atom: Atom, c: Candidate)
    requires Consistent(acc) && GoodAtom(atom) && !atom.RegionIn? && !atom.IdentityAtLeast?
    ensures Passes(Absorb(acc, atom), c) <==> Passes(acc, c) && Satisfies(c, atom)
  {
    assert RegionAdmitted(PolicyOf(Absorb(acc, atom)), c) <==> RegionAdmitted(PolicyOf(acc), c);
    assert Demands(PolicyOf(Absorb(acc, atom))) == Demands(PolicyOf(acc));
  }

  lemma {:induction false} AbsorbMeans(acc: Acc, atom: Atom, c: Candidate)
    requires Consistent(acc) && GoodAtom(atom)
    ensures Passes(Absorb(acc, atom), c) <==> Passes(acc, c) && Satisfies(c, atom)
  {
    if atom.RegionIn? {
      RegionAtomMeans(acc, atom.regions, c);
    } else if atom.IdentityAtLeast? {
      IdentityAtomMeans(acc, atom.level, c);
    } else {
      OtherAtomMeans(acc, atom, c);
    }
  }

  lemma {:induction false} AbsorbAllMeans(acc: Acc, atoms: seq<Atom>, c: Candidate)
    requires Consistent(acc) && forall atom :: atom in atoms ==> GoodAtom(atom)
    ensures Consistent(AbsorbAll(acc, atoms))
    ensures Passes(AbsorbAll(acc, atoms), c) <==> Passes(acc, c) && forall atom :: atom in atoms ==> Satisfies(c, atom)
    decreases |atoms|
  {
    if atoms == [] {
    } else {
      AbsorbStaysConsistent(acc, atoms[0]);
      AbsorbMeans(acc, atoms[0], c);
      AbsorbAllMeans(Absorb(acc, atoms[0]), atoms[1..], c);
      assert atoms == [atoms[0]] + atoms[1..];
    }
  }

  /**
   Projection keeps the meaning of the policy: a candidate passes the new accumulator exactly
   when it passed the old one and satisfies every comparison of the expression.
   */
  lemma {:induction false} ProjectionPreservesMeaning(e: Value, acc: Acc, c: Candidate)
    requires Consistent(acc) && Project(e, acc).Ok?
    ensures Atoms(e).Some? && Consistent(Project(e, acc).value)
    ensures Passes(Project(e, acc).value, c) <==>
            Passes(acc, c) && forall atom :: atom in Atoms(e).value ==> Satisfies(c, atom)
  {
    ProjectionAbsorbsAtoms(e, acc);
    AtomsAreGood(e);
    AbsorbAllMeans(acc, Atoms(e).value, c);
  }

  // ---------------------------------------------------------------- order and nesting do not matter

  lemma {:induction false} RegionsCommute(acc: Acc, a: set<string>, b: set<string>)
    ensures WithRegions(WithRegions(acc, a), b) == WithRegions(WithRegions(acc, b), a)
  {
    assert a * b == b * a;
    if acc.regions.Some? {
      assert (acc.regions.value * a) * b == (acc.regions.value * b) * a;
    }
  }

  lemma {:induction false} LevelsCommute(acc: Acc, a: Level, b: Level)
    requires Rank(a).Some? && Rank(b).Some?
    requires acc.identity.Some? ==> Rank(acc.identity.value).Some?
    ensures WithIdentity(WithIdentity(acc, a), b) == WithIdentity(WithIdentity(acc, b), a)
  {
  }

  /** An atom that only switches a flag commutes with every other. */
  lemma {:induction false} FlagCommutes(acc: Acc, flag: Atom, b: Atom)
    requires !flag.RegionIn? && !flag.IdentityAtLeast?
    ensures Absorb(Absorb(acc, flag), b) == Absorb(Absorb(acc, b), flag)
  {
    match flag {
      case NotRemote =>
      case NoRetention =>
      case Encrypted =>
      case ManifestPresent =>
    }
  }

  lemma {:induction false} RegionAndLevelCommute(acc: Acc, regions: set<string>, level: Level)
    ensures WithIdentity(WithRegions(acc, regions), level) == WithRegions(WithIdentity(acc, level), regions)
  {
  }

  /** Counting first or last makes no difference. */
  lemma {:induction false} AbsorbCounted(acc: Acc, a: Atom, b: Atom)
    requires (a.RegionIn? || a.IdentityAtLeast?) && (b.RegionIn? || b.IdentityAtLeast?)
    ensures
      var counted := acc.(rules := acc.rules + 2);
      Absorb(Absorb(acc, a), b) ==
      if a.RegionIn? then
        if b.RegionIn? then WithRegions(WithRegions(counted, a.regions), b.regions)
        else WithIdentity(WithRegions(counted, a.regions), b.level)
      else if b.RegionIn? then WithRegions(WithIdentity(counted, a.level), b.regions)
      else WithIdentity(WithIdentity(counted, a.level), b.level)
  {
  }

  lemma {:induction false} AbsorbCommutes(acc: Acc, a: Atom, b: Atom)
    requires Consistent(acc) && GoodAtom(a) && GoodAtom(b)
    ensures Absorb(Absorb(acc, a), b) == Absorb(Absorb(acc, b), a)
  {
    var counted := acc.(rules := acc.rules + 2);
    if !a.RegionIn? && !a.IdentityAtLeast? {
      FlagCommutes(acc, a, b);
    } else if !b.RegionIn? && !b.IdentityAtLeast? {
      FlagCommutes(acc, b, a);
    } else {
      AbsorbCounted(acc, a, b);
      AbsorbCounted(acc, b, a);
      if a.RegionIn? && b.RegionIn? {
        RegionsCommute(counted, a.regions, b.regions);
      } else if a.RegionIn? {
        RegionAndLevelCommute(counted, a.regions, b.level);
      } else if b.RegionIn? {
        RegionAndLevelCommute(counted, b.regions, a.level);
      } else {
        LevelsCommute(counted, a.level, b.level);
      }
    }
  }

  /** Any atom may be absorbed first. */
  lemma {:induction false} PullToFront(acc: Acc, atoms: seq<Atom>, i: nat)
    requires Consistent(acc) && i < |atoms| && forall atom :: atom in atoms ==> GoodAtom(atom)
    ensures AbsorbAll(acc, atoms) == AbsorbAll(Absorb(acc, atoms[i]), atoms[..i] + atoms[i + 1..])
    decreases i
  {
    if i == 0 {
      assert atoms[..0] + atoms[1..] == atoms[1..];
    } else {
      var rest := atoms[1..];
      AbsorbStaysConsistent(acc, atoms[0]);
      PullToFront(Absorb(acc, atoms[0]), rest, i - 1);
      AbsorbCommutes(acc, atoms[0], atoms[i]);
      var without := atoms[..i] + atoms[i + 1..];
      assert without[0] == atoms[0] && without[1..] == rest[..i - 1] + rest[i..];
    }
  }

  lemma {:induction false} AbsorbIgnoresOrder(acc: Acc, first: seq<Atom>, second: seq<Atom>)
    requires Consistent(acc) && multiset(first) == multiset(second)
    requires forall atom :: atom in first ==> GoodAtom(atom)
    ensures AbsorbAll(acc, first) == AbsorbAll(acc, second)
    decreases |first|
  {
    assert |first| == |multiset(first)| && |second| == |multiset(second)|;
    if first == [] {
    } else {
      assert first[0] in multiset(second);
      var i :| 0 <= i < |second| && second[i] == first[0];
      var rest := second[..i] + second[i + 1..];
      assert second == second[..i] + [second[i]] + second[i + 1..];
      assert first == [first[0]] + first[1..];
      assert multiset(rest) == multiset(second) - multiset{first[0]};
      assert multiset(first[1..]) == multiset(first) - multiset{first[0]};
      forall atom | atom in second ensures GoodAtom(atom) {
        assert atom in multiset(second);
      }
      PullToFront(acc, second, i);
      AbsorbStaysConsistent(acc, first[0]);
      AbsorbIgnoresOrder(Absorb(acc, first[0]), first[1..], rest);
    }
  }

  /** Two expressions with the same comparisons, in any order and nesting, project to the same accumulator. */
  lemma {:induction false} ProjectionIgnoresOrderAndNesting(e: Value, f: Value, acc: Acc)
    requires Consistent(acc) && Atoms(e).Some? && Atoms(f).Some?
    requires multiset(Atoms(e).value) == multiset(Atoms(f).value)
    ensures Project(e, acc) == Project(f, acc)
  {
    ProjectionAbsorbsAtoms(e, acc);
    ProjectionAbsorbsAtoms(f, acc);
    AtomsAreGood(e);
    AbsorbIgnoresOrder(acc, Atoms(e).value, Atoms(f).value);
  }
}
