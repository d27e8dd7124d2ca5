// The design-space generator as an object, and what its covering mode means for
// the manifest of a run.
module Generator {
  import opened Covering
  import opened DesignModels
  import opened Enumeration
  import opened Ledger
  import opened Manifest
  import opened Options
  import opened Ordering
  import opened Repair
  import opened RepairConverges

  const BANDWIDTH_AXIS: string := "bandwidth_gbps"

  // The scenario's declared bandwidth, as a constraint on every combination.
  function BandwidthPin(v: Value): Constraint {
    Constraint("scenario_bandwidth_match", [], [Rule(BANDWIDTH_AXIS, [v])], [], "scenario_bandwidth_match")
  }

  predicate ByName(a: AxisSpec, b: AxisSpec) {
    StringLess(a.name, b.name)
  }

  // A combination meets the pin exactly with the declared bandwidth; one that does
  // not is complained about under the axis itself.
  lemma PinExactly(v: Value, combo: Combo)
    ensures IsValid([BandwidthPin(v)], combo) <==> Get(combo, "bandwidth_gbps") == v
    ensures Get(combo, "bandwidth_gbps") != v ==>
              Check([BandwidthPin(v)], combo) ==
              Some(Exclusion("bandwidth_gbps", Get(combo, "bandwidth_gbps"), "scenario_bandwidth_match",
                             "scenario_bandwidth_match"))
  {
    var pin := BandwidthPin(v);
    var rule := pin.require[0];
    assert IsValid([pin], combo) <==> Accepts([pin][0], combo);
    assert pin.require[..0] == [];
    assert Violations(pin.require, combo) == if Satisfies(rule, combo) then [] else [rule];
  }

  // The axes come in ascending order of names.
  lemma AxesAscend(axes: seq<AxisSpec>, i: nat, j: nat)
    requires i < j < |SortBy(ByName, axes)|
    ensures !StringLess(SortBy(ByName, axes)[j].name, SortBy(ByName, axes)[i].name)
  {
    hide StringLess;
    StringLessIsStrictTotal();
    assert StrictWeak(ByName);
    SortBySorts(ByName, axes);
  }

  class DesignSpace {
    const space: Space

    // Axes sorted by name; the scenario's bandwidth pinned if there is such an axis.
    constructor (axes: seq<AxisSpec>, constraints: seq<Constraint>, defaults: Combo, engines: seq<Value>,
                 bandwidth: Option<Value>)
      ensures space == Space(SortBy(ByName, axes),
                             if bandwidth.Some? && HasAxis(axes, BANDWIDTH_AXIS)
                               then constraints + [BandwidthPin(bandwidth.value)]
                             else constraints,
                             defaults, engines)
    {
      var all := constraints;
      if bandwidth.Some? && HasAxis(axes, BANDWIDTH_AXIS) {
        all := all + [BandwidthPin(bandwidth.value)];
      }
      space := Space(SortBy(ByName, axes), all, defaults, engines);
    }

    // Fixes the require rules that a matching constraint finds broken; not ok
    // when that means to assign an unbound axis.
    method VisitConstraint(c: Constraint, p: Progress) returns (ok: bool, q: Progress)
      ensures ok <==> Visit(c, p).combo.Keys == p.combo.Keys
      ensures ok ==> q == Visit(c, p)
    {
      hide Matches;
      q := p;
      if Matches(c, p.combo) {
        var broken := Violations(c.require, p.combo);
        for i := 0 to |broken|
          invariant q == FixAll(broken[..i], c, p) && q.combo.Keys == p.combo.Keys
        {
          assert broken[..i + 1][..i] == broken[..i];
          var rule := broken[i];
          assert rule in broken;
          if rule.allowed != [] {
            var value := rule.allowed[0];
            if rule.axis !in q.combo {
              FixBinds(rule, c, q);
              FixAllBinds(broken, i + 1, c, p);
              return false, q;
            }
            if q.combo[rule.axis] != value {
              q := Progress(q.combo[rule.axis := value], q.changes + [Change(rule.axis, q.combo[rule.axis], value, c)]);
            }
          }
        }
        assert broken[..|broken|] == broken;
      }
      return true, q;
    }

    // One round over all constraints.
    method SweepOnce(start: Progress) returns (ok: bool, p: Progress, changed: bool)
      ensures ok <==> Sweep(space.constraints, start).combo.Keys == start.combo.Keys
      ensures ok ==> p == Sweep(space.constraints, start) && (changed <==> |p.changes| != |start.changes|)
    {
      hide Visit, Replays;
      var cs := space.constraints;
      p, changed := start, false;
      for i := 0 to |cs|
        invariant p == Sweep(cs[..i], start) && p.combo.Keys == start.combo.Keys && |start.changes| <= |p.changes|
        invariant changed <==> |p.changes| != |start.changes|
      {
        assert cs[..i + 1][..i] == cs[..i];
        VisitExtends(cs[i], p, start.combo);
        var q;
        ok, q := VisitConstraint(cs[i], p);
        if !ok {
          SweepBinds(cs, i + 1, start);
          return;
        }
        if |q.changes| != |p.changes| {
          changed := true;
        }
        p := q;
      }
      assert cs[..|cs|] == cs;
      ok := true;
    }

    // Raises, here `!ok`, exactly when the repair meets an unbound axis.
    method RepairCombo(combo: Combo) returns (ok: bool, p: Progress)
      ensures ok <==> Unraised(space.constraints, combo)
      ensures ok ==> p == Repaired(space.constraints, combo)
    {
      hide Sweep, Replays;
      var cs := space.constraints;
      p := Progress(combo, []);
      var rounds, changed := 0, true;
      while rounds < MAX_ROUNDS && changed
        invariant rounds <= MAX_ROUNDS && combo.Keys == p.combo.Keys
        invariant Repaired(cs, combo) == if changed then Rounds(cs, p, MAX_ROUNDS - rounds) else p
      {
        var q;
        RoundsExtend(cs, Sweep(cs, p), MAX_ROUNDS - rounds - 1, combo);
        SweepExtends(cs, p, combo);
        ok, q, changed := SweepOnce(p);
        if !ok {
          return;
        }
        p := q;
        rounds := rounds + 1;
      }
      ok := true;
    }

    method CheckValid(combo: Combo) returns (ok: bool)
      ensures ok <==> IsValid(space.constraints, combo)
    {
      hide Matches, Excludes;
      var cs := space.constraints;
      for i := 0 to |cs|
        invariant forall k :: 0 <= k < i ==> Accepts(cs[k], combo)
      {
        if Matches(cs[i], combo) {
          if Violations(cs[i].require, combo) != [] {
            return false;
          }
          if Excludes(cs[i], combo) {
            return false;
          }
        }
      }
      return true;
    }

    method Explain(combo: Combo) returns (e: Option<Exclusion>)
      ensures e == Check(space.constraints, combo)
      ensures e.None? <==> IsValid(space.constraints, combo)
    {
      hide Matches, Excludes, Violations, IsValid;
      var cs := space.constraints;
      CheckAgrees(cs, combo);
      for i := 0 to |cs|
        invariant Check(cs, combo) == Check(cs[i..], combo)
      {
        assert cs[i..][0] == cs[i] && cs[i..][1..] == cs[i + 1..];
        if Matches(cs[i], combo) {
          var violations := Violations(cs[i].require, combo);
          if violations != [] {
            return Some(ExclusionAt(violations[0].axis, combo, cs[i]));
          }
          if Excludes(cs[i], combo) {
            return Some(ExclusionAt(if cs[i].when == [] then "" else cs[i].when[0].axis, combo, cs[i]));
          }
        }
      }
      return None;
    }

    method FullCombinations() returns (valid: seq<Combo>, exclusions: seq<Exclusion>)
      ensures valid == ValidOnes(space.constraints, Product(space.axes))
      ensures exclusions == Problems(space.constraints, Product(space.axes))
    {
      hide IsValid, Check, Product;
      var combos := Product(space.axes);
      valid, exclusions := [], [];
      for i := 0 to |combos|
        invariant valid == ValidOnes(space.constraints, combos[..i])
                  && exclusions == Problems(space.constraints, combos[..i])
      {
        assert combos[..i + 1][..i] == combos[..i];
        var e := Explain(combos[i]);
        match e {
          case None => valid := valid + [combos[i]];
          case Some(exclusion) => exclusions := exclusions + [exclusion];
        }
      }
      assert combos[..|combos|] == combos;
    }

    method FindRepairExclusion(axis: string, value: Value, changes: seq<Change>) returns (found: seq<Exclusion>)
      ensures found == RepairExclusion(axis, value, changes)
    {
      for i := 0 to |changes|
        invariant RepairExclusion(axis, value, changes) == RepairExclusion(axis, value, changes[i..])
      {
        assert changes[i..][0] == changes[i] && changes[i..][1..] == changes[i + 1..];
        if changes[i].axis == axis && changes[i].original == value {
          return [Exclusion(axis, value, changes[i].cause.reason, changes[i].cause.name)];
        }
      }
      return [];
    }

    method CoverValue(axis: string, value: Value, c: Cover) returns (ok: bool, d: Cover)
      ensures ok <==> Unraised(space.constraints, space.defaults[axis := value])
      ensures ok ==> d == TryValue(space, axis, value, c)
    {
      hide IsValid, Repaired, RepairExclusion, Add, Check, Unraised;
      var p;
      d := c;
      ok, p := RepairCombo(space.defaults[axis := value]);
      if !ok {
        return;
      }
      var valid := CheckValid(p.combo);
      if valid {
        d := Cover(Add(space.axes, c.seen, p.combo), c.exclusions);
        assert c.exclusions + [] == c.exclusions;
        if Get(p.combo, axis) != value {
          var found := FindRepairExclusion(axis, value, p.changes);
          d := Cover(d.seen, d.exclusions + found);
        }
      } else {
        var e := Explain(p.combo);
        d := Cover(c.seen, c.exclusions + match e { case Some(x) => [x] case None => [] });
      }
    }

    method CoverPair(node: Value, engine: Value, c: Cover) returns (ok: bool, d: Cover)
      ensures ok <==> PairUnraised(space, node, engine)
      ensures ok ==> d == TryPair(space, node, engine, c)
    {
      hide IsValid, Repaired, Add, Check, Unraised;
      d := c;
      if engine == Get(space.defaults, "engine") {
        return true, c;
      }
      var p;
      ok, p := RepairCombo(space.defaults["process_node" := node]["engine" := engine]);
      if !ok {
        return;
      }
      var valid := CheckValid(p.combo);
      if valid {
        d := Cover(Add(space.axes, c.seen, p.combo), c.exclusions);
      } else {
        var e := Explain(p.combo);
        d := Cover(c.seen, c.exclusions + match e { case Some(x) => [x] case None => [] });
      }
    }

    // Raises exactly when some combination it repairs does.
    method CiAllAxesCombinations() returns (ok: bool, c: Cover)
      ensures ok <==> NeverRaises(space)
      ensures ok ==> c == Covered(space)
    {
      hide IsValid, Repaired, TryValue, TryPair, Unraised, PairUnraised;
      var start;
      c := Cover([], []);
      ok, start := RepairCombo(space.defaults);
      if !ok {
        return;
      }
      var valid := CheckValid(start.combo);
      c := Cover(if valid then [start.combo] else [], []);
      ghost var begun := Begun(space);
      assert c == begun;
      var axes := space.axes;
      for i := 0 to |axes|
        invariant c == TryAxes(space, axes[..i], begun)
        invariant forall k, v :: 0 <= k < i && v in axes[k].values ==>
                  Unraised(space.constraints, space.defaults[axes[k].name := v])
      {
        assert axes[..i + 1][..i] == axes[..i];
        ok, c := CoverValues(axes[i].name, axes[i].values, c);
        if !ok {
          return;
        }
      }
      assert axes[..|axes|] == axes;
      if CrossesEngines(space) {
        ok, c := CoverNodes(Covering.ValuesOf(axes, "process_node"), c);
      }
    }

    method CoverValues(axis: string, values: seq<Value>, before: Cover) returns (ok: bool, c: Cover)
      ensures ok <==> forall v :: v in values ==> Unraised(space.constraints, space.defaults[axis := v])
      ensures ok ==> c == TryValues(space, axis, values, before)
    {
      hide TryValue, Unraised;
      c := before;
      for i := 0 to |values|
        invariant c == TryValues(space, axis, values[..i], before)
        invariant forall k :: 0 <= k < i ==> Unraised(space.constraints, space.defaults[axis := values[k]])
      {
        assert values[..i + 1][..i] == values[..i];
        ok, c := CoverValue(axis, values[i], c);
        if !ok {
          assert values[i] in values;
          return;
        }
      }
      assert values[..|values|] == values;
      ok := true;
    }

    method CoverNodes(nodes: seq<Value>, before: Cover) returns (ok: bool, c: Cover)
      ensures ok <==> forall n, e :: n in nodes && n != Get(space.defaults, "process_node") && e in space.engines ==>
              PairUnraised(space, n, e)
      ensures ok ==> c == TryNodes(space, nodes, before)
    {
      hide TryEngines, PairUnraised;
      c := before;
      for i := 0 to |nodes|
        invariant c == TryNodes(space, nodes[..i], before)
        invariant forall k, e :: 0 <= k < i && nodes[k] != Get(space.defaults, "process_node") && e in space.engines ==>
                    PairUnraised(space, nodes[k], e)
      {
        assert nodes[..i + 1][..i] == nodes[..i];
        if nodes[i] != Get(space.defaults, "process_node") {
          ok, c := CoverEngines(nodes[i], c);
          if !ok {
            assert nodes[i] in nodes;
            return;
          }
        }
      }
      assert nodes[..|nodes|] == nodes;
      ok := true;
    }

    method CoverEngines(node: Value, before: Cover) returns (ok: bool, c: Cover)
      ensures ok <==> forall e :: e in space.engines ==> PairUnraised(space, node, e)
      ensures ok ==> c == TryEngines(space, node, space.engines, before)
    {
      hide TryPair, PairUnraised;
      var engines := space.engines;
      c := before;
      for i := 0 to |engines|
        invariant c == TryEngines(space, node, engines[..i], before)
        invariant forall k :: 0 <= k < i ==> PairUnraised(space, node, engines[k])
      {
        assert engines[..i + 1][..i] == engines[..i];
        ok, c := CoverPair(node, engines[i], c);
        if !ok {
          return;
        }
      }
      assert engines[..|engines|] == engines;
      ok := true;
    }
  }

  // ---- when covering generation raises ----

  ghost predicate PairUnraised(sp: Space, node: Value, engine: Value) {
    engine == Get(sp.defaults, "engine")
      || Unraised(sp.constraints, sp.defaults["process_node" := node]["engine" := engine])
  }

  // None of the combinations that covering mode repairs makes the repair raise.
  ghost predicate NeverRaises(sp: Space) {
    && Unraised(sp.constraints, sp.defaults)
    && (forall k, v :: 0 <= k < |sp.axes| && v in sp.axes[k].values ==>
         Unraised(sp.constraints, sp.defaults[sp.axes[k].name := v]))
    && (CrossesEngines(sp) ==>
          forall n, e :: n in Covering.ValuesOf(sp.axes, "process_node") && n != Get(sp.defaults, "process_node") &&
                         e in sp.engines ==>
            PairUnraised(sp, n, e))
  }

  // Defaults that bind every axis a rule could assign are enough.
  lemma BoundNeverRaises(sp: Space)
    requires Bound(sp.constraints, sp.defaults.Keys)
    ensures NeverRaises(sp)
  {
    hide Unraised, CrossesEngines;
    forall combo: Combo | sp.defaults.Keys <= combo.Keys ensures Unraised(sp.constraints, combo) {
      BoundUnraised(sp.constraints, combo);
    }
  }

  // ---- from generation to a valid manifest ----

  // Points take their id from the digest of what they are built from.
  function PointsOf(combos: seq<Combo>, digest: Combo -> string): seq<Point> {
    seq(|combos|, i requires 0 <= i < |combos| => Point(digest(combos[i]), combos[i]))
  }

  // The manifest misses a value of an axis exactly when it was requested and the
  // generator neither reached nor excluded it.
  lemma MissingExactly(sp: Space, c: Cover, digest: Combo -> string, spec: AxisSpec, v: Value)
    requires DistinctNames(sp.axes) && spec in sp.axes
    ensures var b := Opened(sp.axes, PointsOf(c.seen, digest), c.exclusions);
            spec.name in b.axes && (v in Missing(b.axes[spec.name]) <==> v in spec.values && !Reached(c, spec.name, v))
  {
    var points := PointsOf(c.seen, digest);
    OpenedExactly(sp.axes, points, c.exclusions, spec);
    var a := Opened(sp.axes, points, c.exclusions).axes[spec.name];
    hide Opened;
    SeenPoints(c.seen, digest, spec.name, v);
  }

  lemma SeenPoints(combos: seq<Combo>, digest: Combo -> string, axis: string, v: Value)
    ensures (exists p :: p in PointsOf(combos, digest) && Carries(p, axis, v)) <==>
            exists x :: x in combos && axis in x && x[axis] == v
  {
    var points := PointsOf(combos, digest);
    if p :| p in points && Carries(p, axis, v) {
      var i :| 0 <= i < |points| && points[i] == p;
      assert combos[i] in combos;
    }
    if x :| x in combos && axis in x && x[axis] == v {
      var i :| 0 <= i < |combos| && combos[i] == x;
      assert points[i] in points && Carries(points[i], axis, v);
    }
  }

  // When every requested value's repaired combination is valid and constraints
  // carry reasons, nothing is missing, and a run over distinct points leaves a
  // manifest without complaints, whatever fails in it.
  lemma CoveringRunIsValid(sp: Space, digest: Combo -> string, ok: seq<bool>)
    requires DistinctNames(sp.axes) && Reasoned(sp.constraints)
    requires forall axis, v :: axis in sp.axes && v in axis.values ==>
             v != Null && IsValid(sp.constraints, Moved(sp, axis.name, v).combo)
    requires var points := PointsOf(Covered(sp).seen, digest); !HasDuplicates(points) && |ok| == |points|
    ensures var points := PointsOf(Covered(sp).seen, digest);
            Ledger.Valid(points, RecordAll(RunEvents(points, ok), Opened(sp.axes, points, Covered(sp).exclusions)))
  {
    hide Covered, HasDuplicates, Moved, IsValid, Opened, RecordAll, RunEvents, Ledger.Valid, Reached, Missing, Reasoned,
      DistinctNames;
    var c := Covered(sp);
    var points := PointsOf(c.seen, digest);
    var b := Opened(sp.axes, points, c.exclusions);
    forall n | n in b.axes ensures Missing(b.axes[n]) == {} {
      OpenedNames(sp.axes, points, c.exclusions, n);
      var spec :| spec in sp.axes && spec.name == n;
      forall v ensures v !in Missing(b.axes[n]) {
        MissingExactly(sp, c, digest, spec, v);
        if v in spec.values {
          EveryValueReached(sp, spec, v);
        }
      }
    }
    OpenedBlank(sp.axes, points, c.exclusions);
    RunValidExactly(points, ok, b);
  }

  lemma OpenedBlank(axes: seq<AxisSpec>, points: seq<Point>, exclusions: seq<Exclusion>)
    ensures Blank(Opened(axes, points, exclusions))
  {
  }

  // ---- full mode and the manifest ----

  function FullCover(axes: seq<AxisSpec>, cs: seq<Constraint>): Cover {
    Cover(ValidOnes(cs, Product(axes)), Problems(cs, Product(axes)))
  }

  lemma {:induction false} ProblemMembers(cs: seq<Constraint>, combos: seq<Combo>, e: Exclusion)
    ensures e in Problems(cs, combos) <==> exists x :: x in combos && Check(cs, x) == Some(e)
  {
    hide Check;
    if combos != [] {
      var front, last := combos[..|combos| - 1], combos[|combos| - 1];
      assert combos == front + [last];
      ProblemMembers(cs, front, e);
      assert e in Problems(cs, combos) <==> Check(cs, last) == Some(e) || e in Problems(cs, front);
      hide Problems;
      if x :| x in front && Check(cs, x) == Some(e) {
        assert x in combos;
      }
      if Check(cs, last) == Some(e) {
        assert last in combos;
      }
    }
  }

  // The choice is generated, or refused with a complaint about this axis.
  ghost predicate Speaks(cs: seq<Constraint>, combo: Combo, axis: string) {
    match Check(cs, combo)
    case None => true
    case Some(e) => e.axis == axis
  }

  // Full mode reaches or excludes a requested value exactly when some choice with
  // that value is valid or has its first complaint about that very axis.
  lemma FullModeReachesExactly(axes: seq<AxisSpec>, cs: seq<Constraint>, spec: AxisSpec, v: Value)
    requires DistinctNames(axes) && Reasoned(cs) && spec in axes && v != Null
    ensures Reached(FullCover(axes, cs), spec.name, v) <==>
            exists x :: IsChoice(axes, x) && Get(x, spec.name) == v && Speaks(cs, x, spec.name)
  {
    hide Check, Product, IsChoice, ValidOnes, Problems, DistinctNames, IsValid;
    var c := FullCover(axes, cs);
    forall x ensures x in Product(axes) <==> IsChoice(axes, x) {
      ProductIsChoices(axes, x);
    }
    if x :| x in c.seen && spec.name in x && x[spec.name] == v {
      ValidMembers(cs, Product(axes), x);
      CheckAgrees(cs, x);
      assert Speaks(cs, x, spec.name);
    }
    if e :| e in c.exclusions && e.axis == spec.name && e.value == v && e.reason != "" {
      ProblemMembers(cs, Product(axes), e);
      var x :| x in Product(axes) && Check(cs, x) == Some(e);
      CheckAgrees(cs, x);
      assert Speaks(cs, x, spec.name);
    }
    if x :| IsChoice(axes, x) && Get(x, spec.name) == v && Speaks(cs, x, spec.name) {
      CheckAgrees(cs, x);
      ValidMembers(cs, Product(axes), x);
      if Check(cs, x).Some? {
        ProblemMembers(cs, Product(axes), Check(cs, x).value);
        assert Check(cs, x).value in c.exclusions;
      } else {
        assert x in c.seen;
      }
    }
  }

  // A value can be missed: the only choice with it is refused, with a complaint
  // about the other axis.
  lemma FullModeCanMiss()
    ensures var axes := [AxisSpec("a", [Val("x")]), AxisSpec("b", [Val("y")])];
            var cs := [Constraint("c", [Rule("a", [Val("x")])], [Rule("b", [Val("z")])], [], "needs z")];
            DistinctNames(axes) && Reasoned(cs) && !Reached(FullCover(axes, cs), "a", Val("x"))
  {
    hide Reached, FullCover;
    var axes := [AxisSpec("a", [Val("x")]), AxisSpec("b", [Val("y")])];
    var cs := [Constraint("c", [Rule("a", [Val("x")])], [Rule("b", [Val("z")])], [], "needs z")];
    assert axes[0] in axes && axes[1] in axes;
    FullModeReachesExactly(axes, cs, axes[0], Val("x"));
    forall combo: Combo | IsChoice(axes, combo) ensures !Speaks(cs, combo, "a") {
      assert Get(combo, "a") in axes[0].values && Get(combo, "b") in axes[1].values;
      OneComplaint(cs[0], combo);
    }
  }

  lemma OneComplaint(c: Constraint, combo: Combo)
    requires c.when == [Rule("a", [Val("x")])] && c.require == [Rule("b", [Val("z")])]
    requires Get(combo, "a") == Val("x") && Get(combo, "b") == Val("y")
    ensures Check([c], combo) == Some(ExclusionAt("b", combo, c))
  {
    assert Matches(c, combo) && !Satisfies(c.require[0], combo);
    assert c.require[..0] == [];
    assert Violations(c.require, combo) == [c.require[0]];
  }

  // ---- constraints that only require ----

  // No exclusions, and a value for every broken rule.
  ghost predicate OnlyRequires(cs: seq<Constraint>) {
    forall c :: c in cs ==> c.exclude == [] && forall r :: r in c.require ==> r.allowed != []
  }

  // For such constraints what repair leaves alone is what is valid.
  lemma StableIsValid(cs: seq<Constraint>, combo: Combo)
    requires OnlyRequires(cs)
    ensures Stable(cs, combo) <==> IsValid(cs, combo)
  {
    hide Matches, Satisfies;
    forall i | 0 <= i < |cs| ensures Settled(cs[i], combo) <==> Accepts(cs[i], combo) {
      assert cs[i] in cs;
      AcceptsExactly(cs[i], combo);
    }
  }

  lemma AcceptsExactly(c: Constraint, combo: Combo)
    requires c.exclude == [] && forall r :: r in c.require ==> r.allowed != []
    ensures Settled(c, combo) <==> Accepts(c, combo)
  {
    hide Matches, Satisfies;
    var broken := Violations(c.require, combo);
    if broken != [] {
      assert broken[0] in broken;
    }
  }

  // A stratified, conflict-free set of such constraints, of depth up to 10: every
  // requested value is reached, and every run over distinct points leaves a
  // manifest without complaints.
  lemma StratifiedRunIsValid(sp: Space, level: string -> nat, d: nat, digest: Combo -> string, ok: seq<bool>)
    requires Stratified(sp.constraints, level) && RepairConverges.WellFormed(sp.constraints)
             && ConflictFree(sp.constraints)
    requires DepthAtMost(sp.constraints, level, d) && d <= MAX_ROUNDS && OnlyRequires(sp.constraints)
    requires DistinctNames(sp.axes) && Reasoned(sp.constraints)
    requires forall axis, v :: axis in sp.axes && v in axis.values ==> v != Null
    requires var points := PointsOf(Covered(sp).seen, digest); !HasDuplicates(points) && |ok| == |points|
    ensures forall axis, v :: axis in sp.axes && v in axis.values ==> Reached(Covered(sp), axis.name, v)
    ensures var points := PointsOf(Covered(sp).seen, digest);
            Ledger.Valid(points, RecordAll(RunEvents(points, ok), Opened(sp.axes, points, Covered(sp).exclusions)))
  {
    hide *;
    forall axis, v | axis in sp.axes && v in axis.values
      ensures IsValid(sp.constraints, Moved(sp, axis.name, v).combo) && Reached(Covered(sp), axis.name, v)
    {
      MovedIsRepaired(sp, axis.name, v);
      RepairConvergesByLevels(sp.constraints, level, d, sp.defaults[axis.name := v]);
      StableIsValid(sp.constraints, Moved(sp, axis.name, v).combo);
      EveryValueReached(sp, axis, v);
    }
    CoveringRunIsValid(sp, digest, ok);
  }

  lemma MovedIsRepaired(sp: Space, axis: string, value: Value)
    ensures Moved(sp, axis, value) == Repaired(sp.constraints, sp.defaults[axis := value])
  {
  }
}
