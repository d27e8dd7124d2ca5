// Covering mode: the defaults with one axis moved at a time, each repaired, plus
// the engines at every other process node. Every requested value is reached or
// its loss is on record.
module Covering {
  import opened DesignModels
  import opened Enumeration
  import opened Repair

  // What the generator works from; `engines` is the engine registry's list.
  datatype Space = Space(axes: seq<AxisSpec>, constraints: seq<Constraint>, defaults: Combo, engines: seq<Value>)

  // The combinations kept so far, by their values on the axes, and the exclusions.
  datatype Cover = Cover(seen: seq<Combo>, exclusions: seq<Exclusion>)

  function Key(axes: seq<AxisSpec>, combo: Combo): seq<Value> {
    seq(|axes|, i requires 0 <= i < |axes| => Get(combo, axes[i].name))
  }

  predicate Known(axes: seq<AxisSpec>, seen: seq<Combo>, combo: Combo) {
    exists i :: 0 <= i < |seen| && Key(axes, seen[i]) == Key(axes, combo)
  }

  function Add(axes: seq<AxisSpec>, seen: seq<Combo>, combo: Combo): seq<Combo> {
    if Known(axes, seen, combo) then seen else seen + [combo]
  }

  // The first change that took `value` off the axis, as an exclusion.
  function RepairExclusion(axis: string, value: Value, changes: seq<Change>): seq<Exclusion> {
    if changes == [] then []
    else if changes[0].axis == axis && changes[0].original == value then
      [Exclusion(axis, value, changes[0].cause.reason, changes[0].cause.name)]
    else RepairExclusion(axis, value, changes[1..])
  }

  function Complaint(cs: seq<Constraint>, combo: Combo): seq<Exclusion> {
    match Check(cs, combo)
    case Some(e) => [e]
    case None => []
  }

  // One requested value: the defaults with that value, repaired.
  function Moved(sp: Space, axis: string, value: Value): Progress {
    Repaired(sp.constraints, sp.defaults[axis := value])
  }

  function TryValue(sp: Space, axis: string, value: Value, c: Cover): Cover {
    var p := Moved(sp, axis, value);
    if IsValid(sp.constraints, p.combo) then
      Cover(Add(sp.axes, c.seen, p.combo),
            c.exclusions + if Get(p.combo, axis) != value then RepairExclusion(axis, value, p.changes) else [])
    else Cover(c.seen, c.exclusions + Complaint(sp.constraints, p.combo))
  }

  function TryValues(sp: Space, axis: string, values: seq<Value>, c: Cover): Cover {
    if values == [] then c
    else TryValue(sp, axis, values[|values| - 1], TryValues(sp, axis, values[..|values| - 1], c))
  }

  function TryAxes(sp: Space, axes: seq<AxisSpec>, c: Cover): Cover {
    if axes == [] then c
    else
      var last := axes[|axes| - 1];
      TryValues(sp, last.name, last.values, TryAxes(sp, axes[..|axes| - 1], c))
  }

  // One engine at one process node.
  function TryPair(sp: Space, node: Value, engine: Value, c: Cover): Cover {
    if engine == Get(sp.defaults, "engine") then c
    else
      var combo := Repaired(sp.constraints, sp.defaults["process_node" := node]["engine" := engine]).combo;
      if IsValid(sp.constraints, combo) then Cover(Add(sp.axes, c.seen, combo), c.exclusions)
      else Cover(c.seen, c.exclusions + Complaint(sp.constraints, combo))
  }

  function TryEngines(sp: Space, node: Value, engines: seq<Value>, c: Cover): Cover {
    if engines == [] then c
    else TryPair(sp, node, engines[|engines| - 1], TryEngines(sp, node, engines[..|engines| - 1], c))
  }

  function TryNodes(sp: Space, nodes: seq<Value>, c: Cover): Cover {
    if nodes == [] then c
    else
      var last := nodes[|nodes| - 1];
      var before := TryNodes(sp, nodes[..|nodes| - 1], c);
      if last == Get(sp.defaults, "process_node") then before else TryEngines(sp, last, sp.engines, before)
  }

  function ValuesOf(axes: seq<AxisSpec>, name: string): seq<Value> {
    if axes == [] then [] else if axes[0].name == name then axes[0].values else ValuesOf(axes[1..], name)
  }

  predicate HasAxis(axes: seq<AxisSpec>, name: string) {
    exists i :: 0 <= i < |axes| && axes[i].name == name
  }

  predicate CrossesEngines(sp: Space) {
    && HasAxis(sp.axes, "process_node") && HasAxis(sp.axes, "engine")
    && Get(sp.defaults, "process_node") != Null && Get(sp.defaults, "engine") != Null
  }

  function Begun(sp: Space): Cover {
    var start := Repaired(sp.constraints, sp.defaults).combo;
    Cover(if IsValid(sp.constraints, start) then [start] else [], [])
  }

  function Covered(sp: Space): Cover {
    var c := TryAxes(sp, sp.axes, Begun(sp));
    if CrossesEngines(sp) then TryNodes(sp, ValuesOf(sp.axes, "process_node"), c) else c
  }

  // ---- what every step keeps ----

  // All kept combinations are valid, and no two agree on every axis.
  ghost predicate Sound(sp: Space, c: Cover) {
    && (forall i :: 0 <= i < |c.seen| ==> IsValid(sp.constraints, c.seen[i]))
    && (forall i, j :: 0 <= i < j < |c.seen| ==> Key(sp.axes, c.seen[i]) != Key(sp.axes, c.seen[j]))
  }

  // d is c with more seen and more excluded.
  ghost predicate Grows(sp: Space, c: Cover, d: Cover) {
    && (Sound(sp, c) ==> Sound(sp, d))
    && (forall x :: x in c.seen ==> x in d.seen)
    && (forall e :: e in c.exclusions ==> e in d.exclusions)
  }

  lemma GrowsTwice(sp: Space, c: Cover, d: Cover, e: Cover)
    requires Grows(sp, c, d) && Grows(sp, d, e)
    ensures Grows(sp, c, e)
  {
    hide Sound;
  }

  lemma AddGrows(sp: Space, c: Cover, combo: Combo, more: seq<Exclusion>)
    requires IsValid(sp.constraints, combo)
    ensures Grows(sp, c, Cover(Add(sp.axes, c.seen, combo), c.exclusions + more))
    ensures Known(sp.axes, Add(sp.axes, c.seen, combo), combo)
  {
    hide IsValid, Key;
    var d := Add(sp.axes, c.seen, combo);
    if d != c.seen {
      assert d[|c.seen|] == combo;
    }
  }

  lemma ExcludeGrows(sp: Space, c: Cover, more: seq<Exclusion>)
    ensures Grows(sp, c, Cover(c.seen, c.exclusions + more))
  {
    hide IsValid, Key;
  }

  lemma TryValueGrows(sp: Space, axis: string, value: Value, c: Cover)
    ensures Grows(sp, c, TryValue(sp, axis, value, c))
  {
    hide Grows, IsValid, Add, Repaired;
    var p := Moved(sp, axis, value);
    if IsValid(sp.constraints, p.combo) {
      AddGrows(sp, c, p.combo, if Get(p.combo, axis) != value then RepairExclusion(axis, value, p.changes) else []);
    } else {
      ExcludeGrows(sp, c, Complaint(sp.constraints, p.combo));
    }
  }

  lemma GrowsSelf(sp: Space, c: Cover)
    ensures Grows(sp, c, c)
  {
  }

  lemma {:induction false} TryValuesGrows(sp: Space, axis: string, values: seq<Value>, c: Cover)
    ensures Grows(sp, c, TryValues(sp, axis, values, c))
  {
    hide Grows, TryValue;
    if values == [] {
      GrowsSelf(sp, c);
    } else {
      var before := TryValues(sp, axis, values[..|values| - 1], c);
      TryValuesGrows(sp, axis, values[..|values| - 1], c);
      TryValueGrows(sp, axis, values[|values| - 1], before);
      GrowsTwice(sp, c, before, TryValues(sp, axis, values, c));
    }
  }

  lemma {:induction false} TryAxesGrows(sp: Space, axes: seq<AxisSpec>, c: Cover)
    ensures Grows(sp, c, TryAxes(sp, axes, c))
  {
    hide Grows, TryValues;
    if axes == [] {
      GrowsSelf(sp, c);
    } else {
      var last, before := axes[|axes| - 1], TryAxes(sp, axes[..|axes| - 1], c);
      TryAxesGrows(sp, axes[..|axes| - 1], c);
      TryValuesGrows(sp, last.name, last.values, before);
      GrowsTwice(sp, c, before, TryAxes(sp, axes, c));
    }
  }

  lemma TryPairGrows(sp: Space, node: Value, engine: Value, c: Cover)
    ensures Grows(sp, c, TryPair(sp, node, engine, c))
  {
    hide Grows, IsValid, Add, Repaired;
    var combo := Repaired(sp.constraints, sp.defaults["process_node" := node]["engine" := engine]).combo;
    if engine == Get(sp.defaults, "engine") {
      GrowsSelf(sp, c);
    } else if IsValid(sp.constraints, combo) {
      AddGrows(sp, c, combo, []);
      assert c.exclusions + [] == c.exclusions;
    } else {
      ExcludeGrows(sp, c, Complaint(sp.constraints, combo));
    }
  }

  lemma {:induction false} TryEnginesGrows(sp: Space, node: Value, engines: seq<Value>, c: Cover)
    ensures Grows(sp, c, TryEngines(sp, node, engines, c))
  {
    hide Grows, TryPair;
    if engines == [] {
      GrowsSelf(sp, c);
    } else {
      var before := TryEngines(sp, node, engines[..|engines| - 1], c);
      TryEnginesGrows(sp, node, engines[..|engines| - 1], c);
      TryPairGrows(sp, node, engines[|engines| - 1], before);
      GrowsTwice(sp, c, before, TryEngines(sp, node, engines, c));
    }
  }

  lemma {:induction false} TryNodesGrows(sp: Space, nodes: seq<Value>, c: Cover)
    ensures Grows(sp, c, TryNodes(sp, nodes, c))
  {
    hide Grows, TryEngines;
    if nodes == [] {
      GrowsSelf(sp, c);
    } else {
      var before := TryNodes(sp, nodes[..|nodes| - 1], c);
      TryNodesGrows(sp, nodes[..|nodes| - 1], c);
      TryEnginesGrows(sp, nodes[|nodes| - 1], sp.engines, before);
      GrowsTwice(sp, c, before, TryEngines(sp, nodes[|nodes| - 1], sp.engines, before));
    }
  }

  lemma CoveredGrows(sp: Space)
    ensures Grows(sp, TryAxes(sp, sp.axes, Begun(sp)), Covered(sp))
  {
    hide Grows, TryAxes, TryNodes, Begun;
    var c := TryAxes(sp, sp.axes, Begun(sp));
    GrowsSelf(sp, c);
    TryNodesGrows(sp, ValuesOf(sp.axes, "process_node"), c);
  }

  // All generated points are valid and pairwise distinct on the axes.
  lemma CoverIsSound(sp: Space)
    ensures Sound(sp, Covered(sp))
  {
    assert Sound(sp, Begun(sp)) by {
      hide IsValid, Key, Repaired;
    }
    hide Sound, Covered, TryAxes, Begun;
    TryAxesGrows(sp, sp.axes, Begun(sp));
    CoveredGrows(sp);
  }

  // ---- coverage ----

  // The value is in a kept combination or has an exclusion of its own.
  ghost predicate Reached(c: Cover, axis: string, value: Value) {
    || (exists x :: x in c.seen && axis in x && x[axis] == value)
    || (exists e :: e in c.exclusions && e.axis == axis && e.value == value && e.reason != "")
  }

  lemma ReachedGrows(sp: Space, c: Cover, d: Cover, axis: string, value: Value)
    requires Grows(sp, c, d) && Reached(c, axis, value)
    ensures Reached(d, axis, value)
  {
    hide Sound;
  }

  lemma {:induction false} ExclusionFound(axis: string, value: Value, changes: seq<Change>)
    requires exists i :: 0 <= i < |changes| && changes[i].axis == axis && changes[i].original == value
    requires forall ch :: ch in changes ==> ch.cause.reason != ""
    ensures exists e :: e in RepairExclusion(axis, value, changes) &&
                        e.axis == axis && e.value == value && e.reason != ""
  {
    if changes[0].axis == axis && changes[0].original == value {
      assert changes[0] in changes;
      assert RepairExclusion(axis, value, changes)[0] in RepairExclusion(axis, value, changes);
    } else {
      var i :| 0 <= i < |changes| && changes[i].axis == axis && changes[i].original == value;
      assert changes[1..][i - 1] == changes[i];
      ExclusionFound(axis, value, changes[1..]);
    }
  }

  ghost predicate Reasoned(cs: seq<Constraint>) {
    forall c :: c in cs ==> c.reason != ""
  }

  // A repair that takes the value off its axis leaves a reason for it.
  lemma MovedAway(sp: Space, axis: string, value: Value)
    requires Reasoned(sp.constraints) && Get(Moved(sp, axis, value).combo, axis) != value
    ensures exists e :: e in RepairExclusion(axis, value, Moved(sp, axis, value).changes) &&
                        e.axis == axis && e.value == value && e.reason != ""
  {
    var start := sp.defaults[axis := value];
    var p := Moved(sp, axis, value);
    LogReplays(sp.constraints, start);
    RoundsCaused(sp.constraints, Progress(start, []), MAX_ROUNDS);
    hide Rounds, Replays;
    FirstChange(start, p.changes, p.combo, axis);
    ExclusionFound(axis, value, p.changes);
  }

  lemma KeyTells(axes: seq<AxisSpec>, a: Combo, b: Combo, axis: string)
    requires Key(axes, a) == Key(axes, b) && HasAxis(axes, axis)
    ensures Get(a, axis) == Get(b, axis)
  {
    var i :| 0 <= i < |axes| && axes[i].name == axis;
    assert Key(axes, a)[i] == Get(a, axis) && Key(axes, b)[i] == Get(b, axis);
  }

  lemma TryValueReaches(sp: Space, axis: string, value: Value, c: Cover)
    requires Reasoned(sp.constraints) && HasAxis(sp.axes, axis) && value != Null
    requires IsValid(sp.constraints, Moved(sp, axis, value).combo)
    ensures Reached(TryValue(sp, axis, value, c), axis, value)
  {
    hide IsValid, Add, Moved, RepairExclusion, Key, HasAxis, Reasoned;
    var p, d := Moved(sp, axis, value), TryValue(sp, axis, value, c);
    if Get(p.combo, axis) == value {
      AddGrows(sp, c, p.combo, []);
      var i :| 0 <= i < |d.seen| && Key(sp.axes, d.seen[i]) == Key(sp.axes, p.combo);
      KeyTells(sp.axes, d.seen[i], p.combo, axis);
      assert d.seen[i] in d.seen;
    } else {
      MovedAway(sp, axis, value);
    }
  }

  lemma {:induction false} TryValuesReaches(sp: Space, axis: string, values: seq<Value>, c: Cover, value: Value)
    requires Reasoned(sp.constraints) && HasAxis(sp.axes, axis) && value != Null && value in values
    requires IsValid(sp.constraints, Moved(sp, axis, value).combo)
    ensures Reached(TryValues(sp, axis, values, c), axis, value)
  {
    hide TryValue, Reached, Moved, IsValid, Reasoned, HasAxis;
    var front, last := values[..|values| - 1], values[|values| - 1];
    var before := TryValues(sp, axis, front, c);
    assert values == front + [last];
    if last == value {
      TryValueReaches(sp, axis, value, before);
    } else {
      TryValuesReaches(sp, axis, front, c, value);
      TryValueGrows(sp, axis, last, before);
      ReachedGrows(sp, before, TryValue(sp, axis, last, before), axis, value);
    }
  }

  lemma {:induction false} TryAxesReaches(sp: Space, axes: seq<AxisSpec>, c: Cover, axis: AxisSpec, value: Value)
    requires Reasoned(sp.constraints) && HasAxis(sp.axes, axis.name) && axis in axes && value in axis.values
             && value != Null
    requires IsValid(sp.constraints, Moved(sp, axis.name, value).combo)
    ensures Reached(TryAxes(sp, axes, c), axis.name, value)
  {
    hide TryValues, Reached, Moved, IsValid, Reasoned, HasAxis;
    var front, last := axes[..|axes| - 1], axes[|axes| - 1];
    var before := TryAxes(sp, front, c);
    assert axes == front + [last];
    if last == axis {
      TryValuesReaches(sp, axis.name, axis.values, before, value);
    } else {
      TryAxesReaches(sp, front, c, axis, value);
      TryValuesGrows(sp, last.name, last.values, before);
      ReachedGrows(sp, before, TryValues(sp, last.name, last.values, before), axis.name, value);
    }
  }

  // Covering mode covers: every requested value whose repaired combination is
  // valid is generated, or excluded for that very axis and value with a reason.
  lemma EveryValueReached(sp: Space, axis: AxisSpec, value: Value)
    requires Reasoned(sp.constraints) && axis in sp.axes && value in axis.values && value != Null
    requires IsValid(sp.constraints, Moved(sp, axis.name, value).combo)
    ensures Reached(Covered(sp), axis.name, value)
  {
    hide TryAxes, Covered, Reached, Moved, IsValid, Reasoned, Begun;
    var i :| 0 <= i < |sp.axes| && sp.axes[i] == axis;
    assert HasAxis(sp.axes, axis.name);
    TryAxesReaches(sp, sp.axes, Begun(sp), axis, value);
    CoveredGrows(sp);
    ReachedGrows(sp, TryAxes(sp, sp.axes, Begun(sp)), Covered(sp), axis.name, value);
  }
}
