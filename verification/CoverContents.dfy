// What covering mode generates and excludes, exactly: the repaired defaults, the
// repaired defaults with one axis moved, and the engines at every other process
// node; each either represented or on record, and nothing else.
module CoverContents {
  import opened DesignModels
  import opened Enumeration
  import opened Options
  import opened Repair
  import opened Covering

  // ---- everything that is tried leaves its mark ----

  // A kept combination agrees with this one on every axis.
  ghost predicate Represented(sp: Space, c: Cover, combo: Combo) {
    exists x :: x in c.seen && forall a :: a in sp.axes ==> Get(x, a.name) == Get(combo, a.name)
  }

  // The repair of the combination is represented, or the complaint about it is on record.
  ghost predicate Settled(sp: Space, c: Cover, start: Combo) {
    var p := Repaired(sp.constraints, start).combo;
    if IsValid(sp.constraints, p) then Represented(sp, c, p)
    else Check(sp.constraints, p).Some? && Check(sp.constraints, p).value in c.exclusions
  }

  // The first change that took the value off the axis.
  ghost predicate FirstMove(changes: seq<Change>, axis: string, value: Value, i: nat) {
    && i < |changes| && changes[i].axis == axis && changes[i].original == value
    && forall m :: 0 <= m < i ==> changes[m].axis != axis || changes[m].original != value
  }

  function Cites(axis: string, value: Value, ch: Change): Exclusion {
    Exclusion(axis, value, ch.cause.reason, ch.cause.name)
  }

  // A requested value that repair took away is excluded, citing the constraint
  // behind the first change that did so.
  ghost predicate LossRecorded(sp: Space, c: Cover, axis: string, value: Value) {
    var p := Repaired(sp.constraints, sp.defaults[axis := value]);
    IsValid(sp.constraints, p.combo) && Get(p.combo, axis) != value ==>
      forall i: nat :: FirstMove(p.changes, axis, value, i) ==> Cites(axis, value, p.changes[i]) in c.exclusions
  }

  lemma KnownIsRepresented(sp: Space, c: Cover, combo: Combo)
    requires Known(sp.axes, c.seen, combo)
    ensures Represented(sp, c, combo)
  {
    var i :| 0 <= i < |c.seen| && Key(sp.axes, c.seen[i]) == Key(sp.axes, combo);
    forall a | a in sp.axes ensures Get(c.seen[i], a.name) == Get(combo, a.name) {
      var k :| 0 <= k < |sp.axes| && sp.axes[k] == a;
      assert HasAxis(sp.axes, a.name);
      KeyTells(sp.axes, c.seen[i], combo, a.name);
    }
    assert c.seen[i] in c.seen;
  }

  lemma SettledGrows(sp: Space, c: Cover, d: Cover, start: Combo)
    requires Grows(sp, c, d) && Settled(sp, c, start)
    ensures Settled(sp, d, start)
  {
    hide IsValid, Repaired, Check, Sound;
  }

  lemma LossGrows(sp: Space, c: Cover, d: Cover, axis: string, value: Value)
    requires Grows(sp, c, d) && LossRecorded(sp, c, axis, value)
    ensures LossRecorded(sp, d, axis, value)
  {
    hide IsValid, Repaired, FirstMove, Sound;
  }

  lemma {:induction false} FirstMoveCited(axis: string, value: Value, changes: seq<Change>, i: nat)
    requires FirstMove(changes, axis, value, i)
    ensures RepairExclusion(axis, value, changes) == [Cites(axis, value, changes[i])]
  {
    if i > 0 {
      assert FirstMove(changes[1..], axis, value, i - 1) by {
        assert forall m :: 0 <= m < i - 1 ==> changes[1..][m] == changes[m + 1];
      }
      FirstMoveCited(axis, value, changes[1..], i - 1);
    }
  }

  lemma ComplaintSettles(sp: Space, c: Cover, start: Combo)
    requires !IsValid(sp.constraints, Repaired(sp.constraints, start).combo)
    ensures Settled(sp, Cover(c.seen, c.exclusions + Complaint(sp.constraints, Repaired(sp.constraints, start).combo)),
            start)
  {
    hide IsValid, Repaired, Check;
    CheckAgrees(sp.constraints, Repaired(sp.constraints, start).combo);
  }

  lemma TryValueSettles(sp: Space, axis: string, value: Value, c: Cover)
    ensures Settled(sp, TryValue(sp, axis, value, c), sp.defaults[axis := value])
    ensures LossRecorded(sp, TryValue(sp, axis, value, c), axis, value)
  {
    hide IsValid, Repaired, Check, Add, Known, RepairExclusion, Represented;
    var p, d := Moved(sp, axis, value), TryValue(sp, axis, value, c);
    if IsValid(sp.constraints, p.combo) {
      AddGrows(sp, c, p.combo, []);
      KnownIsRepresented(sp, d, p.combo);
      forall i: nat | Get(p.combo, axis) != value && FirstMove(p.changes, axis, value, i)
        ensures i < |p.changes| && Cites(axis, value, p.changes[i]) in d.exclusions
      {
        FirstMoveCited(axis, value, p.changes, i);
        assert d.exclusions == c.exclusions + RepairExclusion(axis, value, p.changes);
      }
    } else {
      ComplaintSettles(sp, c, sp.defaults[axis := value]);
    }
  }

  lemma {:induction false} TryValuesSettles(sp: Space, axis: string, values: seq<Value>, c: Cover, value: Value)
    requires value in values
    ensures Settled(sp, TryValues(sp, axis, values, c), sp.defaults[axis := value])
    ensures LossRecorded(sp, TryValues(sp, axis, values, c), axis, value)
  {
    hide TryValue, Settled, LossRecorded;
    var front, last := values[..|values| - 1], values[|values| - 1];
    var before := TryValues(sp, axis, front, c);
    assert values == front + [last];
    if last == value {
      TryValueSettles(sp, axis, value, before);
    } else {
      TryValuesSettles(sp, axis, front, c, value);
      TryValueGrows(sp, axis, last, before);
      SettledGrows(sp, before, TryValue(sp, axis, last, before), sp.defaults[axis := value]);
      LossGrows(sp, before, TryValue(sp, axis, last, before), axis, value);
    }
  }

  lemma {:induction false} TryAxesSettles(sp: Space, axes: seq<AxisSpec>, c: Cover, axis: AxisSpec, value: Value)
    requires axis in axes && value in axis.values
    ensures Settled(sp, TryAxes(sp, axes, c), sp.defaults[axis.name := value])
    ensures LossRecorded(sp, TryAxes(sp, axes, c), axis.name, value)
  {
    hide TryValues, Settled, LossRecorded;
    var front, last := axes[..|axes| - 1], axes[|axes| - 1];
    var before := TryAxes(sp, front, c);
    assert axes == front + [last];
    if last == axis {
      TryValuesSettles(sp, axis.name, axis.values, before, value);
    } else {
      TryAxesSettles(sp, front, c, axis, value);
      TryValuesGrows(sp, last.name, last.values, before);
      SettledGrows(sp, before, TryAxes(sp, axes, c), sp.defaults[axis.name := value]);
      LossGrows(sp, before, TryAxes(sp, axes, c), axis.name, value);
    }
  }

  function Paired(sp: Space, node: Value, engine: Value): Combo {
    sp.defaults["process_node" := node]["engine" := engine]
  }

  lemma TryPairSettles(sp: Space, node: Value, engine: Value, c: Cover)
    requires engine != Get(sp.defaults, "engine")
    ensures Settled(sp, TryPair(sp, node, engine, c), Paired(sp, node, engine))
  {
    hide IsValid, Repaired, Check, Add, Known, Represented;
    var p := Repaired(sp.constraints, Paired(sp, node, engine)).combo;
    if IsValid(sp.constraints, p) {
      AddGrows(sp, c, p, []);
      KnownIsRepresented(sp, TryPair(sp, node, engine, c), p);
    } else {
      ComplaintSettles(sp, c, Paired(sp, node, engine));
    }
  }

  lemma {:induction false} TryEnginesSettles(sp: Space, node: Value, engines: seq<Value>, c: Cover, engine: Value)
    requires engine in engines && engine != Get(sp.defaults, "engine")
    ensures Settled(sp, TryEngines(sp, node, engines, c), Paired(sp, node, engine))
  {
    hide TryPair, Settled;
    var front, last := engines[..|engines| - 1], engines[|engines| - 1];
    var before := TryEngines(sp, node, front, c);
    assert engines == front + [last];
    if last == engine {
      TryPairSettles(sp, node, engine, before);
    } else {
      TryEnginesSettles(sp, node, front, c, engine);
      TryPairGrows(sp, node, last, before);
      SettledGrows(sp, before, TryPair(sp, node, last, before), Paired(sp, node, engine));
    }
  }

  lemma {:induction false} TryNodesSettles(sp: Space, nodes: seq<Value>, c: Cover, node: Value, engine: Value)
    requires node in nodes && node != Get(sp.defaults, "process_node")
    requires engine in sp.engines && engine != Get(sp.defaults, "engine")
    ensures Settled(sp, TryNodes(sp, nodes, c), Paired(sp, node, engine))
  {
    hide TryEngines, Settled;
    var front, last := nodes[..|nodes| - 1], nodes[|nodes| - 1];
    var before := TryNodes(sp, front, c);
    assert nodes == front + [last];
    if last == node {
      TryEnginesSettles(sp, node, sp.engines, before, engine);
    } else {
      TryNodesSettles(sp, front, c, node, engine);
      TryEnginesGrows(sp, last, sp.engines, before);
      GrowsSelf(sp, before);
      SettledGrows(sp, before, TryNodes(sp, nodes, c), Paired(sp, node, engine));
    }
  }

  lemma BegunGrows(sp: Space)
    ensures Grows(sp, Begun(sp), Covered(sp))
  {
    hide Grows, TryAxes, Begun, Covered;
    TryAxesGrows(sp, sp.axes, Begun(sp));
    CoveredGrows(sp);
    GrowsTwice(sp, Begun(sp), TryAxes(sp, sp.axes, Begun(sp)), Covered(sp));
  }

  // The repaired defaults, when valid, are represented.
  lemma DefaultsRepresented(sp: Space)
    requires IsValid(sp.constraints, Repaired(sp.constraints, sp.defaults).combo)
    ensures Represented(sp, Covered(sp), Repaired(sp.constraints, sp.defaults).combo)
  {
    hide IsValid, Repaired, Covered, Sound;
    var p := Repaired(sp.constraints, sp.defaults).combo;
    assert p in Begun(sp).seen;
    BegunGrows(sp);
  }

  // Every listed value of every axis is tried, and its loss recorded.
  lemma EveryMoveSettled(sp: Space, axis: AxisSpec, value: Value)
    requires axis in sp.axes && value in axis.values
    ensures Settled(sp, Covered(sp), sp.defaults[axis.name := value])
    ensures LossRecorded(sp, Covered(sp), axis.name, value)
  {
    hide Settled, LossRecorded, TryAxes, Begun, Covered;
    TryAxesSettles(sp, sp.axes, Begun(sp), axis, value);
    CoveredGrows(sp);
    SettledGrows(sp, TryAxes(sp, sp.axes, Begun(sp)), Covered(sp), sp.defaults[axis.name := value]);
    LossGrows(sp, TryAxes(sp, sp.axes, Begun(sp)), Covered(sp), axis.name, value);
  }

  // The pairs that covering mode adds: when both axes exist and both defaults are
  // bound, every other engine at every other listed process node.
  ghost predicate IsPair(sp: Space, node: Value, engine: Value) {
    && (exists a :: a in sp.axes && a.name == "engine")
    && (exists a :: a in sp.axes && a.name == "process_node" && node in a.values)
    && "process_node" in sp.defaults && sp.defaults["process_node"] != Null && node != sp.defaults["process_node"]
    && "engine" in sp.defaults && sp.defaults["engine"] != Null && engine != sp.defaults["engine"]
    && engine in sp.engines
  }

  lemma {:induction false} ValuesOfAxis(axes: seq<AxisSpec>, axis: AxisSpec)
    requires DistinctNames(axes) && axis in axes
    ensures ValuesOf(axes, axis.name) == axis.values && HasAxis(axes, axis.name)
  {
    var i :| 0 <= i < |axes| && axes[i] == axis;
    if i > 0 {
      assert axes[1..][i - 1] == axis && axes[0].name != axes[i].name;
      forall k, m | 0 <= k < m < |axes| - 1 ensures axes[1..][k].name != axes[1..][m].name {
        assert axes[k + 1].name != axes[m + 1].name;
      }
      ValuesOfAxis(axes[1..], axis);
    }
  }

  lemma EveryPairSettled(sp: Space, node: Value, engine: Value)
    requires DistinctNames(sp.axes) && IsPair(sp, node, engine)
    ensures Settled(sp, Covered(sp), sp.defaults["process_node" := node]["engine" := engine])
  {
    var a :| a in sp.axes && a.name == "engine";
    var b :| b in sp.axes && b.name == "process_node" && node in b.values;
    ValuesOfAxis(sp.axes, a);
    ValuesOfAxis(sp.axes, b);
    hide Settled, TryAxes, TryNodes, Begun, DistinctNames;
    TryNodesSettles(sp, b.values, TryAxes(sp, sp.axes, Begun(sp)), node, engine);
  }

  // ---- and nothing else does ----

  ghost predicate IsMove(sp: Space, axis: string, value: Value) {
    exists a :: a in sp.axes && a.name == axis && value in a.values
  }

  // A combination that covering mode repairs.
  ghost predicate IsStart(sp: Space, start: Combo) {
    || start == sp.defaults
    || (exists axis, value :: IsMove(sp, axis, value) && start == sp.defaults[axis := value])
    || (exists node, engine :: IsPair(sp, node, engine) && start == Paired(sp, node, engine))
  }

  // Every kept combination is the repair of one of these, and every exclusion is
  // the complaint about one or cites the loss of a listed value.
  ghost predicate Originates(sp: Space, c: Cover) {
    && (forall x :: x in c.seen ==> exists start :: IsStart(sp, start) && x == Repaired(sp.constraints, start).combo)
    && (forall e :: e in c.exclusions ==> Explained(sp, e))
  }

  ghost predicate Explained(sp: Space, e: Exclusion) {
    || (exists start :: IsStart(sp, start) && Check(sp.constraints, Repaired(sp.constraints, start).combo) == Some(e))
    || (exists axis, value :: IsMove(sp, axis, value) && LostValue(sp, axis, value, e))
  }

  ghost predicate LostValue(sp: Space, axis: string, value: Value, e: Exclusion) {
    var p := Repaired(sp.constraints, sp.defaults[axis := value]);
    && Get(p.combo, axis) != value
    && exists i: nat :: FirstMove(p.changes, axis, value, i) && e == Cites(axis, value, p.changes[i])
  }

  lemma {:induction false} CitedIsFirst(axis: string, value: Value, changes: seq<Change>)
    ensures RepairExclusion(axis, value, changes) == [] ||
            exists i: nat :: FirstMove(changes, axis, value, i)
                             && RepairExclusion(axis, value, changes) == [Cites(axis, value, changes[i])]
  {
    if i :| 0 <= i < |changes| && changes[i].axis == axis && changes[i].original == value {
      var k := Earliest(axis, value, changes, i);
      FirstMoveCited(axis, value, changes, k);
    } else {
      NoneCited(axis, value, changes);
    }
  }

  lemma {:induction false} Earliest(axis: string, value: Value, changes: seq<Change>, i: nat) returns (k: nat)
    requires i < |changes| && changes[i].axis == axis && changes[i].original == value
    ensures FirstMove(changes, axis, value, k)
  {
    if m :| 0 <= m < i && changes[m].axis == axis && changes[m].original == value {
      k := Earliest(axis, value, changes, m);
    } else {
      k := i;
    }
  }

  lemma {:induction false} NoneCited(axis: string, value: Value, changes: seq<Change>)
    requires forall i :: 0 <= i < |changes| ==> changes[i].axis != axis || changes[i].original != value
    ensures RepairExclusion(axis, value, changes) == []
  {
    if changes != [] {
      NoneCited(axis, value, changes[1..]);
    }
  }

  lemma KeepOriginates(sp: Space, c: Cover, start: Combo, more: seq<Exclusion>)
    requires Originates(sp, c) && IsStart(sp, start) && forall e :: e in more ==> Explained(sp, e)
    ensures Originates(sp, Cover(Add(sp.axes, c.seen, Repaired(sp.constraints, start).combo), c.exclusions + more))
    ensures Originates(sp, Cover(c.seen, c.exclusions + more))
  {
    hide IsStart, Explained, Known, Repaired;
  }

  lemma ComplaintExplained(sp: Space, start: Combo)
    requires IsStart(sp, start)
    ensures forall e :: e in Complaint(sp.constraints, Repaired(sp.constraints, start).combo) ==> Explained(sp, e)
  {
    hide IsStart, Repaired, Check;
  }

  lemma TryValueOriginates(sp: Space, axis: string, value: Value, c: Cover)
    requires Originates(sp, c) && IsMove(sp, axis, value)
    ensures Originates(sp, TryValue(sp, axis, value, c))
  {
    var start, p := sp.defaults[axis := value], Moved(sp, axis, value);
    assert IsStart(sp, start);
    var lost := if Get(p.combo, axis) != value then RepairExclusion(axis, value, p.changes) else [];
    CitedIsFirst(axis, value, p.changes);
    hide IsStart, IsValid, Repaired, Add, Originates, FirstMove, RepairExclusion, Complaint, IsMove;
    assert forall e :: e in lost ==> LostValue(sp, axis, value, e);
    assert forall e :: e in lost ==> Explained(sp, e);
    hide Explained;
    KeepOriginates(sp, c, start, lost);
    ComplaintExplained(sp, start);
    KeepOriginates(sp, c, start, Complaint(sp.constraints, p.combo));
  }

  lemma {:induction false} TryValuesOriginates(sp: Space, axis: string, values: seq<Value>, c: Cover)
    requires Originates(sp, c) && forall v :: v in values ==> IsMove(sp, axis, v)
    ensures Originates(sp, TryValues(sp, axis, values, c))
  {
    hide Originates, IsMove, TryValue;
    if values != [] {
      TryValuesOriginates(sp, axis, values[..|values| - 1], c);
      TryValueOriginates(sp, axis, values[|values| - 1], TryValues(sp, axis, values[..|values| - 1], c));
    }
  }

  lemma {:induction false} TryAxesOriginates(sp: Space, axes: seq<AxisSpec>, c: Cover)
    requires Originates(sp, c) && forall a :: a in axes ==> a in sp.axes
    ensures Originates(sp, TryAxes(sp, axes, c))
  {
    hide Originates, TryValues;
    if axes != [] {
      var last := axes[|axes| - 1];
      TryAxesOriginates(sp, axes[..|axes| - 1], c);
      assert last in axes && forall v :: v in last.values ==> IsMove(sp, last.name, v);
      hide IsMove;
      TryValuesOriginates(sp, last.name, last.values, TryAxes(sp, axes[..|axes| - 1], c));
    }
  }

  lemma TryPairOriginates(sp: Space, node: Value, engine: Value, c: Cover)
    requires Originates(sp, c) && (engine != Get(sp.defaults, "engine") ==> IsPair(sp, node, engine))
    ensures Originates(sp, TryPair(sp, node, engine, c))
  {
    var start := Paired(sp, node, engine);
    if engine != Get(sp.defaults, "engine") {
      assert IsStart(sp, start);
      hide IsStart, IsPair, IsValid, Repaired, Add, Originates, Complaint, Explained;
      KeepOriginates(sp, c, start, []);
      assert c.exclusions + [] == c.exclusions;
      ComplaintExplained(sp, start);
      KeepOriginates(sp, c, start, Complaint(sp.constraints, Repaired(sp.constraints, start).combo));
    }
  }

  lemma {:induction false} TryEnginesOriginates(sp: Space, node: Value, engines: seq<Value>, c: Cover)
    requires Originates(sp, c)
    requires forall e :: e in engines && e != Get(sp.defaults, "engine") ==> IsPair(sp, node, e)
    ensures Originates(sp, TryEngines(sp, node, engines, c))
  {
    hide Originates, IsPair, TryPair;
    if engines != [] {
      TryEnginesOriginates(sp, node, engines[..|engines| - 1], c);
      TryPairOriginates(sp, node, engines[|engines| - 1], TryEngines(sp, node, engines[..|engines| - 1], c));
    }
  }

  lemma {:induction false} TryNodesOriginates(sp: Space, nodes: seq<Value>, c: Cover)
    requires Originates(sp, c)
    requires forall n, e :: n in nodes && n != Get(sp.defaults, "process_node") &&
                            e in sp.engines && e != Get(sp.defaults, "engine") ==>
                              IsPair(sp, n, e)
    ensures Originates(sp, TryNodes(sp, nodes, c))
  {
    hide Originates, IsPair, TryEngines;
    if nodes != [] {
      TryNodesOriginates(sp, nodes[..|nodes| - 1], c);
      if nodes[|nodes| - 1] != Get(sp.defaults, "process_node") {
        TryEnginesOriginates(sp, nodes[|nodes| - 1], sp.engines, TryNodes(sp, nodes[..|nodes| - 1], c));
      }
    }
  }

  lemma {:induction false} ValuesAreListed(axes: seq<AxisSpec>, name: string)
    ensures forall v :: v in ValuesOf(axes, name) ==> exists a :: a in axes && a.name == name && v in a.values
  {
    if axes != [] {
      ValuesAreListed(axes[1..], name);
      assert axes[0] in axes;
      assert forall a :: a in axes[1..] ==> a in axes;
    }
  }

  lemma CrossedPairs(sp: Space)
    requires CrossesEngines(sp)
    ensures forall n, e :: n in ValuesOf(sp.axes, "process_node") && n != Get(sp.defaults, "process_node") &&
                           e in sp.engines && e != Get(sp.defaults, "engine") ==>
                             IsPair(sp, n, e)
  {
    ValuesAreListed(sp.axes, "process_node");
    var i :| 0 <= i < |sp.axes| && sp.axes[i].name == "engine";
    assert sp.axes[i] in sp.axes;
    hide ValuesOf;
  }

  // Nothing is generated or excluded but for these reasons.
  lemma CoverOriginates(sp: Space)
    ensures Originates(sp, Covered(sp))
  {
    assert IsStart(sp, sp.defaults);
    hide IsStart, Explained, IsValid, Repaired, TryAxes, TryNodes;
    var start := Begun(sp);
    assert Originates(sp, start);
    hide Originates, Begun;
    TryAxesOriginates(sp, sp.axes, start);
    if CrossesEngines(sp) {
      CrossedPairs(sp);
      TryNodesOriginates(sp, ValuesOf(sp.axes, "process_node"), TryAxes(sp, sp.axes, start));
    }
  }
}
