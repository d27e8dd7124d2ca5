// The coverage manifest as an object: every recording method is the ledger's
// step, and validation reports nothing exactly for a valid book.
module Manifest {
  import opened DesignModels
  import opened Enumeration
  import opened Ledger
  import opened Ordering

  // ---- opening the book ----

  function Unseen(spec: AxisSpec): Axis {
    Axis(set v | v in spec.values, {}, {}, {}, {}, {}, {}, [])
  }

  function Requested(axes: seq<AxisSpec>): map<string, Axis> {
    if axes == [] then map[] else Requested(axes[..|axes| - 1])[axes[|axes| - 1].name := Unseen(axes[|axes| - 1])]
  }

  datatype Field = GeneratedField | EvaluatedField | SuccessfulField | PrunedField | FailedField | FilteredField

  function Put(field: Field, v: Value, a: Axis): Axis {
    match field
    case GeneratedField => a.(generated := a.generated + {v})
    case EvaluatedField => a.(evaluated := a.evaluated + {v})
    case SuccessfulField => a.(successful := a.successful + {v})
    case PrunedField => a.(pruned := a.pruned + {v})
    case FailedField => a.(failed := a.failed + {v})
    case FilteredField => a.(filtered := a.filtered + {v})
  }

  // The point's value goes into one of the sets of every axis it binds.
  function Mark(field: Field, values: Combo, axes: map<string, Axis>): map<string, Axis> {
    map n | n in axes :: if n in values then Put(field, values[n], axes[n]) else axes[n]
  }

  // Before and after a point's success is cleared: its id and its axis values
  // have left the evaluated and the successful sets, and nothing else changed.
  ghost predicate Clears(point: Point, before: Book, after: Book) {
    && after == before.(evaluated := after.evaluated, successful := after.successful, axes := after.axes)
    && (forall id :: id in after.evaluated <==> id in before.evaluated && id != point.id)
    && (forall id :: id in after.successful <==> id in before.successful && id != point.id)
    && after.axes.Keys == before.axes.Keys
    && forall n :: n in before.axes ==> ClearsAxis(point, n, before.axes[n], after.axes[n])
  }

  ghost predicate ClearsAxis(point: Point, name: string, before: Axis, after: Axis) {
    && after == before.(evaluated := after.evaluated, successful := after.successful)
    && (forall v :: v in after.evaluated <==> v in before.evaluated && !Carries(point, name, v))
    && (forall v :: v in after.successful <==> v in before.successful && !Carries(point, name, v))
  }

  lemma DiscardClears(point: Point, name: string, a: Axis)
    ensures name !in point.values ==> ClearsAxis(point, name, a, a)
    ensures name in point.values ==>
      var v := point.values[name];
      ClearsAxis(point, name, a, a.(evaluated := a.evaluated - {v}, successful := a.successful - {v}))
  {
  }

  // With its exclusion and the pruned mark, a cleared axis is a pruned one.
  lemma PrunedAxis(point: Point, name: string, reason: string, before: Axis, after: Axis)
    requires ClearsAxis(point, name, before, after)
    ensures name !in point.values ==> after == before
    ensures name in point.values ==>
      var v := point.values[name];
      var marked := Put(PrunedField, v, after);
      marked.(exclusions := marked.exclusions + [Exclusion(name, v, reason, "")]) ==
        Touch(Pruned(reason), name, v, before)
  {
    if name in point.values {
      assert after.evaluated == before.evaluated - {point.values[name]}
        && after.successful == before.successful - {point.values[name]};
    } else {
      assert after.evaluated == before.evaluated && after.successful == before.successful;
    }
  }

  // No trace of the point yet: neither its id nor any of its axis values.
  ghost predicate Unlisted(point: Point, b: Book) {
    && point.id !in b.evaluated && point.id !in b.successful
    && forall n :: n in b.axes && n in point.values ==>
         point.values[n] !in b.axes[n].evaluated && point.values[n] !in b.axes[n].successful
  }

  // Clearing takes back a success exactly when the book held no trace of the
  // point before; otherwise it also takes what other points had listed.
  lemma ClearUndoesSuccess(point: Point, b: Book, after: Book)
    requires Clears(point, Record(Event(Success, point), b), after)
    ensures after == b <==> Unlisted(point, b)
  {
    var mid := Record(Event(Success, point), b);
    if Unlisted(point, b) {
      forall n | n in b.axes ensures after.axes[n] == b.axes[n] {
        assert ClearsAxis(point, n, mid.axes[n], after.axes[n]);
        assert after.axes[n].evaluated == b.axes[n].evaluated && after.axes[n].successful == b.axes[n].successful;
      }
      assert after.evaluated == b.evaluated && after.successful == b.successful && after.axes == b.axes;
    } else if point.id !in b.evaluated && point.id !in b.successful {
      var n :| n in b.axes && n in point.values &&
               (point.values[n] in b.axes[n].evaluated || point.values[n] in b.axes[n].successful);
      assert ClearsAxis(point, n, mid.axes[n], after.axes[n]) && Carries(point, n, point.values[n]);
    }
  }

  function MarkGenerated(points: seq<Point>, axes: map<string, Axis>): map<string, Axis> {
    if points == [] then axes
    else Mark(GeneratedField, points[|points| - 1].values, MarkGenerated(points[..|points| - 1], axes))
  }

  function AddExclusion(e: Exclusion, axes: map<string, Axis>): map<string, Axis> {
    if e.axis in axes then axes[e.axis := axes[e.axis].(exclusions := axes[e.axis].exclusions + [e])] else axes
  }

  function AddExclusions(es: seq<Exclusion>, axes: map<string, Axis>): map<string, Axis> {
    if es == [] then axes else AddExclusion(es[|es| - 1], AddExclusions(es[..|es| - 1], axes))
  }

  function Opened(axes: seq<AxisSpec>, points: seq<Point>, exclusions: seq<Exclusion>): Book {
    Book({}, {}, {}, {}, {}, AddExclusions(exclusions, MarkGenerated(points, Requested(axes))))
  }

  lemma {:induction false} RequestedAxis(axes: seq<AxisSpec>, spec: AxisSpec)
    requires DistinctNames(axes) && spec in axes
    ensures spec.name in Requested(axes) && Requested(axes)[spec.name] == Unseen(spec)
  {
    hide Unseen;
    var front, last := axes[..|axes| - 1], axes[|axes| - 1];
    assert axes == front + [last];
    if spec != last {
      var i :| 0 <= i < |front| && front[i] == spec;
      assert axes[i].name != last.name;
      RequestedAxis(front, spec);
    }
  }

  lemma {:induction false} RequestedNames(axes: seq<AxisSpec>, name: string)
    requires name in Requested(axes)
    ensures exists spec :: spec in axes && spec.name == name
  {
    var front, last := axes[..|axes| - 1], axes[|axes| - 1];
    assert axes == front + [last];
    if name == last.name {
      assert last in axes;
    } else {
      RequestedNames(front, name);
    }
  }

  lemma {:induction false} GeneratedAxis(points: seq<Point>, axes: map<string, Axis>, name: string)
    requires name in axes && axes[name].generated == {}
    ensures name in MarkGenerated(points, axes)
    ensures MarkGenerated(points, axes)[name] == axes[name].(generated := MarkGenerated(points, axes)[name].generated)
    ensures forall v :: v in MarkGenerated(points, axes)[name].generated <==>
            exists p :: p in points && Carries(p, name, v)
  {
    if points != [] {
      var front, last := points[..|points| - 1], points[|points| - 1];
      assert points == front + [last];
      GeneratedAxis(front, axes, name);
      var before := MarkGenerated(front, axes);
      assert MarkGenerated(points, axes) == Mark(GeneratedField, last.values, before);
      hide MarkGenerated;
      forall v
        ensures v in Mark(GeneratedField, last.values, before)[name].generated <==>
                exists p :: p in points && Carries(p, name, v)
      {
        assert v in Mark(GeneratedField, last.values, before)[name].generated <==>
          Carries(last, name, v) || v in before[name].generated;
        if Carries(last, name, v) {
          assert last in points;
        }
        if p :| p in front && Carries(p, name, v) {
          assert p in points;
        }
      }
    }
  }

  lemma {:induction false} ExcludedAxis(es: seq<Exclusion>, axes: map<string, Axis>, name: string)
    requires name in axes && axes[name].exclusions == []
    ensures name in AddExclusions(es, axes)
    ensures AddExclusions(es, axes)[name] == axes[name].(exclusions := AddExclusions(es, axes)[name].exclusions)
    ensures forall e :: e in AddExclusions(es, axes)[name].exclusions <==> e in es && e.axis == name
  {
    if es != [] {
      ExcludedAxis(es[..|es| - 1], axes, name);
      assert es == es[..|es| - 1] + [es[|es| - 1]];
    }
  }

  // The opened book lists, for every axis, the requested values, the values of
  // the generated points and the exclusions of that axis, and no outcome.
  lemma OpenedExactly(axes: seq<AxisSpec>, points: seq<Point>, exclusions: seq<Exclusion>, spec: AxisSpec)
    requires DistinctNames(axes) && spec in axes
    ensures var b := Opened(axes, points, exclusions);
            && Blank(b) && spec.name in b.axes
            && b.axes[spec.name] == Unseen(spec).(generated := b.axes[spec.name].generated,
                                                  exclusions := b.axes[spec.name].exclusions)
            && (forall v :: v in b.axes[spec.name].generated <==> exists p :: p in points && Carries(p, spec.name, v))
            && (forall e :: e in b.axes[spec.name].exclusions <==> e in exclusions && e.axis == spec.name)
  {
    hide Requested, MarkGenerated, AddExclusions, Carries;
    RequestedAxis(axes, spec);
    GeneratedAxis(points, Requested(axes), spec.name);
    ExcludedAxis(exclusions, MarkGenerated(points, Requested(axes)), spec.name);
  }

  lemma {:induction false} OpenedNames(axes: seq<AxisSpec>, points: seq<Point>, exclusions: seq<Exclusion>,
                                       name: string)
    requires name in Opened(axes, points, exclusions).axes
    ensures exists spec :: spec in axes && spec.name == name
  {
    KeysKept(points, exclusions, Requested(axes));
    hide MarkGenerated, AddExclusions;
    RequestedNames(axes, name);
  }

  lemma KeysKept(points: seq<Point>, exclusions: seq<Exclusion>, axes: map<string, Axis>)
    ensures AddExclusions(exclusions, MarkGenerated(points, axes)).Keys == axes.Keys
  {
    GeneratedKeys(points, axes);
    ExclusionKeys(exclusions, MarkGenerated(points, axes));
  }

  lemma {:induction false} GeneratedKeys(points: seq<Point>, axes: map<string, Axis>)
    ensures MarkGenerated(points, axes).Keys == axes.Keys
  {
    if points != [] {
      GeneratedKeys(points[..|points| - 1], axes);
    }
  }

  lemma {:induction false} ExclusionKeys(es: seq<Exclusion>, axes: map<string, Axis>)
    ensures AddExclusions(es, axes).Keys == axes.Keys
  {
    if es != [] {
      ExclusionKeys(es[..|es| - 1], axes);
    }
  }

  // ---- the object ----

  datatype Problem = GeneratedMismatch | EvaluatedMismatch | DuplicateIds(ids: set<string>) |
    MissingValues(axis: string, values: set<Value>)

  class CoverageManifest {
    const points: seq<Point>
    var coverage: map<string, Axis>
    var evaluatedIds: set<string>
    var prunedIds: set<string>
    var successfulIds: set<string>
    var filteredIds: set<string>
    var failedIds: set<string>

    function State(): Book
      reads this
    {
      Book(evaluatedIds, prunedIds, successfulIds, filteredIds, failedIds, coverage)
    }

    constructor (axes: seq<AxisSpec>, points: seq<Point>, exclusions: seq<Exclusion>)
      ensures this.points == points && State() == Opened(axes, points, exclusions)
    {
      this.points := points;
      evaluatedIds, prunedIds, successfulIds, filteredIds, failedIds := {}, {}, {}, {}, {};
      coverage := map[];
      new;
      hide Put, Mark, Unseen, AddExclusion;
      for i := 0 to |axes|
        invariant coverage == Requested(axes[..i]) && State() == Book({}, {}, {}, {}, {}, coverage)
      {
        assert axes[..i + 1][..i] == axes[..i];
        coverage := coverage[axes[i].name := Unseen(axes[i])];
      }
      assert axes[..|axes|] == axes;
      for i := 0 to |points|
        invariant coverage == MarkGenerated(points[..i], Requested(axes))
                  && State() == Book({}, {}, {}, {}, {}, coverage)
      {
        assert points[..i + 1][..i] == points[..i];
        MarkAxes(GeneratedField, points[i]);
      }
      assert points[..|points|] == points;
      for i := 0 to |exclusions|
        invariant coverage == AddExclusions(exclusions[..i], MarkGenerated(points, Requested(axes)))
        invariant State() == Book({}, {}, {}, {}, {}, coverage)
      {
        assert exclusions[..i + 1][..i] == exclusions[..i];
        coverage := AddExclusion(exclusions[i], coverage);
      }
      assert exclusions[..|exclusions|] == exclusions;
    }

    // Axis after axis of the point.
    method MarkAxes(field: Field, point: Point)
      modifies this`coverage
      ensures coverage == Mark(field, point.values, old(coverage))
    {
      hide Put;
      var names := Listed(point.values.Keys);
      for i := 0 to |names|
        invariant coverage.Keys == old(coverage).Keys
        invariant forall n :: n in coverage ==>
          coverage[n] == if n in names[..i] then Put(field, point.values[n], old(coverage)[n]) else old(coverage)[n]
      {
        if names[i] in coverage {
          coverage := coverage[names[i] := Put(field, point.values[names[i]], coverage[names[i]])];
        }
      }
    }

    method RecordEvaluated(point: Point)
      modifies this
      ensures State() == Record(Event(Evaluated, point), old(State()))
    {
      evaluatedIds := evaluatedIds + {point.id};
      MarkAxes(EvaluatedField, point);
      assert coverage == TouchAll(Evaluated, point.values, old(coverage));
    }

    method RecordSuccess(point: Point)
      modifies this
      ensures State() == Record(Event(Success, point), old(State()))
    {
      RecordEvaluated(point);
      successfulIds := successfulIds + {point.id};
      MarkAxes(SuccessfulField, point);
      assert coverage == TouchAll(Success, point.values, old(coverage));
    }

    // Axis after axis: another point's evaluation or success on a shared value
    // is forgotten along with this one's.
    method ClearSuccessState(point: Point)
      modifies this`evaluatedIds, this`successfulIds, this`coverage
      ensures Clears(point, old(State()), State())
    {
      hide ClearsAxis;
      evaluatedIds := evaluatedIds - {point.id};
      successfulIds := successfulIds - {point.id};
      forall n | n in coverage {
        DiscardClears(point, n, coverage[n]);
      }
      var names := Listed(point.values.Keys);
      for i := 0 to |names|
        invariant evaluatedIds == old(evaluatedIds) - {point.id} && successfulIds == old(successfulIds) - {point.id}
        invariant coverage.Keys == old(coverage).Keys
        invariant forall n :: n in coverage && n in names[..i] ==> ClearsAxis(point, n, old(coverage)[n], coverage[n])
        invariant forall n :: n in coverage && n !in names[..i] ==> coverage[n] == old(coverage)[n]
      {
        var n := names[i];
        assert n in names[..i + 1] && n !in names[..i];
        if n in coverage {
          var v := point.values[n];
          coverage := coverage[n := coverage[n].(evaluated := coverage[n].evaluated - {v},
            successful := coverage[n].successful - {v})];
        }
      }
    }

    // Every known axis of the point gains one exclusion, for the point's value.
    method AddPointExclusion(point: Point, reason: string)
      modifies this`coverage
      ensures coverage.Keys == old(coverage).Keys
      ensures forall n :: n in coverage && n in point.values ==>
        coverage[n] == old(coverage)[n].(exclusions :=
          old(coverage)[n].exclusions + [Exclusion(n, point.values[n], reason, "")])
      ensures forall n :: n in coverage && n !in point.values ==> coverage[n] == old(coverage)[n]
    {
      var names := Listed(point.values.Keys);
      for i := 0 to |names|
        invariant coverage.Keys == old(coverage).Keys
        invariant forall n :: n in coverage && n in names[..i] ==>
          coverage[n] == old(coverage)[n].(exclusions :=
            old(coverage)[n].exclusions + [Exclusion(n, point.values[n], reason, "")])
        invariant forall n :: n in coverage && n !in names[..i] ==> coverage[n] == old(coverage)[n]
      {
        var n := names[i];
        if n in coverage {
          coverage := coverage[n := coverage[n].(exclusions :=
            coverage[n].exclusions + [Exclusion(n, point.values[n], reason, "")])];
        }
      }
    }

    method RecordPruned(point: Point, reason: string)
      modifies this
      ensures State() == Record(Event(Pruned(reason), point), old(State()))
    {
      hide Put, Touch, ClearsAxis;
      ClearSuccessState(point);
      ghost var cleared := coverage;
      prunedIds := prunedIds + {point.id};
      MarkAxes(PrunedField, point);
      ghost var marked := coverage;
      AddPointExclusion(point, reason);
      forall n | n in coverage ensures coverage[n] == TouchAll(Pruned(reason), point.values, old(coverage))[n] {
        PrunedAxis(point, n, reason, old(coverage)[n], cleared[n]);
        assert n in point.values ==> marked[n] == Put(PrunedField, point.values[n], cleared[n]);
      }
      assert coverage == TouchAll(Pruned(reason), point.values, old(coverage));
    }

    method RecordFailed(point: Point)
      modifies this
      ensures State() == Record(Event(Failed, point), old(State()))
    {
      successfulIds := successfulIds - {point.id};
      RecordEvaluated(point);
      failedIds := failedIds + {point.id};
      MarkAxes(FailedField, point);
      assert coverage == TouchAll(Failed, point.values, old(coverage));
    }

    method RecordFiltered(point: Point)
      modifies this
      ensures State() == Record(Event(Filtered, point), old(State()))
    {
      successfulIds := successfulIds - {point.id};
      RecordEvaluated(point);
      filteredIds := filteredIds + {point.id};
      MarkAxes(FilteredField, point);
      assert coverage == TouchAll(Filtered, point.values, old(coverage));
    }

    // The ids that more than one point carries.
    method FindDuplicates() returns (duplicates: set<string>)
      ensures forall id :: id in duplicates <==>
              exists i, j :: 0 <= i < j < |points| && points[i].id == points[j].id == id
      ensures duplicates != {} <==> HasDuplicates(points)
    {
      var seen := {};
      duplicates := {};
      for k := 0 to |points|
        invariant forall id :: id in seen <==> exists i :: 0 <= i < k && points[i].id == id
        invariant forall id :: id in duplicates <==> exists i, j :: 0 <= i < j < k && points[i].id == points[j].id == id
      {
        if points[k].id in seen {
          duplicates := duplicates + {points[k].id};
        }
        seen := seen + {points[k].id};
      }
      if i, j :| 0 <= i < j < |points| && points[i].id == points[j].id {
        assert points[i].id in duplicates;
      }
    }

    // Nothing to report exactly when the book is valid.
    method Validate() returns (problems: seq<Problem>)
      ensures problems == [] <==> Valid(points, State())
      ensures GeneratedMismatch in problems <==> |points| != Count(points, evaluatedIds) + Count(points, prunedIds)
      ensures EvaluatedMismatch in problems <==>
                Count(points, evaluatedIds) != Count(points, successfulIds) + Count(points, filteredIds)
                  + Count(points, failedIds)
      ensures forall n, vs :: MissingValues(n, vs) in problems <==> n in coverage && vs == Missing(coverage[n]) != {}
      ensures (exists ids :: DuplicateIds(ids) in problems) <==> HasDuplicates(points)
      ensures forall ids, id :: DuplicateIds(ids) in problems ==>
                (id in ids <==> exists i, j :: 0 <= i < j < |points| && points[i].id == points[j].id == id)
    {
      hide Missing, Count;
      problems := [];
      if |points| != Count(points, evaluatedIds) + Count(points, prunedIds) {
        problems := problems + [GeneratedMismatch];
      }
      if Count(points, evaluatedIds) != Count(points, successfulIds) + Count(points, filteredIds)
        + Count(points, failedIds) {
        problems := problems + [EvaluatedMismatch];
      }
      var duplicates := FindDuplicates();
      if duplicates != {} {
        problems := problems + [DuplicateIds(duplicates)];
      }
      var missing := FindMissing();
      assert forall p :: p in problems + missing <==> p in problems || p in missing;
      problems := problems + missing;
    }

    method FindMissing() returns (missing: seq<Problem>)
      ensures forall p :: p in missing <==>
              exists n :: n in coverage && p == MissingValues(n, Missing(coverage[n])) && Missing(coverage[n]) != {}
      ensures missing == [] <==> forall n :: n in coverage ==> Missing(coverage[n]) == {}
    {
      hide Missing;
      missing := [];
      var names := Listed(coverage.Keys);
      for i := 0 to |names|
        invariant forall p :: p in missing <==>
          exists n :: n in names[..i] && p == MissingValues(n, Missing(coverage[n])) && Missing(coverage[n]) != {}
        invariant missing == [] <==> forall n :: n in names[..i] ==> Missing(coverage[n]) == {}
      {
        assert names[..i + 1] == names[..i] + [names[i]];
        if Missing(coverage[names[i]]) != {} {
          missing := missing + [MissingValues(names[i], Missing(coverage[names[i]]))];
        }
      }
      assert names[..|names|] == names;
    }
  }

  // ---- the runner's loop ----

  // One verdict per point stands for its evaluation.
  method RunPoints(points: seq<Point>, ok: seq<bool>, manifest: CoverageManifest)
    requires |points| == |ok|
    modifies manifest
    ensures manifest.State() == RecordAll(RunEvents(points, ok), old(manifest.State()))
  {
    hide Record;
    for i := 0 to |points|
      invariant manifest.State() == RecordAll(RunEvents(points[..i], ok[..i]), old(manifest.State()))
    {
      manifest.RecordEvaluated(points[i]);
      if ok[i] {
        manifest.RecordSuccess(points[i]);
      } else {
        manifest.RecordFailed(points[i]);
      }
      assert points[..i + 1][..i] == points[..i] && ok[..i + 1][..i] == ok[..i];
      LastRun(points[..i + 1], ok[..i + 1], old(manifest.State()));
    }
    assert points[..|points|] == points && ok[..|ok|] == ok;
  }

  // A run leaves requests, generated values and exclusions alone.
  ghost predicate SameCoverage(a: Book, b: Book) {
    a.axes.Keys == b.axes.Keys && forall n :: n in a.axes ==> Missing(a.axes[n]) == Missing(b.axes[n])
  }

  lemma RecordKeepsCoverage(e: Event, b: Book)
    requires !e.kind.Pruned?
    ensures SameCoverage(b, Record(e, b))
  {
    var r := Record(e, b);
    forall n | n in b.axes ensures Missing(b.axes[n]) == Missing(r.axes[n]) {
      assert r.axes[n].requested == b.axes[n].requested && r.axes[n].generated == b.axes[n].generated;
      assert r.axes[n].exclusions == b.axes[n].exclusions;
    }
  }

  lemma {:induction false} RunKeepsCoverage(points: seq<Point>, ok: seq<bool>, b: Book)
    requires |points| == |ok|
    ensures SameCoverage(b, RecordAll(RunEvents(points, ok), b))
  {
    hide Record, Missing;
    if points != [] {
      var n := |points| - 1;
      RunKeepsCoverage(points[..n], ok[..n], b);
      LastRun(points, ok, b);
      var before := RecordAll(RunEvents(points[..n], ok[..n]), b);
      RecordKeepsCoverage(Event(Evaluated, points[n]), before);
      RecordKeepsCoverage(Event(if ok[n] then Success else Failed, points[n]),
        Record(Event(Evaluated, points[n]), before));
    }
  }

  // After a run over distinct points the manifest is valid exactly when nothing
  // was missing when it was opened.
  lemma RunValidExactly(points: seq<Point>, ok: seq<bool>, b: Book)
    requires |points| == |ok| && Blank(b) && !HasDuplicates(points)
    ensures Valid(points, RecordAll(RunEvents(points, ok), b)) <==> forall n :: n in b.axes ==> Missing(b.axes[n]) == {}
  {
    hide RecordAll, RunEvents, Missing, CountsBalance, HasDuplicates, RunShows;
    RunLeaves(points, ok, b);
    RunnerCountsExactly(points, ok, RecordAll(RunEvents(points, ok), b));
    RunKeepsCoverage(points, ok, b);
  }
}
