// The coverage ledger: which points were evaluated, succeeded, failed, were
// filtered or pruned, and when its two counting invariants hold.
module Ledger {
  import opened DesignModels

  datatype Point = Point(id: string, values: Combo)

  datatype Axis = Axis(requested: set<Value>, generated: set<Value>, evaluated: set<Value>, successful: set<Value>,
                       pruned: set<Value>, failed: set<Value>, filtered: set<Value>, exclusions: seq<Exclusion>)

  datatype Book = Book(evaluated: set<string>, pruned: set<string>, successful: set<string>, filtered: set<string>,
                       failed: set<string>, axes: map<string, Axis>)

  datatype Kind = Evaluated | Success | Failed | Filtered | Pruned(reason: string)

  datatype Event = Event(kind: Kind, point: Point)

  // ---- recording ----

  // What an event does to the entry of one axis the point has the value v on.
  function Touch(kind: Kind, name: string, v: Value, a: Axis): Axis {
    match kind
    case Evaluated => a.(evaluated := a.evaluated + {v})
    case Success => a.(evaluated := a.evaluated + {v}, successful := a.successful + {v})
    case Failed => a.(evaluated := a.evaluated + {v}, failed := a.failed + {v})
    case Filtered => a.(evaluated := a.evaluated + {v}, filtered := a.filtered + {v})
    case Pruned(reason) =>
      a.(evaluated := a.evaluated - {v}, successful := a.successful - {v}, pruned := a.pruned + {v},
         exclusions := a.exclusions + [Exclusion(name, v, reason, "")])
  }

  function TouchAll(kind: Kind, values: Combo, axes: map<string, Axis>): (r: map<string, Axis>)
    ensures r.Keys == axes.Keys
  {
    map n | n in axes :: if n in values then Touch(kind, n, values[n], axes[n]) else axes[n]
  }

  function Record(e: Event, b: Book): Book {
    var id := e.point.id;
    var axes := TouchAll(e.kind, e.point.values, b.axes);
    match e.kind
    case Evaluated => b.(evaluated := b.evaluated + {id}, axes := axes)
    case Success => b.(evaluated := b.evaluated + {id}, successful := b.successful + {id}, axes := axes)
    case Failed => b.(evaluated := b.evaluated + {id}, successful := b.successful - {id}, failed := b.failed + {id},
      axes := axes)
    case Filtered => b.(evaluated := b.evaluated + {id}, successful := b.successful - {id},
      filtered := b.filtered + {id}, axes := axes)
    case Pruned(_) => b.(evaluated := b.evaluated - {id}, successful := b.successful - {id}, pruned := b.pruned + {id},
      axes := axes)
  }

  function RecordAll(events: seq<Event>, b: Book): Book {
    if events == [] then b else Record(events[|events| - 1], RecordAll(events[..|events| - 1], b))
  }

  ghost predicate Blank(b: Book) {
    b.evaluated == {} && b.pruned == {} && b.successful == {} && b.filtered == {} && b.failed == {}
  }

  // ---- one point's history ----

  // The kinds of the events about one id, in order.
  function History(events: seq<Event>, id: string): seq<Kind> {
    if events == [] then []
    else
      var last := events[|events| - 1];
      History(events[..|events| - 1], id) + if last.point.id == id then [last.kind] else []
  }

  // The last event that is more than an evaluation.
  function LastOutcome(h: seq<Kind>): Kind {
    if h == [] then Evaluated
    else if h[|h| - 1] != Evaluated then h[|h| - 1]
    else LastOutcome(h[..|h| - 1])
  }

  predicate Has(h: seq<Kind>, k: Kind) {
    k in h
  }

  predicate HasPruned(h: seq<Kind>) {
    exists i :: 0 <= i < |h| && h[i].Pruned?
  }

  // What the history leaves in the five sets.
  ghost predicate BookShows(b: Book, id: string, h: seq<Kind>) {
    && (id in b.evaluated <==> h != [] && !h[|h| - 1].Pruned?)
    && (id in b.successful <==> LastOutcome(h) == Success)
    && (id in b.failed <==> Has(h, Failed))
    && (id in b.filtered <==> Has(h, Filtered))
    && (id in b.pruned <==> HasPruned(h))
  }

  lemma HistoryGrows(h: seq<Kind>, k: Kind)
    ensures Has(h + [k], Failed) <==> Has(h, Failed) || k == Failed
    ensures Has(h + [k], Filtered) <==> Has(h, Filtered) || k == Filtered
    ensures HasPruned(h + [k]) <==> HasPruned(h) || k.Pruned?
    ensures LastOutcome(h + [k]) == if k == Evaluated then LastOutcome(h) else k
  {
    assert (h + [k])[..|h|] == h;
    if HasPruned(h) {
      var i :| 0 <= i < |h| && h[i].Pruned?;
      assert (h + [k])[i].Pruned?;
    }
    if k.Pruned? {
      assert (h + [k])[|h|].Pruned?;
    }
  }

  lemma {:induction false} BookShowsHistory(events: seq<Event>, b: Book, id: string)
    requires Blank(b)
    ensures BookShows(RecordAll(events, b), id, History(events, id))
  {
    hide TouchAll, LastOutcome, Has, HasPruned;
    if events == [] {
      EmptyHistory();
    } else {
      var front, last := events[..|events| - 1], events[|events| - 1];
      BookShowsHistory(front, b, id);
      HistoryGrows(History(front, id), last.kind);
      assert History(front, id) + [] == History(front, id);
    }
  }

  lemma EmptyHistory()
    ensures LastOutcome([]) == Evaluated && !Has([], Failed) && !Has([], Filtered) && !HasPruned([])
  {
  }

  // ---- the counting invariants ----

  // Pruned and nothing else, or evaluated with exactly one outcome.
  ghost predicate Balanced(b: Book, id: string) {
    if id in b.pruned then
      id !in b.evaluated && id !in b.successful && id !in b.failed && id !in b.filtered
    else
      && id in b.evaluated
      && (id in b.successful || id in b.failed || id in b.filtered)
      && !(id in b.successful && id in b.failed) && !(id in b.successful && id in b.filtered)
      && !(id in b.failed && id in b.filtered)
  }

  // The histories that leave a point balanced: a pruned one ends with its
  // pruning and never failed or was filtered; any other has an outcome, and no
  // failure or filtering other than the outcome it ends with.
  ghost predicate Clean(h: seq<Kind>) {
    if HasPruned(h) then h[|h| - 1].Pruned? && !Has(h, Failed) && !Has(h, Filtered)
    else
      && LastOutcome(h) != Evaluated
      && (Has(h, Failed) ==> LastOutcome(h) == Failed)
      && (Has(h, Filtered) ==> LastOutcome(h) == Filtered)
  }

  lemma {:induction false} OutcomeInHistory(h: seq<Kind>)
    ensures LastOutcome(h) == Evaluated || LastOutcome(h) in h
    ensures LastOutcome(h) == Evaluated <==> forall k :: k in h ==> k == Evaluated
    ensures h != [] && h[|h| - 1].Pruned? ==> LastOutcome(h).Pruned?
  {
    if h != [] {
      OutcomeInHistory(h[..|h| - 1]);
      assert h == h[..|h| - 1] + [h[|h| - 1]];
    }
  }

  // A point is balanced exactly when its history is clean.
  lemma BalancedExactly(events: seq<Event>, b: Book, id: string)
    requires Blank(b)
    ensures Balanced(RecordAll(events, b), id) <==> Clean(History(events, id))
  {
    var h := History(events, id);
    BookShowsHistory(events, b, id);
    OutcomeInHistory(h);
    if LastOutcome(h).Pruned? {
      var i :| 0 <= i < |h| && h[i] == LastOutcome(h);
    }
    hide RecordAll, History, LastOutcome;
  }

  // The documented shape: evaluated and successful any number of times, then at
  // most one reclassification.
  ghost predicate Documented(h: seq<Kind>) {
    && (forall i :: 0 <= i < |h| - 1 ==> h[i] == Evaluated || h[i] == Success)
    && exists k :: k in h && k != Evaluated
  }

  lemma DocumentedIsClean(h: seq<Kind>)
    requires Documented(h)
    ensures Clean(h)
  {
    OutcomeInHistory(h);
    forall i | 0 <= i < |h| && (h[i] == Failed || h[i] == Filtered || h[i].Pruned?)
      ensures i == |h| - 1 && LastOutcome(h) == h[i]
    {
    }
  }

  // Along the way of a documented history no two outcomes are held at once.
  lemma OutcomesDisjoint(events: seq<Event>, b: Book, id: string)
    requires Blank(b)
    requires var h := History(events, id); forall i :: 0 <= i < |h| - 1 ==> h[i] == Evaluated || h[i] == Success
    ensures var r := RecordAll(events, b);
            && !(id in r.successful && (id in r.failed || id in r.filtered || id in r.pruned))
            && !(id in r.failed && (id in r.filtered || id in r.pruned)) && !(id in r.filtered && id in r.pruned)
  {
    var h := History(events, id);
    BookShowsHistory(events, b, id);
    hide RecordAll, History;
    assert Has(h, Failed) ==> h[|h| - 1] == Failed;
    assert Has(h, Filtered) ==> h[|h| - 1] == Filtered;
    assert HasPruned(h) ==> h[|h| - 1].Pruned?;
  }

  // How many of the points carry an id of the set.
  function Count(points: seq<Point>, ids: set<string>): nat {
    if points == [] then 0
    else Count(points[..|points| - 1], ids) + if points[|points| - 1].id in ids then 1 else 0
  }

  ghost predicate CountsBalance(points: seq<Point>, b: Book) {
    && |points| == Count(points, b.evaluated) + Count(points, b.pruned)
    && Count(points, b.evaluated) == Count(points, b.successful) + Count(points, b.filtered) + Count(points, b.failed)
  }

  lemma {:induction false} BalancedCounts(points: seq<Point>, b: Book)
    requires forall p :: p in points ==> Balanced(b, p.id)
    ensures CountsBalance(points, b)
  {
    if points != [] {
      assert points == points[..|points| - 1] + [points[|points| - 1]];
      BalancedCounts(points[..|points| - 1], b);
      assert Balanced(b, points[|points| - 1].id);
    }
  }

  // Once every point has a clean history, both invariants hold.
  lemma CleanHistoriesCount(points: seq<Point>, events: seq<Event>, b: Book)
    requires Blank(b) && forall p :: p in points ==> Clean(History(events, p.id))
    ensures CountsBalance(points, RecordAll(events, b))
  {
    forall p | p in points ensures Balanced(RecordAll(events, b), p.id) {
      BalancedExactly(events, b, p.id);
    }
    hide RecordAll, Balanced, Clean;
    BalancedCounts(points, RecordAll(events, b));
  }

  // ---- the axes' value sets ----

  ghost predicate Carries(p: Point, axis: string, v: Value) {
    axis in p.values && p.values[axis] == v
  }

  // Some event of one of the kinds about a point with that value, and no later
  // pruning of a point that shares it.
  ghost predicate Stands(events: seq<Event>, axis: string, v: Value, counted: Kind -> bool) {
    exists i :: 0 <= i < |events| && counted(events[i].kind) && Carries(events[i].point, axis, v)
                && forall j :: i < j < |events| ==> !(events[j].kind.Pruned? && Carries(events[j].point, axis, v))
  }

  ghost function Entering(): Kind -> bool {
    (k: Kind) => !k.Pruned?
  }

  ghost function Succeeding(): Kind -> bool {
    (k: Kind) => k == Success
  }

  lemma StandsGrows(events: seq<Event>, e: Event, axis: string, v: Value, counted: Kind -> bool)
    requires forall k: Kind :: k.Pruned? ==> !counted(k)
    ensures Stands(events + [e], axis, v, counted) <==>
            if Carries(e.point, axis, v) && e.kind.Pruned? then false
            else (Carries(e.point, axis, v) && counted(e.kind)) || Stands(events, axis, v, counted)
  {
    hide Carries;
    var n, all := |events|, events + [e];
    if Carries(e.point, axis, v) && counted(e.kind) {
      assert all[n] == e;
    } else if i :| 0 <= i < n && counted(events[i].kind) && Carries(events[i].point, axis, v)
                   && forall j :: i < j < n ==> !(events[j].kind.Pruned? && Carries(events[j].point, axis, v)) {
      assert all[i] == events[i];
    }
    if i :| 0 <= i < |all| && counted(all[i].kind) && Carries(all[i].point, axis, v)
            && forall j :: i < j < |all| ==> !(all[j].kind.Pruned? && Carries(all[j].point, axis, v)) {
      assert all[n] == e;
      if i < n {
        assert events[i] == all[i];
        assert forall j :: i < j < n ==> all[j] == events[j];
      }
    }
  }

  // Exactly which values an axis lists as evaluated and as successful, in every
  // run: those of an evaluation (a success) that no pruning of a point with the
  // same value came after.
  lemma {:induction false} AxisSetsExactly(events: seq<Event>, b: Book, axis: string, v: Value)
    requires axis in b.axes && v !in b.axes[axis].evaluated && v !in b.axes[axis].successful
    ensures var r := RecordAll(events, b);
            && axis in r.axes
            && (v in r.axes[axis].evaluated <==> Stands(events, axis, v, Entering()))
            && (v in r.axes[axis].successful <==> Stands(events, axis, v, Succeeding()))
  {
    hide Stands;
    if events == [] {
      NothingStands(axis, v);
    } else {
      var front, last := events[..|events| - 1], events[|events| - 1];
      AxisSetsExactly(front, b, axis, v);
      assert events == front + [last];
      StandsGrows(front, last, axis, v, Entering());
      StandsGrows(front, last, axis, v, Succeeding());
      RecordTouches(last, RecordAll(front, b), axis, v);
    }
  }

  lemma NothingStands(axis: string, v: Value)
    ensures !Stands([], axis, v, Entering()) && !Stands([], axis, v, Succeeding())
  {
  }

  lemma RecordTouches(e: Event, b: Book, axis: string, v: Value)
    requires axis in b.axes
    ensures var r := Record(e, b);
            && axis in r.axes
            && (v in r.axes[axis].evaluated <==>
                if Carries(e.point, axis, v) then !e.kind.Pruned? else v in b.axes[axis].evaluated)
            && (v in r.axes[axis].successful <==>
                if Carries(e.point, axis, v) then e.kind == Success || (!e.kind.Pruned? && v in b.axes[axis].successful)
                else v in b.axes[axis].successful)
  {
  }

  // Some event of this kind was about a point with that value.
  ghost predicate Happened(events: seq<Event>, axis: string, v: Value, kind: Kind) {
    exists i :: 0 <= i < |events| && events[i].kind == kind && Carries(events[i].point, axis, v)
  }

  lemma HappenedGrows(events: seq<Event>, e: Event, axis: string, v: Value, kind: Kind)
    ensures Happened(events + [e], axis, v, kind) <==>
            (e.kind == kind && Carries(e.point, axis, v)) || Happened(events, axis, v, kind)
  {
    hide Carries;
    var all := events + [e];
    assert all[|events|] == e;
    if i :| 0 <= i < |events| && events[i].kind == kind && Carries(events[i].point, axis, v) {
      assert all[i] == events[i];
    }
  }

  // What an axis keeps for good: a value is listed as failed or filtered exactly when
  // such an event met it, it is pruned exactly when some pruning did, and every
  // pruning, and nothing else, adds an exclusion with its reason.
  lemma {:induction false} AxisMarksExactly(events: seq<Event>, b: Book, axis: string, v: Value, reason: string)
    requires axis in b.axes
    ensures var a := b.axes[axis];
            var r := RecordAll(events, b);
            && axis in r.axes && r.axes[axis].requested == a.requested && r.axes[axis].generated == a.generated
            && (v in r.axes[axis].failed <==> v in a.failed || Happened(events, axis, v, Failed))
            && (v in r.axes[axis].filtered <==> v in a.filtered || Happened(events, axis, v, Filtered))
            && (Happened(events, axis, v, Pruned(reason)) || v in a.pruned ==> v in r.axes[axis].pruned)
            && (v in r.axes[axis].pruned ==>
                  v in a.pruned || exists why :: Happened(events, axis, v, Pruned(why)))
            && (Exclusion(axis, v, reason, "") in r.axes[axis].exclusions <==>
                  Exclusion(axis, v, reason, "") in a.exclusions || Happened(events, axis, v, Pruned(reason)))
  {
    hide Happened, Record;
    if events == [] {
      NothingHappened(axis, v);
    } else {
      var front, last := events[..|events| - 1], events[|events| - 1];
      var before, r := RecordAll(front, b), RecordAll(events, b);
      AxisMarksExactly(front, b, axis, v, reason);
      assert events == front + [last];
      forall kind {
        HappenedGrows(front, last, axis, v, kind);
      }
      RecordMarks(last, before, axis, v, reason);
      if v in r.axes[axis].pruned && v !in b.axes[axis].pruned {
        if v in before.axes[axis].pruned {
          var why :| Happened(front, axis, v, Pruned(why));
          assert Happened(events, axis, v, Pruned(why));
        } else {
          assert Happened(events, axis, v, Pruned(last.kind.reason));
        }
      }
    }
  }

  lemma NothingHappened(axis: string, v: Value)
    ensures forall kind :: !Happened([], axis, v, kind)
  {
  }

  lemma RecordMarks(e: Event, b: Book, axis: string, v: Value, reason: string)
    requires axis in b.axes
    ensures var a, r := b.axes[axis], Record(e, b);
            && axis in r.axes && r.axes[axis].requested == a.requested && r.axes[axis].generated == a.generated
            && (v in r.axes[axis].failed <==> v in a.failed || (e.kind == Failed && Carries(e.point, axis, v)))
            && (v in r.axes[axis].filtered <==> v in a.filtered || (e.kind == Filtered && Carries(e.point, axis, v)))
            && (v in r.axes[axis].pruned <==> v in a.pruned || (e.kind.Pruned? && Carries(e.point, axis, v)))
            && (Exclusion(axis, v, reason, "") in r.axes[axis].exclusions <==>
                  || Exclusion(axis, v, reason, "") in a.exclusions
                  || (e.kind == Pruned(reason) && Carries(e.point, axis, v)))
  {
  }

  // So pruning one point can take away a value that an evaluated point still has.
  lemma PruningForgetsOthers(p: Point, q: Point, axis: string, b: Book, reason: string)
    requires Blank(b) && axis in b.axes && b.axes[axis].evaluated == {} && b.axes[axis].successful == {}
    requires p.id != q.id && axis in p.values && axis in q.values && p.values[axis] == q.values[axis]
    ensures var r := RecordAll([Event(Success, p), Event(Pruned(reason), q)], b);
            p.id in r.successful && p.id in r.evaluated && axis in r.axes
            && p.values[axis] !in r.axes[axis].successful && p.values[axis] !in r.axes[axis].evaluated
  {
    var one, two := [Event(Success, p)], [Event(Success, p), Event(Pruned(reason), q)];
    assert two[..1] == one && one[..0] == [];
    var after := Record(Event(Success, p), b);
    assert RecordAll(one, b) == after;
    assert RecordAll(two, b) == Record(Event(Pruned(reason), q), after);
    RecordTouches(Event(Success, p), b, axis, p.values[axis]);
    RecordTouches(Event(Pruned(reason), q), after, axis, p.values[axis]);
  }

  // ---- coverage ----

  function Excluded(a: Axis): set<Value> {
    set e | e in a.exclusions && e.reason != "" :: e.value
  }

  // Requested values that are neither generated nor excluded with a reason.
  function Missing(a: Axis): set<Value> {
    a.requested - a.generated - Excluded(a)
  }

  ghost predicate HasDuplicates(points: seq<Point>) {
    exists i, j :: 0 <= i < j < |points| && points[i].id == points[j].id
  }

  // What a valid manifest satisfies.
  ghost predicate Valid(points: seq<Point>, b: Book) {
    && CountsBalance(points, b) && !HasDuplicates(points)
    && forall n :: n in b.axes ==> Missing(b.axes[n]) == {}
  }

  // ---- the runner ----

  // Each point in turn is evaluated and then fails or succeeds.
  function RunEvents(points: seq<Point>, ok: seq<bool>): seq<Event>
    requires |points| == |ok|
  {
    if points == [] then []
    else
      var n := |points| - 1;
      RunEvents(points[..n], ok[..n])
        + [Event(Evaluated, points[n]), Event(if ok[n] then Success else Failed, points[n])]
  }

  ghost predicate Ran(points: seq<Point>, id: string) {
    exists i :: 0 <= i < |points| && points[i].id == id
  }

  // Whether the id failed at some point of the run, and how its last run went.
  ghost predicate FailedOnce(points: seq<Point>, ok: seq<bool>, id: string)
    requires |points| == |ok|
  {
    exists i :: 0 <= i < |points| && points[i].id == id && !ok[i]
  }

  ghost predicate EndsWell(points: seq<Point>, ok: seq<bool>, id: string)
    requires |points| == |ok|
  {
    exists i :: 0 <= i < |points| && points[i].id == id && ok[i]
                && forall j :: i < j < |points| ==> points[j].id != id || ok[j]
  }

  // The book after a run: everything evaluated, nothing pruned or filtered.
  ghost predicate RunShows(points: seq<Point>, ok: seq<bool>, b: Book)
    requires |points| == |ok|
  {
    && b.pruned == {} && b.filtered == {}
    && forall id :: && (id in b.evaluated <==> Ran(points, id))
                    && (id in b.failed <==> FailedOnce(points, ok, id))
                    && (id in b.successful <==> EndsWell(points, ok, id))
  }

  lemma {:induction false} RunLeaves(points: seq<Point>, ok: seq<bool>, b: Book)
    requires |points| == |ok| && Blank(b)
    ensures RunShows(points, ok, RecordAll(RunEvents(points, ok), b))
  {
    hide TouchAll, FailedOnce, EndsWell, Ran;
    if points == [] {
      forall id ensures !Ran(points, id) && !FailedOnce(points, ok, id) && !EndsWell(points, ok, id) {
        NoRun(id);
      }
    } else {
      var n := |points| - 1;
      RunLeaves(points[..n], ok[..n], b);
      LastRun(points, ok, b);
      hide RunEvents, RecordAll;
      forall id
        ensures Ran(points, id) <==> points[n].id == id || Ran(points[..n], id)
        ensures FailedOnce(points, ok, id) <==> FailedOnce(points[..n], ok[..n], id) || (points[n].id == id && !ok[n])
        ensures EndsWell(points, ok, id) <==> if points[n].id == id then ok[n] else EndsWell(points[..n], ok[..n], id)
      {
        RunGrows(points, ok, id);
      }
    }
  }

  lemma NoRun(id: string)
    ensures !Ran([], id) && !FailedOnce([], [], id) && !EndsWell([], [], id)
  {
  }

  lemma LastRun(points: seq<Point>, ok: seq<bool>, b: Book)
    requires |points| == |ok| && points != []
    ensures var n := |points| - 1;
            RecordAll(RunEvents(points, ok), b)
            == Record(Event(if ok[n] then Success else Failed, points[n]),
                      Record(Event(Evaluated, points[n]), RecordAll(RunEvents(points[..n], ok[..n]), b)))
  {
    var n := |points| - 1;
    var before, all := RunEvents(points[..n], ok[..n]), RunEvents(points, ok);
    assert all[..|all| - 1] == before + [Event(Evaluated, points[n])];
    assert (before + [Event(Evaluated, points[n])])[..|before|] == before;
    hide Record;
  }

  lemma RunGrows(points: seq<Point>, ok: seq<bool>, id: string)
    requires |points| == |ok| && points != []
    ensures var n := |points| - 1;
            && (Ran(points, id) <==> points[n].id == id || Ran(points[..n], id))
            && (FailedOnce(points, ok, id) <==> FailedOnce(points[..n], ok[..n], id) || (points[n].id == id && !ok[n]))
            && (EndsWell(points, ok, id) <==> if points[n].id == id then ok[n] else EndsWell(points[..n], ok[..n], id))
  {
    var n := |points| - 1;
    var p, o := points[..n], ok[..n];
    assert forall i :: 0 <= i < n ==> points[i] == p[i] && ok[i] == o[i];
    FailureGrows(points, ok, p, o, id);
    EndGrows(points, ok, p, o, id);
  }

  lemma FailureGrows(points: seq<Point>, ok: seq<bool>, p: seq<Point>, o: seq<bool>, id: string)
    requires |p| == |o| == |points| - 1 == |ok| - 1 && forall i :: 0 <= i < |p| ==> points[i] == p[i] && ok[i] == o[i]
    ensures Ran(points, id) <==> points[|p|].id == id || Ran(p, id)
    ensures FailedOnce(points, ok, id) <==> FailedOnce(p, o, id) || (points[|p|].id == id && !ok[|p|])
  {
    if i :| 0 <= i < |p| && p[i].id == id {
      assert points[i].id == id;
    }
    if i :| 0 <= i < |p| && p[i].id == id && !o[i] {
      assert points[i].id == id && !ok[i];
    }
  }

  lemma EndGrows(points: seq<Point>, ok: seq<bool>, p: seq<Point>, o: seq<bool>, id: string)
    requires |p| == |o| == |points| - 1 == |ok| - 1 && forall i :: 0 <= i < |p| ==> points[i] == p[i] && ok[i] == o[i]
    ensures EndsWell(points, ok, id) <==> if points[|p|].id == id then ok[|p|] else EndsWell(p, o, id)
  {
    if points[|p|].id != id {
      if i :| 0 <= i < |p| && p[i].id == id && o[i] && forall j :: i < j < |p| ==> p[j].id != id || o[j] {
        assert points[i].id == id && ok[i];
      }
      if i :| 0 <= i < |points| && points[i].id == id && ok[i]
              && forall j :: i < j < |points| ==> points[j].id != id || ok[j] {
        assert p[i].id == id && o[i];
        assert forall j :: i < j < |p| ==> points[j].id != id || ok[j];
      }
    }
  }

  // The runner's invariants hold exactly when no id fails and yet ends well;
  // with distinct ids that cannot happen.
  lemma RunnerCountsExactly(points: seq<Point>, ok: seq<bool>, b: Book)
    requires |points| == |ok| && RunShows(points, ok, b)
    ensures CountsBalance(points, b) <==> forall id :: !(FailedOnce(points, ok, id) && EndsWell(points, ok, id))
    ensures !HasDuplicates(points) ==> CountsBalance(points, b)
  {
    hide FailedOnce, EndsWell, Ran;
    RunCounts(points, b);
    forall p | p in points ensures p.id in b.evaluated && (p.id in b.successful || p.id in b.failed) {
      var i :| 0 <= i < |points| && points[i] == p;
      RunEnds(points, ok, i);
      assert Ran(points, p.id) by { RanAt(points, i); }
    }
    forall id | FailedOnce(points, ok, id) && EndsWell(points, ok, id)
      ensures HasDuplicates(points) && exists p :: p in points && p.id == id
    {
      BothWays(points, ok, id);
    }
    hide HasDuplicates, Count, CountsBalance;
    assert forall id :: id in b.failed && id in b.successful <==>
      FailedOnce(points, ok, id) && EndsWell(points, ok, id);
  }

  lemma {:induction false} RunCounts(points: seq<Point>, b: Book)
    requires b.pruned == {} && b.filtered == {}
    ensures (forall p :: p in points ==> p.id in b.evaluated && (p.id in b.successful || p.id in b.failed)) ==>
            && Count(points, b.evaluated) <= Count(points, b.successful) + Count(points, b.failed)
            && (CountsBalance(points, b) <==> forall p :: p in points ==> !(p.id in b.successful && p.id in b.failed))
  {
    if points != [] {
      assert points == points[..|points| - 1] + [points[|points| - 1]];
      RunCounts(points[..|points| - 1], b);
    }
  }

  lemma RunEnds(points: seq<Point>, ok: seq<bool>, i: nat)
    requires |points| == |ok| && i < |points|
    ensures FailedOnce(points, ok, points[i].id) || EndsWell(points, ok, points[i].id)
  {
    if ok[i] && !(forall j :: i < j < |points| ==> points[j].id != points[i].id || ok[j]) {
      var j :| i < j < |points| && points[j].id == points[i].id && !ok[j];
      assert FailedOnce(points, ok, points[i].id);
    }
  }

  lemma RanAt(points: seq<Point>, i: nat)
    requires i < |points|
    ensures Ran(points, points[i].id)
  {
  }

  lemma BothWays(points: seq<Point>, ok: seq<bool>, id: string)
    requires |points| == |ok| && FailedOnce(points, ok, id) && EndsWell(points, ok, id)
    ensures HasDuplicates(points) && exists p :: p in points && p.id == id
  {
    var i :| 0 <= i < |points| && points[i].id == id && !ok[i];
    var j :| 0 <= j < |points| && points[j].id == id && ok[j];
    assert points[i] in points;
  }
}
