// Three frontiers over throughput and area: the explorer's list, the legacy
// adapter's set of ids, and the gated multi-objective filter. They select the
// same points exactly when a point without metrics cannot slip in.
module ParetoAgreement {
  import opened Frontier
  import opened Ordering
  import opened Pareto

  datatype Ppa = Ppa(tok: Ext, area: Ext, config: string)

  // At least as fast, at most as large, and better in one of the two.
  predicate Beats(q: Ppa, p: Ppa) {
    !Less(q.tok, p.tok) && !Less(p.area, q.area) && (Less(p.tok, q.tok) || Less(q.area, p.area))
  }

  predicate ByArea(a: Ppa, b: Ppa) {
    Less(a.area, b.area)
  }

  method FindPareto(ppas: seq<Ppa>) returns (r: seq<Ppa>)
    ensures r == SortBy(ByArea, Front(Beats, ppas))
  {
    hide Beats;
    var pareto := [];
    for i := 0 to |ppas|
      invariant pareto == Undominated(Beats, ppas, ppas[..i])
    {
      var dominated := false;
      for j := 0 to |ppas|
        invariant !dominated && forall k :: 0 <= k < j ==> !Beats(ppas[k], ppas[i])
      {
        if Beats(ppas[j], ppas[i]) {
          dominated := true;
          break;
        }
      }
      assert dominated <==> Dominated(Beats, ppas, ppas[i]);
      assert ppas[..i + 1][..i] == ppas[..i];
      if !dominated {
        pareto := pareto + [ppas[i]];
      }
    }
    assert ppas[..|ppas|] == ppas;
    r := SortBy(ByArea, pareto);
  }

  lemma ByAreaIsWeak()
    ensures StrictWeak(ByArea)
  {
  }

  // Along the explorer's output the area never falls, and neither does the
  // throughput; it rises exactly where the area does.
  lemma OutputIsStaircase(ppas: seq<Ppa>, i: nat, j: nat)
    requires i < j < |SortBy(ByArea, Front(Beats, ppas))|
    ensures var r := SortBy(ByArea, Front(Beats, ppas));
            && !Less(r[j].area, r[i].area) && !Less(r[j].tok, r[i].tok)
            && (Less(r[i].tok, r[j].tok) <==> Less(r[i].area, r[j].area))
  {
    var r := SortBy(ByArea, Front(Beats, ppas));
    ByAreaIsWeak();
    SortBySorts(ByArea, Front(Beats, ppas));
    assert r[i] in r && r[j] in r;
    hide Beats, SortBy, Front;
    OnExplorerFront(ppas, r[i]);
    OnExplorerFront(ppas, r[j]);
    NotBeaten(r[i], r[j]);
  }

  // The explorer's output holds the points that no point beats.
  lemma OnExplorerFront(ppas: seq<Ppa>, p: Ppa)
    ensures p in SortBy(ByArea, Front(Beats, ppas)) <==> p in ppas && forall q :: q in ppas ==> !Beats(q, p)
  {
    hide Beats, SortBy, Undominated;
    MembersOfSort(ByArea, Front(Beats, ppas));
    UndominatedMembers(Beats, ppas, ppas, p);
  }

  lemma NotBeaten(p: Ppa, q: Ppa)
    requires !Beats(p, q) && !Beats(q, p) && !Less(q.area, p.area)
    ensures !Less(q.tok, p.tok) && (Less(p.tok, q.tok) <==> Less(p.area, q.area))
  {
  }

  // ---- the legacy adapter ----

  // Metrics always carry both numbers; only the whole record can be missing.
  ghost predicate WellFormed(results: seq<PointResult>) {
    forall r :: r in results && r.metrics.Some? ==> HasScore(r)
  }

  predicate HasScore(r: PointResult) {
    Attribute(r.metrics, "tok_per_s").Some? && Attribute(r.metrics, "area_mm2").Some?
  }

  function Score(r: PointResult): Ppa
    requires HasScore(r)
  {
    Ppa(Attribute(r.metrics, "tok_per_s").value, Attribute(r.metrics, "area_mm2").value, r.id)
  }

  // Result i has metrics and no other result with metrics beats it.
  ghost predicate Selected(results: seq<PointResult>, i: nat)
    requires WellFormed(results)
  {
    && i < |results| && results[i].metrics.Some?
    && forall j :: 0 <= j < |results| && results[j].metrics.Some? ==> !Beats(Score(results[j]), Score(results[i]))
  }

  method ParetoIdsFromResults(results: seq<PointResult>) returns (ids: set<string>)
    requires WellFormed(results)
    ensures forall id :: id in ids <==> exists i: nat :: Selected(results, i) && results[i].id == id
  {
    ids := {};
    for i := 0 to |results|
      invariant forall id :: id in ids <==> exists k: nat :: k < i && Selected(results, k) && results[k].id == id
    {
      if results[i].metrics.Some? {
        var dominated := BeatenAt(results, i);
        if !dominated {
          ids := ids + {results[i].id};
        }
      }
    }
  }

  method BeatenAt(results: seq<PointResult>, i: nat) returns (dominated: bool)
    requires WellFormed(results) && i < |results| && results[i].metrics.Some?
    ensures dominated <==> !Selected(results, i)
  {
    for j := 0 to |results|
      invariant forall k :: 0 <= k < j && results[k].metrics.Some? ==> !Beats(Score(results[k]), Score(results[i]))
    {
      if i != j && results[j].metrics.Some? {
        if Beats(Score(results[j]), Score(results[i])) {
          return true;
        }
      }
    }
    return false;
  }

  // ---- agreement ----

  // Maximise throughput and minimise area, under any two names.
  ghost predicate ThroughputAndArea(objs: seq<Objective>) {
    && |objs| == 2 && objs[0].name != objs[1].name
    && objs[0].field == "tok_per_s" && objs[0].direction == Maximize
    && objs[1].field == "area_mm2" && objs[1].direction == Minimize
  }

  // The values a result enters the dominance check with.
  function Standing(r: PointResult): Ppa
    requires r.metrics.Some? ==> HasScore(r)
  {
    if r.metrics.Some? then Score(r) else Ppa(NegInf, PosInf, r.id)
  }

  lemma TwoValues(objs: seq<Objective>, r: PointResult)
    requires ThroughputAndArea(objs) && (r.metrics.Some? ==> HasScore(r))
    ensures ValueAt(ValuesOf(objs, r.metrics), objs[0].name) == Standing(r).tok
    ensures ValueAt(ValuesOf(objs, r.metrics), objs[1].name) == Standing(r).area
  {
    assert objs[..1][..0] == [] && objs[..1][0] == objs[0];
    assert ValuesOf(objs[..1], r.metrics) == map[objs[0].name := RawValue(r.metrics, objs[0])];
  }

  lemma DomIsBeats(objs: seq<Objective>, a: PointResult, b: PointResult)
    requires ThroughputAndArea(objs) && (a.metrics.Some? ==> HasScore(a)) && (b.metrics.Some? ==> HasScore(b))
    ensures Dom(objs)(a, b) <==> Beats(Standing(a), Standing(b))
  {
    hide ValuesOf, Standing, Less, ValueAt;
    TwoValues(objs, a);
    TwoValues(objs, b);
    var va, vb := ValuesOf(objs, a.metrics), ValuesOf(objs, b.metrics);
    assert Dominates(objs, va, vb) <==>
           !WorseIn(objs[0], va, vb) && !WorseIn(objs[1], va, vb)
             && (WorseIn(objs[0], vb, va) || WorseIn(objs[1], vb, va));
  }

  // Better than a point without metrics.
  predicate BeatsNothing(p: Ppa) {
    Less(NegInf, p.tok) || Less(p.area, PosInf)
  }

  // Some result with metrics beats every result without.
  ghost predicate SomethingMeasured(results: seq<PointResult>)
    requires WellFormed(results)
  {
    exists j :: 0 <= j < |results| && results[j].metrics.Some? && BeatsNothing(Score(results[j]))
  }

  ghost predicate Comparable(f: Filter, results: seq<PointResult>) {
    && WellFormed(results) && DistinctIds(results) && ThroughputAndArea(f.objectives)
    && forall r :: r in results ==> Admissible(f, r)
  }

  lemma FrontierAt(f: Filter, results: seq<PointResult>, i: nat)
    requires Comparable(f, results) && i < |results|
    ensures results[i] in FrontierOf(f, results) <==>
            forall j :: 0 <= j < |results| ==> !Beats(Standing(results[j]), Standing(results[i]))
  {
    hide Admissible, Front, Beats, Standing, FrontierOf, ThroughputAndArea, DistinctIds;
    var dom := Dom(f.objectives);
    AllPassing(f, results);
    InFrontier(f, results, results[i]);
    UndominatedMembers(dom, results, results, results[i]);
    assert Front(dom, results) == Undominated(dom, results, results) by { FrontIsUndominated(dom, results); }
    forall j | 0 <= j < |results|
      ensures dom(results[j], results[i]) <==> Beats(Standing(results[j]), Standing(results[i]))
    {
      DomIsBeats(f.objectives, results[j], results[i]);
    }
    hide Dom;
  }

  lemma FrontIsUndominated(dom: (PointResult, PointResult) -> bool, s: seq<PointResult>)
    ensures Front(dom, s) == Undominated(dom, s, s)
  {
  }

  // A result with metrics is on the gated frontier exactly when the legacy
  // adapter selects it; one without, exactly when nothing was measured.
  lemma PointwiseAgreement(f: Filter, results: seq<PointResult>, i: nat)
    requires Comparable(f, results) && i < |results|
    ensures results[i].metrics.Some? ==> (results[i] in FrontierOf(f, results) <==> Selected(results, i))
    ensures results[i].metrics.None? ==> (results[i] in FrontierOf(f, results) <==> !SomethingMeasured(results))
  {
    hide Admissible, FrontierOf, ThroughputAndArea, DistinctIds, Attribute;
    FrontierAt(f, results, i);
    if results[i].metrics.Some? {
      forall j | 0 <= j < |results| && results[j].metrics.None?
        ensures !Beats(Standing(results[j]), Standing(results[i]))
      {
      }
    }
  }

  ghost function FrontierIds(f: Filter, results: seq<PointResult>): set<string> {
    set r | r in FrontierOf(f, results) :: r.id
  }

  ghost function LegacyIds(results: seq<PointResult>): set<string>
    requires WellFormed(results)
  {
    set i | 0 <= i < |results| && Selected(results, i) :: results[i].id
  }

  // The two sets of ids are the same exactly when every result has metrics or
  // some result with metrics beats those without.
  lemma FrontiersAgreeExactly(f: Filter, results: seq<PointResult>)
    requires Comparable(f, results)
    ensures FrontierIds(f, results) == LegacyIds(results) <==>
            (forall r :: r in results ==> r.metrics.Some?) || SomethingMeasured(results)
  {
    hide Admissible, FrontierOf, ThroughputAndArea, Selected, SomethingMeasured, WellFormed;
    forall i | 0 <= i < |results|
      ensures results[i].metrics.Some? ==> (results[i] in FrontierOf(f, results) <==> Selected(results, i))
      ensures results[i].metrics.None? ==> (results[i] in FrontierOf(f, results) <==> !SomethingMeasured(results))
      ensures results[i].metrics.None? ==> results[i].id !in LegacyIds(results)
    {
      PointwiseAgreement(f, results, i);
      if results[i].metrics.None? {
        NoMetricsNotSelected(results, i);
      }
    }
    forall r | r in FrontierOf(f, results) ensures r in results {
      FrontierWithin(f, results, r);
    }
    SelectedHaveMetrics(results);
    if (forall r :: r in results ==> r.metrics.Some?) || SomethingMeasured(results) {
      forall id ensures id in FrontierIds(f, results) <==> id in LegacyIds(results) {
        if id in LegacyIds(results) {
          var i :| 0 <= i < |results| && Selected(results, i) && results[i].id == id;
        }
        if id in FrontierIds(f, results) {
          var r :| r in FrontierOf(f, results) && r.id == id;
          var i :| 0 <= i < |results| && results[i] == r;
        }
      }
    } else {
      var r :| r in results && r.metrics.None?;
      var i :| 0 <= i < |results| && results[i] == r;
      assert r.id in FrontierIds(f, results) && r.id !in LegacyIds(results);
    }
  }

  lemma SelectedHaveMetrics(results: seq<PointResult>)
    requires WellFormed(results)
    ensures forall i: nat :: i < |results| && Selected(results, i) ==> results[i].metrics.Some?
  {
  }

  lemma NoMetricsNotSelected(results: seq<PointResult>, i: nat)
    requires WellFormed(results) && DistinctIds(results) && i < |results| && results[i].metrics.None?
    ensures results[i].id !in LegacyIds(results)
  {
    hide Attribute, Beats;
    forall k | 0 <= k < |results| && Selected(results, k) ensures results[k].id != results[i].id {
      assert k != i;
    }
  }

  // The points given to the explorer: those with metrics, in order.
  function Scores(results: seq<PointResult>): seq<Ppa>
    requires forall r :: r in results && r.metrics.Some? ==> HasScore(r)
  {
    if results == [] then []
    else
      var last := results[|results| - 1];
      Scores(results[..|results| - 1]) + if last.metrics.Some? then [Score(last)] else []
  }

  lemma {:induction false} InScores(results: seq<PointResult>, p: Ppa)
    requires WellFormed(results)
    ensures p in Scores(results) <==>
            exists j :: 0 <= j < |results| && results[j].metrics.Some? && Score(results[j]) == p
  {
    hide Attribute;
    if results != [] {
      var n := |results| - 1;
      InScores(results[..n], p);
      assert results == results[..n] + [results[n]];
    }
  }

  // The explorer's list holds exactly the points the legacy adapter selects.
  lemma ExplorerAgrees(results: seq<PointResult>, i: nat)
    requires WellFormed(results) && i < |results| && results[i].metrics.Some?
    ensures Score(results[i]) in SortBy(ByArea, Front(Beats, Scores(results))) <==> Selected(results, i)
  {
    var ppas, p := Scores(results), Score(results[i]);
    hide Scores, SortBy, Front, Attribute, Beats;
    OnExplorerFront(ppas, p);
    InScores(results, p);
    forall j | 0 <= j < |results| && results[j].metrics.Some? ensures Score(results[j]) in ppas {
      InScores(results, Score(results[j]));
    }
    forall q | q in ppas ensures exists j :: 0 <= j < |results| && results[j].metrics.Some? && Score(results[j]) == q {
      InScores(results, q);
    }
  }
}
