// The multi-objective Pareto filter: hard gates, dominance over declared
// objectives, and the frontier of the results that pass.
module Pareto {
  import opened Frontier
  import opened Options
  import opened Ordering

  // A metric: a real, or an infinity for one that is missing or unbounded.
  datatype Ext = NegInf | Fin(v: real) | PosInf

  predicate Less(a: Ext, b: Ext) {
    match (a, b)
    case (Fin(x), Fin(y)) => x < y
    case (NegInf, _) => b != NegInf
    case (_, PosInf) => a != PosInf
    case _ => false
  }

  datatype Direction = Maximize | Minimize

  datatype Objective = Objective(name: string, field: string, direction: Direction)

  datatype Status = Complete | Partial | Failed | Filtered

  datatype Trust = Authoritative | CalibratedEstimate | Exploratory | NonAuthoritative

  // The attributes of a metrics record, some of them unset.
  datatype Metrics = Metrics(fields: map<string, Option<Ext>>)

  datatype PointResult = PointResult(id: string, status: Status, engine: string, trust: Trust, metrics: Option<Metrics>)

  datatype Filter = Filter(objectives: seq<Objective>, thermalLimit: Option<Ext>, qualityRequired: bool)

  // ---- objective values ----

  const ALIASES: map<string, string> := map[
    "latency_p99_ms" := "p99_latency_s",
    "avg_latency_ms" := "avg_latency_s",
    "p50_latency_ms" := "p50_latency_s",
    "max_latency_ms" := "max_latency_s"
  ]

  function Attribute(m: Option<Metrics>, field: string): Option<Ext> {
    if m.Some? && field in m.value.fields then m.value.fields[field] else None
  }

  function MetricValue(m: Option<Metrics>, field: string): Option<Ext> {
    if m.None? then None
    else if field in m.value.fields then m.value.fields[field]
    else if field in ALIASES then Attribute(m, ALIASES[field])
    else None
  }

  // A missing metric counts as the worst one.
  function RawValue(m: Option<Metrics>, obj: Objective): Ext {
    match MetricValue(m, obj.field)
    case Some(v) => v
    case None => if obj.direction == Maximize then NegInf else PosInf
  }

  // The legacy names and the attributes they stand for.
  predicate Renames(field: string, full: string) {
    || (field == "latency_p99_ms" && full == "p99_latency_s")
    || (field == "avg_latency_ms" && full == "avg_latency_s")
    || (field == "p50_latency_ms" && full == "p50_latency_s")
    || (field == "max_latency_ms" && full == "max_latency_s")
  }

  // The record has the attribute, and it is set to v.
  ghost predicate Reads(m: Option<Metrics>, field: string, v: Ext) {
    m.Some? && field in m.value.fields && m.value.fields[field] == Some(v)
  }

  // What an objective reads: the attribute of its name, or, only if there is none of
  // that name, the one a legacy name stands for.
  lemma MetricReadExactly(m: Option<Metrics>, field: string, v: Ext)
    ensures MetricValue(m, field) == Some(v) <==>
            || Reads(m, field, v)
            || (m.Some? && field !in m.value.fields && exists full :: Renames(field, full) && Reads(m, full, v))
  {
    LegacyNames();
    assert field in ALIASES <==> exists full :: Renames(field, full);
    assert forall full :: Renames(field, full) ==> ALIASES[field] == full;
    hide Renames;
  }

  lemma LegacyNames()
    ensures forall field, full :: Renames(field, full) ==> field in ALIASES && ALIASES[field] == full
    ensures forall field :: field in ALIASES ==> Renames(field, ALIASES[field])
  {
    var p99, avg, p50, max := "latency_p99_ms", "avg_latency_ms", "p50_latency_ms", "max_latency_ms";
    assert p99[0] == 'l' && avg[0] == 'a' && p50[0] == 'p' && max[0] == 'm';
  }

  function ValuesOf(objs: seq<Objective>, m: Option<Metrics>): map<string, Ext> {
    if objs == [] then map[]
    else
      var last := objs[|objs| - 1];
      ValuesOf(objs[..|objs| - 1], m)[last.name := RawValue(m, last)]
  }

  function ValueAt(values: map<string, Ext>, name: string): Ext {
    if name in values then values[name] else Fin(0.0)
  }

  predicate Worse(d: Direction, a: Ext, b: Ext) {
    if d == Maximize then Less(a, b) else Less(b, a)
  }

  // A missing metric is never better than any value.
  lemma MissingIsWorst(m: Option<Metrics>, obj: Objective, v: Ext)
    requires MetricValue(m, obj.field) == None
    ensures !Worse(obj.direction, v, RawValue(m, obj))
  {
  }

  // Under distinct names every objective is compared by its own metric.
  lemma {:induction false} OwnMetric(objs: seq<Objective>, m: Option<Metrics>, i: nat)
    requires i < |objs| && forall j, k :: 0 <= j < k < |objs| ==> objs[j].name != objs[k].name
    ensures objs[i].name in ValuesOf(objs, m) && ValueAt(ValuesOf(objs, m), objs[i].name) == RawValue(m, objs[i])
  {
    hide RawValue;
    if i < |objs| - 1 {
      OwnMetric(objs[..|objs| - 1], m, i);
    }
  }

  predicate WorseIn(obj: Objective, a: map<string, Ext>, b: map<string, Ext>) {
    Worse(obj.direction, ValueAt(a, obj.name), ValueAt(b, obj.name))
  }

  // Worse in no objective and strictly better in one.
  predicate Dominates(objs: seq<Objective>, a: map<string, Ext>, b: map<string, Ext>) {
    && (forall i :: 0 <= i < |objs| ==> !WorseIn(objs[i], a, b))
    && exists i :: 0 <= i < |objs| && WorseIn(objs[i], b, a)
  }

  lemma WorseIsOrder(d: Direction, a: Ext, b: Ext, c: Ext)
    ensures !Worse(d, a, a)
    ensures !Worse(d, b, a) && !Worse(d, c, b) ==> !Worse(d, c, a)
    ensures Worse(d, a, b) && !Worse(d, c, b) ==> Worse(d, a, c)
    ensures !Worse(d, b, a) && Worse(d, b, c) ==> Worse(d, a, c)
  {
  }

  lemma DominatesIrreflexive(objs: seq<Objective>, a: map<string, Ext>)
    ensures !Dominates(objs, a, a)
  {
    forall i | 0 <= i < |objs| ensures !WorseIn(objs[i], a, a) {
      WorseIsOrder(objs[i].direction, ValueAt(a, objs[i].name), Fin(0.0), Fin(0.0));
    }
  }

  lemma DominatesTransitive(objs: seq<Objective>, a: map<string, Ext>, b: map<string, Ext>, c: map<string, Ext>)
    requires Dominates(objs, a, b) && Dominates(objs, b, c)
    ensures Dominates(objs, a, c)
  {
    hide Worse;
    forall i | 0 <= i < |objs| ensures !WorseIn(objs[i], a, c) && (WorseIn(objs[i], b, a) ==> WorseIn(objs[i], c, a)) {
      var x, y, z := ValueAt(a, objs[i].name), ValueAt(b, objs[i].name), ValueAt(c, objs[i].name);
      WorseIsOrder(objs[i].direction, z, y, x);
      WorseIsOrder(objs[i].direction, x, y, z);
      WorseIsOrder(objs[i].direction, y, x, z);
      assert !WorseIn(objs[i], a, b) && !WorseIn(objs[i], b, c);
      NotWorseChain(objs[i].direction, x, y, z);
    }
  }

  lemma NotWorseChain(d: Direction, x: Ext, y: Ext, z: Ext)
    requires !Worse(d, x, y) && !Worse(d, y, z)
    ensures !Worse(d, x, z) && (Worse(d, y, x) ==> Worse(d, z, x))
  {
  }

  // Dominance between results, as a relation.
  function Dom(objs: seq<Objective>): (PointResult, PointResult) -> bool {
    (a: PointResult, b: PointResult) => Dominates(objs, ValuesOf(objs, a.metrics), ValuesOf(objs, b.metrics))
  }

  // For any objectives whatever, dominance is a strict partial order.
  lemma DominanceIsStrictPartial(objs: seq<Objective>)
    ensures StrictPartial(Dom(objs))
  {
    hide Dominates;
    forall a: PointResult ensures !Dom(objs)(a, a) {
      DominatesIrreflexive(objs, ValuesOf(objs, a.metrics));
    }
    forall a, b, c | Dom(objs)(a, b) && Dom(objs)(b, c) ensures Dom(objs)(a, c) {
      DominatesTransitive(objs, ValuesOf(objs, a.metrics), ValuesOf(objs, b.metrics), ValuesOf(objs, c.metrics));
    }
  }

  // ---- gates ----

  datatype GateCode = CompleteGate | NoCpuFallback | CapacityFit | QualityGate | PowerThermal | TerminalCompletion |
    AuthoritativeGate

  datatype GateResult = GateResult(code: GateCode, passed: bool)

  predicate IsCpu(engine: string) {
    |engine| == 3 && engine[0] in "cC" && engine[1] in "pP" && engine[2] in "uU"
  }

  predicate Positive(v: Option<Ext>) {
    v.Some? && Less(Fin(0.0), v.value)
  }

  predicate Fits(footprint: Option<Ext>) {
    footprint.None? || (footprint.value.Fin? && footprint.value.v >= 0.0)
  }

  predicate WithinPower(power: Option<Ext>, limit: Option<Ext>) {
    limit.None? || power.None? || !Less(limit.value, power.value)
  }

  predicate AllPassed(gates: seq<GateResult>) {
    forall i :: 0 <= i < |gates| ==> gates[i].passed
  }

  // The seven gates in order.
  function Gates(f: Filter, r: PointResult): seq<GateResult> {
    [ GateResult(CompleteGate, r.status == Complete),
      GateResult(NoCpuFallback, !IsCpu(r.engine)),
      GateResult(CapacityFit, Fits(Attribute(r.metrics, "memory_footprint_gib"))),
      GateResult(QualityGate, !f.qualityRequired),
      GateResult(PowerThermal, WithinPower(Attribute(r.metrics, "power_w"), f.thermalLimit)),
      GateResult(TerminalCompletion,
                 !Positive(Attribute(r.metrics, "deadline_miss_count"))
                 && !Positive(Attribute(r.metrics, "drop_count"))),
      GateResult(AuthoritativeGate,
                 if f.qualityRequired then r.trust == Authoritative else r.trust != NonAuthoritative) ]
  }

  // What the seven gates together demand. A required quality gate is never
  // resolved, so it admits nothing, whatever the trust level.
  predicate Admissible(f: Filter, r: PointResult) {
    && !f.qualityRequired
    && r.status == Complete && r.trust != NonAuthoritative && !IsCpu(r.engine)
    && Fits(Attribute(r.metrics, "memory_footprint_gib"))
    && WithinPower(Attribute(r.metrics, "power_w"), f.thermalLimit)
    && !Positive(Attribute(r.metrics, "deadline_miss_count"))
    && !Positive(Attribute(r.metrics, "drop_count"))
  }

  // In terms of what the record says, attribute by attribute; a missing one never
  // keeps a result out.
  lemma AdmissibleExactly(f: Filter, r: PointResult)
    ensures Admissible(f, r) <==>
            && !f.qualityRequired && r.status == Complete && r.trust != NonAuthoritative
            && r.engine !in {"cpu", "cpU", "cPu", "cPU", "Cpu", "CpU", "CPu", "CPU"}
            && (forall x :: Reads(r.metrics, "memory_footprint_gib", x) ==> x.Fin? && x.v >= 0.0)
            && (forall x :: Reads(r.metrics, "power_w", x) && f.thermalLimit.Some? ==>
                  !Less(f.thermalLimit.value, x))
            && (forall x :: Reads(r.metrics, "deadline_miss_count", x) ==> x == NegInf || (x.Fin? && x.v <= 0.0))
            && (forall x :: Reads(r.metrics, "drop_count", x) ==> x == NegInf || (x.Fin? && x.v <= 0.0))
  {
    CpuInAnyCase(r.engine);
    forall field, x ensures Reads(r.metrics, field, x) <==> Attribute(r.metrics, field) == Some(x) {
    }
    hide IsCpu, Attribute, Reads;
  }

  lemma CpuInAnyCase(engine: string)
    ensures IsCpu(engine) <==> engine in {"cpu", "cpU", "cPu", "cPU", "Cpu", "CpU", "CPu", "CPU"}
  {
    if IsCpu(engine) {
      assert engine == [engine[0], engine[1], engine[2]];
    }
  }

  lemma GatesAdmit(f: Filter, r: PointResult)
    ensures AllPassed(Gates(f, r)) <==> Admissible(f, r)
  {
    hide IsCpu, Fits, WithinPower, Positive;
    var g := Gates(f, r);
    assert AllPassed(g) <==>
      g[0].passed && g[1].passed && g[2].passed && g[3].passed && g[4].passed && g[5].passed && g[6].passed;
  }

  // ---- the frontier ----

  function Passing(f: Filter, results: seq<PointResult>): (r: seq<PointResult>)
    ensures |r| <= |results|
  {
    if results == [] then []
    else
      var last := results[|results| - 1];
      Passing(f, results[..|results| - 1]) + if Admissible(f, last) then [last] else []
  }

  predicate ById(a: PointResult, b: PointResult) {
    StringLess(a.id, b.id)
  }

  function FrontierOf(f: Filter, results: seq<PointResult>): seq<PointResult> {
    SortBy(ById, Front(Dom(f.objectives), Passing(f, results)))
  }

  lemma {:induction false} PassingMembers(f: Filter, results: seq<PointResult>, r: PointResult)
    ensures multiset(Passing(f, results))[r] == if Admissible(f, r) then multiset(results)[r] else 0
  {
    hide Admissible;
    if results != [] {
      PassingMembers(f, results[..|results| - 1], r);
      assert results == results[..|results| - 1] + [results[|results| - 1]];
    }
  }

  lemma {:induction false} AllPassing(f: Filter, results: seq<PointResult>)
    requires forall r :: r in results ==> Admissible(f, r)
    ensures Passing(f, results) == results
  {
    hide Admissible;
    if results != [] {
      AllPassing(f, results[..|results| - 1]);
      assert results == results[..|results| - 1] + [results[|results| - 1]];
    }
  }

  lemma ByIdIsWeak()
    ensures StrictWeak(ById)
  {
    StringLessIsStrictTotal();
    hide StringLess;
  }

  lemma InPassing(f: Filter, results: seq<PointResult>, r: PointResult)
    ensures r in Passing(f, results) <==> r in results && Admissible(f, r)
  {
    hide Admissible, Passing;
    PassingMembers(f, results, r);
    assert r in Passing(f, results) <==> r in multiset(Passing(f, results));
    assert r in results <==> r in multiset(results);
  }

  lemma InFrontier(f: Filter, results: seq<PointResult>, r: PointResult)
    ensures r in FrontierOf(f, results) <==> r in Front(Dom(f.objectives), Passing(f, results))
  {
    hide Front, Passing;
    MembersOfSort(ById, Front(Dom(f.objectives), Passing(f, results)));
  }

  // Sound and complete: every result either fails a gate, or is on the frontier,
  // or is dominated by a frontier point, and only one of the three.
  lemma FrontierExactly(f: Filter, results: seq<PointResult>, r: PointResult)
    requires r in results
    ensures r in FrontierOf(f, results) ==> Admissible(f, r)
    ensures Admissible(f, r) ==>
              (r !in FrontierOf(f, results) <==> exists p :: p in FrontierOf(f, results) && Dom(f.objectives)(p, r))
  {
    hide Admissible, FrontierOf, Front, Dom;
    DominanceIsStrictPartial(f.objectives);
    var dom, pool := Dom(f.objectives), Passing(f, results);
    InPassing(f, results, r);
    InFrontier(f, results, r);
    if Admissible(f, r) {
      FrontExactly(dom, pool, r);
      forall p ensures p in FrontierOf(f, results) <==> p in Front(dom, pool) {
        InFrontier(f, results, p);
      }
    } else {
      FrontWithin(dom, pool, r);
    }
  }

  lemma FrontWithin(dom: (PointResult, PointResult) -> bool, pool: seq<PointResult>, r: PointResult)
    ensures r in Front(dom, pool) ==> r in pool
  {
    UndominatedMembers(dom, pool, pool, r);
  }

  // No frontier point dominates another.
  lemma FrontierIncomparable(f: Filter, results: seq<PointResult>, p: PointResult, q: PointResult)
    requires p in FrontierOf(f, results) && q in FrontierOf(f, results)
    ensures !Dom(f.objectives)(p, q)
  {
    hide FrontierOf, Dom, Passing, Admissible;
    InFrontier(f, results, p);
    InFrontier(f, results, q);
    UndominatedMembers(Dom(f.objectives), Passing(f, results), Passing(f, results), p);
    UndominatedMembers(Dom(f.objectives), Passing(f, results), Passing(f, results), q);
  }

  ghost predicate DistinctIds(results: seq<PointResult>) {
    forall i, j :: 0 <= i < j < |results| ==> results[i].id != results[j].id
  }

  lemma IdsDecide(results: seq<PointResult>, x: PointResult, y: PointResult)
    requires DistinctIds(results) && x in results && y in results && x != y
    ensures ById(x, y) || ById(y, x)
  {
    var i :| 0 <= i < |results| && results[i] == x;
    var j :| 0 <= j < |results| && results[j] == y;
    assert x.id != y.id;
    StringLessConnected(x.id, y.id);
  }

  // The points on the frontier do not depend on the order of the results, and
  // with distinct ids neither does the list.
  lemma OrderIndependent(f: Filter, s: seq<PointResult>, t: seq<PointResult>)
    requires multiset(s) == multiset(t)
    ensures multiset(FrontierOf(f, s)) == multiset(FrontierOf(f, t))
    ensures DistinctIds(s) ==> FrontierOf(f, s) == FrontierOf(f, t)
  {
    hide Admissible, Passing, Front, Dom, ById;
    var dom := Dom(f.objectives);
    forall r ensures multiset(Passing(f, s))[r] == multiset(Passing(f, t))[r] {
      PassingMembers(f, s, r);
      PassingMembers(f, t, r);
    }
    assert multiset(Passing(f, s)) == multiset(Passing(f, t));
    FrontPermutes(dom, Passing(f, s), Passing(f, t));
    if DistinctIds(s) {
      FrontierSorted(f, s);
      FrontierSorted(f, t);
      hide FrontierOf, DistinctIds;
      forall x, y | x in FrontierOf(f, s) && y in FrontierOf(f, s) && x != y ensures ById(x, y) || ById(y, x) {
        FrontierWithin(f, s, x);
        FrontierWithin(f, s, y);
        IdsDecide(s, x, y);
      }
      SortedUnique(ById, FrontierOf(f, s), FrontierOf(f, t));
    }
  }

  lemma FrontierSorted(f: Filter, results: seq<PointResult>)
    ensures Sorted(ById, FrontierOf(f, results))
  {
    hide ById, Front, Passing;
    ByIdIsWeak();
    SortBySorts(ById, Front(Dom(f.objectives), Passing(f, results)));
  }

  // The frontier comes in ascending order of ids.
  lemma FrontierAscends(f: Filter, results: seq<PointResult>, i: nat, j: nat)
    requires i < j < |FrontierOf(f, results)|
    ensures !StringLess(FrontierOf(f, results)[j].id, FrontierOf(f, results)[i].id)
  {
    hide FrontierOf, StringLess;
    FrontierSorted(f, results);
  }

  lemma FrontierWithin(f: Filter, results: seq<PointResult>, r: PointResult)
    requires r in FrontierOf(f, results)
    ensures r in results && Admissible(f, r)
  {
    hide FrontierOf, Front, Dom, Passing, Admissible;
    InFrontier(f, results, r);
    FrontWithin(Dom(f.objectives), Passing(f, results), r);
    InPassing(f, results, r);
  }

  // The frontier of a frontier is that frontier.
  lemma FrontierIsFixpoint(f: Filter, results: seq<PointResult>)
    ensures FrontierOf(f, FrontierOf(f, results)) == FrontierOf(f, results)
  {
    var dom, front := Dom(f.objectives), FrontierOf(f, results);
    assert multiset(front) == multiset(Front(dom, Passing(f, results)));
    hide FrontierOf, Front, Dom, Passing, Admissible, ById;
    forall r | r in front ensures Admissible(f, r) {
      FrontierWithin(f, results, r);
    }
    AllPassing(f, front);
    FrontOfFront(dom, Passing(f, results), front);
    FrontierSorted(f, results);
    SortOfSorted(ById, front);
    FrontierUnfolds(f, front);
  }

  lemma FrontierUnfolds(f: Filter, results: seq<PointResult>)
    ensures FrontierOf(f, results) == SortBy(ById, Front(Dom(f.objectives), Passing(f, results)))
  {
  }

  // ---- the class ----

  datatype ParetoPoint = ParetoPoint(result: PointResult, gates: seq<GateResult>, values: map<string, Ext>)

  const DEFAULT_OBJECTIVES: seq<Objective> := [
    Objective("completed_throughput_hz", "completed_throughput_hz", Maximize),
    Objective("latency_p99_ms", "p99_latency_s", Minimize),
    Objective("deadline_miss_count", "deadline_miss_count", Minimize),
    Objective("area_mm2", "area_mm2", Minimize),
    Objective("power_w", "power_w", Minimize),
    Objective("energy_joules", "energy_joules", Minimize)
  ]

  // What a record has for a metric that is set.
  function Measured(m: Metrics, field: string): Ext {
    if field in m.fields && m.fields[field].Some? then m.fields[field].value else Fin(0.0)
  }

  ghost predicate HasDefaults(m: Metrics) {
    forall i :: 0 <= i < |DEFAULT_OBJECTIVES| ==>
      DEFAULT_OBJECTIVES[i].field in m.fields && m.fields[DEFAULT_OBJECTIVES[i].field].Some?
  }

  // At least the throughput, and no more of anything that costs.
  predicate NoWorse(a: Metrics, b: Metrics) {
    && !Less(Measured(a, "completed_throughput_hz"), Measured(b, "completed_throughput_hz"))
    && !Less(Measured(b, "p99_latency_s"), Measured(a, "p99_latency_s"))
    && !Less(Measured(b, "deadline_miss_count"), Measured(a, "deadline_miss_count"))
    && !Less(Measured(b, "area_mm2"), Measured(a, "area_mm2"))
    && !Less(Measured(b, "power_w"), Measured(a, "power_w"))
    && !Less(Measured(b, "energy_joules"), Measured(a, "energy_joules"))
  }

  lemma DefaultValue(m: Metrics, i: nat)
    requires HasDefaults(m) && i < |DEFAULT_OBJECTIVES|
    ensures var objs := DEFAULT_OBJECTIVES;
            ValueAt(ValuesOf(objs, Some(m)), objs[i].name) == Measured(m, objs[i].field)
  {
    DistinctDefaults();
    OwnMetric(DEFAULT_OBJECTIVES, Some(m), i);
    hide ValuesOf, ValueAt;
  }

  lemma NoWorseByDefault(a: Metrics, b: Metrics)
    requires HasDefaults(a) && HasDefaults(b)
    ensures var objs := DEFAULT_OBJECTIVES;
            NoWorse(a, b) <==>
            forall i :: 0 <= i < |objs| ==> !WorseIn(objs[i], ValuesOf(objs, Some(a)), ValuesOf(objs, Some(b)))
  {
    hide Less, ValuesOf, ValueAt, Measured, HasDefaults;
    var objs := DEFAULT_OBJECTIVES;
    var x, y := ValuesOf(objs, Some(a)), ValuesOf(objs, Some(b));
    forall i: nat | i < |objs|
      ensures WorseIn(objs[i], x, y) <==>
              Worse(objs[i].direction, Measured(a, objs[i].field), Measured(b, objs[i].field))
    {
      DefaultValue(a, i);
      DefaultValue(b, i);
    }
    assert |objs| == 6;
    assert NoWorse(a, b) <==>
      && !WorseIn(objs[0], x, y) && !WorseIn(objs[1], x, y) && !WorseIn(objs[2], x, y)
      && !WorseIn(objs[3], x, y) && !WorseIn(objs[4], x, y) && !WorseIn(objs[5], x, y);
  }

  // What the default objectives make of two full records: one dominates the other
  // exactly when it is no worse in the six metrics and the other is.
  lemma DefaultTradeoff(a: Metrics, b: Metrics)
    requires HasDefaults(a) && HasDefaults(b)
    ensures var objs := DEFAULT_OBJECTIVES;
            Dominates(objs, ValuesOf(objs, Some(a)), ValuesOf(objs, Some(b))) <==> NoWorse(a, b) && !NoWorse(b, a)
  {
    hide WorseIn, NoWorse, ValuesOf, HasDefaults;
    NoWorseByDefault(a, b);
    NoWorseByDefault(b, a);
  }

  lemma DistinctDefaults()
    ensures forall j, k :: 0 <= j < k < |DEFAULT_OBJECTIVES| ==>
            DEFAULT_OBJECTIVES[j].name != DEFAULT_OBJECTIVES[k].name
  {
    var objs := DEFAULT_OBJECTIVES;
    assert objs[0].name[0] == 'c' && objs[1].name[0] == 'l' && objs[2].name[0] == 'd' && objs[3].name[0] == 'a';
    assert objs[4].name[0] == 'p' && objs[5].name[0] == 'e';
  }

  predicate PointById(a: ParetoPoint, b: ParetoPoint) {
    ById(a.result, b.result)
  }

  function Results(points: seq<ParetoPoint>): (r: seq<PointResult>)
    ensures |r| == |points|
  {
    seq(|points|, i requires 0 <= i < |points| => points[i].result)
  }

  lemma {:induction false} InsertResults(x: ParetoPoint, points: seq<ParetoPoint>)
    ensures Results(Insert(PointById, x, points)) == Insert(ById, x.result, Results(points))
  {
    hide ById;
    if points == [] {
    } else if PointById(x, points[0]) {
      ResultsOfCons(x, points);
    } else {
      InsertResults(x, points[1..]);
      var rest := Insert(PointById, x, points[1..]);
      assert Results(points)[1..] == Results(points[1..]) && Insert(PointById, x, points) == [points[0]] + rest;
      ResultsOfCons(points[0], rest);
    }
  }

  lemma ResultsOfCons(x: ParetoPoint, points: seq<ParetoPoint>)
    ensures Results([x] + points) == [x.result] + Results(points)
  {
  }

  lemma {:induction false} SortResults(points: seq<ParetoPoint>)
    ensures Results(SortBy(PointById, points)) == SortBy(ById, Results(points))
  {
    hide Insert;
    if points != [] {
      var front, last := points[..|points| - 1], points[|points| - 1];
      SortResults(front);
      assert Results(points)[..|points| - 1] == Results(front);
      InsertResults(last, SortBy(PointById, front));
    }
  }

  class MultiObjectivePareto {
    const filter: Filter

    constructor (objectives: seq<Objective>, thermalLimit: Option<Ext>, qualityRequired: bool)
      ensures filter == Filter(if objectives == [] then DEFAULT_OBJECTIVES else objectives,
                               thermalLimit, qualityRequired)
    {
      filter := Filter(if objectives == [] then DEFAULT_OBJECTIVES else objectives, thermalLimit, qualityRequired);
    }

    method EvaluateGates(r: PointResult) returns (gates: seq<GateResult>)
      ensures gates == Gates(filter, r)
    {
      hide IsCpu, Fits, WithinPower, Positive;
      MissingMetrics(filter.thermalLimit);
      gates := [GateResult(CompleteGate, r.status == Complete)];
      gates := gates + [GateResult(NoCpuFallback, !IsCpu(r.engine))];
      var fits := true;
      if r.metrics.Some? {
        fits := Fits(Attribute(r.metrics, "memory_footprint_gib"));
      }
      gates := gates + [GateResult(CapacityFit, fits)];
      gates := gates + [GateResult(QualityGate, !filter.qualityRequired)];
      var powerOk := true;
      if filter.thermalLimit.Some? && r.metrics.Some? {
        powerOk := WithinPower(Attribute(r.metrics, "power_w"), filter.thermalLimit);
      }
      gates := gates + [GateResult(PowerThermal, powerOk)];
      var terminalOk := true;
      if r.metrics.Some? {
        if Positive(Attribute(r.metrics, "deadline_miss_count")) {
          terminalOk := false;
        }
        if Positive(Attribute(r.metrics, "drop_count")) {
          terminalOk := false;
        }
      }
      gates := gates + [GateResult(TerminalCompletion, terminalOk)];
      var authOk;
      if filter.qualityRequired {
        authOk := r.trust == Authoritative;
      } else {
        authOk := r.trust != NonAuthoritative;
      }
      gates := gates + [GateResult(AuthoritativeGate, authOk)];
    }

    method ObjectiveValues(r: PointResult) returns (values: map<string, Ext>)
      ensures values == ValuesOf(filter.objectives, r.metrics)
    {
      var objs := filter.objectives;
      values := map[];
      for i := 0 to |objs|
        invariant values == ValuesOf(objs[..i], r.metrics)
      {
        assert objs[..i + 1][..i] == objs[..i];
        values := values[objs[i].name := RawValue(r.metrics, objs[i])];
      }
      assert objs[..|objs|] == objs;
    }

    method CheckDominates(a: map<string, Ext>, b: map<string, Ext>) returns (d: bool)
      ensures d <==> Dominates(filter.objectives, a, b)
    {
      hide Worse, ValueAt;
      var objs := filter.objectives;
      var strictlyBetter := false;
      for i := 0 to |objs|
        invariant forall k :: 0 <= k < i ==> !WorseIn(objs[k], a, b)
        invariant strictlyBetter <==> exists k :: 0 <= k < i && WorseIn(objs[k], b, a)
      {
        if WorseIn(objs[i], a, b) {
          return false;
        }
        if WorseIn(objs[i], b, a) {
          strictlyBetter := true;
        }
      }
      return strictlyBetter;
    }

    // The results that pass every gate, with their gates and objective values.
    method Decorate(results: seq<PointResult>) returns (decorated: seq<ParetoPoint>)
      ensures Results(decorated) == Passing(filter, results)
      ensures forall p :: p in decorated ==> Faithful(filter, p)
    {
      hide Admissible, AllPassed, ValuesOf, Gates;
      decorated := [];
      for i := 0 to |results|
        invariant Results(decorated) == Passing(filter, results[..i])
        invariant forall p :: p in decorated ==> Faithful(filter, p)
      {
        var gates := EvaluateGates(results[i]);
        var values := ObjectiveValues(results[i]);
        var point := ParetoPoint(results[i], gates, values);
        GatesAdmit(filter, results[i]);
        assert results[..i + 1][..i] == results[..i];
        if AllPassed(gates) {
          assert Results(decorated + [point]) == Results(decorated) + [results[i]];
          decorated := decorated + [point];
        }
      }
      assert results[..|results|] == results;
    }

    // Whether another point dominates point i; a point is not compared with itself.
    method IsDominated(decorated: seq<ParetoPoint>, i: nat) returns (dominated: bool)
      requires i < |decorated| && forall p :: p in decorated ==> Faithful(filter, p)
      ensures dominated <==> Dominated(Dom(filter.objectives), Results(decorated), decorated[i].result)
    {
      hide Gates, Dominates, ValuesOf;
      DominanceIsStrictPartial(filter.objectives);
      ghost var dom, pool := Dom(filter.objectives), Results(decorated);
      for j := 0 to |decorated|
        invariant forall k :: 0 <= k < j ==> !dom(pool[k], pool[i])
      {
        if j != i {
          assert Faithful(filter, decorated[i]) && Faithful(filter, decorated[j]);
          var d := CheckDominates(decorated[j].values, decorated[i].values);
          assert d <==> dom(pool[j], pool[i]);
          if d {
            return true;
          }
        }
      }
      return false;
    }

    method ComputeFrontier(results: seq<PointResult>) returns (points: seq<ParetoPoint>)
      ensures Results(points) == FrontierOf(filter, results)
      ensures forall p :: p in points ==> Faithful(filter, p)
    {
      hide Faithful, Dominated, Dom, ById;
      var decorated := Decorate(results);
      var frontier := [];
      ghost var pool := Results(decorated);
      for i := 0 to |decorated|
        invariant Results(frontier) == Undominated(Dom(filter.objectives), pool, pool[..i])
        invariant forall p :: p in frontier ==> Faithful(filter, p)
      {
        var dominated := IsDominated(decorated, i);
        assert pool[..i + 1][..i] == pool[..i];
        if !dominated {
          assert Results(frontier + [decorated[i]]) == Results(frontier) + [pool[i]];
          frontier := frontier + [decorated[i]];
        }
      }
      assert pool[..|decorated|] == pool;
      MembersOfPointSort(frontier);
      SortResults(frontier);
      points := SortBy(PointById, frontier);
    }
  }

  // A point carries the gates and the values of its own result.
  ghost predicate Faithful(f: Filter, p: ParetoPoint) {
    p.gates == Gates(f, p.result) && p.values == ValuesOf(f.objectives, p.result.metrics)
  }

  lemma MembersOfPointSort(points: seq<ParetoPoint>)
    ensures forall p :: p in SortBy(PointById, points) <==> p in points
  {
    MembersOfSort(PointById, points);
  }

  lemma MissingMetrics(limit: Option<Ext>)
    ensures Fits(None) && WithinPower(None, limit) && !Positive(None)
    ensures forall power :: WithinPower(power, None)
  {
  }
}
