// The order of the dispatcher's policy keys: service-class priority first, then
// deadline, then arrival, then the job id.
module PolicyOrder {
  import opened Ordering
  import opened Scheduling

  datatype Key = Key(negatedPriority: int, deadline: int, arrival: int, job: JobId)

  predicate KeyLess(a: Key, b: Key) {
    if a.negatedPriority != b.negatedPriority then a.negatedPriority < b.negatedPriority
    else if a.deadline != b.deadline then a.deadline < b.deadline
    else if a.arrival != b.arrival then a.arrival < b.arrival
    else StringLess(a.job, b.job)
  }

  function PolicyKey(classes: map<ClassId, WorkloadClass>, releases: map<JobId, Release>, j: JobId): Key {
    if j in releases && releases[j].classId in classes then
      Key(-classes[releases[j].classId].priority, releases[j].deadline, releases[j].arrival, j)
    else Key(0, 0, 0, j)
  }

  function PolicyBefore(classes: map<ClassId, WorkloadClass>, releases: map<JobId, Release>): (JobId, JobId) -> bool {
    (a, b) => KeyLess(PolicyKey(classes, releases, a), PolicyKey(classes, releases, b))
  }

  lemma PolicyIsStrictTotal(classes: map<ClassId, WorkloadClass>, releases: map<JobId, Release>)
    ensures StrictTotal(PolicyBefore(classes, releases))
  {
    StringLessIsStrictTotal();
    forall a: JobId, b: JobId | a != b
      ensures PolicyBefore(classes, releases)(a, b) || PolicyBefore(classes, releases)(b, a)
    {
      assert StringLess(a, b) || StringLess(b, a);
    }
  }

  // Which of two known jobs ranks first: the one of the higher priority; among equal
  // priorities the earlier deadline, whatever the classes; then the earlier arrival;
  // then the id that ends first or has the smaller character at the first difference.
  lemma PolicyExactly(env: Scenario, a: JobId, b: JobId)
    requires env.before == PolicyBefore(env.classes, env.releases)
    requires a in env.releases && b in env.releases
    requires env.releases[a].classId in env.classes && env.releases[b].classId in env.classes
    ensures var ra, rb := env.releases[a], env.releases[b];
            var pa, pb := env.classes[ra.classId].priority, env.classes[rb.classId].priority;
            && (pa > pb ==> env.before(a, b))
            && (pa == pb && ra.deadline < rb.deadline ==> env.before(a, b))
            && (pa == pb && ra.deadline == rb.deadline && ra.arrival < rb.arrival ==> env.before(a, b))
            && (pa == pb && ra.deadline == rb.deadline && ra.arrival == rb.arrival ==>
                  (env.before(a, b) <==> exists i: nat :: DiffersAt(a, b, i)))
            && (env.before(a, b) ==> pa >= pb && (pa == pb ==> ra.deadline <= rb.deadline))
            && (env.before(a, b) && pa == pb && ra.deadline == rb.deadline ==> ra.arrival <= rb.arrival)
  {
    StringLessExactly(a, b);
  }

  function Compile(classes: map<ClassId, WorkloadClass>, releases: map<JobId, Release>,
                   capacity: map<Resource, nat>, preemption: bool): Scenario
  {
    Scenario(classes, releases, capacity, preemption, PolicyBefore(classes, releases))
  }

  lemma CompiledIsWf(classes: map<ClassId, WorkloadClass>, releases: map<JobId, Release>,
                     capacity: map<Resource, nat>, preemption: bool)
    requires forall j :: j in releases ==> releases[j].classId in classes
    ensures Compile(classes, releases, capacity, preemption).Wf()
  {
    PolicyIsStrictTotal(classes, releases);
  }

  // Jobs of one class share their relative deadline, so within a class the
  // policy order is the order of arrival.
  lemma LaterArrivalRanksLater(env: Scenario, a: JobId, b: JobId)
    requires env.before == PolicyBefore(env.classes, env.releases) && a in env.releases && b in env.releases
    requires env.releases[a].classId == env.releases[b].classId
    requires env.releases[a].deadline - env.releases[a].arrival == env.releases[b].deadline - env.releases[b].arrival
    requires env.releases[a].classId in env.classes
    requires env.releases[a].arrival < env.releases[b].arrival
    ensures env.before(a, b)
  {}
}
