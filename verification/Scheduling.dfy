// The scenario scheduler as a state machine on values: what each handler of
// the runner does to the resource counters, the running and preempted sets,
// the queues and the mailboxes. The class in ScenarioRunner.dfy is proved
// against these functions; the theorems about whole passes and whole runs are
// in the proof modules that import this one.
module Scheduling {
  import opened Ordering

  type JobId = string
  type ClassId = string
  type Resource = string

  datatype QueuePolicy = Fifo | MailboxLatest(stream: string)

  datatype WorkloadClass = WorkloadClass(
    priority: int, policy: QueuePolicy, capacity: nat,
    needs: map<Resource, nat>, admissionExcluded: bool)

  datatype Release = Release(classId: ClassId, arrival: int, work: int, deadline: int)

  // `before` is the order of the policy keys; PolicyOrder.dfy builds the one
  // the runner uses and proves it a strict total order.
  datatype Scenario = Scenario(
    classes: map<ClassId, WorkloadClass>,
    releases: map<JobId, Release>,
    capacity: map<Resource, nat>,
    preemption: bool,
    before: (JobId, JobId) -> bool)
  {
    ghost predicate Wf() {
      && StrictTotal(before)
      && (forall j :: j in releases ==> releases[j].classId in classes)
    }

    function ClassId(j: JobId): ClassId {
      if j in releases then releases[j].classId else ""
    }

    function Class(j: JobId): WorkloadClass {
      if j in releases && releases[j].classId in classes then classes[releases[j].classId]
      else WorkloadClass(0, Fifo, 0, map[], true)
    }

    function Need(j: JobId, r: Resource): nat {
      if r in Class(j).needs then Class(j).needs[r] else 0
    }
  }

  // What the event kernel supplies while an event is handled: the time and the
  // work it has left for each job it knows.
  datatype Moment = Moment(now: int, left: map<JobId, int>) {
    function Left(j: JobId): int {
      if j in left then left[j] else 0
    }
  }

  datatype Action =
    | Queued(job: JobId) | Dropped(job: JobId) | Rejected(job: JobId) | Replaced(job: JobId)
    | Started(job: JobId) | Preempted(job: JobId) | Completed(job: JobId)

  // The stretches of running time reported to the metrics collector, from a start
  // to a preemption, with the work the kernel says is left, or to the completion;
  // and the preempted jobs that were given up.
  datatype Span =
    | Stopped(job: JobId, from: int, to: int, left: int)
    | Finished(job: JobId, from: int, to: int)
    | GivenUp(job: JobId)

  // `running` maps each running job to the time its completion is due;
  // `log` is what else the metrics collector was told, in order.
  datatype Sched = Sched(
    used: map<Resource, int>,
    running: map<JobId, int>,
    preempted: set<JobId>,
    remaining: map<JobId, int>,
    started: map<JobId, int>,
    fifo: map<ClassId, seq<JobId>>,
    mailbox: map<string, JobId>,
    log: seq<Action>,
    spans: seq<Span>)
  {
    function Queue(c: ClassId): seq<JobId> {
      if c in fifo then fifo[c] else []
    }

    function Since(j: JobId, k: Moment): int {
      if j in started then started[j] else k.now
    }
  }

  function Initial(env: Scenario): Sched {
    Sched(map r | r in env.capacity :: 0, map[], {}, map[], map[],
          map c | c in env.classes && env.classes[c].policy == Fifo :: [], map[], [], [])
  }

  predicate CanAllocate(env: Scenario, s: Sched, j: JobId) {
    forall r :: r in env.Class(j).needs ==>
      r in env.capacity && r in s.used && env.capacity[r] - s.used[r] >= env.Class(j).needs[r]
  }

  function Allocated(env: Scenario, used: map<Resource, int>, j: JobId): map<Resource, int> {
    map r | r in used :: used[r] + env.Need(j, r)
  }

  function Max0(x: int): int {
    if x < 0 then 0 else x
  }

  function Freed(env: Scenario, used: map<Resource, int>, j: JobId): map<Resource, int> {
    map r | r in used :: if r in env.Class(j).needs then Max0(used[r] - env.Need(j, r)) else used[r]
  }

  // A started job leaves its queue only from the head; a started mailbox job
  // takes whatever its mailbox holds.
  function DequeuedFifo(env: Scenario, fifo: map<ClassId, seq<JobId>>, j: JobId): map<ClassId, seq<JobId>> {
    var c := env.ClassId(j);
    if env.Class(j).policy == Fifo && c in fifo && fifo[c] != [] && fifo[c][0] == j then fifo[c := fifo[c][1..]]
      else fifo
  }

  function DequeuedMailbox(env: Scenario, mailbox: map<string, JobId>, j: JobId): map<string, JobId> {
    match env.Class(j).policy
    case Fifo => mailbox
    case MailboxLatest(stream) => mailbox - {stream}
  }

  function WorkOf(env: Scenario, remaining: map<JobId, int>, j: JobId): int {
    if j in remaining then remaining[j] else if j in env.releases then env.releases[j].work else 0
  }

  function Start(env: Scenario, s: Sched, j: JobId, k: Moment): Sched {
    s.(used := Allocated(env, s.used, j),
       preempted := s.preempted - {j},
       fifo := DequeuedFifo(env, s.fifo, j),
       mailbox := DequeuedMailbox(env, s.mailbox, j),
       remaining := s.remaining - {j},
       started := s.started[j := k.now],
       running := s.running[j := k.now + WorkOf(env, s.remaining, j)],
       log := s.log + [Started(j)])
  }

  function Preempt(env: Scenario, s: Sched, j: JobId, k: Moment): Sched {
    if j !in s.running then s else
    s.(running := s.running - {j},
       started := s.started - {j},
       remaining := s.remaining[j := k.Left(j)],
       used := Freed(env, s.used, j),
       preempted := s.preempted + {j},
       fifo := if env.Class(j).policy == Fifo && env.ClassId(j) in s.fifo
               then s.fifo[env.ClassId(j) := [j] + s.Queue(env.ClassId(j))] else s.fifo,
       log := s.log + [Preempted(j)],
       spans := s.spans + [Stopped(j, s.Since(j, k), k.now, k.Left(j))])
  }

  function Complete(env: Scenario, s: Sched, j: JobId, k: Moment): Sched {
    if j !in s.running then s else
    s.(running := s.running - {j},
       started := s.started - {j},
       used := Freed(env, s.used, j),
       log := s.log + [Completed(j)],
       spans := s.spans + [Finished(j, s.Since(j, k), k.now)])
  }

  // Preempt the lowest-ranked running jobs, those ranked after j only, until j fits.
  ghost function PreemptFor(env: Scenario, s: Sched, j: JobId, k: Moment): Sched
    requires env.Wf()
    decreases |s.running|
  {
    if CanAllocate(env, s, j) || s.running.Keys == {} then s else
    var worst := Greatest(env.before, s.running.Keys);
    if env.before(j, worst) then
      assert |(s.running - {worst}).Keys| < |s.running.Keys| by {
        assert (s.running - {worst}).Keys == s.running.Keys - {worst};
      }
      PreemptFor(env, Preempt(env, s, worst, k), j, k)
    else s
  }

  ghost function Attempt(env: Scenario, s: Sched, j: JobId, k: Moment): Sched
    requires env.Wf()
  {
    if j in s.running then s
    else if CanAllocate(env, s, j) then Start(env, s, j, k)
    else if !env.preemption then s
    else
      var t := PreemptFor(env, s, j, k);
      if CanAllocate(env, t, j) then Start(env, t, j, k) else t
  }

  // One dispatch pass: every collected candidate is tried once, best first.
  ghost function Pass(env: Scenario, s: Sched, cands: set<JobId>, k: Moment): Sched
    requires env.Wf()
    decreases cands
  {
    if cands == {} then s else
    var best := Least(env.before, cands);
    Pass(env, Attempt(env, s, best, k), cands - {best}, k)
  }

  function Heads(fifo: map<ClassId, seq<JobId>>): set<JobId> {
    set c | c in fifo && fifo[c] != [] :: fifo[c][0]
  }

  function Candidates(s: Sched): set<JobId> {
    (s.preempted - s.running.Keys) + Heads(s.fifo) + s.mailbox.Values
  }

  ghost function Dispatch(env: Scenario, s: Sched, k: Moment): Sched
    requires env.Wf()
  {
    Pass(env, s, Candidates(s), k)
  }

  // A job posted to a mailbox takes the place of the pending one, whose
  // execution, running or preempted, is called off.
  function Post(env: Scenario, s: Sched, stream: string, j: JobId, k: Moment): Sched {
    if stream !in s.mailbox then s.(mailbox := s.mailbox[stream := j]) else
    var prior := s.mailbox[stream];
    var put := s.(mailbox := s.mailbox[stream := j], log := s.log + [Replaced(prior)]);
    if prior in s.running then Preempt(env, put, prior, k)
    else if prior in s.preempted then
      put.(preempted := s.preempted - {prior}, remaining := s.remaining - {prior}, spans := s.spans + [GivenUp(prior)])
    else put
  }

  function Enqueue(env: Scenario, s: Sched, j: JobId): Sched {
    var c := env.ClassId(j);
    if |s.Queue(c)| >= env.Class(j).capacity then s.(log := s.log + [Dropped(j)])
    else s.(fifo := s.fifo[c := s.Queue(c) + [j]], log := s.log + [Queued(j)])
  }

  // `admitted` is the admission controller's verdict.
  function Arrive(env: Scenario, s: Sched, j: JobId, admitted: bool, k: Moment): Sched {
    var cls := env.Class(j);
    if !cls.admissionExcluded && !admitted then s.(log := s.log + [Rejected(j)])
    else match cls.policy
      case Fifo => Enqueue(env, s, j)
      case MailboxLatest(stream) => Post(env, s, stream, j, k)
  }

  datatype Event =
    | Arrival(job: JobId, admitted: bool, k: Moment)
    | Timer(job: JobId, k: Moment)
    | DispatchTick(k: Moment)

  ghost function Handle(env: Scenario, s: Sched, e: Event): Sched
    requires env.Wf()
  {
    match e
    case Arrival(j, admitted, k) => Dispatch(env, Arrive(env, s, j, admitted, k), k)
    case Timer(j, k) => Complete(env, s, j, k)
    case DispatchTick(k) => Dispatch(env, s, k)
  }

  ghost function Run(env: Scenario, events: seq<Event>): Sched
    requires env.Wf()
  {
    if events == [] then Initial(env)
    else Handle(env, Run(env, events[..|events| - 1]), events[|events| - 1])
  }

  // The end of a run: the queues are emptied one after another, and every job
  // still in one is recorded as dropped.
  function Drops(q: seq<JobId>): seq<Action> {
    if q == [] then [] else [Dropped(q[0])] + Drops(q[1..])
  }

  function Emptied(s: Sched, c: ClassId): Sched {
    s.(fifo := s.fifo[c := []], log := s.log + Drops(s.Queue(c)))
  }

  function Drained(s: Sched, order: seq<ClassId>): Sched
    decreases order
  {
    if order == [] then s else Drained(Emptied(s, order[0]), order[1..])
  }

  // The order lists the queues, each once.
  ghost predicate Lists(order: seq<ClassId>, queues: set<ClassId>) {
    (forall c :: c in order <==> c in queues) && Once(order)
  }

  ghost predicate Once(order: seq<ClassId>) {
    forall i, m :: 0 <= i < m < |order| ==> order[i] != order[m]
  }

  // Facts about one attempt that every proof below starts from.
  lemma {:induction false} PreemptForKeeps(env: Scenario, s: Sched, j: JobId, k: Moment)
    requires env.Wf()
    ensures var t := PreemptFor(env, s, j, k);
            && t.running.Keys <= s.running.Keys
            && (forall x :: x in t.running ==> t.running[x] == s.running[x])
            && (forall x :: x in s.running && x !in t.running ==> env.before(j, x))
    decreases |s.running|
  {
    if !CanAllocate(env, s, j) && s.running.Keys != {} {
      var worst := Greatest(env.before, s.running.Keys);
      if env.before(j, worst) {
        assert (s.running - {worst}).Keys == s.running.Keys - {worst};
        PreemptForKeeps(env, Preempt(env, s, worst, k), j, k);
      }
    }
  }
}
