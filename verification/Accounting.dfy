// Resource accounting over every run, for arbitrary non-negative requirements
// over any number of resources, FIFO and mailbox queues, preemption on or off.
module Accounting {
  import opened Ordering
  import opened Scheduling

  // What a set of jobs needs of one resource.
  ghost function Demand(env: Scenario, jobs: set<JobId>, r: Resource): nat
    decreases jobs
  {
    if jobs == {} then 0 else
    var j :| j in jobs;
    env.Need(j, r) + Demand(env, jobs - {j}, r)
  }

  lemma {:induction false} DemandSplits(env: Scenario, jobs: set<JobId>, r: Resource, j: JobId)
    requires j in jobs
    ensures Demand(env, jobs, r) == env.Need(j, r) + Demand(env, jobs - {j}, r)
    decreases jobs
  {
    var first :| first in jobs && Demand(env, jobs, r) == env.Need(first, r) + Demand(env, jobs - {first}, r);
    if first != j {
      DemandSplits(env, jobs - {first}, r, j);
      DemandSplits(env, jobs - {j}, r, first);
      assert jobs - {first} - {j} == jobs - {j} - {first};
    }
  }

  // Each counter is the sum of what the running jobs need and stays within
  // capacity; running and preempted jobs are disjoint; the start-time and
  // remaining-work tables have exactly the running and the preempted jobs.
  ghost predicate Accounted(env: Scenario, s: Sched) {
    && s.used.Keys == env.capacity.Keys
    && (forall r :: r in env.capacity ==> s.used[r] == Demand(env, s.running.Keys, r) <= env.capacity[r])
    && (forall j :: j in s.running ==> env.Class(j).needs.Keys <= env.capacity.Keys)
    && s.running.Keys !! s.preempted
    && s.started.Keys == s.running.Keys
    && s.remaining.Keys == s.preempted
  }

  // Releasing a running job never meets the clamp at zero: the counter drops
  // by exactly what the job needs.
  lemma ClampNeverBites(env: Scenario, s: Sched, j: JobId)
    requires Accounted(env, s) && j in s.running
    ensures forall r :: r in s.used ==> s.used[r] - env.Need(j, r) == Demand(env, s.running.Keys - {j}, r)
    ensures Freed(env, s.used, j) == map r | r in s.used :: s.used[r] - env.Need(j, r)
  {
    forall r | r in s.used
      ensures s.used[r] - env.Need(j, r) == Demand(env, s.running.Keys - {j}, r)
    {
      DemandSplits(env, s.running.Keys, r, j);
    }
  }

  lemma StartKeepsAccounts(env: Scenario, s: Sched, j: JobId, k: Moment)
    requires Accounted(env, s) && j !in s.running && CanAllocate(env, s, j)
    ensures Accounted(env, Start(env, s, j, k))
    ensures Start(env, s, j, k).running.Keys == s.running.Keys + {j}
  {
    var t := Start(env, s, j, k);
    assert t.running.Keys - {j} == s.running.Keys;
    forall r | r in env.capacity
      ensures t.used[r] == Demand(env, t.running.Keys, r) <= env.capacity[r]
    {
      DemandSplits(env, t.running.Keys, r, j);
    }
  }

  lemma PreemptKeepsAccounts(env: Scenario, s: Sched, j: JobId, k: Moment)
    requires Accounted(env, s)
    ensures Accounted(env, Preempt(env, s, j, k))
    ensures Preempt(env, s, j, k).running.Keys == s.running.Keys - {j}
  {
    if j in s.running {
      ClampNeverBites(env, s, j);
      assert Preempt(env, s, j, k).running.Keys == s.running.Keys - {j};
    }
  }

  lemma CompleteKeepsAccounts(env: Scenario, s: Sched, j: JobId, k: Moment)
    requires Accounted(env, s)
    ensures Accounted(env, Complete(env, s, j, k))
    ensures Complete(env, s, j, k).running.Keys == s.running.Keys - {j}
  {
    if j in s.running {
      ClampNeverBites(env, s, j);
      assert Complete(env, s, j, k).running.Keys == s.running.Keys - {j};
    }
  }

  lemma {:induction false} PreemptForKeepsAccounts(env: Scenario, s: Sched, j: JobId, k: Moment)
    requires env.Wf() && Accounted(env, s)
    ensures Accounted(env, PreemptFor(env, s, j, k))
    decreases |s.running|
  {
    if !CanAllocate(env, s, j) && s.running.Keys != {} {
      var worst := Greatest(env.before, s.running.Keys);
      PreemptKeepsAccounts(env, s, worst, k);
      if env.before(j, worst) {
        assert (s.running - {worst}).Keys == s.running.Keys - {worst};
        PreemptForKeepsAccounts(env, Preempt(env, s, worst, k), j, k);
      }
    }
  }

  lemma AttemptKeepsAccounts(env: Scenario, s: Sched, j: JobId, k: Moment)
    requires env.Wf() && Accounted(env, s)
    ensures Accounted(env, Attempt(env, s, j, k))
  {
    PreemptForKeepsAccounts(env, s, j, k);
    PreemptForKeeps(env, s, j, k);
    var t := PreemptFor(env, s, j, k);
    if j !in s.running {
      if CanAllocate(env, s, j) { StartKeepsAccounts(env, s, j, k); }
      if CanAllocate(env, t, j) { StartKeepsAccounts(env, t, j, k); }
    }
  }

  lemma {:induction false} PassKeepsAccounts(env: Scenario, s: Sched, cands: set<JobId>, k: Moment)
    requires env.Wf() && Accounted(env, s)
    ensures Accounted(env, Pass(env, s, cands, k))
    decreases cands
  {
    if cands != {} {
      var best := Least(env.before, cands);
      AttemptKeepsAccounts(env, s, best, k);
      PassKeepsAccounts(env, Attempt(env, s, best, k), cands - {best}, k);
    }
  }

  lemma PostKeepsAccounts(env: Scenario, s: Sched, stream: string, j: JobId, k: Moment)
    requires Accounted(env, s)
    ensures Accounted(env, Post(env, s, stream, j, k))
  {
    if stream in s.mailbox {
      var prior := s.mailbox[stream];
      var put := s.(mailbox := s.mailbox[stream := j], log := s.log + [Replaced(prior)]);
      assert Accounted(env, put);
      PreemptKeepsAccounts(env, put, prior, k);
    }
  }

  lemma EnqueueKeepsAccounts(env: Scenario, s: Sched, j: JobId)
    requires Accounted(env, s)
    ensures Accounted(env, Enqueue(env, s, j))
  {}

  lemma EmptiedKeepsAccounts(env: Scenario, s: Sched, c: ClassId)
    requires Accounted(env, s)
    ensures Accounted(env, Emptied(s, c))
  {}

  lemma ArriveKeepsAccounts(env: Scenario, s: Sched, j: JobId, admitted: bool, k: Moment)
    requires Accounted(env, s)
    ensures Accounted(env, Arrive(env, s, j, admitted, k))
  {
    match env.Class(j).policy
    case Fifo => EnqueueKeepsAccounts(env, s, j);
    case MailboxLatest(stream) => PostKeepsAccounts(env, s, stream, j, k);
  }

  lemma HandleKeepsAccounts(env: Scenario, s: Sched, e: Event)
    requires env.Wf() && Accounted(env, s)
    ensures Accounted(env, Handle(env, s, e))
  {
    match e
    case Arrival(j, admitted, k) =>
      ArriveKeepsAccounts(env, s, j, admitted, k);
      var t := Arrive(env, s, j, admitted, k);
      PassKeepsAccounts(env, t, Candidates(t), k);
    case Timer(j, k) => CompleteKeepsAccounts(env, s, j, k);
    case DispatchTick(k) => PassKeepsAccounts(env, s, Candidates(s), k);
  }

  lemma {:induction false} EveryRunIsAccounted(env: Scenario, events: seq<Event>)
    requires env.Wf()
    ensures Accounted(env, Run(env, events))
  {
    if events != [] {
      EveryRunIsAccounted(env, events[..|events| - 1]);
      HandleKeepsAccounts(env, Run(env, events[..|events| - 1]), events[|events| - 1]);
    }
  }

  // The log balances: in every run a job that is running was started once more
  // than it was preempted or completed, and any other job exactly as often.
  function Effect(a: Action, j: JobId): int {
    if a == Started(j) then 1 else if a == Preempted(j) || a == Completed(j) then -1 else 0
  }

  function Balance(log: seq<Action>, j: JobId): int {
    if log == [] then 0 else Balance(log[..|log| - 1], j) + Effect(log[|log| - 1], j)
  }

  ghost predicate Balanced(s: Sched) {
    forall j :: Balance(s.log, j) == if j in s.running then 1 else 0
  }

  lemma Logged(s: Sched, t: Sched, a: Action)
    requires Balanced(s) && t.log == s.log + [a]
    requires forall j :: (if j in t.running then 1 else 0) == (if j in s.running then 1 else 0) + Effect(a, j)
    ensures Balanced(t)
  {
    assert t.log[..|t.log| - 1] == s.log;
  }

  lemma StartBalances(env: Scenario, s: Sched, j: JobId, k: Moment)
    requires Balanced(s) && j !in s.running
    ensures Balanced(Start(env, s, j, k))
  {
    Logged(s, Start(env, s, j, k), Started(j));
  }

  lemma PreemptBalances(env: Scenario, s: Sched, j: JobId, k: Moment)
    requires Balanced(s)
    ensures Balanced(Preempt(env, s, j, k))
  {
    if j in s.running {
      Logged(s, Preempt(env, s, j, k), Preempted(j));
    }
  }

  lemma {:induction false} PreemptForKeepsBalance(env: Scenario, s: Sched, j: JobId, k: Moment)
    requires env.Wf() && Balanced(s)
    ensures Balanced(PreemptFor(env, s, j, k))
    decreases |s.running|
  {
    if !CanAllocate(env, s, j) && s.running.Keys != {} {
      var worst := Greatest(env.before, s.running.Keys);
      if env.before(j, worst) {
        assert (s.running - {worst}).Keys == s.running.Keys - {worst};
        PreemptBalances(env, s, worst, k);
        PreemptForKeepsBalance(env, Preempt(env, s, worst, k), j, k);
      }
    }
  }

  lemma AttemptKeepsBalance(env: Scenario, s: Sched, j: JobId, k: Moment)
    requires env.Wf() && Balanced(s)
    ensures Balanced(Attempt(env, s, j, k))
  {
    PreemptForKeepsBalance(env, s, j, k);
    PreemptForKeeps(env, s, j, k);
    if j !in s.running {
      StartBalances(env, s, j, k);
      StartBalances(env, PreemptFor(env, s, j, k), j, k);
    }
  }

  lemma {:induction false} PassKeepsBalance(env: Scenario, s: Sched, cands: set<JobId>, k: Moment)
    requires env.Wf() && Balanced(s)
    ensures Balanced(Pass(env, s, cands, k))
    decreases cands
  {
    if cands != {} {
      var best := Least(env.before, cands);
      AttemptKeepsBalance(env, s, best, k);
      PassKeepsBalance(env, Attempt(env, s, best, k), cands - {best}, k);
    }
  }

  lemma EnqueueBalances(env: Scenario, s: Sched, j: JobId)
    requires Balanced(s)
    ensures Balanced(Enqueue(env, s, j))
  {
    Logged(s, Enqueue(env, s, j), if |s.Queue(env.ClassId(j))| >= env.Class(j).capacity then Dropped(j) else Queued(j));
  }

  lemma PostBalances(env: Scenario, s: Sched, stream: string, j: JobId, k: Moment)
    requires Balanced(s)
    ensures Balanced(Post(env, s, stream, j, k))
  {
    if stream in s.mailbox {
      var prior := s.mailbox[stream];
      var put := s.(mailbox := s.mailbox[stream := j], log := s.log + [Replaced(prior)]);
      Logged(s, put, Replaced(prior));
      PreemptBalances(env, put, prior, k);
    }
  }

  lemma ArriveKeepsBalance(env: Scenario, s: Sched, j: JobId, admitted: bool, k: Moment)
    requires Balanced(s)
    ensures Balanced(Arrive(env, s, j, admitted, k))
  {
    Logged(s, s.(log := s.log + [Rejected(j)]), Rejected(j));
    match env.Class(j).policy
    case Fifo => EnqueueBalances(env, s, j);
    case MailboxLatest(stream) => PostBalances(env, s, stream, j, k);
  }

  lemma {:induction false} EveryRunBalances(env: Scenario, events: seq<Event>)
    requires env.Wf()
    ensures Balanced(Run(env, events))
  {
    if events != [] {
      var s := Run(env, events[..|events| - 1]);
      EveryRunBalances(env, events[..|events| - 1]);
      match events[|events| - 1]
      case Arrival(j, admitted, k) =>
        var t := Arrive(env, s, j, admitted, k);
        ArriveKeepsBalance(env, s, j, admitted, k);
        PassKeepsBalance(env, t, Candidates(t), k);
      case Timer(j, k) =>
        if j in s.running { Logged(s, Complete(env, s, j, k), Completed(j)); }
      case DispatchTick(k) => PassKeepsBalance(env, s, Candidates(s), k);
    }
  }
}
