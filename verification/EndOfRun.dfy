// The end of a run: the jobs still queued are recorded as dropped, and with
// that every job that arrived in an orderly run has met exactly one fate.
module EndOfRun {
  import opened Ordering
  import opened Scheduling
  import opened Accounting
  import opened JobPlaces

  lemma {:induction false} DropsCount(q: seq<JobId>, a: Action)
    ensures multiset(Drops(q))[a] == if a.Dropped? then multiset(q)[a.job] else 0
  {
    if q != [] {
      assert q == [q[0]] + q[1..];
      DropsCount(q[1..], a);
    }
  }

  // Draining empties the listed queues and adds to the log only.
  lemma {:induction false} DrainedExactly(s: Sched, order: seq<ClassId>)
    requires forall c :: c in order ==> c in s.fifo
    ensures var t := Drained(s, order);
            && t == s.(fifo := t.fifo, log := t.log) && t.fifo.Keys == s.fifo.Keys
            && (forall c :: c in s.fifo ==> t.fifo[c] == if c in order then [] else s.fifo[c])
            && (forall a: Action :: !a.Dropped? ==> multiset(t.log)[a] == multiset(s.log)[a])
    decreases order
  {
    if order != [] {
      var c, rest := order[0], order[1..];
      var u := Emptied(s, c);
      assert order == [c] + rest;
      DrainedExactly(u, rest);
      forall a: Action | !a.Dropped? ensures multiset(u.log)[a] == multiset(s.log)[a] {
        DropsCount(s.Queue(c), a);
      }
    }
  }

  // A job that waits in no other queue is dropped as often as it waits there.
  lemma {:induction false} DrainDrops(s: Sched, order: seq<ClassId>, home: ClassId, j: JobId)
    requires Once(order) && forall c :: c in order ==> c in s.fifo
    requires forall c :: c in order && c != home ==> j !in s.fifo[c]
    ensures multiset(Drained(s, order).log)[Dropped(j)] ==
            multiset(s.log)[Dropped(j)] + if home in order then multiset(s.fifo[home])[j] else 0
    decreases order
  {
    if order != [] {
      var c, rest := order[0], order[1..];
      assert order == [c] + rest;
      forall i, m | 0 <= i < m < |rest| ensures rest[i] != rest[m] {
        assert order[i + 1] != order[m + 1];
      }
      forall i | 0 <= i < |rest| ensures rest[i] != c {
        assert order[i + 1] != order[0];
      }
      DropsCount(s.Queue(c), Dropped(j));
      DrainDrops(Emptied(s, c), rest, home, j);
    }
  }

  lemma {:induction false} InLineOnce(env: Scenario, q: seq<JobId>, j: JobId)
    requires env.Wf() && forall i, m :: 0 <= i < m < |q| ==> env.before(q[i], q[m])
    ensures multiset(q)[j] == if j in q then 1 else 0
  {
    if q != [] {
      assert q == [q[0]] + q[1..];
      InLineOnce(env, q[1..], j);
      assert q[0] !in q[1..];
    }
  }

  lemma WaitingIsDropped(env: Scenario, s: Sched, order: seq<ClassId>, j: JobId)
    requires env.Wf() && Lined(env, s) && Lists(order, s.fifo.Keys)
    ensures multiset(Drained(s, order).log)[Dropped(j)] ==
            multiset(s.log)[Dropped(j)] + if Waiting(env, s, j) then 1 else 0
  {
    var home := env.ClassId(j);
    forall c | c in s.fifo ensures InLine(env, c, s.fifo[c], s.running.Keys, s.preempted) {
      assert s.Queue(c) == s.fifo[c];
    }
    DrainDrops(s, order, home, j);
    InLineOnce(env, s.Queue(home), j);
  }

  // At the end of an orderly run every job that arrived was rejected, was
  // dropped, has completed or is still running: exactly one of these, once.
  // No job that did not arrive is recorded at all, and none is left waiting.
  lemma EveryArrivalIsSettled(env: Scenario, events: seq<Event>, order: seq<ClassId>, j: JobId)
    requires Orderly(env) && InOrder(env, events) && Lists(order, Run(env, events).fifo.Keys)
    ensures var t := Drained(Run(env, events), order);
            && multiset(t.log)[Rejected(j)] + multiset(t.log)[Dropped(j)] + multiset(t.log)[Completed(j)]
               + (if j in t.running then 1 else 0) == (if Arrived(events, j) then 1 else 0)
            && (forall c :: t.Queue(c) == [])
  {
    var s := Run(env, events);
    EveryJobInOnePlace(env, events);
    WaitingOrRunning(env, s, j);
    DrainedExactly(s, order);
    WaitingIsDropped(env, s, order, j);
    hide Run, Drained, Accounted, Lined, Lists, Orderly, InOrder, Arrived, Waiting;
    assert Verdicts(s.log, j) == if Arrived(events, j) then 1 else 0;
  }

  // ---- what an arrival comes to, and how long the queues get ----

  // A job for a queue is turned away exactly when its class is subject to admission
  // and the controller says no, dropped exactly when its queue is full, and
  // otherwise comes last in its queue.
  lemma ArrivalExactly(env: Scenario, s: Sched, j: JobId, admitted: bool, k: Moment)
    requires env.Class(j).policy == Fifo
    ensures var t := Arrive(env, s, j, admitted, k);
            var c, full := env.ClassId(j), |s.Queue(env.ClassId(j))| >= env.Class(j).capacity;
            && t == s.(fifo := t.fifo, log := t.log)
            && (admitted || env.Class(j).admissionExcluded ==>
                  && (if full then t.log == s.log + [Dropped(j)] && t.fifo == s.fifo
                      else t.log == s.log + [Queued(j)] && t.Queue(c) == s.Queue(c) + [j])
                  && forall d :: d != c ==> t.Queue(d) == s.Queue(d))
            && (!admitted && !env.Class(j).admissionExcluded ==> t.fifo == s.fifo && t.log == s.log + [Rejected(j)])
  {
    hide Scenario.Class, Scenario.ClassId;
  }

  ghost predicate WithinCapacity(env: Scenario, s: Sched) {
    forall c :: c in env.classes ==> |s.Queue(c)| <= env.classes[c].capacity
  }

  lemma ShorterQueues(env: Scenario, s: Sched, t: Sched)
    requires WithinCapacity(env, s) && forall c :: |t.Queue(c)| <= |s.Queue(c)|
    ensures WithinCapacity(env, t)
  {
    hide Sched.Queue;
  }

  lemma StartShortens(env: Scenario, s: Sched, j: JobId, k: Moment, c: ClassId)
    ensures |Start(env, s, j, k).Queue(c)| <= |s.Queue(c)|
  {
    hide Scenario.Class, Scenario.ClassId;
  }

  lemma {:induction false} PlainPassShortens(env: Scenario, s: Sched, cands: set<JobId>, k: Moment, c: ClassId)
    requires env.Wf() && !env.preemption
    ensures |Pass(env, s, cands, k).Queue(c)| <= |s.Queue(c)|
    decreases cands
  {
    hide Start, Sched.Queue, CanAllocate;
    if cands != {} {
      var best := Least(env.before, cands);
      StartShortens(env, s, best, k, c);
      PlainPassShortens(env, Attempt(env, s, best, k), cands - {best}, k, c);
    }
  }

  lemma ArrivalFits(env: Scenario, s: Sched, j: JobId, admitted: bool, k: Moment)
    requires env.Wf() && j in env.releases && env.Class(j).policy == Fifo && WithinCapacity(env, s)
    ensures WithinCapacity(env, Arrive(env, s, j, admitted, k))
  {
    ArrivalExactly(env, s, j, admitted, k);
    var t := Arrive(env, s, j, admitted, k);
    hide Arrive;
    forall c | c in env.classes ensures |t.Queue(c)| <= env.classes[c].capacity {
      assert |s.Queue(c)| <= env.classes[c].capacity;
    }
  }

  // Without preemption no queue ever holds more than its capacity, in any run.
  lemma {:induction false} QueuesStayWithin(env: Scenario, events: seq<Event>)
    requires env.Wf() && !env.preemption && FifoOnly(env)
    requires forall i :: 0 <= i < |events| && events[i].Arrival? ==> events[i].job in env.releases
    ensures WithinCapacity(env, Run(env, events))
  {
    hide WithinCapacity, Arrive, Pass, Candidates, Sched.Queue;
    if events == [] {
      NothingQueued(env);
    } else {
      var n := |events| - 1;
      var s := Run(env, events[..n]);
      QueuesStayWithin(env, events[..n]);
      match events[n]
      case Arrival(j, admitted, k) =>
        var t := Arrive(env, s, j, admitted, k);
        assert events[n].job in env.releases;
        ArrivalFits(env, s, j, admitted, k);
        forall c {
          PlainPassShortens(env, t, Candidates(t), k, c);
        }
        ShorterQueues(env, t, Dispatch(env, t, k));
      case Timer(j, k) =>
        forall c ensures Complete(env, s, j, k).Queue(c) == s.Queue(c) {
          CompleteLeavesQueues(env, s, j, k, c);
        }
        ShorterQueues(env, s, Complete(env, s, j, k));
      case DispatchTick(k) =>
        forall c {
          PlainPassShortens(env, s, Candidates(s), k, c);
        }
        ShorterQueues(env, s, Dispatch(env, s, k));
    }
  }

  lemma NothingQueued(env: Scenario)
    ensures WithinCapacity(env, Initial(env))
  {
  }

  lemma CompleteLeavesQueues(env: Scenario, s: Sched, j: JobId, k: Moment, c: ClassId)
    ensures Complete(env, s, j, k).Queue(c) == s.Queue(c)
  {
  }
}
