// Where an accepted job is, in every run of a scenario whose classes all use
// FIFO queues: waiting, running or completed, exactly one of them, and
// completed at most once. It holds when preemption is off, and when every
// job has the same needs; it fails in general.
module JobPlaces {
  import opened Ordering
  import opened Scheduling
  import opened Accounting
  import opened DispatchOrder

  // The queue of class c: its jobs in policy order, all behind the running
  // jobs of the class, the preempted ones in front.
  ghost predicate InLine(env: Scenario, c: ClassId, q: seq<JobId>, running: set<JobId>, preempted: set<JobId>) {
    && (forall x :: x in q ==> x in env.releases && env.ClassId(x) == c)
    && (forall i, m :: 0 <= i < m < |q| ==> env.before(q[i], q[m]))
    && (forall x, i :: x in running && env.ClassId(x) == c && 0 <= i < |q| ==> env.before(x, q[i]))
    && (forall i, m :: 0 <= i < m < |q| && q[m] in preempted ==> q[i] in preempted)
    && (forall x :: x in preempted && env.ClassId(x) == c ==> x in q)
  }

  ghost predicate Lined(env: Scenario, s: Sched) {
    && s.mailbox == map[]
    && s.fifo.Keys == env.classes.Keys
    && s.running.Keys + s.preempted <= env.releases.Keys
    && (forall c :: c in env.classes ==> InLine(env, c, s.Queue(c), s.running.Keys, s.preempted))
  }

  predicate Waiting(env: Scenario, s: Sched, j: JobId) {
    j in s.Queue(env.ClassId(j))
  }

  predicate Here(env: Scenario, s: Sched, j: JobId) {
    Waiting(env, s, j) || j in s.running
  }

  predicate AtHead(env: Scenario, s: Sched, j: JobId) {
    s.Queue(env.ClassId(j)) != [] && s.Queue(env.ClassId(j))[0] == j
  }

  ghost predicate FifoOnly(env: Scenario) {
    forall c :: c in env.classes ==> env.classes[c].policy == Fifo
  }

  lemma WaitingOrRunning(env: Scenario, s: Sched, j: JobId)
    requires env.Wf() && Lined(env, s)
    ensures !(Waiting(env, s, j) && j in s.running)
  {
    if j in s.running {
      var q := s.Queue(env.ClassId(j));
      forall i | 0 <= i < |q| ensures q[i] != j {
        assert env.before(j, q[i]);
      }
    }
  }

  // ---- one step at a time ----

  // A step that touches the queue of class c and jobs of class c only.
  ghost predicate Touches(env: Scenario, s: Sched, t: Sched, c: ClassId, q: seq<JobId>, running: set<JobId>,
                          preempted: set<JobId>)
  {
    && t.mailbox == s.mailbox && t.fifo.Keys == s.fifo.Keys
    && (forall d :: t.Queue(d) == if d == c then q else s.Queue(d))
    && t.running.Keys == running && t.preempted == preempted
    && (forall x :: env.ClassId(x) != c ==>
         (x in running <==> x in s.running) && (x in preempted <==> x in s.preempted))
  }

  lemma LinedAfter(env: Scenario, s: Sched, t: Sched, c: ClassId, q: seq<JobId>, running: set<JobId>,
                   preempted: set<JobId>)
    requires Lined(env, s) && Touches(env, s, t, c, q, running, preempted)
    requires InLine(env, c, q, running, preempted) && running + preempted <= env.releases.Keys
    ensures Lined(env, t)
  {
    forall d | d in env.classes
      ensures InLine(env, d, t.Queue(d), t.running.Keys, t.preempted)
    {
      if d != c {
        assert InLine(env, d, s.Queue(d), s.running.Keys, s.preempted);
        assert t.Queue(d) == s.Queue(d);
      }
    }
  }

  lemma HereAfter(env: Scenario, s: Sched, t: Sched, c: ClassId, q: seq<JobId>, running: set<JobId>,
                  preempted: set<JobId>)
    requires Touches(env, s, t, c, q, running, preempted)
    ensures forall x :: Here(env, t, x) <==> if env.ClassId(x) == c then x in q || x in running else Here(env, s, x)
  {}

  lemma HeadLeaves(env: Scenario, c: ClassId, q: seq<JobId>, running: set<JobId>, preempted: set<JobId>)
    requires env.Wf() && InLine(env, c, q, running, preempted) && q != []
    ensures InLine(env, c, q[1..], running + {q[0]}, preempted - {q[0]})
    ensures q[0] !in q[1..]
    ensures forall x :: x in q <==> x in q[1..] || x == q[0]
  {
    var rest := q[1..];
    forall i | 0 <= i < |rest| ensures rest[i] == q[i + 1] && rest[i] != q[0] {
      assert env.before(q[0], q[i + 1]);
    }
    assert q == [q[0]] + rest;
  }

  lemma StartTouches(env: Scenario, s: Sched, j: JobId, k: Moment)
    requires env.Class(j).policy == Fifo && s.fifo.Keys == env.classes.Keys && env.ClassId(j) in s.fifo
             && AtHead(env, s, j)
    ensures Touches(env, s, Start(env, s, j, k), env.ClassId(j), s.Queue(env.ClassId(j))[1..],
                    s.running.Keys + {j}, s.preempted - {j})
  {
    var t := Start(env, s, j, k);
    assert t.fifo == s.fifo[env.ClassId(j) := s.Queue(env.ClassId(j))[1..]];
    assert t.running.Keys == s.running.Keys + {j};
  }

  // A job started from the head of its queue stays in one place; see
  // OnlyTheHeadMayStart for any other.
  lemma StartFromHead(env: Scenario, s: Sched, j: JobId, k: Moment)
    requires env.Wf() && FifoOnly(env) && Lined(env, s) && j in env.releases && AtHead(env, s, j)
    ensures Lined(env, Start(env, s, j, k))
    ensures forall x :: Here(env, Start(env, s, j, k), x) <==> Here(env, s, x)
  {
    var c := env.ClassId(j);
    HeadLeaves(env, c, s.Queue(c), s.running.Keys, s.preempted);
    StartTouches(env, s, j, k);
    LinedAfter(env, s, Start(env, s, j, k), c, s.Queue(c)[1..], s.running.Keys + {j}, s.preempted - {j});
    HereAfter(env, s, Start(env, s, j, k), c, s.Queue(c)[1..], s.running.Keys + {j}, s.preempted - {j});
  }

  lemma PreemptTouches(env: Scenario, s: Sched, v: JobId, k: Moment)
    requires env.Class(v).policy == Fifo && env.ClassId(v) in s.fifo && v in s.running
    ensures Touches(env, s, Preempt(env, s, v, k), env.ClassId(v), [v] + s.Queue(env.ClassId(v)),
                    s.running.Keys - {v}, s.preempted + {v})
  {
    var t := Preempt(env, s, v, k);
    assert t.running.Keys == s.running.Keys - {v};
  }

  lemma VictimReturns(env: Scenario, c: ClassId, q: seq<JobId>, running: set<JobId>, preempted: set<JobId>, v: JobId)
    requires env.Wf() && InLine(env, c, q, running, preempted)
    requires v in running && v in env.releases && env.ClassId(v) == c
    requires forall x :: x in running && x != v ==> env.before(x, v)
    ensures InLine(env, c, [v] + q, running - {v}, preempted + {v})
    ensures forall x :: x in [v] + q <==> x == v || x in q
  {
  }

  lemma PreemptTheWorst(env: Scenario, s: Sched, v: JobId, k: Moment)
    requires env.Wf() && FifoOnly(env) && Lined(env, s) && IsGreatest(env.before, v, s.running.Keys)
    ensures Lined(env, Preempt(env, s, v, k))
    ensures forall x :: Here(env, Preempt(env, s, v, k), x) <==> Here(env, s, x)
  {
    var c := env.ClassId(v);
    var q := s.Queue(c);
    VictimReturns(env, c, q, s.running.Keys, s.preempted, v);
    PreemptTouches(env, s, v, k);
    LinedAfter(env, s, Preempt(env, s, v, k), c, [v] + q, s.running.Keys - {v}, s.preempted + {v});
    HereAfter(env, s, Preempt(env, s, v, k), c, [v] + q, s.running.Keys - {v}, s.preempted + {v});
  }

  lemma RunnerLeaves(env: Scenario, c: ClassId, q: seq<JobId>, running: set<JobId>, preempted: set<JobId>, j: JobId)
    requires InLine(env, c, q, running, preempted)
    ensures InLine(env, c, q, running - {j}, preempted)
  {}

  lemma CompleteTouches(env: Scenario, s: Sched, j: JobId, k: Moment)
    requires j in s.running
    ensures Touches(env, s, Complete(env, s, j, k), env.ClassId(j), s.Queue(env.ClassId(j)), s.running.Keys - {j},
            s.preempted)
  {
    assert Complete(env, s, j, k).running.Keys == s.running.Keys - {j};
  }

  lemma CompleteInLine(env: Scenario, s: Sched, j: JobId, k: Moment)
    requires env.Wf() && Lined(env, s) && j in s.running
    ensures Lined(env, Complete(env, s, j, k))
    ensures forall x :: Here(env, Complete(env, s, j, k), x) <==> Here(env, s, x) && x != j
  {
    var c := env.ClassId(j);
    WaitingOrRunning(env, s, j);
    CompleteTouches(env, s, j, k);
    RunnerLeaves(env, c, s.Queue(c), s.running.Keys, s.preempted, j);
    LinedAfter(env, s, Complete(env, s, j, k), c, s.Queue(c), s.running.Keys - {j}, s.preempted);
    HereAfter(env, s, Complete(env, s, j, k), c, s.Queue(c), s.running.Keys - {j}, s.preempted);
  }

  lemma LastJoins(env: Scenario, c: ClassId, q: seq<JobId>, running: set<JobId>, preempted: set<JobId>, j: JobId)
    requires env.Wf() && InLine(env, c, q, running, preempted) && j in env.releases && env.ClassId(j) == c
    requires forall x :: (x in q || x in running) && env.ClassId(x) == c ==> env.before(x, j)
    ensures InLine(env, c, q + [j], running, preempted)
    ensures forall x :: x in q + [j] <==> x in q || x == j
  {
    assert forall i :: 0 <= i < |q| ==> q[i] in q;
    assert j !in q;
    assert forall x :: x in q + [j] <==> x in q || x == j;
  }

  lemma EnqueueInLine(env: Scenario, s: Sched, j: JobId)
    requires env.Wf() && Lined(env, s) && j in env.releases && |s.Queue(env.ClassId(j))| < env.Class(j).capacity
    requires forall x :: Here(env, s, x) && env.ClassId(x) == env.ClassId(j) ==> env.before(x, j)
    ensures Lined(env, Enqueue(env, s, j))
    ensures forall x :: Here(env, Enqueue(env, s, j), x) <==> Here(env, s, x) || x == j
  {
    var c := env.ClassId(j);
    var q := s.Queue(c);
    LastJoins(env, c, q, s.running.Keys, s.preempted, j);
    LinedAfter(env, s, Enqueue(env, s, j), c, q + [j], s.running.Keys, s.preempted);
  }

  // Exactly when a start keeps a waiting job in one place: when it is the head
  // of its queue, which is the test the runner makes before it dequeues.
  lemma OnlyTheHeadMayStart(env: Scenario, s: Sched, j: JobId, k: Moment)
    requires env.Wf() && FifoOnly(env) && Lined(env, s) && j in env.releases && Waiting(env, s, j)
    ensures !(Waiting(env, Start(env, s, j, k), j) && j in Start(env, s, j, k).running) <==> AtHead(env, s, j)
  {
    if AtHead(env, s, j) {
      StartFromHead(env, s, j, k);
      WaitingOrRunning(env, Start(env, s, j, k), j);
    }
  }

  // And no start, from wherever, takes another job out of a queue.
  lemma StartLeavesOthers(env: Scenario, s: Sched, j: JobId, k: Moment, c: ClassId)
    ensures var q := Start(env, s, j, k).Queue(c);
            if env.Class(j).policy == Fifo && c == env.ClassId(j) && AtHead(env, s, j) then s.Queue(c) == [j] + q
            else q == s.Queue(c)
  {
    hide Scenario.Class, Scenario.ClassId;
  }

  // ---- a whole pass ----

  ghost predicate Blocked(env: Scenario, s: Sched, j: JobId, needs: map<Resource, nat>) {
    !Room(env, needs, |s.running.Keys|) && forall x :: x in s.running ==> env.before(x, j)
  }

  ghost predicate FrontIn(env: Scenario, s: Sched, j: JobId, cands: set<JobId>) {
    forall x :: x in s.Queue(env.ClassId(j)) && env.before(x, j) ==> x in cands
  }

  // Every candidate waits; the jobs ahead of it are candidates too, unless it
  // can no longer start in this pass.
  ghost predicate Ready(env: Scenario, s: Sched, cands: set<JobId>, needs: map<Resource, nat>) {
    forall j :: j in cands ==>
      Waiting(env, s, j) && j in env.releases && (FrontIn(env, s, j, cands) || Blocked(env, s, j, needs))
  }

  lemma LeastIsFirst(env: Scenario, c: ClassId, q: seq<JobId>, running: set<JobId>, preempted: set<JobId>, j: JobId,
                     cands: set<JobId>)
    requires env.Wf() && InLine(env, c, q, running, preempted) && j in q && IsLeast(env.before, j, cands)
    requires forall x :: x in q && env.before(x, j) ==> x in cands
    ensures q[0] == j
  {
    assert q[0] in q;
    assert !env.before(q[0], j);
    assert forall i :: 0 < i < |q| ==> env.before(q[0], q[i]);
  }

  lemma FrontIsHead(env: Scenario, s: Sched, j: JobId, cands: set<JobId>)
    requires env.Wf() && Lined(env, s) && Waiting(env, s, j) && j in env.releases && IsLeast(env.before, j, cands)
    requires FrontIn(env, s, j, cands)
    ensures AtHead(env, s, j)
  {
    LeastIsFirst(env, env.ClassId(j), s.Queue(env.ClassId(j)), s.running.Keys, s.preempted, j, cands);
  }

  // Starting the head j leaves the front of any other candidate's queue alone.
  lemma FrontAfterStart(env: Scenario, s: Sched, j: JobId, k: Moment, x: JobId, cands: set<JobId>)
    requires env.Wf() && FifoOnly(env) && Lined(env, s) && j in env.releases && AtHead(env, s, j)
    requires x in env.releases && x != j && Waiting(env, s, x)
    ensures Waiting(env, Start(env, s, j, k), x)
    ensures FrontIn(env, s, x, cands) ==> FrontIn(env, Start(env, s, j, k), x, cands - {j})
  {
    var c := env.ClassId(j);
    HeadLeaves(env, c, s.Queue(c), s.running.Keys, s.preempted);
    StartTouches(env, s, j, k);
    assert InLine(env, env.ClassId(x), s.Queue(env.ClassId(x)), s.running.Keys, s.preempted);
  }

  lemma StartWithRoom(env: Scenario, s: Sched, needs: map<Resource, nat>, cands: set<JobId>, j: JobId, k: Moment)
    requires env.Wf() && FifoOnly(env) && Lined(env, s)
    requires Room(env, needs, |s.running.Keys|) && IsLeast(env.before, j, cands)
    requires Ready(env, s, cands, needs)
    ensures AtHead(env, s, j)
    ensures Ready(env, Start(env, s, j, k), cands - {j}, needs)
  {
    FrontIsHead(env, s, j, cands);
    forall x | x in cands - {j}
      ensures Waiting(env, Start(env, s, j, k), x) && FrontIn(env, Start(env, s, j, k), x, cands - {j})
    {
      FrontAfterStart(env, s, j, k, x, cands);
    }
  }

  lemma QueueGrows(env: Scenario, s: Sched, t: Sched, v: JobId)
    requires Touches(env, s, t, env.ClassId(v), [v] + s.Queue(env.ClassId(v)), s.running.Keys - {v}, s.preempted + {v})
    ensures forall x :: Waiting(env, s, x) ==> Waiting(env, t, x)
    ensures forall x :: AtHead(env, s, x) && env.ClassId(x) != env.ClassId(v) ==> AtHead(env, t, x)
  {
    hide Scenario.ClassId, Sched.Queue;
  }

  // Taking the place of the worst running job: that job belongs to another
  // class, so j is still the head of its own queue when it starts.
  lemma VictimFromAnotherClass(env: Scenario, s: Sched, j: JobId, k: Moment)
    requires env.Wf() && FifoOnly(env) && Lined(env, s) && s.running.Keys != {} && j in env.releases
    requires AtHead(env, s, j) && env.before(j, Greatest(env.before, s.running.Keys))
    ensures var u := Preempt(env, s, Greatest(env.before, s.running.Keys), k);
            && Lined(env, u) && AtHead(env, u, j)
            && env.ClassId(j) != env.ClassId(Greatest(env.before, s.running.Keys))
            && (forall x :: Waiting(env, s, x) ==> Waiting(env, u, x))
  {
    var worst := Greatest(env.before, s.running.Keys);
    var c := env.ClassId(worst);
    assert InLine(env, env.ClassId(j), s.Queue(env.ClassId(j)), s.running.Keys, s.preempted);
    assert env.ClassId(j) != c;
    PreemptTheWorst(env, s, worst, k);
    PreemptTouches(env, s, worst, k);
    hide Preempt, Lined, Greatest;
    QueueGrows(env, s, Preempt(env, s, worst, k), worst);
  }

  lemma BeforeTheWorst(env: Scenario, s: Sched, j: JobId, needs: map<Resource, nat>)
    requires env.Wf() && s.running.Keys != {} && env.before(j, Greatest(env.before, s.running.Keys))
    ensures !Blocked(env, s, j, needs)
  {
    var worst := Greatest(env.before, s.running.Keys);
    assert worst in s.running && !env.before(worst, j);
  }

  lemma StartInstead(env: Scenario, s: Sched, needs: map<Resource, nat>, cands: set<JobId>, j: JobId, k: Moment)
    requires env.Wf() && FifoOnly(env) && Lined(env, s) && Ready(env, s, cands, needs)
    requires !Room(env, needs, |s.running.Keys|) && s.running.Keys != {} && IsLeast(env.before, j, cands)
             && j !in s.running
    requires env.before(j, Greatest(env.before, s.running.Keys))
    ensures var u := Preempt(env, s, Greatest(env.before, s.running.Keys), k);
            AtHead(env, s, j) && Lined(env, u) && AtHead(env, u, j)
              && Ready(env, Start(env, u, j, k), cands - {j}, needs)
  {
    var worst := Greatest(env.before, s.running.Keys);
    hide Preempt, Start;
    BeforeTheWorst(env, s, j, needs);
    FrontIsHead(env, s, j, cands);
    VictimFromAnotherClass(env, s, j, k);
    forall x | x in cands - {j}
      ensures var t := Start(env, Preempt(env, s, worst, k), j, k);
              Waiting(env, t, x) && (FrontIn(env, t, x, cands - {j}) || Blocked(env, t, x, needs))
    {
      OthersAfterSwap(env, s, needs, cands, j, k, x);
    }
  }

  lemma OthersAfterSwap(env: Scenario, s: Sched, needs: map<Resource, nat>, cands: set<JobId>, j: JobId, k: Moment,
                        x: JobId)
    requires env.Wf() && FifoOnly(env) && Lined(env, s) && !Room(env, needs, |s.running.Keys|) && s.running.Keys != {}
             && j !in s.running
    requires j in env.releases && AtHead(env, s, j) && env.before(j, Greatest(env.before, s.running.Keys))
    requires x in env.releases && x != j && Waiting(env, s, x)
    requires FrontIn(env, s, x, cands) || Blocked(env, s, x, needs)
    ensures var t := Start(env, Preempt(env, s, Greatest(env.before, s.running.Keys), k), j, k);
            Waiting(env, t, x) && (FrontIn(env, t, x, cands - {j}) || Blocked(env, t, x, needs))
  {
    var worst := Greatest(env.before, s.running.Keys);
    var u := Preempt(env, s, worst, k);
    VictimFromAnotherClass(env, s, j, k);
    FrontAfterStart(env, u, j, k, x, cands);
    if env.ClassId(x) == env.ClassId(worst) || Blocked(env, s, x, needs) {
      BehindTheVictim(env, s, worst, x, needs);
      BlockedAfterSwap(env, s, needs, j, k, x);
    } else {
      PreemptTouches(env, s, worst, k);
      assert u.Queue(env.ClassId(x)) == s.Queue(env.ClassId(x));
    }
  }

  lemma RunningAfterSwap(env: Scenario, s: Sched, v: JobId, j: JobId, k: Moment)
    requires v in s.running
    ensures Start(env, Preempt(env, s, v, k), j, k).running.Keys == s.running.Keys - {v} + {j}
  {
    assert Preempt(env, s, v, k).running.Keys == s.running.Keys - {v};
  }

  lemma SwapInSet(env: Scenario, R: set<JobId>, j: JobId, x: JobId)
    requires env.Wf() && R != {} && j !in R
    requires env.before(j, Greatest(env.before, R)) && env.before(Greatest(env.before, R), x)
    ensures |R - {Greatest(env.before, R)} + {j}| == |R|
    ensures forall y :: y in R - {Greatest(env.before, R)} + {j} ==> env.before(y, x)
  {
  }

  lemma BlockedAfterSwap(env: Scenario, s: Sched, needs: map<Resource, nat>, j: JobId, k: Moment, x: JobId)
    requires env.Wf() && !Room(env, needs, |s.running.Keys|) && s.running.Keys != {} && j !in s.running
    requires env.before(j, Greatest(env.before, s.running.Keys)) && env.before(Greatest(env.before, s.running.Keys), x)
    ensures Blocked(env, Start(env, Preempt(env, s, Greatest(env.before, s.running.Keys), k), j, k), x, needs)
  {
    RunningAfterSwap(env, s, Greatest(env.before, s.running.Keys), j, k);
    SwapInSet(env, s.running.Keys, j, x);
  }

  lemma BehindTheVictim(env: Scenario, s: Sched, v: JobId, x: JobId, needs: map<Resource, nat>)
    requires Lined(env, s) && v in s.running && Waiting(env, s, x) && x in env.releases && env.Wf()
    requires env.ClassId(x) == env.ClassId(v) || Blocked(env, s, x, needs)
    ensures env.before(v, x)
  {
    var q := s.Queue(env.ClassId(x));
    assert InLine(env, env.ClassId(x), q, s.running.Keys, s.preempted);
    var i :| 0 <= i < |q| && q[i] == x;
  }

  // Once better jobs leave no room, the later candidates are blocked too.
  lemma BlockedByAll(env: Scenario, s: Sched, cands: set<JobId>, j: JobId, needs: map<Resource, nat>)
    requires env.Wf() && Ready(env, s, cands, needs) && IsLeast(env.before, j, cands) && j !in s.running
    requires !Room(env, needs, |s.running.Keys|) && !Takes(env, s, j)
    ensures Ready(env, s, cands - {j}, needs)
  {
    assert s.running.Keys != {} ==> forall x :: x in s.running ==> env.before(x, j);
    assert forall x :: x in cands - {j} ==> Blocked(env, s, x, needs);
  }

  lemma AttemptInPlace(env: Scenario, s: Sched, needs: map<Resource, nat>, cands: set<JobId>, j: JobId, k: Moment)
    requires env.Wf() && env.preemption && FifoOnly(env) && Alike(env, needs, env.releases.Keys)
    requires Accounted(env, s) && Lined(env, s) && Ready(env, s, cands, needs)
    requires IsLeast(env.before, j, cands)
    ensures var t := Attempt(env, s, j, k);
            && Lined(env, t) && Ready(env, t, cands - {j}, needs)
            && forall x :: Here(env, t, x) <==> Here(env, s, x)
  {
    hide Room, CanAllocate, PreemptFor, Accounted, Attempt;
    WaitingOrRunning(env, s, j);
    AlikeAttempt(env, s, needs, j, k);
    if Room(env, needs, |s.running.Keys|) {
      StartWithRoom(env, s, needs, cands, j, k);
      StartFromHead(env, s, j, k);
    } else if Takes(env, s, j) {
      var worst := Greatest(env.before, s.running.Keys);
      StartInstead(env, s, needs, cands, j, k);
      PreemptTheWorst(env, s, worst, k);
      StartFromHead(env, Preempt(env, s, worst, k), j, k);
    } else {
      BlockedByAll(env, s, cands, j, needs);
    }
  }

  lemma {:induction false} AlikePassInPlace(env: Scenario, s: Sched, needs: map<Resource, nat>, cands: set<JobId>,
                                            k: Moment)
    requires env.Wf() && env.preemption && FifoOnly(env) && Alike(env, needs, env.releases.Keys)
    requires Accounted(env, s) && Lined(env, s) && Ready(env, s, cands, needs)
    ensures var t := Pass(env, s, cands, k);
            Lined(env, t) && forall x :: Here(env, t, x) <==> Here(env, s, x)
    decreases cands
  {
    if cands != {} {
      var best := Least(env.before, cands);
      AttemptInPlace(env, s, needs, cands, best, k);
      AttemptKeepsAccounts(env, s, best, k);
      AlikePassInPlace(env, Attempt(env, s, best, k), needs, cands - {best}, k);
    }
  }

  // Without preemption every candidate is a head and stays one until its turn,
  // whatever the requirements.
  lemma {:induction false} PlainPassInPlace(env: Scenario, s: Sched, cands: set<JobId>, k: Moment)
    requires env.Wf() && !env.preemption && FifoOnly(env) && Lined(env, s)
    requires forall j :: j in cands ==> j in env.releases && AtHead(env, s, j)
    ensures var t := Pass(env, s, cands, k);
            Lined(env, t) && forall x :: Here(env, t, x) <==> Here(env, s, x)
    decreases cands
  {
    if cands != {} {
      var best := Least(env.before, cands);
      var t := Attempt(env, s, best, k);
      if t != s {
        StartFromHead(env, s, best, k);
        StartTouches(env, s, best, k);
        forall x | x in cands - {best} ensures AtHead(env, t, x) {
          assert env.ClassId(x) != env.ClassId(best);
        }
      }
      PlainPassInPlace(env, t, cands - {best}, k);
    }
  }

  // ---- whole runs ----

  // Either preemption is off, or all jobs have the same needs, of any resources.
  ghost predicate Orderly(env: Scenario) {
    && env.Wf() && FifoOnly(env)
    && (env.preemption ==> exists needs :: Alike(env, needs, env.releases.Keys))
  }

  lemma CandidatesWait(env: Scenario, s: Sched)
    requires env.Wf() && Lined(env, s)
    ensures forall j :: j in Candidates(s) ==> Waiting(env, s, j) && j in env.releases
    ensures forall j :: j in Candidates(s) && j !in s.preempted ==> AtHead(env, s, j)
  {
    forall j | j in Heads(s.fifo) ensures AtHead(env, s, j) && j in env.releases {
      var c :| c in s.fifo && s.fifo[c] != [] && s.fifo[c][0] == j;
      assert InLine(env, c, s.Queue(c), s.running.Keys, s.preempted);
      assert s.Queue(c)[0] in s.Queue(c);
    }
    forall j | j in s.preempted ensures Waiting(env, s, j) {
      assert InLine(env, env.ClassId(j), s.Queue(env.ClassId(j)), s.running.Keys, s.preempted);
    }
  }

  lemma DispatchInPlace(env: Scenario, s: Sched, k: Moment)
    requires Orderly(env) && Accounted(env, s) && Lined(env, s)
    requires !env.preemption ==> s.preempted == {}
    ensures var t := Dispatch(env, s, k);
            Lined(env, t) && forall x :: Here(env, t, x) <==> Here(env, s, x)
  {
    CandidatesWait(env, s);
    if env.preemption {
      var needs :| Alike(env, needs, env.releases.Keys);
      forall j, x | j in Candidates(s) && x in s.Queue(env.ClassId(j)) && env.before(x, j)
        ensures x in Candidates(s)
      {
        AheadOfACandidate(env, s, j, x);
      }
      AlikePassInPlace(env, s, needs, Candidates(s), k);
    } else {
      PlainPassInPlace(env, s, Candidates(s), k);
    }
  }

  lemma AheadInLine(env: Scenario, c: ClassId, q: seq<JobId>, running: set<JobId>, preempted: set<JobId>, i: nat,
                    m: nat)
    requires env.Wf() && InLine(env, c, q, running, preempted) && i < |q| && m < |q| && env.before(q[m], q[i])
    ensures m < i && (q[i] in preempted ==> q[m] in preempted)
  {}

  lemma AheadOfACandidate(env: Scenario, s: Sched, j: JobId, x: JobId)
    requires env.Wf() && Lined(env, s) && j in Candidates(s) && x in s.Queue(env.ClassId(j)) && env.before(x, j)
    ensures x in Candidates(s)
  {
    CandidatesWait(env, s);
    var q := s.Queue(env.ClassId(j));
    var i :| 0 <= i < |q| && q[i] == j;
    var m :| 0 <= m < |q| && q[m] == x;
    assert env.ClassId(j) in s.fifo && q == s.fifo[env.ClassId(j)] && q[0] in Heads(s.fifo);
    AheadInLine(env, env.ClassId(j), q, s.running.Keys, s.preempted, i, m);
  }

  // In the log each queued job is waiting or running, or has completed once,
  // and not both.
  ghost predicate InOnePlace(env: Scenario, s: Sched) {
    forall j :: multiset(s.log)[Queued(j)] == multiset(s.log)[Completed(j)] + (if Here(env, s, j) then 1 else 0)
  }

  // How often an arrival of the job was decided.
  function Verdicts(log: seq<Action>, j: JobId): nat {
    multiset(log)[Queued(j)] + multiset(log)[Dropped(j)] + multiset(log)[Rejected(j)]
  }

  // Every job that arrived was queued, dropped or rejected, once, and no other.
  ghost predicate Judged(s: Sched, events: seq<Event>) {
    forall j :: Verdicts(s.log, j) == if Arrived(events, j) then 1 else 0
  }

  ghost predicate SameVerdicts(log: seq<Action>, after: seq<Action>) {
    forall j ::
      && multiset(after)[Queued(j)] == multiset(log)[Queued(j)]
           && multiset(after)[Completed(j)] == multiset(log)[Completed(j)]
      && multiset(after)[Dropped(j)] == multiset(log)[Dropped(j)]
           && multiset(after)[Rejected(j)] == multiset(log)[Rejected(j)]
  }

  // A pass adds only starts and preemptions to the log.
  lemma {:induction false} PassLogs(env: Scenario, s: Sched, cands: set<JobId>, k: Moment)
    requires env.Wf()
    ensures SameVerdicts(s.log, Pass(env, s, cands, k).log)
    decreases cands
  {
    hide Attempt;
    if cands != {} {
      var best := Least(env.before, cands);
      var u := Attempt(env, s, best, k);
      AttemptLog(env, s, best, k);
      SameCounts(s.log, u.log);
      PassLogs(env, u, cands - {best}, k);
    }
  }

  lemma SameCounts(log: seq<Action>, after: seq<Action>)
    requires log <= after && forall i :: |log| <= i < |after| ==> after[i].Started? || after[i].Preempted?
    ensures SameVerdicts(log, after)
  {
    var tail := after[|log|..];
    assert after == log + tail;
    forall a: Action | a in tail ensures a.Started? || a.Preempted? {
      var i :| 0 <= i < |tail| && tail[i] == a;
      assert after[|log| + i] == a;
    }
    assert multiset(after) == multiset(log) + multiset(tail);
  }

  // Without preemption no job is ever preempted.
  lemma {:induction false} PlainPassPreemptsNobody(env: Scenario, s: Sched, cands: set<JobId>, k: Moment)
    requires env.Wf() && !env.preemption && s.preempted == {}
    ensures Pass(env, s, cands, k).preempted == {}
    decreases cands
  {
    if cands != {} {
      var best := Least(env.before, cands);
      PlainPassPreemptsNobody(env, Attempt(env, s, best, k), cands - {best}, k);
    }
  }

  // Arrivals come in policy order within each class.
  ghost predicate InOrder(env: Scenario, events: seq<Event>) {
    && (forall i :: 0 <= i < |events| && events[i].Arrival? ==> events[i].job in env.releases)
    && (forall i, m :: 0 <= i < m < |events| && events[i].Arrival? && events[m].Arrival?
                       && env.ClassId(events[i].job) == env.ClassId(events[m].job)
                       ==> env.before(events[i].job, events[m].job))
  }

  ghost predicate Arrived(events: seq<Event>, j: JobId) {
    exists i :: 0 <= i < |events| && events[i].Arrival? && events[i].job == j
  }

  ghost predicate Good(env: Scenario, s: Sched, events: seq<Event>) {
    && Accounted(env, s) && Lined(env, s) && InOnePlace(env, s)
    && (!env.preemption ==> s.preempted == {})
    && Judged(s, events)
  }

  lemma DispatchKeepsGood(env: Scenario, s: Sched, events: seq<Event>, k: Moment)
    requires Orderly(env) && Good(env, s, events)
    ensures Good(env, Dispatch(env, s, k), events)
  {
    DispatchInPlace(env, s, k);
    PassLogs(env, s, Candidates(s), k);
    PassKeepsAccounts(env, s, Candidates(s), k);
    if !env.preemption {
      PlainPassPreemptsNobody(env, s, Candidates(s), k);
    }
  }

  lemma ArrivedEarlier(env: Scenario, s: Sched, events: seq<Event>, j: JobId, admitted: bool, k: Moment)
    requires Good(env, s, events) && InOrder(env, events + [Arrival(j, admitted, k)])
    ensures j in env.releases
    ensures forall x :: Here(env, s, x) && env.ClassId(x) == env.ClassId(j) ==> env.before(x, j)
    ensures env.Wf() ==> !Arrived(events, j)
  {
    var all := events + [Arrival(j, admitted, k)];
    assert all[|events|] == Arrival(j, admitted, k);
    forall x | Arrived(events, x)
      ensures env.ClassId(x) == env.ClassId(j) ==> env.before(x, j)
    {
      var i :| 0 <= i < |events| && events[i].Arrival? && events[i].job == x;
      assert all[i] == events[i];
    }
    assert forall x :: Here(env, s, x) ==> Verdicts(s.log, x) > 0;
  }

  lemma PlacesAfterQueue(env: Scenario, s: Sched, t: Sched, j: JobId)
    requires InOnePlace(env, s) && t.log == s.log + [Queued(j)] && !Here(env, s, j)
    requires forall x :: Here(env, t, x) <==> Here(env, s, x) || x == j
    ensures InOnePlace(env, t)
  {
    hide Here;
  }

  // A refusal moves no job.
  lemma LogOnly(env: Scenario, s: Sched, a: Action)
    requires Lined(env, s) && InOnePlace(env, s) && (a.Dropped? || a.Rejected?)
    ensures var t := s.(log := s.log + [a]);
            Lined(env, t) && InOnePlace(env, t)
  {
    var t := s.(log := s.log + [a]);
    assert forall x :: Here(env, t, x) <==> Here(env, s, x);
    assert forall c :: t.Queue(c) == s.Queue(c);
    hide Here, InLine;
  }

  lemma EnqueueKeepsPlaces(env: Scenario, s: Sched, j: JobId)
    requires env.Wf() && Lined(env, s) && InOnePlace(env, s) && j in env.releases
    requires forall x :: Here(env, s, x) && env.ClassId(x) == env.ClassId(j) ==> env.before(x, j)
    requires !Here(env, s, j)
    ensures Lined(env, Enqueue(env, s, j)) && InOnePlace(env, Enqueue(env, s, j))
  {
    hide Lined, InOnePlace, Here, Scenario.Wf;
    if |s.Queue(env.ClassId(j))| < env.Class(j).capacity {
      EnqueueInLine(env, s, j);
      assert Enqueue(env, s, j).log == s.log + [Queued(j)];
      PlacesAfterQueue(env, s, Enqueue(env, s, j), j);
    } else {
      assert Enqueue(env, s, j) == s.(log := s.log + [Dropped(j)]);
      LogOnly(env, s, Dropped(j));
    }
  }

  lemma FifoArrival(env: Scenario, s: Sched, j: JobId, admitted: bool, k: Moment)
    requires env.Wf() && FifoOnly(env) && j in env.releases
    ensures Arrive(env, s, j, admitted, k) ==
            if !env.Class(j).admissionExcluded && !admitted then s.(log := s.log + [Rejected(j)])
              else Enqueue(env, s, j)
  {
    assert env.Class(j).policy == Fifo;
  }

  lemma EnqueueIsLogged(env: Scenario, s: Sched, j: JobId)
    ensures var t := Enqueue(env, s, j);
            t.preempted == s.preempted && t.log == s.log + [Entry(env, s, j)]
  {
    hide Scenario.Class, Scenario.ClassId, Sched.Queue;
    if |s.Queue(env.ClassId(j))| >= env.Class(j).capacity {
      assert Enqueue(env, s, j) == s.(log := s.log + [Dropped(j)]);
    } else {
      assert Enqueue(env, s, j).log == s.log + [Queued(j)];
    }
  }

  // What enqueueing logs.
  function Entry(env: Scenario, s: Sched, j: JobId): (a: Action)
    ensures a.job == j && IsVerdict(a)
  {
    if |s.Queue(env.ClassId(j))| >= env.Class(j).capacity then Dropped(j) else Queued(j)
  }

  predicate IsVerdict(a: Action) {
    a.Queued? || a.Dropped? || a.Rejected?
  }

  lemma VerdictsGrow(log: seq<Action>, a: Action, x: JobId)
    ensures Verdicts(log + [a], x) == Verdicts(log, x) + if a.job == x && IsVerdict(a) then 1 else 0
  {}

  lemma ArrivedGrows(events: seq<Event>, e: Event, x: JobId)
    ensures Arrived(events + [e], x) <==> Arrived(events, x) || (e.Arrival? && e.job == x)
  {
    var all := events + [e];
    assert all[|events|] == e;
    if i :| 0 <= i < |events| && events[i].Arrival? && events[i].job == x {
      assert all[i] == events[i];
    }
  }

  // A first arrival is decided once.
  lemma ArrivalJudged(s: Sched, t: Sched, events: seq<Event>, e: Event, a: Action)
    requires Judged(s, events) && t.log == s.log + [a] && IsVerdict(a)
    requires e.Arrival? && e.job == a.job && !Arrived(events, e.job)
    ensures Judged(t, events + [e])
  {
    hide Verdicts, Arrived;
    forall x ensures Verdicts(t.log, x) == if Arrived(events + [e], x) then 1 else 0 {
      VerdictsGrow(s.log, a, x);
      ArrivedGrows(events, e, x);
    }
  }

  lemma ArriveKeepsGood(env: Scenario, s: Sched, events: seq<Event>, j: JobId, admitted: bool, k: Moment)
    requires Orderly(env) && Good(env, s, events) && InOrder(env, events + [Arrival(j, admitted, k)])
    ensures Good(env, Arrive(env, s, j, admitted, k), events + [Arrival(j, admitted, k)])
  {
    hide Lined, InOnePlace, Enqueue, Accounted;
    var e := Arrival(j, admitted, k);
    var t := Arrive(env, s, j, admitted, k);
    ArrivedEarlier(env, s, events, j, admitted, k);
    FifoArrival(env, s, j, admitted, k);
    hide Arrive;
    EnqueueIsLogged(env, s, j);
    assert Lined(env, t) && InOnePlace(env, t) by {
      EnqueueKeepsPlaces(env, s, j);
      LogOnly(env, s, Rejected(j));
    }
    assert Accounted(env, t) by { ArriveKeepsAccounts(env, s, j, admitted, k); }
    hide Orderly, Entry, Arrived, Judged;
    ArrivalJudged(s, t, events, e, if t.log == s.log + [Rejected(j)] then Rejected(j) else Entry(env, s, j));
  }

  lemma CompleteKeepsGood(env: Scenario, s: Sched, events: seq<Event>, j: JobId, k: Moment)
    requires Orderly(env) && Good(env, s, events)
    ensures Good(env, Complete(env, s, j, k), events)
  {
    if j in s.running {
      CompleteKeepsAccounts(env, s, j, k);
      CompleteInLine(env, s, j, k);
      forall x {
        VerdictsGrow(s.log, Completed(j), x);
      }
    }
  }

  // The location theorem, over every run of an orderly scenario.
  lemma {:induction false} EveryJobInOnePlace(env: Scenario, events: seq<Event>)
    requires Orderly(env) && InOrder(env, events)
    ensures Good(env, Run(env, events), events)
  {
    if events == [] {
      EveryRunIsAccounted(env, []);
    } else {
      var before := events[..|events| - 1];
      var e := events[|events| - 1];
      var s := Run(env, before);
      EveryJobInOnePlace(env, before);
      assert events == before + [e];
      match e
      case Arrival(j, admitted, k) =>
        ArriveKeepsGood(env, s, before, j, admitted, k);
        DispatchKeepsGood(env, Arrive(env, s, j, admitted, k), events, k);
      case Timer(j, k) =>
        CompleteKeepsGood(env, s, before, j, k);
        MoreEvents(env, Complete(env, s, j, k), before, e);
      case DispatchTick(k) =>
        DispatchKeepsGood(env, s, before, k);
        MoreEvents(env, Dispatch(env, s, k), before, e);
    }
  }

  lemma MoreEvents(env: Scenario, s: Sched, events: seq<Event>, e: Event)
    requires Good(env, s, events) && !e.Arrival?
    ensures Good(env, s, events + [e])
  {
    hide Accounted, Lined, InOnePlace, Verdicts, Arrived;
    forall j {
      ArrivedGrows(events, e, j);
    }
  }

  // The same, read off for one job: an accepted job is waiting, running or
  // completed, exactly one of these, and completes at most once; preempted jobs
  // are a prefix of their queue, which is in policy order.
  lemma AcceptedJobsAreConserved(env: Scenario, events: seq<Event>, j: JobId)
    requires Orderly(env) && InOrder(env, events)
    ensures var s := Run(env, events);
            && (Queued(j) in s.log <==> Waiting(env, s, j) || j in s.running || Completed(j) in s.log)
            && !(Waiting(env, s, j) && j in s.running)
            && !(Completed(j) in s.log && (Waiting(env, s, j) || j in s.running))
            && multiset(s.log)[Completed(j)] <= 1
    ensures var q := Run(env, events).Queue(env.ClassId(j));
            j in env.releases ==>
              && (forall i, m :: 0 <= i < m < |q| ==> env.before(q[i], q[m]))
              && (forall i, m :: 0 <= i < m < |q| && q[m] in Run(env, events).preempted ==>
                   q[i] in Run(env, events).preempted)
              && (j in Run(env, events).preempted ==> j in q)
  {
    var s := Run(env, events);
    EveryJobInOnePlace(env, events);
    WaitingOrRunning(env, s, j);
    assert Verdicts(s.log, j) <= 1;
    assert Queued(j) in s.log <==> multiset(s.log)[Queued(j)] > 0;
    assert Completed(j) in s.log <==> multiset(s.log)[Completed(j)] > 0;
  }
}
