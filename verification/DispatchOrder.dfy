// What one dispatch pass does: it never undoes a start of its own, it leaves a
// candidate waiting exactly when it does not fit beside the running jobs before
// it, and when all jobs have the same needs it leaves running exactly the
// best-ranked of those that ran and those that were collected.
module DispatchOrder {
  import opened Ordering
  import opened Scheduling
  import opened Accounting

  // Preempting for j adds only preemptions of jobs ranked after j to the log.
  lemma {:induction false} PreemptForLog(env: Scenario, s: Sched, j: JobId, k: Moment)
    requires env.Wf()
    ensures var t := PreemptFor(env, s, j, k);
            && s.log <= t.log
            && (forall i :: |s.log| <= i < |t.log| ==> t.log[i].Preempted? && env.before(j, t.log[i].job))
    decreases |s.running|
  {
    if !CanAllocate(env, s, j) && s.running.Keys != {} {
      var worst := Greatest(env.before, s.running.Keys);
      if env.before(j, worst) {
        assert (s.running - {worst}).Keys == s.running.Keys - {worst};
        PreemptForLog(env, Preempt(env, s, worst, k), j, k);
      }
    }
  }

  lemma AttemptLog(env: Scenario, s: Sched, j: JobId, k: Moment)
    requires env.Wf()
    ensures var t := Attempt(env, s, j, k);
            && s.log <= t.log
            && (forall i :: |s.log| <= i < |t.log| ==>
                  || (t.log[i].Preempted? && env.before(j, t.log[i].job))
                  || (t.log[i] == Started(j) && i == |t.log| - 1 && j in t.running))
            && (forall x :: x in s.running && x !in t.running ==> env.before(j, x))
            && (forall x :: x in s.running && x in t.running ==> t.running[x] == s.running[x])
  {
    PreemptForLog(env, s, j, k);
    PreemptForKeeps(env, s, j, k);
  }

  lemma {:induction false} PassSparesBetter(env: Scenario, s: Sched, cands: set<JobId>, k: Moment, j: JobId)
    requires env.Wf() && j in s.running && forall c :: c in cands ==> env.before(j, c)
    ensures var t := Pass(env, s, cands, k);
            && s.log <= t.log
            && (forall i :: |s.log| <= i < |t.log| ==> t.log[i] != Preempted(j))
            && j in t.running && t.running[j] == s.running[j]
    decreases cands
  {
    if cands != {} {
      var best := Least(env.before, cands);
      AttemptLog(env, s, best, k);
      PassSparesBetter(env, Attempt(env, s, best, k), cands - {best}, k, j);
    }
  }

  // For any requirements: a job started in a pass is running when it ends and
  // is not preempted in between.
  lemma {:induction false} PassNeverUndoesAStart(env: Scenario, s: Sched, cands: set<JobId>, k: Moment)
    requires env.Wf()
    ensures var t := Pass(env, s, cands, k);
            && s.log <= t.log
            && (forall i, j :: |s.log| <= i < |t.log| && t.log[i] == Started(j) ==>
                  j in t.running && forall m :: i < m < |t.log| ==> t.log[m] != Preempted(j))
    decreases cands
  {
    hide Attempt;
    if cands != {} {
      var best := Least(env.before, cands);
      var u := Attempt(env, s, best, k);
      var t := Pass(env, s, cands, k);
      AttemptLog(env, s, best, k);
      PassNeverUndoesAStart(env, u, cands - {best}, k);
      forall i, j | |s.log| <= i < |t.log| && t.log[i] == Started(j)
        ensures j in t.running && forall m :: i < m < |t.log| ==> t.log[m] != Preempted(j)
      {
        if i < |u.log| {
          assert t.log[i] == u.log[i] && j == best;
          PassSparesBetter(env, u, cands - {best}, k, best);
        }
      }
    }
  }

  // ---- when preemption serves its candidate, for any requirements ----

  ghost function Better(env: Scenario, s: Sched, j: JobId): set<JobId> {
    set x | x in s.running && env.before(x, j)
  }

  // j fits beside the running jobs that rank before it.
  ghost predicate Servable(env: Scenario, s: Sched, j: JobId) {
    forall r :: r in env.Class(j).needs ==>
      r in env.capacity && Demand(env, Better(env, s, j), r) + env.Need(j, r) <= env.capacity[r]
  }

  lemma {:induction false} DemandMonotone(env: Scenario, a: set<JobId>, b: set<JobId>, r: Resource)
    requires a <= b
    ensures Demand(env, a, r) <= Demand(env, b, r)
    decreases b
  {
    if x :| x in b && x !in a {
      DemandSplits(env, b, r, x);
      DemandMonotone(env, a, b - {x}, r);
    } else {
      assert a == b;
    }
  }

  lemma FitsIsServable(env: Scenario, s: Sched, j: JobId)
    requires Accounted(env, s)
    ensures CanAllocate(env, s, j) ==> Servable(env, s, j)
    ensures Better(env, s, j) == s.running.Keys ==> (CanAllocate(env, s, j) <==> Servable(env, s, j))
  {
    forall r | r in env.capacity ensures Demand(env, Better(env, s, j), r) <= Demand(env, s.running.Keys, r) {
      DemandMonotone(env, Better(env, s, j), s.running.Keys, r);
    }
  }

  // The victims make room for the candidate exactly when it fits beside the
  // running jobs that rank before it.
  lemma {:induction false} PreemptForServesExactly(env: Scenario, s: Sched, j: JobId, k: Moment)
    requires env.Wf() && Accounted(env, s) && j !in s.running
    ensures CanAllocate(env, PreemptFor(env, s, j, k), j) <==> Servable(env, s, j)
    decreases |s.running|
  {
    hide CanAllocate, Servable, Accounted, Better, Preempt;
    FitsIsServable(env, s, j);
    if !CanAllocate(env, s, j) {
      if s.running.Keys == {} {
        NobodyBetter(env, s, j);
      } else {
        var worst := Greatest(env.before, s.running.Keys);
        if env.before(j, worst) {
          PreemptKeepsAccounts(env, s, worst, k);
          FewerRunning(s.running.Keys, Preempt(env, s, worst, k).running.Keys, worst);
          assert PreemptFor(env, s, j, k) == PreemptFor(env, Preempt(env, s, worst, k), j, k);
          hide PreemptFor;
          PreemptForServesExactly(env, Preempt(env, s, worst, k), j, k);
          SameBetter(env, s, Preempt(env, s, worst, k), worst, j);
        } else {
          AllBetter(env, s, worst, j);
        }
      }
    }
  }

  lemma FewerRunning(before: set<JobId>, after: set<JobId>, x: JobId)
    requires after == before - {x} && x in before
    ensures |after| < |before|
  {
  }

  lemma NobodyBetter(env: Scenario, s: Sched, j: JobId)
    requires s.running.Keys == {}
    ensures Better(env, s, j) == s.running.Keys
  {
  }

  lemma AllBetter(env: Scenario, s: Sched, worst: JobId, j: JobId)
    requires env.Wf() && IsGreatest(env.before, worst, s.running.Keys) && !env.before(j, worst) && j !in s.running
    ensures Better(env, s, j) == s.running.Keys
  {
    forall x | x in s.running ensures env.before(x, j) {
      assert env.before(worst, j);
      assert x == worst || env.before(x, worst);
    }
  }

  // Taking out a job that ranks after j leaves those before it.
  lemma SameBetter(env: Scenario, s: Sched, t: Sched, worst: JobId, j: JobId)
    requires env.Wf() && env.before(j, worst) && t.running.Keys == s.running.Keys - {worst}
    ensures Better(env, t, j) == Better(env, s, j)
    ensures Servable(env, s, j) <==> Servable(env, t, j)
  {
    assert !env.before(worst, j);
    forall x ensures x in Better(env, t, j) <==> x in Better(env, s, j) {
      assert x in t.running <==> x in t.running.Keys;
      assert x in s.running <==> x in s.running.Keys;
    }
  }

  // Preempting a victim is what PreemptFor does unless nothing ranks after j.
  lemma TakesAVictim(env: Scenario, s: Sched, j: JobId, k: Moment)
    requires env.Wf() && !CanAllocate(env, s, j)
    ensures PreemptFor(env, s, j, k).running.Keys != s.running.Keys <==> exists x :: x in s.running && env.before(j, x)
  {
    hide CanAllocate;
    if s.running.Keys != {} {
      var worst := Greatest(env.before, s.running.Keys);
      if env.before(j, worst) {
        PreemptForKeeps(env, Preempt(env, s, worst, k), j, k);
        assert worst !in PreemptFor(env, s, j, k).running && worst in s.running.Keys;
      }
    }
  }

  // What an attempt comes to, for any requirements: with preemption on the
  // candidate ends up running exactly when it fits beside the better ones, and
  // jobs are preempted in vain exactly when it does not and something ranks after it.
  lemma AttemptServesExactly(env: Scenario, s: Sched, j: JobId, k: Moment)
    requires env.Wf() && Accounted(env, s) && j !in s.running
    ensures var t := Attempt(env, s, j, k);
            && (j in t.running <==> if env.preemption then Servable(env, s, j) else CanAllocate(env, s, j))
            && (j !in t.running && t.running.Keys != s.running.Keys <==>
                env.preemption && !Servable(env, s, j) && exists x :: x in s.running && env.before(j, x))
  {
    hide CanAllocate, Servable, Accounted;
    FitsIsServable(env, s, j);
    PreemptForServesExactly(env, s, j, k);
    PreemptForKeeps(env, s, j, k);
    if !CanAllocate(env, s, j) {
      TakesAVictim(env, s, j, k);
    }
    assert j in Start(env, s, j, k).running && j in Start(env, PreemptFor(env, s, j, k), j, k).running;
    hide Start;
  }

  // ---- a whole pass with preemption, for any requirements ----

  // Trying a job that does not rank before w leaves the running jobs before w.
  lemma AttemptLeavesBetter(env: Scenario, s: Sched, j: JobId, k: Moment, w: JobId)
    requires env.Wf() && !env.before(j, w)
    ensures Better(env, Attempt(env, s, j, k), w) == Better(env, s, w)
  {
    AttemptLog(env, s, j, k);
    AttemptRuns(env, s, j, k);
    var t := Attempt(env, s, j, k);
    hide Attempt;
    forall x ensures x in Better(env, t, w) <==> x in Better(env, s, w) {
      assert x in s.running && x !in t.running ==> env.before(j, x);
    }
  }

  lemma AttemptRuns(env: Scenario, s: Sched, j: JobId, k: Moment)
    requires env.Wf()
    ensures Attempt(env, s, j, k).running.Keys <= s.running.Keys + {j}
  {
    PreemptForKeeps(env, s, j, k);
  }

  lemma {:induction false} PassLeavesBetter(env: Scenario, s: Sched, cands: set<JobId>, k: Moment, w: JobId)
    requires env.Wf() && forall c :: c in cands ==> env.before(w, c)
    ensures Better(env, Pass(env, s, cands, k), w) == Better(env, s, w)
    decreases cands
  {
    hide Attempt, Better;
    if cands != {} {
      var best := Least(env.before, cands);
      AttemptLeavesBetter(env, s, best, k, w);
      PassLeavesBetter(env, Attempt(env, s, best, k), cands - {best}, k, w);
    }
  }

  lemma SameServable(env: Scenario, s: Sched, t: Sched, w: JobId)
    requires Better(env, s, w) == Better(env, t, w)
    ensures Servable(env, s, w) <==> Servable(env, t, w)
  {
  }

  lemma RunningIsServable(env: Scenario, s: Sched, w: JobId)
    requires env.Wf() && Accounted(env, s) && w in s.running
    ensures Servable(env, s, w)
  {
    forall r | r in env.capacity ensures Demand(env, Better(env, s, w), r) + env.Need(w, r) <= env.capacity[r] {
      DemandSplits(env, s.running.Keys, r, w);
      DemandMonotone(env, Better(env, s, w), s.running.Keys - {w}, r);
    }
  }

  // The turn of w itself, all better candidates done.
  lemma OwnTurn(env: Scenario, s: Sched, rest: set<JobId>, k: Moment, w: JobId)
    requires env.Wf() && env.preemption && Accounted(env, s)
    requires forall c :: c in rest ==> env.before(w, c)
    ensures var t := Pass(env, Attempt(env, s, w, k), rest, k);
            Servable(env, t, w) ==> w in t.running
  {
    var u := Attempt(env, s, w, k);
    if w !in s.running {
      AttemptServesExactly(env, s, w, k);
    }
    if w in u.running {
      PassSparesBetter(env, u, rest, k, w);
    } else {
      assert w !in s.running;
      AttemptLeavesBetter(env, s, w, k, w);
      PassLeavesBetter(env, u, rest, k, w);
      SameServable(env, s, Pass(env, u, rest, k), w);
    }
  }

  // At the end of a pass a candidate runs exactly when it fits beside the
  // running jobs that rank before it.
  lemma {:induction false} PassServesExactly(env: Scenario, s: Sched, cands: set<JobId>, k: Moment, w: JobId)
    requires env.Wf() && env.preemption && Accounted(env, s) && w in cands
    ensures var t := Pass(env, s, cands, k);
            w in t.running <==> Servable(env, t, w)
    decreases cands
  {
    hide Accounted, Servable, Attempt;
    var best := Least(env.before, cands);
    AttemptKeepsAccounts(env, s, best, k);
    if best == w {
      OwnTurn(env, s, cands - {w}, k, w);
      PassKeepsAccounts(env, s, cands, k);
      if w in Pass(env, s, cands, k).running {
        RunningIsServable(env, Pass(env, s, cands, k), w);
      }
    } else {
      PassServesExactly(env, Attempt(env, s, best, k), cands - {best}, k, w);
    }
  }

  // Who may be dispatched: a preempted job that does not run, the head of any queue,
  // and what any mailbox holds.
  ghost predicate Eligible(s: Sched, w: JobId) {
    || (w in s.preempted && w !in s.running)
    || (exists c :: c in s.fifo && s.fifo[c] != [] && s.fifo[c][0] == w)
    || (exists m :: m in s.mailbox && s.mailbox[m] == w)
  }

  lemma EligibleIsCandidate(s: Sched, w: JobId)
    ensures w in Candidates(s) <==> Eligible(s, w)
  {
    assert w in Heads(s.fifo) <==> exists c :: c in s.fifo && s.fifo[c] != [] && s.fifo[c][0] == w;
    assert w in s.mailbox.Values <==> exists m :: m in s.mailbox && s.mailbox[m] == w;
  }

  lemma {:induction false} PassRuns(env: Scenario, s: Sched, cands: set<JobId>, k: Moment)
    requires env.Wf()
    ensures Pass(env, s, cands, k).running.Keys <= s.running.Keys + cands
    decreases cands
  {
    hide Attempt;
    if cands != {} {
      var best := Least(env.before, cands);
      AttemptRuns(env, s, best, k);
      PassRuns(env, Attempt(env, s, best, k), cands - {best}, k);
    }
  }

  // With preemption on, whatever the jobs need: who may be dispatched ends up running
  // exactly when it fits beside the better ones, and nobody else is started.
  lemma DispatchServesExactly(env: Scenario, s: Sched, k: Moment)
    requires env.Wf() && env.preemption && Accounted(env, s)
    ensures var t := Dispatch(env, s, k);
            && (forall w :: Eligible(s, w) ==> (w in t.running <==> Servable(env, t, w)))
            && (forall w :: w in t.running && w !in s.running ==> Eligible(s, w))
  {
    hide Candidates, Accounted, Servable, Pass, Eligible;
    PassRuns(env, s, Candidates(s), k);
    var t := Dispatch(env, s, k);
    forall w | Eligible(s, w) ensures w in t.running <==> Servable(env, t, w) {
      EligibleIsCandidate(s, w);
      PassServesExactly(env, s, Candidates(s), k, w);
    }
    forall w | w in t.running && w !in s.running ensures Eligible(s, w) {
      EligibleIsCandidate(s, w);
      assert w in t.running.Keys;
    }
  }

  // ---- the same needs for every job ----

  ghost predicate Alike(env: Scenario, needs: map<Resource, nat>, jobs: set<JobId>) {
    forall j :: j in jobs ==> env.Class(j).needs == needs
  }

  // One more job with these needs fits beside n others.
  ghost predicate Room(env: Scenario, needs: map<Resource, nat>, n: nat) {
    forall r :: r in needs ==> r in env.capacity && n * needs[r] + needs[r] <= env.capacity[r]
  }

  // n jobs with these needs fit together.
  ghost predicate Fit(env: Scenario, needs: map<Resource, nat>, n: nat) {
    n > 0 ==> Room(env, needs, n - 1)
  }

  lemma RoomBelow(env: Scenario, needs: map<Resource, nat>, m: nat, n: nat)
    requires Room(env, needs, n) && m <= n
    ensures Room(env, needs, m)
  {
    forall r | r in needs ensures r in env.capacity && m * needs[r] + needs[r] <= env.capacity[r] {
      MulGrows(m, n, needs[r]);
    }
  }

  lemma MulGrows(m: nat, n: nat, k: nat)
    requires m <= n
    ensures m * k <= n * k
  {
  }

  lemma {:induction false} AlikeDemand(env: Scenario, needs: map<Resource, nat>, r: Resource, jobs: set<JobId>)
    requires Alike(env, needs, jobs) && r in needs
    ensures Demand(env, jobs, r) == |jobs| * needs[r]
    decreases jobs
  {
    if jobs != {} {
      var j :| j in jobs;
      var rest := jobs - {j};
      DemandSplits(env, jobs, r, j);
      AlikeDemand(env, needs, r, rest);
      assert |jobs| == |rest| + 1 && (|rest| + 1) * needs[r] == |rest| * needs[r] + needs[r];
    }
  }

  lemma AlikeFits(env: Scenario, s: Sched, needs: map<Resource, nat>, j: JobId)
    requires Accounted(env, s) && Alike(env, needs, s.running.Keys + {j})
    ensures CanAllocate(env, s, j) <==> Room(env, needs, |s.running.Keys|)
  {
    forall r | r in needs && r in env.capacity ensures s.used[r] == |s.running.Keys| * needs[r] {
      AlikeDemand(env, needs, r, s.running.Keys);
    }
  }

  lemma RunningFits(env: Scenario, s: Sched, needs: map<Resource, nat>)
    requires Accounted(env, s) && Alike(env, needs, s.running.Keys)
    ensures Fit(env, needs, |s.running.Keys|)
  {
    var n := |s.running.Keys|;
    if n > 0 {
      var j :| j in s.running.Keys;
      assert env.Class(j).needs == needs;
      forall r | r in needs ensures r in env.capacity && (n - 1) * needs[r] + needs[r] <= env.capacity[r] {
        AlikeDemand(env, needs, r, s.running.Keys);
        assert (n - 1) * needs[r] + needs[r] == n * needs[r];
      }
    }
  }

  lemma OneLess(A: set<JobId>, v: JobId)
    requires v in A
    ensures |A - {v}| == |A| - 1
  {
  }

  lemma VictimMakesRoom(env: Scenario, s: Sched, needs: map<Resource, nat>, j: JobId, v: JobId, k: Moment)
    requires Accounted(env, s) && v in s.running && Alike(env, needs, s.running.Keys + {j})
    ensures Preempt(env, s, v, k).running.Keys == s.running.Keys - {v}
    ensures CanAllocate(env, Preempt(env, s, v, k), j)
  {
    hide Accounted, CanAllocate, Preempt, Room, Scenario.Class;
    PreemptKeepsAccounts(env, s, v, k);
    RunningFits(env, s, needs);
    OneLess(s.running.Keys, v);
    AlikeFits(env, Preempt(env, s, v, k), needs, j);
  }

  // Whether j can take the place of the worst running job.
  ghost predicate Takes(env: Scenario, s: Sched, j: JobId)
    requires env.Wf()
  {
    s.running.Keys != {} && env.before(j, Greatest(env.before, s.running.Keys))
  }

  // Preempting for j, with no room left, evicts the worst running job and
  // nothing else, or nothing at all.
  lemma AlikePreemptFor(env: Scenario, s: Sched, needs: map<Resource, nat>, j: JobId, k: Moment)
    requires env.Wf() && Accounted(env, s)
    requires Alike(env, needs, s.running.Keys + {j}) && !Room(env, needs, |s.running.Keys|)
    ensures !CanAllocate(env, s, j)
    ensures if Takes(env, s, j) then
              var u := Preempt(env, s, Greatest(env.before, s.running.Keys), k);
              && PreemptFor(env, s, j, k) == u && CanAllocate(env, u, j)
              && u.running.Keys == s.running.Keys - {Greatest(env.before, s.running.Keys)}
            else PreemptFor(env, s, j, k) == s
  {
    AlikeFits(env, s, needs, j);
    if s.running.Keys != {} {
      var worst := Greatest(env.before, s.running.Keys);
      VictimMakesRoom(env, s, needs, j, worst, k);
      hide Accounted, CanAllocate, Preempt, Demand, Alike, Room;
      assert PreemptFor(env, Preempt(env, s, worst, k), j, k) == Preempt(env, s, worst, k);
    }
  }

  // Exactly what an attempt does when all jobs have the same needs: start where
  // there is room, or in the place of the worst running job if that ranks after j.
  lemma AlikeAttempt(env: Scenario, s: Sched, needs: map<Resource, nat>, j: JobId, k: Moment)
    requires env.Wf() && env.preemption && Accounted(env, s)
    requires Alike(env, needs, s.running.Keys + {j}) && j !in s.running
    ensures Room(env, needs, |s.running.Keys|) ==>
              && Attempt(env, s, j, k) == Start(env, s, j, k)
              && Attempt(env, s, j, k).running.Keys == s.running.Keys + {j}
    ensures !Room(env, needs, |s.running.Keys|) ==>
              if Takes(env, s, j) then
                var worst := Greatest(env.before, s.running.Keys);
                && Attempt(env, s, j, k) == Start(env, Preempt(env, s, worst, k), j, k)
                && Attempt(env, s, j, k).running.Keys == s.running.Keys - {worst} + {j}
              else Attempt(env, s, j, k) == s
  {
    AlikeFits(env, s, needs, j);
    if Room(env, needs, |s.running.Keys|) {
      StartKeepsAccounts(env, s, j, k);
    } else {
      AlikePreemptFor(env, s, needs, j, k);
      if Takes(env, s, j) {
        var worst := Greatest(env.before, s.running.Keys);
        PreemptKeepsAccounts(env, s, worst, k);
        StartKeepsAccounts(env, Preempt(env, s, worst, k), j, k);
      }
    }
  }

  // `chosen` holds the best of `pool`: it fits, whatever is left out ranks after
  // everything chosen, and something is left out only when no more fits.
  ghost predicate Selected(env: Scenario, pool: set<JobId>, chosen: set<JobId>, needs: map<Resource, nat>) {
    && chosen <= pool
    && Fit(env, needs, |chosen|)
    && (forall w, c :: w in pool - chosen && c in chosen ==> env.before(c, w))
    && (chosen != pool ==> !Room(env, needs, |chosen|))
  }

  lemma SubsetCount(A: set<JobId>, B: set<JobId>)
    requires A <= B && |B| <= |A|
    ensures A == B
  {
    assert |B - A| == |B| - |A|;
    assert B == A + (B - A);
  }

  lemma NoMoreFit(env: Scenario, needs: map<Resource, nat>, B: set<JobId>, C: set<JobId>)
    requires !Room(env, needs, |B|) && Fit(env, needs, |C|)
    ensures |C| <= |B|
  {
    if |C| > |B| {
      RoomBelow(env, needs, |B|, |C| - 1);
    }
  }

  lemma WholeSelected(env: Scenario, pool: set<JobId>, needs: map<Resource, nat>)
    requires Fit(env, needs, |pool|)
    ensures Selected(env, pool, pool, needs)
  {
  }

  lemma SwapSize(R: set<JobId>, j: JobId, worst: JobId)
    requires worst in R && j !in R
    ensures |R - {worst} + {j}| == |R|
  {
  }

  lemma SwapSelected(env: Scenario, R: set<JobId>, j: JobId, worst: JobId, needs: map<Resource, nat>)
    requires env.Wf() && j !in R && IsGreatest(env.before, worst, R) && env.before(j, worst)
    requires !Room(env, needs, |R|) && Fit(env, needs, |R|)
    ensures Selected(env, R + {j}, R - {worst} + {j}, needs)
  {
    hide Room;
    SwapSize(R, j, worst);
    assert R + {j} - (R - {worst} + {j}) == {worst};
  }

  lemma KeptSelected(env: Scenario, R: set<JobId>, j: JobId, needs: map<Resource, nat>)
    requires j !in R && forall c :: c in R ==> env.before(c, j)
    requires !Room(env, needs, |R|) && Fit(env, needs, |R|)
    ensures Selected(env, R + {j}, R, needs)
  {
    hide Room;
    assert R + {j} - R == {j};
  }

  // The attempt selects from the running jobs and the candidate.
  lemma AttemptSelects(env: Scenario, s: Sched, needs: map<Resource, nat>, j: JobId, k: Moment)
    requires env.Wf() && env.preemption && Accounted(env, s)
    requires Alike(env, needs, s.running.Keys + {j})
    ensures Selected(env, s.running.Keys + {j}, Attempt(env, s, j, k).running.Keys, needs)
  {
    hide Room, Start, Preempt, Accounted, CanAllocate, PreemptFor, Selected;
    var R := s.running.Keys;
    RunningFits(env, s, needs);
    if j in s.running {
      assert R + {j} == R;
      WholeSelected(env, R, needs);
    } else {
      AlikeAttempt(env, s, needs, j, k);
      if Room(env, needs, |R|) {
        assert |R + {j}| == |R| + 1;
        WholeSelected(env, R + {j}, needs);
      } else if Takes(env, s, j) {
        SwapSelected(env, R, j, Greatest(env.before, R), needs);
      } else {
        KeptSelected(env, R, j, needs);
      }
    }
  }

  // Selecting from what an earlier selection kept, and more, is selecting from everything.
  lemma SelectionComposes(env: Scenario, A: set<JobId>, B: set<JobId>, more: set<JobId>, C: set<JobId>,
                          needs: map<Resource, nat>)
    requires env.Wf() && Selected(env, A, B, needs) && Selected(env, B + more, C, needs)
    ensures Selected(env, A + more, C, needs)
  {
    hide Room;
    if B != A {
      NoMoreFit(env, needs, B, C);
    }
    forall w, c | w in A + more - C && c in C
      ensures env.before(c, w)
    {
      if w !in B + more && c !in B {
        // B is full and C is no larger, so C dropped some y of B to make room for c
        if B <= C { SubsetCount(B, C); }
        var y :| y in B && y !in C;
        assert env.before(c, y) && env.before(y, w);
      }
    }
    if C == B + more && C != A + more {
      assert B != A;
      SubsetCount(B, C);
    }
  }

  // One candidate's selection followed by that of the rest.
  lemma SelectionStep(env: Scenario, R: set<JobId>, best: JobId, cands: set<JobId>, U: set<JobId>, C: set<JobId>,
                      needs: map<Resource, nat>)
    requires env.Wf() && best in cands
    requires Selected(env, R + {best}, U, needs) && Selected(env, U + (cands - {best}), C, needs)
    ensures Selected(env, R + cands, C, needs)
  {
    SelectionComposes(env, R + {best}, U, cands - {best}, C, needs);
    assert R + {best} + (cands - {best}) == R + cands;
  }

  lemma {:induction false} PassSelects(env: Scenario, s: Sched, needs: map<Resource, nat>, cands: set<JobId>, k: Moment)
    requires env.Wf() && env.preemption && Accounted(env, s)
    requires Alike(env, needs, s.running.Keys) && Alike(env, needs, cands)
    ensures Selected(env, s.running.Keys + cands, Pass(env, s, cands, k).running.Keys, needs)
    decreases cands
  {
    hide Accounted, Attempt, Room, Selected;
    if cands == {} {
      RunningFits(env, s, needs);
      assert s.running.Keys + cands == s.running.Keys;
      WholeSelected(env, s.running.Keys, needs);
    } else {
      var best := Least(env.before, cands);
      var u := Attempt(env, s, best, k);
      AttemptSelects(env, s, needs, best, k);
      AttemptKeepsAccounts(env, s, best, k);
      AttemptRuns(env, s, best, k);
      PassSelects(env, u, needs, cands - {best}, k);
      SelectionStep(env, s.running.Keys, best, cands, u.running.Keys, Pass(env, s, cands, k).running.Keys, needs);
    }
  }

  // The dispatcher's promise: after a pass every waiting candidate and every
  // victim ranks after every running job, and none of them fits beside those.
  lemma DispatchRunsTheBest(env: Scenario, s: Sched, needs: map<Resource, nat>, k: Moment)
    requires env.Wf() && env.preemption && Accounted(env, s)
    requires forall w :: w in s.running || Eligible(s, w) ==> env.Class(w).needs == needs
    ensures var t := Dispatch(env, s, k);
            && (forall x :: x in t.running ==> x in s.running || Eligible(s, x))
            && (forall w, x :: (w in s.running || Eligible(s, w)) && w !in t.running && x in t.running ==>
                  env.before(x, w))
            && (forall w :: (w in s.running || Eligible(s, w)) && w !in t.running ==> !CanAllocate(env, t, w))
  {
    hide Room, Accounted, CanAllocate, Candidates, Pass, Eligible, Scenario.Class;
    var t := Dispatch(env, s, k);
    forall w ensures w in Candidates(s) <==> Eligible(s, w) {
      EligibleIsCandidate(s, w);
    }
    PassSelects(env, s, needs, Candidates(s), k);
    PassKeepsAccounts(env, s, Candidates(s), k);
    assert Alike(env, needs, s.running.Keys + Candidates(s));
    forall w | w in s.running.Keys + Candidates(s) && w !in t.running ensures !CanAllocate(env, t, w) {
      AlikeFits(env, t, needs, w);
    }
  }

  // ---- without preemption ----

  lemma StartTightens(env: Scenario, s: Sched, j: JobId, k: Moment, w: JobId)
    requires CanAllocate(env, Start(env, s, j, k), w)
    ensures CanAllocate(env, s, w)
  {
  }

  // With preemption off, for any requirements: a pass stops nothing, and leaves a
  // candidate waiting only if it does not fit beside what runs at the end.
  lemma {:induction false} PlainPassLeavesNoneFitting(env: Scenario, s: Sched, cands: set<JobId>, k: Moment)
    requires env.Wf() && !env.preemption
    ensures var t := Pass(env, s, cands, k);
            && s.running.Keys <= t.running.Keys <= s.running.Keys + cands
            && (forall w :: CanAllocate(env, t, w) ==> CanAllocate(env, s, w))
            && (forall w :: w in cands && w !in t.running ==> !CanAllocate(env, t, w))
    decreases cands
  {
    hide CanAllocate;
    if cands != {} {
      var best := Least(env.before, cands);
      var u := Attempt(env, s, best, k);
      forall w | CanAllocate(env, Start(env, s, best, k), w) ensures CanAllocate(env, s, w) {
        StartTightens(env, s, best, k, w);
      }
      assert Start(env, s, best, k).running.Keys == s.running.Keys + {best};
      hide Start;
      PlainPassLeavesNoneFitting(env, u, cands - {best}, k);
    }
  }

  // The same of the dispatcher.
  lemma PlainDispatchExactly(env: Scenario, s: Sched, k: Moment)
    requires env.Wf() && !env.preemption
    ensures var t := Dispatch(env, s, k);
            && (forall x :: x in s.running ==> x in t.running)
            && (forall x :: x in t.running && x !in s.running ==> Eligible(s, x) && CanAllocate(env, s, x))
            && (forall w :: Eligible(s, w) && w !in t.running ==> !CanAllocate(env, t, w))
  {
    hide CanAllocate, Candidates, Pass, Eligible;
    PlainPassLeavesNoneFitting(env, s, Candidates(s), k);
    PlainStartsFit(env, s, Candidates(s), k);
    forall w ensures w in Candidates(s) <==> Eligible(s, w) {
      EligibleIsCandidate(s, w);
    }
    var t := Dispatch(env, s, k);
    forall x | x in t.running && x !in s.running ensures x in Candidates(s) {
      assert x in t.running.Keys;
    }
  }

  lemma {:induction false} PlainStartsFit(env: Scenario, s: Sched, cands: set<JobId>, k: Moment)
    requires env.Wf() && !env.preemption
    ensures forall x :: x in Pass(env, s, cands, k).running && x !in s.running ==> CanAllocate(env, s, x)
    decreases cands
  {
    hide CanAllocate;
    if cands != {} {
      var best := Least(env.before, cands);
      forall w | CanAllocate(env, Start(env, s, best, k), w) ensures CanAllocate(env, s, w) {
        StartTightens(env, s, best, k, w);
      }
      assert Start(env, s, best, k).running.Keys == s.running.Keys + {best};
      hide Start;
      PlainStartsFit(env, Attempt(env, s, best, k), cands - {best}, k);
    }
  }
}
