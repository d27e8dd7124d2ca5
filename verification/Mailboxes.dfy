// What a mailbox promises, "the latest arrival waits and a new one replaces only what
// waits", and how far the runner keeps it. In every run a mailbox holds the latest
// accepted arrival of its stream until a job of the stream starts, whichever job
// that is; so resuming an older job of the stream takes the waiting one out, and
// that one is lost unless it can start in the same pass.
module Mailboxes {
  import opened Options
  import opened Ordering
  import opened Scheduling
  import opened Accounting
  import opened DispatchOrder

  ghost predicate OnStream(env: Scenario, j: JobId, stream: string) {
    env.Class(j).policy == MailboxLatest(stream)
  }

  // A job of the stream was started among the log's entries from `at` on.
  ghost predicate StartedSince(env: Scenario, log: seq<Action>, at: nat, stream: string) {
    exists i :: at <= i < |log| && log[i].Started? && OnStream(env, log[i].job, stream)
  }

  // ---- what a posting does ----

  // The new job waits; the one it replaces does not run. Nothing else about any
  // other job changes, and a job that only waited is then in no table at all.
  lemma PostReplaces(env: Scenario, s: Sched, stream: string, j: JobId, k: Moment)
    requires Accounted(env, s)
    ensures var t := Post(env, s, stream, j, k);
            && t.mailbox.Keys == s.mailbox.Keys + {stream} && t.mailbox[stream] == j
            && (forall m :: m in s.mailbox && m != stream ==> t.mailbox[m] == s.mailbox[m])
            && (stream in s.mailbox ==>
                  var prior := s.mailbox[stream];
                  && prior !in t.running && Replaced(prior) in t.log
                  && (prior in t.preempted <==> prior in s.running)
                  && (prior in t.remaining <==> prior in s.running))
            && (forall x :: (stream in s.mailbox ==> x != s.mailbox[stream]) ==>
                  && (x in t.running <==> x in s.running)
                  && (x in t.preempted <==> x in s.preempted))
  {
    if stream in s.mailbox {
      var prior := s.mailbox[stream];
      var put := s.(mailbox := s.mailbox[stream := j], log := s.log + [Replaced(prior)]);
      assert put.log[|s.log|] == Replaced(prior);
      hide Freed, Scenario.Class, Scenario.ClassId;
      assert prior in s.running.Keys <==> prior in s.running;
      assert prior in s.remaining.Keys <==> prior in s.remaining;
    }
  }

  // ---- what stays in a mailbox ----

  // From s to t the mailbox of the stream was emptied if a job of the stream was
  // started, and was otherwise left alone.
  ghost predicate Keeps(env: Scenario, s: Sched, t: Sched, stream: string) {
    && s.log <= t.log
    && (stream in t.mailbox <==> stream in s.mailbox && !StartedSince(env, t.log, |s.log|, stream))
    && (stream in t.mailbox ==> t.mailbox[stream] == s.mailbox[stream])
  }

  lemma KeepsTwice(env: Scenario, s: Sched, u: Sched, t: Sched, stream: string)
    requires Keeps(env, s, u, stream) && Keeps(env, u, t, stream)
    ensures Keeps(env, s, t, stream)
  {
    hide OnStream;
    if StartedSince(env, u.log, |s.log|, stream) {
      var i :| |s.log| <= i < |u.log| && u.log[i].Started? && OnStream(env, u.log[i].job, stream);
      assert t.log[i] == u.log[i];
    }
    if StartedSince(env, t.log, |s.log|, stream) && !StartedSince(env, t.log, |u.log|, stream) {
      var i :| |s.log| <= i < |t.log| && t.log[i].Started? && OnStream(env, t.log[i].job, stream);
      assert i < |u.log| && t.log[i] == u.log[i];
    }
  }

  lemma NothingKeeps(env: Scenario, s: Sched, stream: string)
    ensures Keeps(env, s, s, stream)
  {
  }

  lemma StartKeeps(env: Scenario, s: Sched, j: JobId, k: Moment, stream: string)
    ensures Keeps(env, s, Start(env, s, j, k), stream)
  {
    hide Scenario.Class;
    var t := Start(env, s, j, k);
    assert t.log[|s.log|] == Started(j);
  }

  lemma PreemptLeaves(env: Scenario, s: Sched, j: JobId, k: Moment, stream: string)
    ensures Keeps(env, s, Preempt(env, s, j, k), stream)
  {
    hide Scenario.Class;
  }

  lemma CompleteLeaves(env: Scenario, s: Sched, j: JobId, k: Moment, stream: string)
    ensures Keeps(env, s, Complete(env, s, j, k), stream)
  {
    hide Scenario.Class;
  }

  lemma {:induction false} PreemptForLeaves(env: Scenario, s: Sched, j: JobId, k: Moment, stream: string)
    requires env.Wf()
    ensures Keeps(env, s, PreemptFor(env, s, j, k), stream)
    decreases |s.running|
  {
    hide Keeps, CanAllocate;
    NothingKeeps(env, s, stream);
    if !CanAllocate(env, s, j) && s.running.Keys != {} {
      var worst := Greatest(env.before, s.running.Keys);
      if env.before(j, worst) {
        assert (s.running - {worst}).Keys == s.running.Keys - {worst};
        PreemptLeaves(env, s, worst, k, stream);
        PreemptForLeaves(env, Preempt(env, s, worst, k), j, k, stream);
        KeepsTwice(env, s, Preempt(env, s, worst, k), PreemptFor(env, s, j, k), stream);
      }
    }
  }

  lemma AttemptKeeps(env: Scenario, s: Sched, j: JobId, k: Moment, stream: string)
    requires env.Wf()
    ensures Keeps(env, s, Attempt(env, s, j, k), stream)
  {
    hide Keeps, CanAllocate, PreemptFor, Start;
    var u := PreemptFor(env, s, j, k);
    NothingKeeps(env, s, stream);
    StartKeeps(env, s, j, k, stream);
    PreemptForLeaves(env, s, j, k, stream);
    StartKeeps(env, u, j, k, stream);
    KeepsTwice(env, s, u, Start(env, u, j, k), stream);
  }

  lemma {:induction false} PassKeeps(env: Scenario, s: Sched, cands: set<JobId>, k: Moment, stream: string)
    requires env.Wf()
    ensures Keeps(env, s, Pass(env, s, cands, k), stream)
    decreases cands
  {
    hide Keeps, Attempt;
    if cands == {} {
      NothingKeeps(env, s, stream);
    } else {
      var best := Least(env.before, cands);
      AttemptKeeps(env, s, best, k, stream);
      PassKeeps(env, Attempt(env, s, best, k), cands - {best}, k, stream);
      KeepsTwice(env, s, Attempt(env, s, best, k), Pass(env, s, cands, k), stream);
    }
  }

  // ---- over whole runs ----

  // The arrival puts its job into the mailbox of the stream.
  ghost predicate PostsTo(env: Scenario, e: Event, stream: string) {
    e.Arrival? && OnStream(env, e.job, stream) && (e.admitted || env.Class(e.job).admissionExcluded)
  }

  // The latest job posted to the stream and how long the log was just after.
  ghost function Posted(env: Scenario, events: seq<Event>, stream: string): Option<(JobId, nat)>
    requires env.Wf()
  {
    if events == [] then None
    else
      var n := |events| - 1;
      var e := events[n];
      if PostsTo(env, e, stream) then
        Some((e.job, |Arrive(env, Run(env, events[..n]), e.job, e.admitted, e.k).log|))
      else Posted(env, events[..n], stream)
  }

  ghost predicate Holds(env: Scenario, s: Sched, stream: string, posted: Option<(JobId, nat)>) {
    match posted
    case None => stream !in s.mailbox
    case Some((j, at)) =>
      && at <= |s.log|
      && (stream in s.mailbox <==> !StartedSince(env, s.log, at, stream))
      && (stream in s.mailbox ==> s.mailbox[stream] == j)
  }

  lemma StillHolds(env: Scenario, s: Sched, t: Sched, stream: string, posted: Option<(JobId, nat)>)
    requires Holds(env, s, stream, posted) && Keeps(env, s, t, stream)
    ensures Holds(env, t, stream, posted)
  {
    hide OnStream;
    if posted.Some? {
      var at := posted.value.1;
      if StartedSince(env, s.log, at, stream) {
        var i :| at <= i < |s.log| && s.log[i].Started? && OnStream(env, s.log[i].job, stream);
        assert t.log[i] == s.log[i];
      }
      if StartedSince(env, t.log, at, stream) && !StartedSince(env, t.log, |s.log|, stream) {
        var i :| at <= i < |t.log| && t.log[i].Started? && OnStream(env, t.log[i].job, stream);
        assert i < |s.log| && t.log[i] == s.log[i];
      }
    }
  }

  // Telling something else and changing other mailboxes leaves this one.
  lemma ToldKeeps(env: Scenario, s: Sched, t: Sched, a: Action, stream: string)
    requires t.log == s.log + [a] && !a.Started?
    requires stream in t.mailbox <==> stream in s.mailbox
    requires stream in s.mailbox ==> t.mailbox[stream] == s.mailbox[stream]
    ensures Keeps(env, s, t, stream)
  {
    hide OnStream;
  }

  lemma PostElsewhere(env: Scenario, s: Sched, other: string, j: JobId, k: Moment, stream: string)
    requires other != stream
    ensures Keeps(env, s, Post(env, s, other, j, k), stream)
  {
    hide Keeps, Preempt;
    if other !in s.mailbox {
      ElsewhereKeeps(env, s, other, j, stream);
    } else {
      var prior := s.mailbox[other];
      var put := s.(mailbox := s.mailbox[other := j], log := s.log + [Replaced(prior)]);
      ToldKeeps(env, s, put, Replaced(prior), stream);
      PreemptLeaves(env, put, prior, k, stream);
      KeepsTwice(env, s, put, Preempt(env, put, prior, k), stream);
      if prior !in s.running && prior in s.preempted {
        ToldKeeps(env, s, Post(env, s, other, j, k), Replaced(prior), stream);
      }
    }
  }

  lemma ElsewhereKeeps(env: Scenario, s: Sched, other: string, j: JobId, stream: string)
    requires other != stream
    ensures Keeps(env, s, s.(mailbox := s.mailbox[other := j]), stream)
  {
  }

  lemma EnqueueLeaves(env: Scenario, s: Sched, j: JobId, stream: string)
    ensures Keeps(env, s, Enqueue(env, s, j), stream)
  {
    hide Keeps;
    var full := |s.Queue(env.ClassId(j))| >= env.Class(j).capacity;
    ToldKeeps(env, s, Enqueue(env, s, j), if full then Dropped(j) else Queued(j), stream);
  }

  // An arrival for another stream, for a queue, or turned away.
  lemma OtherArrival(env: Scenario, s: Sched, j: JobId, admitted: bool, k: Moment, stream: string)
    requires !PostsTo(env, Arrival(j, admitted, k), stream)
    ensures Keeps(env, s, Arrive(env, s, j, admitted, k), stream)
  {
    hide Keeps, Post, Enqueue, Scenario.Class;
    ToldKeeps(env, s, s.(log := s.log + [Rejected(j)]), Rejected(j), stream);
    match env.Class(j).policy
    case Fifo => EnqueueLeaves(env, s, j, stream);
    case MailboxLatest(other) =>
      if other != stream {
        PostElsewhere(env, s, other, j, k, stream);
      }
  }

  lemma OwnArrival(env: Scenario, s: Sched, j: JobId, admitted: bool, k: Moment, stream: string)
    requires PostsTo(env, Arrival(j, admitted, k), stream)
    ensures var t := Arrive(env, s, j, admitted, k); Holds(env, t, stream, Some((j, |t.log|)))
  {
  }

  // In every run a mailbox holds exactly the latest accepted arrival of its stream,
  // as long as no job of the stream was started after it arrived.
  lemma {:induction false} MailboxHoldsLatest(env: Scenario, events: seq<Event>, stream: string)
    requires env.Wf()
    ensures Holds(env, Run(env, events), stream, Posted(env, events, stream))
  {
    hide Holds, Arrive, Complete, Pass, Candidates, PostsTo, Keeps;
    if events == [] {
      NothingPosted(env, stream);
    } else {
      var n := |events| - 1;
      var s := Run(env, events[..n]);
      var posted := Posted(env, events[..n], stream);
      MailboxHoldsLatest(env, events[..n], stream);
      match events[n]
      case Arrival(j, admitted, k) =>
        var t := Arrive(env, s, j, admitted, k);
        if PostsTo(env, events[n], stream) {
          OwnArrival(env, s, j, admitted, k, stream);
        } else {
          OtherArrival(env, s, j, admitted, k, stream);
          StillHolds(env, s, t, stream, posted);
        }
        PassKeeps(env, t, Candidates(t), k, stream);
        StillHolds(env, t, Dispatch(env, t, k), stream, Posted(env, events, stream));
      case Timer(j, k) =>
        CompleteLeaves(env, s, j, k, stream);
        assert !PostsTo(env, events[n], stream) by { OnlyArrivalsPost(env, events[n], stream); }
        StillHolds(env, s, Complete(env, s, j, k), stream, posted);
      case DispatchTick(k) =>
        PassKeeps(env, s, Candidates(s), k, stream);
        assert !PostsTo(env, events[n], stream) by { OnlyArrivalsPost(env, events[n], stream); }
        StillHolds(env, s, Dispatch(env, s, k), stream, posted);
    }
  }

  lemma NothingPosted(env: Scenario, stream: string)
    requires env.Wf()
    ensures Holds(env, Initial(env), stream, None)
  {
  }

  lemma OnlyArrivalsPost(env: Scenario, e: Event, stream: string)
    requires !e.Arrival?
    ensures !PostsTo(env, e, stream)
  {
  }

  // ---- what becomes of a waiting job ----

  lemma {:induction false} PreemptForTakes(env: Scenario, s: Sched, j: JobId, k: Moment)
    requires env.Wf()
    ensures PreemptFor(env, s, j, k).preempted <= s.preempted + s.running.Keys
    decreases |s.running|
  {
    hide CanAllocate;
    if !CanAllocate(env, s, j) && s.running.Keys != {} {
      var worst := Greatest(env.before, s.running.Keys);
      if env.before(j, worst) {
        assert (s.running - {worst}).Keys == s.running.Keys - {worst};
        PreemptForTakes(env, Preempt(env, s, worst, k), j, k);
      }
    }
  }

  lemma AttemptTakes(env: Scenario, s: Sched, j: JobId, k: Moment)
    requires env.Wf()
    ensures Attempt(env, s, j, k).preempted <= s.preempted + s.running.Keys
  {
    hide CanAllocate, PreemptFor;
    PreemptForTakes(env, s, j, k);
  }

  lemma AttemptTells(env: Scenario, s: Sched, j: JobId, k: Moment)
    requires env.Wf() && j !in s.running && j in Attempt(env, s, j, k).running
    ensures var t := Attempt(env, s, j, k); |s.log| < |t.log| && t.log[|t.log| - 1] == Started(j)
  {
    hide CanAllocate, PreemptFor;
    PreemptForLog(env, s, j, k);
    PreemptForKeeps(env, s, j, k);
  }

  // A pass that begins with a job in neither table ends with it running, having
  // been started, or in neither table.
  lemma {:induction false} OutsiderInPass(env: Scenario, s: Sched, cands: set<JobId>, k: Moment, j: JobId)
    requires env.Wf() && j !in s.running && j !in s.preempted
    ensures var t := Pass(env, s, cands, k);
            && s.log <= t.log
            && (if j in t.running then exists i :: |s.log| <= i < |t.log| && t.log[i] == Started(j)
                else j !in t.preempted)
    decreases cands
  {
    hide Attempt;
    if cands != {} {
      var best := Least(env.before, cands);
      var u := Attempt(env, s, best, k);
      AttemptLog(env, s, best, k);
      AttemptRuns(env, s, best, k);
      AttemptTakes(env, s, best, k);
      if j in u.running {
        assert j in u.running.Keys && j == best;
        AttemptTells(env, s, j, k);
        PassSparesBetter(env, u, cands - {best}, k, j);
        assert Pass(env, s, cands, k).log[|u.log| - 1] == Started(j);
      } else {
        OutsiderInPass(env, u, cands - {best}, k, j);
      }
    }
  }

  lemma {:induction false} PassStartsCandidates(env: Scenario, s: Sched, cands: set<JobId>, k: Moment)
    requires env.Wf()
    ensures var t := Pass(env, s, cands, k);
            && s.log <= t.log
            && (forall i :: |s.log| <= i < |t.log| && t.log[i].Started? ==> t.log[i].job in cands)
    decreases cands
  {
    hide Attempt;
    if cands != {} {
      var best := Least(env.before, cands);
      AttemptLog(env, s, best, k);
      PassStartsCandidates(env, Attempt(env, s, best, k), cands - {best}, k);
    }
  }

  // The job is nowhere: not waiting on its stream, not running, not preempted.
  ghost predicate Lost(s: Sched, j: JobId, stream: string) {
    j !in s.running && j !in s.preempted && (stream in s.mailbox ==> s.mailbox[stream] != j)
  }

  // What a dispatch does to a waiting job: it keeps waiting exactly when no job of
  // its stream is started, it runs exactly when it fits beside the better ones,
  // and it is lost exactly when some job is started and it does not fit.
  lemma PendingFate(env: Scenario, s: Sched, k: Moment, stream: string)
    requires env.Wf() && env.preemption && Accounted(env, s) && stream in s.mailbox
    requires OnStream(env, s.mailbox[stream], stream)
    requires s.mailbox[stream] !in s.running && s.mailbox[stream] !in s.preempted
    ensures var j, t := s.mailbox[stream], Dispatch(env, s, k);
            && s.log <= t.log
            && (stream in t.mailbox <==> !StartedSince(env, t.log, |s.log|, stream))
            && (stream in t.mailbox ==> t.mailbox[stream] == j && j !in t.running)
            && (j in t.running <==> Servable(env, t, j))
            && (Lost(t, j, stream) <==> StartedSince(env, t.log, |s.log|, stream) && !Servable(env, t, j))
  {
    hide Accounted, Servable, Pass, Candidates, Eligible, Scenario.Class;
    var j, t := s.mailbox[stream], Dispatch(env, s, k);
    PassKeeps(env, s, Candidates(s), k, stream);
    OutsiderInPass(env, s, Candidates(s), k, j);
    DispatchServesExactly(env, s, k);
    assert Eligible(s, j) by { HeldIsEligible(s, stream); }
    if j in t.running {
      var i :| |s.log| <= i < |t.log| && t.log[i] == Started(j);
      assert StartedSince(env, t.log, |s.log|, stream);
    }
  }

  lemma HeldIsEligible(s: Sched, stream: string)
    requires stream in s.mailbox
    ensures Eligible(s, s.mailbox[stream])
  {
  }

  // A waiting job is safe while it is the only job of its stream that may be dispatched.
  lemma AloneIsNeverLost(env: Scenario, s: Sched, k: Moment, stream: string)
    requires env.Wf() && stream in s.mailbox
    requires forall x :: Eligible(s, x) && OnStream(env, x, stream) ==> x == s.mailbox[stream]
    ensures !Lost(Dispatch(env, s, k), s.mailbox[stream], stream)
  {
    hide Pass, Candidates, Eligible, OnStream;
    var j, t := s.mailbox[stream], Dispatch(env, s, k);
    PassKeeps(env, s, Candidates(s), k, stream);
    PassStartsCandidates(env, s, Candidates(s), k);
    PassNeverUndoesAStart(env, s, Candidates(s), k);
    if StartedSince(env, t.log, |s.log|, stream) {
      var i :| |s.log| <= i < |t.log| && t.log[i].Started? && OnStream(env, t.log[i].job, stream);
      EligibleIsCandidate(s, t.log[i].job);
      assert t.log[i] == Started(j);
    }
  }
}
