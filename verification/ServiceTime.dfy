// How long a job runs: in every run a started job is due when the work it has left
// is done, and when the kernel reports that work truly, what a job is given adds
// up to its work, over however many preemptions.
module ServiceTime {
  import opened Ordering
  import opened Scheduling
  import opened Accounting
  import opened DispatchOrder

  // ---- what the history says ----

  function WorkFor(env: Scenario, j: JobId): int {
    if j in env.releases then env.releases[j].work else 0
  }

  // What j has left: what its last preemption reported, or all its work if it was
  // not preempted since it last completed or was given up.
  function Rest(env: Scenario, spans: seq<Span>, j: JobId): int {
    if spans == [] then WorkFor(env, j)
    else
      var n := |spans| - 1;
      if spans[n].job != j then Rest(env, spans[..n], j)
      else if spans[n].Stopped? then spans[n].left
      else WorkFor(env, j)
  }

  predicate Paused(spans: seq<Span>, j: JobId) {
    if spans == [] then false
    else
      var n := |spans| - 1;
      if spans[n].job != j then Paused(spans[..n], j) else spans[n].Stopped?
  }

  // How long j ran before, since it last completed or was given up.
  function Served(spans: seq<Span>, j: JobId): int {
    if spans == [] then 0
    else
      var n := |spans| - 1;
      if spans[n].job != j then Served(spans[..n], j)
      else if spans[n].Stopped? then Served(spans[..n], j) + (spans[n].to - spans[n].from)
      else 0
  }

  lemma {:induction false} NotPaused(env: Scenario, spans: seq<Span>, j: JobId)
    requires !Paused(spans, j)
    ensures Rest(env, spans, j) == WorkFor(env, j)
  {
    if spans != [] && spans[|spans| - 1].job != j {
      NotPaused(env, spans[..|spans| - 1], j);
    }
  }

  lemma OneMore(env: Scenario, spans: seq<Span>, e: Span, j: JobId)
    ensures var all := spans + [e];
            if e.job != j then Rest(env, all, j) == Rest(env, spans, j) && Paused(all, j) == Paused(spans, j)
            else Paused(all, j) == e.Stopped? && Rest(env, all, j) == if e.Stopped? then e.left else WorkFor(env, j)
  {
    assert (spans + [e])[..|spans|] == spans;
  }

  // ---- due times ----

  // A running job is due when what it had left at its start is done; the table of
  // remaining work holds what the paused jobs have left.
  ghost predicate Timely(env: Scenario, s: Sched) {
    && (forall j :: j in s.running ==> j in s.started && s.running[j] == s.started[j] + Rest(env, s.spans, j))
    && (forall j :: j in s.remaining ==> Paused(s.spans, j) && s.remaining[j] == Rest(env, s.spans, j))
    && (forall j :: j !in s.running && j !in s.remaining ==> !Paused(s.spans, j))
  }

  lemma StartKeepsTimes(env: Scenario, s: Sched, j: JobId, k: Moment)
    requires Timely(env, s) && j !in s.running
    ensures Timely(env, Start(env, s, j, k))
  {
    if j !in s.remaining {
      NotPaused(env, s.spans, j);
    }
  }

  lemma PreemptKeepsTimes(env: Scenario, s: Sched, j: JobId, k: Moment)
    requires Timely(env, s)
    ensures Timely(env, Preempt(env, s, j, k))
  {
    if j in s.running {
      forall x {
        OneMore(env, s.spans, Stopped(j, s.Since(j, k), k.now, k.Left(j)), x);
      }
      hide Rest, Paused;
    }
  }

  lemma CompleteKeepsTimes(env: Scenario, s: Sched, j: JobId, k: Moment)
    requires Timely(env, s) && s.running.Keys !! s.remaining.Keys
    ensures Timely(env, Complete(env, s, j, k))
  {
    if j in s.running {
      forall x {
        OneMore(env, s.spans, Finished(j, s.Since(j, k), k.now), x);
      }
      hide Rest, Paused;
      assert j !in s.remaining.Keys;
    }
  }

  lemma GiveUpKeepsTimes(env: Scenario, s: Sched, t: Sched, j: JobId)
    requires Timely(env, s) && j !in s.running
    requires t.running == s.running && t.started == s.started && t.remaining == s.remaining - {j}
    requires t.spans == s.spans + [GivenUp(j)]
    ensures Timely(env, t)
  {
    forall x {
      OneMore(env, s.spans, GivenUp(j), x);
    }
    hide Rest, Paused;
  }

  lemma {:induction false} PreemptForKeepsTimes(env: Scenario, s: Sched, j: JobId, k: Moment)
    requires env.Wf() && Timely(env, s)
    ensures Timely(env, PreemptFor(env, s, j, k))
    decreases |s.running|
  {
    hide Timely, CanAllocate;
    if !CanAllocate(env, s, j) && s.running.Keys != {} {
      var worst := Greatest(env.before, s.running.Keys);
      if env.before(j, worst) {
        PreemptKeepsTimes(env, s, worst, k);
        assert Preempt(env, s, worst, k).running.Keys == s.running.Keys - {worst};
        FewerRunning(s.running.Keys, Preempt(env, s, worst, k).running.Keys, worst);
        PreemptForKeepsTimes(env, Preempt(env, s, worst, k), j, k);
      }
    }
  }

  lemma AttemptKeepsTimes(env: Scenario, s: Sched, j: JobId, k: Moment)
    requires env.Wf() && Timely(env, s)
    ensures Timely(env, Attempt(env, s, j, k))
  {
    hide Timely, CanAllocate, Start;
    if j !in s.running {
      PreemptForKeeps(env, s, j, k);
      PreemptForKeepsTimes(env, s, j, k);
      StartKeepsTimes(env, s, j, k);
      assert j !in PreemptFor(env, s, j, k).running.Keys;
      StartKeepsTimes(env, PreemptFor(env, s, j, k), j, k);
    }
  }

  lemma {:induction false} PassKeepsTimes(env: Scenario, s: Sched, cands: set<JobId>, k: Moment)
    requires env.Wf() && Timely(env, s)
    ensures Timely(env, Pass(env, s, cands, k))
    decreases cands
  {
    hide Timely, Attempt;
    if cands != {} {
      var best := Least(env.before, cands);
      AttemptKeepsTimes(env, s, best, k);
      PassKeepsTimes(env, Attempt(env, s, best, k), cands - {best}, k);
    }
  }

  lemma SameTimes(env: Scenario, s: Sched, t: Sched)
    requires Timely(env, s)
    requires t.running == s.running && t.started == s.started && t.remaining == s.remaining && t.spans == s.spans
    ensures Timely(env, t)
  {
    hide Rest, Paused;
  }

  lemma EnqueueKeepsTimes(env: Scenario, s: Sched, j: JobId)
    requires Timely(env, s)
    ensures Timely(env, Enqueue(env, s, j))
  {
    SameTimes(env, s, Enqueue(env, s, j));
  }

  lemma PostKeepsTimes(env: Scenario, s: Sched, stream: string, j: JobId, k: Moment)
    requires Timely(env, s)
    ensures Timely(env, Post(env, s, stream, j, k))
  {
    hide Timely, Preempt;
    SameTimes(env, s, s.(mailbox := s.mailbox[stream := j]));
    if stream in s.mailbox {
      var prior := s.mailbox[stream];
      var put := s.(mailbox := s.mailbox[stream := j], log := s.log + [Replaced(prior)]);
      SameTimes(env, s, put);
      PreemptKeepsTimes(env, put, prior, k);
      if prior !in s.running && prior in s.preempted {
        GiveUpKeepsTimes(env, s, Post(env, s, stream, j, k), prior);
      }
    }
  }

  lemma ArriveKeepsTimes(env: Scenario, s: Sched, j: JobId, admitted: bool, k: Moment)
    requires Timely(env, s)
    ensures Timely(env, Arrive(env, s, j, admitted, k))
  {
    hide Timely, Post, Enqueue;
    SameTimes(env, s, s.(log := s.log + [Rejected(j)]));
    match env.Class(j).policy
    case Fifo => EnqueueKeepsTimes(env, s, j);
    case MailboxLatest(stream) => PostKeepsTimes(env, s, stream, j, k);
  }

  // In every run, whatever its classes and moments: a running job is due after
  // what was left of it when it last started.
  lemma {:induction false} EveryRunIsTimely(env: Scenario, events: seq<Event>)
    requires env.Wf()
    ensures Timely(env, Run(env, events))
  {
    hide Timely, Arrive, Complete, Pass, Candidates;
    if events == [] {
      NothingYet(env);
    } else {
      var n := |events| - 1;
      var s := Run(env, events[..n]);
      EveryRunIsTimely(env, events[..n]);
      EveryRunIsAccounted(env, events[..n]);
      match events[n]
      case Arrival(j, admitted, k) =>
        ArriveKeepsTimes(env, s, j, admitted, k);
        PassKeepsTimes(env, Arrive(env, s, j, admitted, k), Candidates(Arrive(env, s, j, admitted, k)), k);
      case Timer(j, k) => CompleteKeepsTimes(env, s, j, k);
      case DispatchTick(k) => PassKeepsTimes(env, s, Candidates(s), k);
    }
  }

  lemma NothingYet(env: Scenario)
    ensures Timely(env, Initial(env))
  {
  }

  // ---- work is conserved ----

  // Every preemption reported what was left less the time run, and every
  // completion came when nothing was left.
  ghost predicate Exact(env: Scenario, spans: seq<Span>) {
    forall i :: 0 <= i < |spans| ==> ExactAt(env, spans, i)
  }

  ghost predicate ExactAt(env: Scenario, spans: seq<Span>, i: nat)
    requires i < |spans|
  {
    match spans[i]
    case Stopped(j, from, to, left) => left == Rest(env, spans[..i], j) - (to - from)
    case Finished(j, from, to) => Rest(env, spans[..i], j) == to - from
    case GivenUp(_) => true
  }

  lemma ExactGrows(env: Scenario, spans: seq<Span>, e: Span)
    requires Exact(env, spans)
    requires e.Stopped? ==> e.left == Rest(env, spans, e.job) - (e.to - e.from)
    requires e.Finished? ==> Rest(env, spans, e.job) == e.to - e.from
    ensures Exact(env, spans + [e])
  {
    var all := spans + [e];
    forall i | 0 <= i < |all| ensures ExactAt(env, all, i) {
      assert all[..i] == spans[..i];
      if i < |spans| {
        assert ExactAt(env, spans, i);
      } else {
        assert spans[..i] == spans;
      }
    }
  }

  // What is left and what was served make up the work.
  lemma {:induction false} SpansAddUp(env: Scenario, spans: seq<Span>, j: JobId)
    requires Exact(env, spans)
    ensures Rest(env, spans, j) + Served(spans, j) == WorkFor(env, j)
  {
    if spans != [] {
      var n := |spans| - 1;
      forall i | 0 <= i < n ensures ExactAt(env, spans[..n], i) {
        assert ExactAt(env, spans, i) && spans[..n][..i] == spans[..i];
      }
      SpansAddUp(env, spans[..n], j);
      assert ExactAt(env, spans, n);
    }
  }

  // The kernel knows the jobs that run.
  ghost predicate TrueMoment(s: Sched, k: Moment) {
    forall j :: j in s.running ==> k.Left(j) == s.running[j] - k.now
  }

  // Every event finds the kernel's reports true, and completions come when due.
  ghost predicate TrueRun(env: Scenario, events: seq<Event>)
    requires env.Wf()
  {
    forall n :: 0 <= n < |events| ==> TrueEvent(Run(env, events[..n]), events[n])
  }

  ghost predicate TrueEvent(s: Sched, e: Event) {
    match e
    case Arrival(_, _, k) => TrueMoment(s, k)
    case DispatchTick(k) => TrueMoment(s, k)
    case Timer(j, k) => j in s.running ==> k.now == s.running[j]
  }

  lemma PreemptIsExact(env: Scenario, s: Sched, j: JobId, k: Moment)
    requires Timely(env, s) && Exact(env, s.spans) && (j in s.running ==> k.Left(j) == s.running[j] - k.now)
    ensures Exact(env, Preempt(env, s, j, k).spans)
  {
    hide Exact, Rest;
    if j in s.running {
      ExactGrows(env, s.spans, Stopped(j, s.Since(j, k), k.now, k.Left(j)));
    }
  }

  lemma {:induction false} PreemptForIsExact(env: Scenario, s: Sched, j: JobId, k: Moment)
    requires env.Wf() && Timely(env, s) && Exact(env, s.spans)
    requires forall x :: x in s.running && env.before(j, x) ==> k.Left(x) == s.running[x] - k.now
    ensures Exact(env, PreemptFor(env, s, j, k).spans)
    decreases |s.running|
  {
    hide Timely, Exact, CanAllocate;
    if !CanAllocate(env, s, j) && s.running.Keys != {} {
      var worst := Greatest(env.before, s.running.Keys);
      if env.before(j, worst) {
        var u := Preempt(env, s, worst, k);
        PreemptKeepsTimes(env, s, worst, k);
        PreemptIsExact(env, s, worst, k);
        assert u.running == s.running - {worst};
        assert u.running.Keys == s.running.Keys - {worst};
        FewerRunning(s.running.Keys, u.running.Keys, worst);
        PreemptForIsExact(env, u, j, k);
      }
    }
  }

  // A job started in this pass ranks before all that are still to be tried.
  ghost predicate TrueOrBefore(env: Scenario, s: Sched, cands: set<JobId>, k: Moment) {
    forall x :: x in s.running ==> k.Left(x) == s.running[x] - k.now || forall c :: c in cands ==> env.before(x, c)
  }

  lemma AttemptIsExact(env: Scenario, s: Sched, cands: set<JobId>, j: JobId, k: Moment)
    requires env.Wf() && Timely(env, s) && Exact(env, s.spans) && IsLeast(env.before, j, cands)
    requires TrueOrBefore(env, s, cands, k)
    ensures Exact(env, Attempt(env, s, j, k).spans)
    ensures TrueOrBefore(env, Attempt(env, s, j, k), cands - {j}, k)
  {
    forall x | x in s.running && env.before(j, x) ensures k.Left(x) == s.running[x] - k.now {
      assert !env.before(x, j);
    }
    PreemptForIsExact(env, s, j, k);
    AttemptLog(env, s, j, k);
    AttemptRuns(env, s, j, k);
    AttemptSpans(env, s, j, k);
    hide Attempt, Exact, Timely;
    var t := Attempt(env, s, j, k);
    forall x | x in t.running && x != j ensures x in s.running && t.running[x] == s.running[x] {
      assert x in t.running.Keys;
    }
    if j in s.running {
      assert t == s by { AttemptOfRunning(env, s, j, k); }
    }
  }

  lemma AttemptOfRunning(env: Scenario, s: Sched, j: JobId, k: Moment)
    requires env.Wf() && j in s.running
    ensures Attempt(env, s, j, k) == s
  {
  }

  lemma AttemptSpans(env: Scenario, s: Sched, j: JobId, k: Moment)
    requires env.Wf()
    ensures var t := Attempt(env, s, j, k); t.spans == s.spans || t.spans == PreemptFor(env, s, j, k).spans
  {
    hide CanAllocate, PreemptFor;
  }

  lemma {:induction false} PassIsExact(env: Scenario, s: Sched, cands: set<JobId>, k: Moment)
    requires env.Wf() && Timely(env, s) && Exact(env, s.spans) && TrueOrBefore(env, s, cands, k)
    ensures Exact(env, Pass(env, s, cands, k).spans)
    decreases cands
  {
    hide Timely, Exact, TrueOrBefore, Attempt;
    if cands != {} {
      var best := Least(env.before, cands);
      AttemptKeepsTimes(env, s, best, k);
      AttemptIsExact(env, s, cands, best, k);
      PassIsExact(env, Attempt(env, s, best, k), cands - {best}, k);
    }
  }

  lemma PostIsExact(env: Scenario, s: Sched, stream: string, j: JobId, k: Moment)
    requires Timely(env, s) && Exact(env, s.spans) && TrueMoment(s, k)
    ensures var t := Post(env, s, stream, j, k); Exact(env, t.spans) && TrueMoment(t, k)
  {
    hide Timely, Exact;
    if stream in s.mailbox {
      var prior := s.mailbox[stream];
      var put := s.(mailbox := s.mailbox[stream := j], log := s.log + [Replaced(prior)]);
      SameTimes(env, s, put);
      PreemptIsExact(env, put, prior, k);
      ExactGrows(env, s.spans, GivenUp(prior));
    }
  }

  lemma SameTruth(s: Sched, t: Sched, k: Moment)
    requires TrueMoment(s, k) && t.running == s.running
    ensures TrueMoment(t, k)
  {
  }

  lemma EnqueueRunsNothing(env: Scenario, s: Sched, j: JobId)
    ensures Enqueue(env, s, j).running == s.running && Enqueue(env, s, j).spans == s.spans
  {
    hide Scenario.Class, Scenario.ClassId, Sched.Queue;
  }

  lemma ArriveIsExact(env: Scenario, s: Sched, j: JobId, admitted: bool, k: Moment)
    requires Timely(env, s) && Exact(env, s.spans) && TrueMoment(s, k)
    ensures var t := Arrive(env, s, j, admitted, k); Exact(env, t.spans) && TrueMoment(t, k)
  {
    hide Timely, Exact, TrueMoment, Post, Enqueue;
    SameTruth(s, s.(log := s.log + [Rejected(j)]), k);
    match env.Class(j).policy
    case Fifo =>
      EnqueueRunsNothing(env, s, j);
      SameTruth(s, Enqueue(env, s, j), k);
    case MailboxLatest(stream) => PostIsExact(env, s, stream, j, k);
  }

  lemma {:induction false} TrueRunsAreExact(env: Scenario, events: seq<Event>)
    requires env.Wf() && TrueRun(env, events)
    ensures Exact(env, Run(env, events).spans)
  {
    hide Timely, Exact, Arrive, Pass, Candidates, TrueMoment, TrueRun, Accounted;
    if events == [] {
      assert Exact(env, []) by { NoSpans(env); }
    } else {
      var n := |events| - 1;
      var s := Run(env, events[..n]);
      TrueBefore(env, events);
      TrueRunsAreExact(env, events[..n]);
      EveryRunIsTimely(env, events[..n]);
      match events[n]
      case Arrival(j, admitted, k) =>
        var t := Arrive(env, s, j, admitted, k);
        ArriveIsExact(env, s, j, admitted, k);
        ArriveKeepsTimes(env, s, j, admitted, k);
        AllTrue(env, t, Candidates(t), k);
        PassIsExact(env, t, Candidates(t), k);
      case Timer(j, k) => CompletionIsExact(env, s, j, k);
      case DispatchTick(k) =>
        AllTrue(env, s, Candidates(s), k);
        PassIsExact(env, s, Candidates(s), k);
    }
  }

  lemma TrueBefore(env: Scenario, events: seq<Event>)
    requires env.Wf() && TrueRun(env, events) && events != []
    ensures var n := |events| - 1; TrueEvent(Run(env, events[..n]), events[n]) && TrueRun(env, events[..n])
  {
    hide TrueEvent, Run;
    var n := |events| - 1;
    forall i | 0 <= i < n ensures TrueEvent(Run(env, events[..n][..i]), events[..n][i]) {
      assert events[..n][..i] == events[..i] && TrueEvent(Run(env, events[..i]), events[i]);
    }
  }

  lemma NoSpans(env: Scenario)
    ensures Exact(env, [])
  {
  }

  lemma AllTrue(env: Scenario, s: Sched, cands: set<JobId>, k: Moment)
    requires TrueMoment(s, k)
    ensures TrueOrBefore(env, s, cands, k)
  {
  }

  lemma CompletionIsExact(env: Scenario, s: Sched, j: JobId, k: Moment)
    requires Timely(env, s) && Exact(env, s.spans) && TrueEvent(s, Timer(j, k))
    ensures Exact(env, Complete(env, s, j, k).spans)
  {
    hide Exact, Rest;
    if j in s.running {
      ExactGrows(env, s.spans, Finished(j, s.Since(j, k), k.now));
    }
  }

  // In every true run: what a running job is given now and was given before makes
  // up its work, and a preempted job has the rest of its work left.
  lemma WorkIsConserved(env: Scenario, events: seq<Event>, j: JobId)
    requires env.Wf() && TrueRun(env, events) && j in env.releases
    ensures var s := Run(env, events);
            && (j in s.running ==>
                  && j in s.started
                  && (s.running[j] - s.started[j]) + Served(s.spans, j) == env.releases[j].work)
            && (j in s.remaining ==> s.remaining[j] + Served(s.spans, j) == env.releases[j].work)
  {
    EveryRunIsTimely(env, events);
    TrueRunsAreExact(env, events);
    SpansAddUp(env, Run(env, events).spans, j);
  }

  // And a job that completes was given exactly its work.
  lemma CompletedWithItsWork(env: Scenario, events: seq<Event>, j: JobId, i: nat)
    requires env.Wf() && TrueRun(env, events) && j in env.releases
    requires i < |Run(env, events).spans| && Run(env, events).spans[i].Finished? && Run(env, events).spans[i].job == j
    ensures var spans := Run(env, events).spans;
            Served(spans[..i], j) + (spans[i].to - spans[i].from) == env.releases[j].work
  {
    var spans := Run(env, events).spans;
    TrueRunsAreExact(env, events);
    hide Run, TrueRun;
    assert ExactAt(env, spans, i);
    forall m | 0 <= m < i ensures ExactAt(env, spans[..i], m) {
      assert ExactAt(env, spans, m) && spans[..i][..m] == spans[..m];
    }
    SpansAddUp(env, spans[..i], j);
  }
}
