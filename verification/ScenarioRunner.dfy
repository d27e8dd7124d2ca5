// The runner itself: an object whose handlers update counters, queues and sets
// in place. Every handler is proved to do what its function in Scheduling does
// to the abstract state, and keeps the resource accounts.
module Runner {
  import opened Ordering
  import opened Scheduling
  import opened Accounting

  class ScenarioRunner {
    const env: Scenario
    var used: map<Resource, int>
    var running: map<JobId, int>
    var preempted: set<JobId>
    var remaining: map<JobId, int>
    var started: map<JobId, int>
    var fifo: map<ClassId, seq<JobId>>
    var mailbox: map<string, JobId>
    var log: seq<Action>
    var spans: seq<Span>

    ghost function Abs(): Sched
      reads this
    {
      Sched(used, running, preempted, remaining, started, fifo, mailbox, log, spans)
    }

    ghost predicate Valid()
      reads this
    {
      env.Wf() && Accounted(env, Abs())
    }

    constructor (env: Scenario)
      requires env.Wf()
      ensures this.env == env && Valid() && Abs() == Initial(env)
    {
      this.env := env;
      var init := Initial(env);
      used, running, preempted, remaining := init.used, map[], {}, map[];
      started, fifo, mailbox, log, spans := map[], init.fifo, map[], [], [];
      new;
      EveryRunIsAccounted(env, []);
    }

    method Fits(j: JobId) returns (ok: bool)
      requires Valid()
      ensures ok <==> CanAllocate(env, Abs(), j)
    {
      var needs := env.Class(j).needs;
      var rest := needs.Keys;
      while rest != {}
        invariant rest <= needs.Keys
        invariant forall r :: r in needs && r !in rest ==>
                    r in env.capacity && env.capacity[r] - used[r] >= needs[r]
        decreases rest
      {
        var r :| r in rest;
        if r !in env.capacity || env.capacity[r] - used[r] < needs[r] {
          return false;
        }
        rest := rest - {r};
      }
      return true;
    }

    method Allocate(j: JobId)
      requires env.Class(j).needs.Keys <= used.Keys
      modifies `used
      ensures used == Allocated(env, old(used), j)
    {
      var needs := env.Class(j).needs;
      var rest := needs.Keys;
      while rest != {}
        invariant rest <= needs.Keys && used.Keys == old(used).Keys
        invariant forall r :: r in used ==>
                    used[r] == old(used)[r] + (if r in rest then 0 else env.Need(j, r))
        decreases rest
      {
        var r :| r in rest;
        used := used[r := used[r] + needs[r]];
        rest := rest - {r};
      }
    }

    method ReleaseResources(j: JobId)
      requires env.Class(j).needs.Keys <= used.Keys
      modifies `used
      ensures used == Freed(env, old(used), j)
    {
      var needs := env.Class(j).needs;
      var rest := needs.Keys;
      while rest != {}
        invariant rest <= needs.Keys && used.Keys == old(used).Keys
        invariant forall r :: r in used ==>
                    used[r] == if r in needs && r !in rest then Max0(old(used)[r] - env.Need(j, r)) else old(used)[r]
        decreases rest
      {
        var r :| r in rest;
        used := used[r := Max0(used[r] - needs[r])];
        rest := rest - {r};
      }
    }

    method DequeueFromRunner(j: JobId)
      modifies `fifo, `mailbox
      ensures fifo == DequeuedFifo(env, old(fifo), j) && mailbox == DequeuedMailbox(env, old(mailbox), j)
    {
      match env.Class(j).policy
      case Fifo =>
        var c := env.ClassId(j);
        if c in fifo && fifo[c] != [] && fifo[c][0] == j {
          fifo := fifo[c := fifo[c][1..]];
        }
      case MailboxLatest(stream) =>
        mailbox := mailbox - {stream};
    }

    // `_allocate` looks every needed resource up.
    method StartJob(j: JobId, k: Moment)
      requires env.Class(j).needs.Keys <= used.Keys
      modifies this
      ensures Abs() == Start(env, old(Abs()), j, k)
    {
      Allocate(j);
      preempted := preempted - {j};
      DequeueFromRunner(j);
      var work := WorkOf(env, remaining, j);
      remaining := remaining - {j};
      started := started[j := k.now];
      log := log + [Started(j)];
      hide Allocated, DequeuedFifo, DequeuedMailbox, WorkOf;
      running := running[j := k.now + work];
    }

    method TryStart(j: JobId, k: Moment) returns (ok: bool)
      requires Valid() && j !in running
      modifies this
      ensures ok <==> CanAllocate(env, old(Abs()), j)
      ensures Valid() && Abs() == if ok then Start(env, old(Abs()), j, k) else old(Abs())
    {
      ok := Fits(j);
      if ok {
        StartKeepsAccounts(env, Abs(), j, k);
        hide Accounted, Start, Scenario.Class;
        StartJob(j, k);
      }
    }

    method PreemptJob(j: JobId, k: Moment)
      requires Valid()
      modifies this
      ensures Valid() && Abs() == Preempt(env, old(Abs()), j, k)
    {
      PreemptKeepsAccounts(env, Abs(), j, k);
      if j in running {
        NeedsCounted(env, Abs(), j);
        hide Accounted, Preempt;
        PutAside(j, k);
      }
    }

    // A running job leaves the tables of running jobs; the time it started is returned.
    method TakeOff(j: JobId, k: Moment) returns (since: int)
      modifies `running, `started
      ensures since == old(Abs()).Since(j, k)
      ensures running == old(running) - {j} && started == old(started) - {j}
    {
      running := running - {j};
      since := if j in started then started[j] else k.now;
      started := started - {j};
    }

    // What is done to a running job that is preempted.
    method PutAside(j: JobId, k: Moment)
      requires j in running && env.Class(j).needs.Keys <= used.Keys
      modifies this
      ensures Abs() == Preempt(env, old(Abs()), j, k)
    {
      hide Freed, Scenario.Class, Scenario.ClassId, Sched.Since, Moment.Left;
      var since := TakeOff(j, k);
      var left := k.Left(j);
      spans := spans + [Stopped(j, since, k.now, left)];
      remaining := remaining[j := left];
      ReleaseResources(j);
      preempted := preempted + {j};
      PutBack(j);
      log := log + [Preempted(j)];
    }

    // A preempted FIFO job goes back to the head of its queue.
    method PutBack(j: JobId)
      modifies `fifo
      ensures var c := env.ClassId(j);
              fifo == if env.Class(j).policy == Fifo && c in old(fifo) then old(fifo)[c := [j] + old(fifo)[c]]
                      else old(fifo)
    {
      var c := env.ClassId(j);
      if env.Class(j).policy == Fifo && c in fifo {
        fifo := fifo[c := [j] + fifo[c]];
      }
    }

    // The running jobs as a list, worst first.
    method WorstFirst() returns (order: seq<JobId>)
      requires env.Wf()
      ensures Elements(order) == running.Keys
      ensures forall i, m :: 0 <= i < m < |order| ==> order[i] != order[m]
      ensures Sorted((a, b) => env.before(b, a), order)
    {
      var worse := (a: JobId, b: JobId) => env.before(b, a);
      assert StrictTotal(worse);
      TotalIsWeak(worse);
      order := Listed(running.Keys);
      MembersOfSort(worse, order);
      SortBySorts(worse, order);
      DistinctAfterSort(worse, order);
      order := SortBy(worse, order);
    }

    // Goes down the running jobs, worst first, as they were when it began.
    method PreemptFor(j: JobId, k: Moment) returns (any: bool)
      requires Valid()
      modifies this
      ensures Valid() && Abs() == Scheduling.PreemptFor(env, old(Abs()), j, k)
      ensures !any ==> Abs() == old(Abs())
    {
      var order := WorstFirst();
      any := false;
      ghost var goal := Scheduling.PreemptFor(env, Abs(), j, k);
      assert order[0..] == order;
      var i := 0;
      while i < |order|
        invariant i <= |order| && Valid()
        invariant !any ==> Abs() == old(Abs())
        invariant Descends(env, Abs(), j, k, order, i, goal)
      {
        var fits := Fits(j);
        if fits {
          break;
        }
        var victim := order[i];
        OneDown(env, Abs(), j, k, order, i, goal);
        if env.before(j, victim) {
          PreemptJob(victim, k);
          any := true;
        }
        i := i + 1;
      }
    }

    method QueueHeads() returns (heads: seq<JobId>)
      ensures Elements(heads) == Heads(fifo)
    {
      heads := [];
      var rest := fifo.Keys;
      while rest != {}
        invariant rest <= fifo.Keys
        invariant Elements(heads) == Heads(fifo - rest)
        decreases rest
      {
        var c :| c in rest;
        HeadsGrow(fifo, rest, c);
        if fifo[c] != [] {
          ElementsOfAppend(heads, fifo[c][0]);
          heads := heads + [fifo[c][0]];
        }
        rest := rest - {c};
      }
      assert fifo - {} == fifo;
    }

    method PendingMail() returns (pending: seq<JobId>)
      ensures Elements(pending) == mailbox.Values
    {
      pending := [];
      var rest := mailbox.Keys;
      while rest != {}
        invariant rest <= mailbox.Keys
        invariant Elements(pending) == (mailbox - rest).Values
        decreases rest
      {
        var m :| m in rest;
        ValuesGrow(mailbox, rest, m);
        ElementsOfAppend(pending, mailbox[m]);
        pending := pending + [mailbox[m]];
        rest := rest - {m};
      }
      assert mailbox - {} == mailbox;
    }

    // Preempted jobs, then the head of each FIFO, then what each mailbox holds;
    // a preempted job at the head of its queue is listed twice.
    method CollectCandidates() returns (cands: seq<JobId>)
      ensures Elements(cands) == Candidates(Abs())
    {
      cands := Listed(preempted - running.Keys);
      var heads := QueueHeads();
      var pending := PendingMail();
      cands := cands + heads + pending;
    }

    // The candidates in policy order, duplicates and all.
    method Ranked(cands: seq<JobId>) returns (order: seq<JobId>)
      requires env.Wf()
      ensures Elements(order) == Elements(cands) && Sorted(env.before, order)
    {
      TotalIsWeak(env.before);
      MembersOfSort(env.before, cands);
      SortBySorts(env.before, cands);
      order := SortBy(env.before, cands);
    }

    method TryCandidate(j: JobId, k: Moment)
      requires Valid() && j !in running
      modifies this
      ensures Valid() && Abs() == Attempt(env, old(Abs()), j, k)
    {
      var ok := TryStart(j, k);
      if !ok && env.preemption {
        PreemptForKeeps(env, Abs(), j, k);
        var any := PreemptFor(j, k);
        if any {
          ok := TryStart(j, k);
        }
      }
    }

    method DispatchPass(k: Moment)
      requires Valid()
      modifies this
      ensures Valid() && Abs() == Dispatch(env, old(Abs()), k)
    {
      var cands := CollectCandidates();
      if cands == [] {
        assert Elements(cands) == {};
        return;
      }
      var order := Ranked(cands);
      ghost var goal := Dispatch(env, Abs(), k);
      ghost var rest := Elements(order);
      assert order[0..] == order;
      var seen: set<JobId> := {};
      var i := 0;
      while i < |order|
        invariant i <= |order| && Valid()
        invariant Passing(env, Abs(), order, i, rest, seen, k, goal)
      {
        var j := order[i];
        CandidateDone(env, Abs(), order, i, rest, seen, k, goal);
        if j !in seen && j !in running {
          seen := seen + {j};
          TryCandidate(j, k);
        }
        rest := rest - {j};
        i := i + 1;
      }
    }

    method PostToMailbox(stream: string, j: JobId, k: Moment)
      requires Valid()
      modifies this
      ensures Valid() && Abs() == Post(env, old(Abs()), stream, j, k)
    {
      PostKeepsAccounts(env, Abs(), stream, j, k);
      if stream in mailbox {
        PutKeepsAccounts(env, Abs(), stream, j);
      }
      hide Accounted, Preempt;
      if stream !in mailbox {
        mailbox := mailbox[stream := j];
      } else {
        var prior := mailbox[stream];
        mailbox := mailbox[stream := j];
        log := log + [Replaced(prior)];
        if prior in running {
          PreemptJob(prior, k);
        } else if prior in preempted {
          preempted := preempted - {prior};
          remaining := remaining - {prior};
          spans := spans + [GivenUp(prior)];
        }
      }
    }

    // `admitted` is the admission controller's answer.
    method OnArrival(j: JobId, admitted: bool, k: Moment)
      requires Valid()
      modifies this
      ensures Valid() && Abs() == Arrive(env, old(Abs()), j, admitted, k)
    {
      ArriveKeepsAccounts(env, Abs(), j, admitted, k);
      var cls := env.Class(j);
      if !cls.admissionExcluded && !admitted {
        log := log + [Rejected(j)];
        return;
      }
      match cls.policy
      case Fifo =>
        var c := env.ClassId(j);
        var q := if c in fifo then fifo[c] else [];
        if |q| >= cls.capacity {
          log := log + [Dropped(j)];
        } else {
          fifo := fifo[c := q + [j]];
          log := log + [Queued(j)];
        }
      case MailboxLatest(stream) =>
        PostToMailbox(stream, j, k);
    }

    method OnComplete(j: JobId, k: Moment)
      requires Valid()
      modifies this
      ensures Valid() && Abs() == Complete(env, old(Abs()), j, k)
    {
      if j !in running {
        return;
      }
      CompleteKeepsAccounts(env, Abs(), j, k);
      NeedsCounted(env, Abs(), j);
      hide Accounted, Complete;
      Finish(j, k);
    }

    // What is done when a running job completes.
    method Finish(j: JobId, k: Moment)
      requires j in running && env.Class(j).needs.Keys <= used.Keys
      modifies this
      ensures Abs() == Complete(env, old(Abs()), j, k)
    {
      hide Freed, Scenario.Class;
      var since := TakeOff(j, k);
      spans := spans + [Finished(j, since, k.now)];
      log := log + [Completed(j)];
      ReleaseResources(j);
    }

    // From the head to the tail.
    method DrainQueue(c: ClassId)
      requires Valid() && c in fifo
      modifies `fifo, `log
      ensures Valid() && Abs() == Emptied(old(Abs()), c)
    {
      hide Accounted;
      ghost var before := Abs();
      while fifo[c] != []
        invariant c in fifo && fifo == before.fifo[c := fifo[c]]
        invariant log + Drops(fifo[c]) == before.log + Drops(before.fifo[c])
        decreases |fifo[c]|
      {
        var j := fifo[c][0];
        assert log + Drops(fifo[c]) == log + [Dropped(j)] + Drops(fifo[c][1..]);
        fifo := fifo[c := fifo[c][1..]];
        log := log + [Dropped(j)];
      }
      assert log == before.log + Drops(before.fifo[c]);
      EmptiedKeepsAccounts(env, before, c);
    }

    // Queue after queue; `order` is the order taken.
    method Drain() returns (order: seq<ClassId>)
      requires Valid()
      modifies `fifo, `log
      ensures Lists(order, old(fifo).Keys)
      ensures Valid() && Abs() == Drained(old(Abs()), order)
    {
      hide Accounted, Emptied;
      order := Listed(fifo.Keys);
      assert order[0..] == order;
      for i := 0 to |order|
        invariant Valid() && fifo.Keys == old(fifo).Keys
        invariant Drained(Abs(), order[i..]) == Drained(old(Abs()), order)
      {
        assert order[i..][0] == order[i] && order[i..][1..] == order[i + 1..];
        EmptiedKeys(Abs(), order[i]);
        DrainQueue(order[i]);
      }
      assert order[|order|..] == [];
    }

    // The run: events as the kernel delivers them, then the drain.
    method Execute(events: seq<Event>) returns (order: seq<ClassId>)
      requires Valid() && Abs() == Initial(env)
      modifies this
      ensures Valid() && Lists(order, Run(env, events).fifo.Keys)
      ensures Abs() == Drained(Run(env, events), order)
    {
      hide Dispatch, Arrive, Complete, Accounted, Initial, Drained, Lists;
      var i := 0;
      while i < |events|
        invariant i <= |events| && Valid() && Abs() == Run(env, events[..i])
      {
        assert events[..i + 1][..i] == events[..i];
        match events[i] {
          case Arrival(j, admitted, k) =>
            OnArrival(j, admitted, k);
            DispatchPass(k);
          case Timer(j, k) =>
            OnComplete(j, k);
          case DispatchTick(k) =>
            DispatchPass(k);
        }
        i := i + 1;
      }
      assert events[..|events|] == events;
      order := Drain();
    }
  }

  lemma NeedsCounted(env: Scenario, s: Sched, j: JobId)
    requires Accounted(env, s) && j in s.running
    ensures env.Class(j).needs.Keys <= s.used.Keys
  {}

  lemma PutKeepsAccounts(env: Scenario, s: Sched, stream: string, j: JobId)
    requires Accounted(env, s) && stream in s.mailbox
    ensures Accounted(env, s.(mailbox := s.mailbox[stream := j], log := s.log + [Replaced(s.mailbox[stream])]))
  {}

  lemma EmptiedKeys(s: Sched, c: ClassId)
    requires c in s.fifo
    ensures Emptied(s, c).fifo.Keys == s.fifo.Keys
  {}

  lemma HeadsGrow(fifo: map<ClassId, seq<JobId>>, rest: set<ClassId>, c: ClassId)
    requires c in rest && rest <= fifo.Keys
    ensures Heads(fifo - (rest - {c})) == Heads(fifo - rest) + if fifo[c] == [] then {} else {fifo[c][0]}
  {
    var less, more := fifo - rest, fifo - (rest - {c});
    assert forall d :: d in more <==> d in less || d == c;
    forall x | x in Heads(less) ensures x in Heads(more) {
      var d :| d in less && less[d] != [] && less[d][0] == x;
      assert d in more && more[d] == less[d];
    }
    assert c in more && more[c] == fifo[c];
  }

  lemma ValuesGrow(m: map<string, JobId>, rest: set<string>, c: string)
    requires c in rest && rest <= m.Keys
    ensures (m - (rest - {c})).Values == (m - rest).Values + {m[c]}
  {
    var less, more := m - rest, m - (rest - {c});
    assert c in more && more[c] == m[c];
    forall x | x in more.Values ensures x in less.Values + {m[c]} {
      var d :| d in more && more[d] == x;
      assert d == c || (d in less && less[d] == x);
    }
    forall x | x in less.Values ensures x in more.Values {
      var d :| d in less && less[d] == x;
      assert d in more && more[d] == x;
    }
  }

  // `rest` is what the specification has still to try: what is left of the list
  // except repetitions of jobs already tried or found running.
  ghost predicate Remaining(order: seq<JobId>, i: nat, rest: set<JobId>, seen: set<JobId>, running: set<JobId>)
    requires i <= |order|
  {
    && rest <= Elements(order[i..])
    && (forall x :: x in order[i..] && x !in rest ==> i > 0 && x == order[i - 1] && (x in seen || x in running))
    && rest !! seen
    && seen <= Elements(order[..i])
  }

  lemma StillRemaining(env: Scenario, order: seq<JobId>, i: nat, rest: set<JobId>, seen: set<JobId>,
                       running: set<JobId>,
                       seen': set<JobId>, running': set<JobId>)
    requires env.Wf() && i < |order| && Sorted(env.before, order) && Remaining(order, i, rest, seen, running)
    requires if order[i] in seen || order[i] in running then seen' == seen && running' == running
             else seen' == seen + {order[i]}
    ensures Remaining(order, i + 1, rest - {order[i]}, seen', running')
  {
    var j := order[i];
    ElementsOfSuffix(order, i);
    assert order[..i + 1] == order[..i] + [j];
    assert rest - {j} <= Elements(order[i + 1..]);
    forall x | x in order[i + 1..] && x !in rest - {j} ensures x == j {
      var m :| 0 <= m < |order| - i - 1 && order[i + 1..][m] == x;
      assert order[i + 1 + m] == x;
      assert x in order[i..];
      if i > 0 {
        assert !env.before(j, order[i - 1]) && !env.before(x, j);
      }
    }
  }

  ghost predicate Passing(env: Scenario, s: Sched, order: seq<JobId>, i: nat, rest: set<JobId>, seen: set<JobId>,
                          k: Moment, goal: Sched)
    requires env.Wf() && i <= |order|
  {
    Pass(env, s, rest, k) == goal && Remaining(order, i, rest, seen, s.running.Keys)
  }

  lemma CandidateDone(env: Scenario, s: Sched, order: seq<JobId>, i: nat, rest: set<JobId>, seen: set<JobId>,
                      k: Moment, goal: Sched)
    requires env.Wf() && i < |order| && Sorted(env.before, order)
    requires Passing(env, s, order, i, rest, seen, k, goal)
    ensures var j := order[i];
            if j in seen || j in s.running then Passing(env, s, order, i + 1, rest - {j}, seen, k, goal)
            else Passing(env, Attempt(env, s, j, k), order, i + 1, rest - {j}, seen + {j}, k, goal)
  {
    var j := order[i];
    var skip := j in seen || j in s.running;
    var t := Attempt(env, s, j, k);
    SortedLeast(env.before, order, i);
    ElementsOfSuffix(order, i);
    assert Pass(env, if skip then s else t, rest - {j}, k) == goal by {
      if j in rest {
        assert Least(env.before, rest) == j;
      } else {
        assert j in order[i..] && rest - {j} == rest;
      }
    }
    StillRemaining(env, order, i, rest, seen, s.running.Keys,
                   if skip then seen else seen + {j}, if skip then s.running.Keys else t.running.Keys);
  }

  // Either the rest of the list is what runs, or nobody left is worth preempting.
  ghost predicate Descends(env: Scenario, s: Sched, j: JobId, k: Moment, order: seq<JobId>, i: nat, goal: Sched)
    requires env.Wf() && i <= |order|
  {
    && PreemptFor(env, s, j, k) == goal
    && (s.running.Keys == Elements(order[i..]) || (s == goal && forall x :: x in order[i..] ==> !env.before(j, x)))
  }

  lemma OneDown(env: Scenario, s: Sched, j: JobId, k: Moment, order: seq<JobId>, i: nat, goal: Sched)
    requires env.Wf() && i < |order| && Descends(env, s, j, k, order, i, goal) && !CanAllocate(env, s, j)
    requires Sorted((a, b) => env.before(b, a), order)
    requires forall a, b :: 0 <= a < b < |order| ==> order[a] != order[b]
    ensures Descends(env, if env.before(j, order[i]) then Preempt(env, s, order[i], k) else s, j, k, order, i + 1, goal)
  {
    var worse := (a: JobId, b: JobId) => env.before(b, a);
    assert StrictTotal(worse);
    SortedLeast(worse, order, i);
    ElementsOfSuffix(order, i);
    assert order[i..] == [order[i]] + order[i + 1..];
    if s.running.Keys == Elements(order[i..]) {
      assert IsGreatest(env.before, order[i], s.running.Keys);
      assert Greatest(env.before, s.running.Keys) == order[i];
      if env.before(j, order[i]) {
        assert Preempt(env, s, order[i], k).running.Keys == s.running.Keys - {order[i]};
      }
    }
  }

  lemma DistinctAfterSort(less: (JobId, JobId) -> bool, s: seq<JobId>)
    requires forall i, m :: 0 <= i < m < |s| ==> s[i] != s[m]
    ensures var r := SortBy(less, s); forall i, m :: 0 <= i < m < |r| ==> r[i] != r[m]
  {
    var r := SortBy(less, s);
    forall i, m | 0 <= i < m < |r| ensures r[i] != r[m] {
      DistinctCounts(s, r[i]);
      OncePerCount(r, i, m);
    }
  }

  lemma OncePerCount(r: seq<JobId>, i: nat, m: nat)
    requires i < m < |r| && multiset(r)[r[i]] <= 1
    ensures r[i] != r[m]
  {
    var front, back := r[..m], r[m..];
    assert r == front + back;
    assert multiset(r)[r[i]] == multiset(front)[r[i]] + multiset(back)[r[i]];
    assert front[i] == r[i] && back[0] == r[m];
  }

  lemma {:induction false} DistinctCounts(s: seq<JobId>, x: JobId)
    requires forall i, m :: 0 <= i < m < |s| ==> s[i] != s[m]
    ensures multiset(s)[x] <= 1
  {
    if s != [] {
      var n := |s| - 1;
      assert s == s[..n] + [s[n]];
      DistinctCounts(s[..n], x);
      assert s[n] !in s[..n];
    }
  }
}
