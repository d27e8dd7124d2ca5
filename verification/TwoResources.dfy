// With two resources an accepted job can be waiting and running at once, even
// though every class takes one unit of one resource: preempting for a job that
// still does not fit leaves the victim ahead of a job that then starts.
module TwoResources {
  import opened Ordering
  import opened Scheduling
  import opened PolicyOrder
  import opened JobPlaces

  function Classes(): map<ClassId, WorkloadClass> {
    map["hi" := WorkloadClass(1, Fifo, 8, map["a" := 1], true),
        "lo" := WorkloadClass(0, Fifo, 8, map["b" := 1], true)]
  }

  function Releases(): map<JobId, Release> {
    map["1" := Release("hi", 0, 9, 9), "2" := Release("hi", 1, 9, 10),
        "3" := Release("lo", 0, 9, 9), "4" := Release("lo", 1, 9, 10)]
  }

  function Env(): Scenario {
    Compile(Classes(), Releases(), map["a" := 1, "b" := 1], true)
  }

  function K(): Moment { Moment(1, map[]) }

  function Events(): seq<Event> {
    [Arrival("1", true, K()), Arrival("3", true, K()), Arrival("4", true, K()), Arrival("2", true, K())]
  }

  lemma Names()
    ensures "hi" != "lo" && "a" != "b"
    ensures Env().ClassId("1") == "hi" == Env().ClassId("2") && Env().ClassId("3") == "lo" == Env().ClassId("4")
    ensures Env().Class("1").needs == map["a" := 1] == Env().Class("2").needs
    ensures Env().Class("3").needs == map["b" := 1] == Env().Class("4").needs
    ensures Env().capacity["a"] == 1 == Env().capacity["b"]
  {
    assert "hi"[0] != "lo"[0] && "a"[0] != "b"[0];
  }

  lemma Ranks()
    ensures Env().Wf()
    ensures Env().before("1", "2") && Env().before("2", "3") && Env().before("3", "4")
    ensures Env().before("1", "3") && Env().before("2", "4") && Env().before("1", "4")
  {
    CompiledIsWf(Classes(), Releases(), map["a" := 1, "b" := 1], true);
  }

  lemma PassOverOne(env: Scenario, s: Sched, a: JobId, k: Moment)
    requires env.Wf()
    ensures Pass(env, s, {a}, k) == Attempt(env, s, a, k)
  {
    assert Least(env.before, {a}) == a;
    assert {a} - {a} == {};
  }

  lemma PassOverTwo(env: Scenario, s: Sched, a: JobId, b: JobId, k: Moment)
    requires env.Wf() && env.before(a, b)
    ensures Pass(env, s, {a, b}, k) == Attempt(env, Attempt(env, s, a, k), b, k)
  {
    assert Least(env.before, {a, b}) == a;
    assert {a, b} - {a} == {b};
    PassOverOne(env, Attempt(env, s, a, k), b, k);
  }

  // The states after each arrival, as far as the next one depends on them.
  ghost predicate At(s: Sched, a: int, b: int, running: set<JobId>, preempted: set<JobId>, hi: seq<JobId>,
                     lo: seq<JobId>)
  {
    && s.used.Keys == {"a", "b"} && s.used["a"] == a && s.used["b"] == b
    && s.running.Keys == running && s.preempted == preempted
    && s.fifo.Keys == {"hi", "lo"} && s.fifo["hi"] == hi && s.fifo["lo"] == lo && s.mailbox == map[]
  }

  lemma Begin()
    ensures At(Initial(Env()), 0, 0, {}, {}, [], [])
  {
  }

  // A lone arrival that fits runs at once.
  lemma FirstArrival(s: Sched)
    requires At(s, 0, 0, {}, {}, [], [])
    ensures Env().Wf() && At(Handle(Env(), s, Events()[0]), 1, 0, {"1"}, {}, [], [])
  {
    Ranks();
    Names();
    var t := Arrive(Env(), s, "1", true, K());
    assert At(t, 0, 0, {}, {}, ["1"], []);
    assert Candidates(t) == {"1"} by {
      assert t.fifo["hi"][0] == "1";
    }
    PassOverOne(Env(), t, "1", K());
  }

  lemma SecondArrival(s: Sched)
    requires At(s, 1, 0, {"1"}, {}, [], [])
    ensures Env().Wf() && At(Handle(Env(), s, Events()[1]), 1, 1, {"1", "3"}, {}, [], [])
  {
    Ranks();
    Names();
    var t := Arrive(Env(), s, "3", true, K());
    assert At(t, 1, 0, {"1"}, {}, [], ["3"]);
    assert Candidates(t) == {"3"} by {
      assert t.fifo["lo"][0] == "3";
    }
    PassOverOne(Env(), t, "3", K());
  }

  // The third finds its resource taken by a better job and waits.
  lemma ThirdArrival(s: Sched)
    requires At(s, 1, 1, {"1", "3"}, {}, [], [])
    ensures Env().Wf() && At(Handle(Env(), s, Events()[2]), 1, 1, {"1", "3"}, {}, [], ["4"])
  {
    Ranks();
    Names();
    var t := Arrive(Env(), s, "4", true, K());
    assert At(t, 1, 1, {"1", "3"}, {}, [], ["4"]);
    assert Candidates(t) == {"4"} by {
      assert t.fifo["lo"][0] == "4";
    }
    PassOverOne(Env(), t, "4", K());
    assert !CanAllocate(Env(), t, "4");
    assert Greatest(Env().before, t.running.Keys) == "3";
    assert PreemptFor(Env(), t, "4", K()) == t;
  }

  // The fourth preempts "3" in vain, and the unit so freed goes to "4", which
  // is no longer the head of its queue.
  lemma UselessPreemption(t: Sched)
    requires At(t, 1, 1, {"1", "3"}, {}, ["2"], ["4"])
    ensures Env().Wf() && At(Attempt(Env(), t, "2", K()), 1, 0, {"1"}, {"3"}, ["2"], ["3", "4"])
  {
    Ranks();
    Names();
    assert !CanAllocate(Env(), t, "2");
    assert Greatest(Env().before, t.running.Keys) == "3";
    var u := Preempt(Env(), t, "3", K());
    assert u.running.Keys == {"1"};
    assert At(u, 1, 0, {"1"}, {"3"}, ["2"], ["3", "4"]);
    assert !CanAllocate(Env(), u, "2");
    assert Greatest(Env().before, u.running.Keys) == "1";
    assert PreemptFor(Env(), u, "2", K()) == u;
    assert PreemptFor(Env(), t, "2", K()) == u;
  }

  lemma FourthArrival(s: Sched)
    requires At(s, 1, 1, {"1", "3"}, {}, [], ["4"])
    ensures Env().Wf() && At(Handle(Env(), s, Events()[3]), 1, 1, {"1", "4"}, {"3"}, ["2"], ["3", "4"])
  {
    Ranks();
    Names();
    var t := Arrive(Env(), s, "2", true, K());
    assert At(t, 1, 1, {"1", "3"}, {}, ["2"], ["4"]);
    assert Candidates(t) == {"2", "4"} by {
      assert t.fifo["lo"][0] == "4" && t.fifo["hi"][0] == "2";
    }
    PassOverTwo(Env(), t, "2", "4", K());
    UselessPreemption(t);
    var u := Attempt(Env(), t, "2", K());
    assert CanAllocate(Env(), u, "4");
    assert Start(Env(), u, "4", K()).running.Keys == {"1", "4"};
  }

  lemma RunSplits(env: Scenario, e: seq<Event>, i: nat)
    requires env.Wf() && i < |e|
    ensures Run(env, e[..i + 1]) == Handle(env, Run(env, e[..i]), e[i])
  {
    assert e[..i + 1][..i] == e[..i];
  }

  lemma AfterTwo()
    ensures Env().Wf() && At(Run(Env(), Events()[..2]), 1, 1, {"1", "3"}, {}, [], [])
  {
    Ranks();
    Begin();
    assert Events()[..0] == [];
    RunSplits(Env(), Events(), 0);
    FirstArrival(Run(Env(), []));
    RunSplits(Env(), Events(), 1);
    SecondArrival(Run(Env(), Events()[..1]));
  }

  lemma AfterFour()
    ensures Env().Wf() && At(Run(Env(), Events()[..4]), 1, 1, {"1", "4"}, {"3"}, ["2"], ["3", "4"])
  {
    AfterTwo();
    RunSplits(Env(), Events(), 2);
    ThirdArrival(Run(Env(), Events()[..2]));
    RunSplits(Env(), Events(), 3);
    FourthArrival(Run(Env(), Events()[..3]));
  }

  lemma Admissible()
    ensures Env().Wf() && FifoOnly(Env()) && InOrder(Env(), Events())
  {
    Ranks();
    Names();
    var e := Events();
    assert e[0].job == "1" && e[1].job == "3" && e[2].job == "4" && e[3].job == "2";
  }

  lemma AJobWaitsWhileItRuns()
    ensures Env().Wf() && FifoOnly(Env()) && InOrder(Env(), Events())
    ensures var s := Run(Env(), Events());
            Waiting(Env(), s, "4") && "4" in s.running
  {
    Admissible();
    AfterFour();
    assert Events()[..4] == Events();
    var s := Run(Env(), Events()[..4]);
    Names();
    assert s.Queue("lo")[1] == "4";
  }
}
