// A run in which the latest arrival of a mailbox is lost: an older job of the same
// stream, preempted before, is resumed and takes the waiting one out of the mailbox.
// From then on that job is nowhere, and no record says what became of it.
module StaleResume {
  import opened Ordering
  import opened Scheduling
  import opened PolicyOrder
  import opened Mailboxes
  import opened TwoResources

  // "2" is the urgent job; "1" and "3" share the stream "m".
  function Policies(): map<ClassId, WorkloadClass> {
    map["hi" := WorkloadClass(1, Fifo, 8, map["a" := 1], true),
        "lo" := WorkloadClass(0, MailboxLatest("m"), 8, map["a" := 1], true)]
  }

  function Jobs(): map<JobId, Release> {
    map["1" := Release("lo", 0, 9, 9), "2" := Release("hi", 1, 9, 10), "3" := Release("lo", 2, 9, 11)]
  }

  function Stream(): Scenario {
    Compile(Policies(), Jobs(), map["a" := 1], true)
  }

  function Story(): seq<Event> {
    [Arrival("1", true, K()), Arrival("2", true, K()), Arrival("3", true, K()), Timer("2", K()), DispatchTick(K())]
  }

  lemma Kinds()
    ensures "hi" != "lo"
    ensures Stream().ClassId("1") == "lo" == Stream().ClassId("3") && Stream().ClassId("2") == "hi"
    ensures Stream().Class("1") == WorkloadClass(0, MailboxLatest("m"), 8, map["a" := 1], true) == Stream().Class("3")
    ensures Stream().Class("2") == WorkloadClass(1, Fifo, 8, map["a" := 1], true)
    ensures Stream().capacity == map["a" := 1]
  {
    assert "hi"[0] != "lo"[0];
  }

  lemma Order()
    ensures Stream().Wf()
    ensures Stream().before("2", "1") && Stream().before("1", "3") && Stream().before("2", "3")
  {
    CompiledIsWf(Policies(), Jobs(), map["a" := 1], true);
  }

  // The states as far as the next event depends on them; nothing was ever told of "3".
  ghost predicate Is(s: Sched, a: int, running: set<JobId>, preempted: set<JobId>, hi: seq<JobId>,
                     mailbox: map<string, JobId>)
  {
    && s.used.Keys == {"a"} && s.used["a"] == a
    && s.running.Keys == running && s.preempted == preempted
    && s.fifo.Keys == {"hi"} && s.fifo["hi"] == hi && s.mailbox == mailbox
    && forall i :: 0 <= i < |s.log| ==> s.log[i].job != "3"
  }

  lemma AtFirst()
    ensures Is(Initial(Stream()), 0, {}, {}, [], map[])
  {
    Kinds();
  }

  // "1" runs at once.
  lemma OneRuns(s: Sched)
    requires Is(s, 0, {}, {}, [], map[])
    ensures Stream().Wf() && Is(Handle(Stream(), s, Story()[0]), 1, {"1"}, {}, [], map[])
  {
    Order();
    Kinds();
    var t := Arrive(Stream(), s, "1", true, K());
    assert Is(t, 0, {}, {}, [], map["m" := "1"]);
    assert Candidates(t) == {"1"} by {
      assert t.mailbox["m"] == "1";
    }
    PassOverOne(Stream(), t, "1", K());
    assert Start(Stream(), t, "1", K()).mailbox == map[];
  }

  // "2" takes its place.
  lemma TwoPreempts(s: Sched)
    requires Is(s, 1, {"1"}, {}, [], map[])
    ensures Stream().Wf() && Is(Handle(Stream(), s, Story()[1]), 1, {"2"}, {"1"}, [], map[])
  {
    Order();
    Kinds();
    var t := Arrive(Stream(), s, "2", true, K());
    assert Is(t, 1, {"1"}, {}, ["2"], map[]);
    assert Candidates(t) == {"2"} by {
      assert t.fifo["hi"][0] == "2";
    }
    PassOverOne(Stream(), t, "2", K());
    TwoTakesOver(t);
  }

  lemma TwoTakesOver(t: Sched)
    requires Is(t, 1, {"1"}, {}, ["2"], map[])
    ensures Stream().Wf() && Is(Attempt(Stream(), t, "2", K()), 1, {"2"}, {"1"}, [], map[])
  {
    Order();
    Kinds();
    assert !CanAllocate(Stream(), t, "2");
    assert Greatest(Stream().before, t.running.Keys) == "1";
    var u := Preempt(Stream(), t, "1", K());
    assert Is(u, 0, {}, {"1"}, ["2"], map[]);
    assert PreemptFor(Stream(), u, "2", K()) == u;
    assert PreemptFor(Stream(), t, "2", K()) == u;
    assert Start(Stream(), u, "2", K()).running.Keys == {"2"};
  }

  // A job that needs the unit "2" has changes nothing.
  lemma InVain(t: Sched, j: JobId)
    requires j == "1" || j == "3"
    requires t.used.Keys == {"a"} && t.used["a"] == 1 && t.running.Keys == {"2"}
    ensures Stream().Wf() && Attempt(Stream(), t, j, K()) == t
  {
    Order();
    Kinds();
    assert !CanAllocate(Stream(), t, j);
    assert Greatest(Stream().before, t.running.Keys) == "2";
    assert PreemptFor(Stream(), t, j, K()) == t;
  }

  // "3" waits in the mailbox, and "1" among the preempted.
  lemma ThreeWaits(s: Sched)
    requires Is(s, 1, {"2"}, {"1"}, [], map[])
    ensures Stream().Wf() && Is(Handle(Stream(), s, Story()[2]), 1, {"2"}, {"1"}, [], map["m" := "3"])
  {
    Order();
    Kinds();
    var t := Arrive(Stream(), s, "3", true, K());
    assert Is(t, 1, {"2"}, {"1"}, [], map["m" := "3"]);
    assert Candidates(t) == {"1", "3"} by {
      assert t.mailbox["m"] == "3";
    }
    PassOverTwo(Stream(), t, "1", "3", K());
    InVain(t, "1");
    InVain(t, "3");
  }

  lemma TwoEnds(s: Sched)
    requires Is(s, 1, {"2"}, {"1"}, [], map["m" := "3"])
    ensures Stream().Wf() && Is(Handle(Stream(), s, Story()[3]), 0, {}, {"1"}, [], map["m" := "3"])
  {
    Order();
    Kinds();
    assert Complete(Stream(), s, "2", K()).running.Keys == {};
  }

  // "1" is resumed and takes "3" out; "3" finds no room.
  lemma OneResumes(s: Sched)
    requires Is(s, 0, {}, {"1"}, [], map["m" := "3"])
    ensures Stream().Wf() && Is(Handle(Stream(), s, Story()[4]), 1, {"1"}, {}, [], map[])
  {
    hide PreemptFor;
    Order();
    Kinds();
    assert Candidates(s) == {"1", "3"} by {
      assert s.mailbox["m"] == "3";
    }
    PassOverTwo(Stream(), s, "1", "3", K());
    assert CanAllocate(Stream(), s, "1");
    var u := Start(Stream(), s, "1", K());
    assert Is(u, 1, {"1"}, {}, [], map[]);
    ThreeFindsNoRoom(u);
  }

  lemma ThreeFindsNoRoom(u: Sched)
    requires Is(u, 1, {"1"}, {}, [], map[])
    ensures Stream().Wf() && Attempt(Stream(), u, "3", K()) == u
  {
    Order();
    Kinds();
    assert !CanAllocate(Stream(), u, "3");
    assert Greatest(Stream().before, u.running.Keys) == "1";
    assert PreemptFor(Stream(), u, "3", K()) == u;
  }

  lemma AfterThree()
    ensures Stream().Wf() && Is(Run(Stream(), Story()[..3]), 1, {"2"}, {"1"}, [], map["m" := "3"])
  {
    Order();
    AtFirst();
    assert Story()[..0] == [];
    RunSplits(Stream(), Story(), 0);
    OneRuns(Run(Stream(), []));
    RunSplits(Stream(), Story(), 1);
    TwoPreempts(Run(Stream(), Story()[..1]));
    RunSplits(Stream(), Story(), 2);
    ThreeWaits(Run(Stream(), Story()[..2]));
  }

  lemma AfterFive()
    ensures Stream().Wf() && Is(Run(Stream(), Story()), 1, {"1"}, {}, [], map[])
  {
    hide Run, Handle, Is, Stream;
    AfterThree();
    RunSplits(Stream(), Story(), 3);
    TwoEnds(Run(Stream(), Story()[..3]));
    RunSplits(Stream(), Story(), 4);
    OneResumes(Run(Stream(), Story()[..4]));
    assert Story()[..5] == Story();
  }

  // The job was accepted, and after five events it is neither waiting nor preempted
  // nor running, may never be dispatched again, and no record mentions it.
  lemma LatestIsLost()
    ensures Stream().Wf() && PostsTo(Stream(), Story()[2], "m") && Story()[2].job == "3"
    ensures var s := Run(Stream(), Story());
            && Lost(s, "3", "m") && "1" in s.running && s.mailbox == map[] && s.Queue("hi") == []
            && (forall i :: 0 <= i < |s.log| ==> s.log[i].job != "3")
  {
    hide Run;
    Kinds();
    AfterFive();
    assert "1" in Run(Stream(), Story()).running.Keys;
  }
}
