/** A run of the failover machine that runs a turn again beside its own process. */
module FailoverOverlap {
  import opened FailoverPlan
  import opened AccountFailover
  import opened FailoverMachine

  ghost predicate Reaches(s: State, n: State) { exists acts :: IsRun(s, acts) && Run(s, acts) == n }

  lemma StepsTo(s: State, act: Action, n: State)
    requires Enabled(s, act) && Reaches(Next(s, act), n)
    ensures Reaches(s, n)
  {
    hide Next, Enabled;
    var rest :| IsRun(Next(s, act), rest) && Run(Next(s, act), rest) == n;
    assert ([act] + rest)[1..] == rest;
    assert IsRun(s, [act] + rest) && Run(s, [act] + rest) == n;
  }

  lemma StaysAt(s: State)
    ensures Reaches(s, s)
  {
    assert IsRun(s, []) && Run(s, []) == s;
  }

  const NOTHING := Coord(map[], false, [], 0.0, 0.0, {}, 0, {}, 0.0, {}, Flags({}, {}, {}, {}, {}), Calls(multiset{}, multiset{}))

  const START := State(NOTHING, 0.0, {}, {}, {}, {}, {}, map[])

  // The coordinator while it recovers one attempt whose process is running.
  function Recovering(a: Attempt, checking: int): Coord {
    Coord(map[a.agent := a], true, ["selector"], 0.0, 0.0, {}, checking, {}, 0.0, {},
          NOTHING.flags.(waiting := {a}, started := {a}, spawned := {a}, handled := {a}),
          Calls(multiset{a}, multiset{}))
  }

  function With(a: Attempt, c: Coord, now: real, threads: map<nat, Pc>): State {
    State(c, now, {a}, {a}, {}, {}, {}, threads)
  }

  // Before its quota failure is reported.
  function Working(a: Attempt): Coord {
    Recovering(a, 0).(recovering := false, command := [], flags := Recovering(a, 0).flags.(waiting := {}),
                      calls := Calls(multiset{}, multiset{}))
  }

  // The attempt registers, and its process starts ...
  lemma ItsProcessRuns(a: Attempt, n: State)
    requires Reaches(With(a, Working(a), 0.0, map[]), n)
    ensures Reaches(START, n)
  {
    hide Reaches;
    var s1 := Next(START, Register(a, true));
    var s2 := Next(s1, SpawnBegins(a));
    assert s2.c.flags.started == {a} && s2.launching == {a};
    var s3 := Next(s2, SpawnEnds(a, true));
    assert s3.c == Working(a) && s3.owned == {a} && s3.known == {a} && s3.launching == {};
    StepsTo(s2, SpawnEnds(a, true), n);
    StepsTo(s1, SpawnBegins(a), n);
    StepsTo(START, Register(a, true), n);
  }

  // ... and its quota failure is reported.
  lemma ItIsReported(a: Attempt, n: State)
    requires Reaches(With(a, Recovering(a, 0), 0.0, map[0 := Announced]), n)
    ensures Reaches(With(a, Working(a), 0.0, map[]), n)
  {
    hide Reaches;
    var s := With(a, Working(a), 0.0, map[]);
    assert Working(a).Held({a}) == {a} by {
      assert Working(a).attempts[a.agent] == a;
    }
    assert multiset{} + multiset({a}) == multiset{a};
    assert Working(a).Requested({a}, 0.0, a.agent, a.trace, ["selector"]) == Recovering(a, 0);
    StepsTo(s, Request(a.agent, a.trace, ["selector"], 0), n);
  }

  lemma HeldAlone(a: Attempt, checking: int)
    ensures Recovering(a, checking).Purged({a}) == Recovering(a, checking)
    ensures Recovering(a, checking).Held({a}) == {a}
  {
    assert Recovering(a, checking).attempts[a.agent] == a;
    assert OwnedOnly(map[a.agent := a], {a}) == map[a.agent := a];
  }

  lemma OneIsPending(a: Attempt, c: Coord)
    requires c == Recovering(a, 1)
    ensures c.Decided({a}, NotChecked, 0.0) == Kill
    ensures c.Decided({a}, Failed, MAX_PARK_SECONDS) == Release(ParkExpired)
  {
    var items := set b | b in {a} :: PendingWork(b.model, b in c.flags.stopped);
    var item := PendingWork(a.model, false);
    assert item in items && !item.stopped;
    assert Plan(0.0, 0.0, {}).Decide(items, NotChecked, 0.0, SETTINGS) == Kill;
    assert c.Decided({a}, NotChecked, 0.0) == Plan(0.0, 0.0, {}).Decide(items, NotChecked, 0.0, SETTINGS);
  }

  lemma OneThread(before: Pc, after: Pc)
    ensures map[0 := before][0 := after] == map[0 := after]
  {
  }

  // The first pass starts ...
  lemma PassStarts(a: Attempt, n: State)
    requires Reaches(With(a, Recovering(a, 1), 0.0, map[0 := Entered]), n)
    ensures Reaches(With(a, Recovering(a, 0), 0.0, map[0 := Announced]), n)
  {
    hide Reaches;
    var s0 := With(a, Recovering(a, 0), 0.0, map[0 := Announced]);
    var s1 := With(a, Recovering(a, 0), 0.0, map[0 := Timer(0.0)]);
    OneThread(Announced, Timer(0.0));
    OneThread(Timer(0.0), Entered);
    assert Next(s0, Announce(0)) == s1;
    assert Next(s1, Fire(0)) == With(a, Recovering(a, 1), 0.0, map[0 := Entered]);
    StepsTo(s1, Fire(0), n);
    StepsTo(s0, Announce(0), n);
  }

  // ... comes upon the attempt ...
  lemma ItIsListed(a: Attempt, n: State)
    requires Reaches(With(a, Recovering(a, 1), 0.0, map[0 := Listed({a})]), n)
    ensures Reaches(With(a, Recovering(a, 1), 0.0, map[0 := Entered]), n)
  {
    HeldAlone(a, 1);
    OneThread(Entered, Listed({a}));
    hide Reaches, HeldWork, OwnedOnly, Recovering;
    StepsTo(With(a, Recovering(a, 1), 0.0, map[0 := Entered]), FirstLook(0), n);
  }

  lemma ItIsToBeStopped(a: Attempt, n: State)
    requires Reaches(With(a, Recovering(a, 1), 0.0, map[0 := Stopping({a})]), n)
    ensures Reaches(With(a, Recovering(a, 1), 0.0, map[0 := Listed({a})]), n)
  {
    OneIsPending(a, Recovering(a, 1));
    OneThread(Listed({a}), Stopping({a}));
    hide Reaches, Recovering, Coord.Decided;
    StepsTo(With(a, Recovering(a, 1), 0.0, map[0 := Listed({a})]), DecideFirst(0), n);
  }

  // ... and half an hour later has still not stopped it.
  lemma ItsProcessStays(a: Attempt, n: State)
    requires Reaches(With(a, Recovering(a, 1), MAX_PARK_SECONDS, map[0 := Answered(Failed)]), n)
    ensures Reaches(With(a, Recovering(a, 0), 0.0, map[0 := Announced]), n)
  {
    var s0 := With(a, Recovering(a, 1), 0.0, map[0 := Stopping({a})]);
    var s1 := With(a, Recovering(a, 1), MAX_PARK_SECONDS, map[0 := Stopping({a})]);
    hide Reaches;
    assert Next(s0, Tick(MAX_PARK_SECONDS)) == s1;
    assert Next(s1, StopFails(0)) == With(a, Recovering(a, 1), MAX_PARK_SECONDS, map[0 := Answered(Failed)]);
    StepsTo(s1, StopFails(0), n);
    StepsTo(s0, Tick(MAX_PARK_SECONDS), n);
    ItIsToBeStopped(a, n);
    ItIsListed(a, n);
    PassStarts(a, n);
  }

  /** The end of that run: the pass settles on its failure, lets the work go, and the
      drain runs it again while its process has not stopped. */
  lemma AFailedStopDrains(a: Attempt) returns (s0: State, acts: seq<Action>)
    ensures Init(s0) && IsRun(s0, acts)
    ensures var s := Run(s0, acts);
            && Enabled(s, Settle(0)) && s.threads[0].verdict == Failed
            && var n := Settling(s, 0);
               && 0 in n.threads && n.threads[0].Draining? && a in n.threads[0].left && Enabled(n, DrainOne(0, a))
               && a in n.c.flags.handled && !Quiet(n.c.flags, n.launching, a)
               && DrainingOne(n, 0, a).c.calls.resumes[a] == 1
  {
    var s := With(a, Recovering(a, 1), MAX_PARK_SECONDS, map[0 := Answered(Failed)]);
    ItDrains(a, s);
    assert Init(START);
    hide Init, IsRun, Run, Next, Quiet, Settling, DrainingOne, Enabled;
    StaysAt(s);
    ItsProcessStays(a, s);
    ItIsReported(a, s);
    ItsProcessRuns(a, s);
    s0 := START;
    acts :| IsRun(s0, acts) && Run(s0, acts) == s;
  }

  lemma ItDrains(a: Attempt, s: State)
    requires s == With(a, Recovering(a, 1), MAX_PARK_SECONDS, map[0 := Answered(Failed)])
    ensures Enabled(s, Settle(0)) && s.threads[0].verdict == Failed
    ensures var n := Settling(s, 0);
            && 0 in n.threads && n.threads[0].Draining? && a in n.threads[0].left && Enabled(n, DrainOne(0, a))
            && a in n.c.flags.handled && !Quiet(n.c.flags, n.launching, a)
            && DrainingOne(n, 0, a).c.calls.resumes[a] == 1
  {
    HeldAlone(a, 1);
    OneIsPending(a, s.c);
    assert multiset{}[a := 1] == multiset({a});
    hide Coord.Decided, Coord.Held, Coord.Purged;
  }
}
