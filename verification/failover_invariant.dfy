/** FailoverMachine's invariant is kept by every step. */
module FailoverInvariant {
  import opened FailoverPlan
  import opened AccountFailover
  import opened FailoverMachine

  // What the plan may answer, in terms of the attempts themselves.
  lemma DecidedNotChecked(c: Coord, pending: set<Attempt>, now: real)
    ensures c.Decided(pending, NotChecked, now).Release? <==> pending == {}
    ensures c.Decided(pending, NotChecked, now).Check? ==> pending <= c.flags.stopped && c.nextCheck <= now
    ensures c.Decided(pending, NotChecked, now).Park? ==>
              c.Decided(pending, NotChecked, now).delay == c.nextCheck - now
  {
    var items := set a | a in pending :: PendingWork(a.model, a in c.flags.stopped);
    if pending != {} {
      var a :| a in pending;
      assert PendingWork(a.model, a in c.flags.stopped) in items;
    }
    forall a | a in pending
      ensures PendingWork(a.model, a in c.flags.stopped) in items
    {
    }
  }

  lemma DecidedChecked(c: Coord, pending: set<Attempt>, verdict: Verdict, now: real)
    requires verdict != NotChecked
    ensures var d := c.Decided(pending, verdict, now);
            && (d == Release(NoOwnedWork) <==> pending == {})
            && (d.Resume? ==> verdict == Usable && forall a :: a in pending ==> a.model in c.checkedModels)
            && (d == Release(ParkExpired) ==> now - c.parkedSince >= MAX_PARK_SECONDS)
            && (d.Park? ==> d.delay == RECHECK_SECONDS && now - c.parkedSince < MAX_PARK_SECONDS)
            && (d.Resume? || d.Release? || d.Park?)
  {
    var items := set a | a in pending :: PendingWork(a.model, a in c.flags.stopped);
    forall a | a in pending
      ensures PendingWork(a.model, a in c.flags.stopped) in items
    {
    }
  }

  // --- what replacing one thread's position does to the counts ---------------

  lemma LiveMoves(threads: map<nat, Pc>, t: nat, pc: Pc)
    ensures LiveThreads(threads[t := pc]) == if Live(pc) then LiveThreads(threads) + {t} else LiveThreads(threads) - {t}
  {
  }

  lemma PassMoves(threads: map<nat, Pc>, t: nat, pc: Pc)
    ensures |Passes(threads[t := pc])| ==
            |Passes(threads)| + (if InPass(pc) then 1 else 0) - (if t in threads && InPass(threads[t]) then 1 else 0)
  {
    var before, after := Passes(threads), Passes(threads[t := pc]);
    assert after == if InPass(pc) then before + {t} else before - {t};
  }

  lemma DrainMoves(threads: map<nat, Pc>, t: nat, pc: Pc)
    requires t in threads ==> !threads[t].Draining?
    ensures Drained(threads[t := pc]) == Drained(threads) + (if pc.Draining? then pc.left else {})
  {
    forall a | a in Drained(threads)
      ensures a in Drained(threads[t := pc])
    {
      var u :| u in threads && threads[u].Draining? && a in threads[u].left;
      assert threads[t := pc][u] == threads[u];
    }
    if pc.Draining? {
      assert threads[t := pc][t] == pc;
    }
  }

  lemma ThreadMoves(threads: map<nat, Pc>, t: nat, pc: Pc)
    requires t in threads ==> !threads[t].Draining?
    ensures LiveThreads(threads[t := pc]) == if Live(pc) then LiveThreads(threads) + {t} else LiveThreads(threads) - {t}
    ensures |Passes(threads[t := pc])| ==
            |Passes(threads)| + (if InPass(pc) then 1 else 0) - (if t in threads && InPass(threads[t]) then 1 else 0)
    ensures Drained(threads[t := pc]) == Drained(threads) + (if pc.Draining? then pc.left else {})
  {
    LiveMoves(threads, t, pc);
    PassMoves(threads, t, pc);
    DrainMoves(threads, t, pc);
  }

  lemma CheckedRecovers(s: State, t: nat)
    requires Inv(s) && t in s.threads && Live(s.threads[t])
    ensures s.c.recovering && LiveThreads(s.threads) == {t}
  {
    assert t in LiveThreads(s.threads);
  }

  // A thread that moves without touching the coordinator, and stays as live,
  // as counted and as prompt as it was.
  lemma Moves(s: State, t: nat, pc: Pc)
    requires Inv(s) && t in s.threads && !s.threads[t].Draining? && !pc.Draining?
    requires Live(pc) == Live(s.threads[t]) && InPass(pc) == InPass(s.threads[t])
    requires Checked(pc) ==> Checked(s.threads[t])
    requires PromptPc(pc, s.c.parkedSince, s.now)
    ensures Inv(Go(s, t, pc))
  {
    ThreadMoves(s.threads, t, pc);
    assert t in LiveThreads(s.threads) <==> Live(pc);
  }

  lemma StepSpawn(s: State, a: Attempt, running: bool)
    requires Inv(s) && a in s.launching
    ensures Inv(SpawnEnding(s, a, running))
  {
    var n := SpawnEnding(s, a, running);
    assert n.c.Held(n.owned) == s.c.Held(s.owned);
    assert AskedQuiet(n);
  }

  lemma RegisterKnown(s: State, a: Attempt, owns: bool)
    requires Inv(s) && Enabled(s, Register(a, owns))
    ensures KnownOnly(Registering(s, a, owns))
  {
  }

  lemma RegisterPlaced(s: State, a: Attempt, owns: bool)
    requires Inv(s) && Enabled(s, Register(a, owns))
    ensures Placed(Registering(s, a, owns))
  {
  }

  lemma RegisterTaken(s: State, a: Attempt, owns: bool)
    requires Inv(s) && Enabled(s, Register(a, owns))
    ensures TakenOk(Registering(s, a, owns))
  {
    forall b | b in s.taken && b in s.owned
      ensures b.agent != a.agent
    {
      assert Owed(s, b);
    }
  }

  lemma RegisterApart(s: State, a: Attempt, owns: bool)
    requires Inv(s) && Enabled(s, Register(a, owns))
    ensures var n := Registering(s, a, owns);
            Apart(n.c.attempts, n.taken, Drained(n.threads), n.c.calls.resumes, n.dropped)
  {
    var n := Registering(s, a, owns);
    forall b | InMap(n.c.attempts, b)
      ensures b == a || InMap(s.c.attempts, b)
    {
    }
  }

  lemma RegisterQuiet(s: State, a: Attempt, owns: bool)
    requires Inv(s) && Enabled(s, Register(a, owns))
    ensures AskedQuiet(Registering(s, a, owns))
  {
    var n := Registering(s, a, owns);
    if t :| t in n.threads && Checked(n.threads[t]) {
      CheckedRecovers(s, t);
      forall b | b in n.c.Held(n.owned)
        ensures Quiet(n.c.flags, n.launching, b)
      {
        if b != a {
          assert b in s.c.Held(s.owned);
        }
      }
    }
  }

  lemma StepRegister(s: State, a: Attempt, owns: bool)
    requires Inv(s) && Enabled(s, Register(a, owns))
    ensures Inv(Registering(s, a, owns))
  {
    RegisterKnown(s, a, owns);
    RegisterPlaced(s, a, owns);
    RegisterTaken(s, a, owns);
    RegisterApart(s, a, owns);
    RegisterQuiet(s, a, owns);
  }

  lemma DiscardApart(s: State, agent: string, trace: string)
    requires Inv(s)
    ensures var n := Discarding(s, agent, trace);
            KnownOnly(n) && Apart(n.c.attempts, n.taken, Drained(n.threads), n.c.calls.resumes, n.dropped)
  {
  }

  lemma DiscardTaken(s: State, agent: string, trace: string)
    requires Inv(s)
    ensures TakenOk(Discarding(s, agent, trace)) && Placed(Discarding(s, agent, trace))
  {
  }

  lemma StepDiscard(s: State, agent: string, trace: string)
    requires Inv(s)
    ensures Inv(Discarding(s, agent, trace))
  {
    var n := Discarding(s, agent, trace);
    DiscardApart(s, agent, trace);
    DiscardTaken(s, agent, trace);
    assert n.c.Held(n.owned) <= s.c.Held(s.owned);
    assert AskedQuiet(n);
  }

  // Starting a recovery adds the one live thread.
  lemma Starts(s: State, c: Coord, t: nat)
    requires OneChain(false, c.checking, s.threads) && t !in s.threads
    ensures OneChain(true, c.checking, s.threads[t := Announced])
    ensures Drained(s.threads[t := Announced]) == Drained(s.threads)
  {
    ThreadMoves(s.threads, t, Announced);
    assert LiveThreads(s.threads[t := Announced]) == {t};
  }

  lemma StepRequest(s: State, agent: string, trace: string, cmd: seq<string>, t: nat)
    requires Inv(s) && t !in s.threads
    ensures Inv(Requesting(s, agent, trace, cmd, t))
  {
    var n := Requesting(s, agent, trace, cmd, t);
    if s.c.Accepts(agent, trace, cmd) && !s.c.recovering {
      Starts(s, n.c, t);
      assert forall u :: u in s.threads ==> u !in LiveThreads(s.threads);
      assert AskedQuiet(n);
      assert Placed(n);
    }
  }

  lemma StepResumeRecovery(s: State, cmd: seq<string>, ms: int, wall: real, agents: set<string>, t: nat)
    requires Inv(s) && t !in s.threads
    ensures Inv(ResumingRecovery(s, cmd, ms, wall, agents, t))
  {
    var n := ResumingRecovery(s, cmd, ms, wall, agents, t);
    if cmd != [] && !s.c.recovering {
      Starts(s, n.c, t);
      assert forall u :: u in s.threads ==> u !in LiveThreads(s.threads);
      assert AskedQuiet(n);
    }
  }

  // The work itself is as it was: only who is looking after it has changed.
  ghost predicate SameWork(s: State, n: State) {
    && n == s.(c := n.c, threads := n.threads)
    && n.c.attempts == s.c.attempts && n.c.flags == s.c.flags && n.c.calls == s.c.calls
    && n.c.parkExpired == s.c.parkExpired && (s.c.recovering ==> n.c.recovering)
    && Drained(n.threads) == Drained(s.threads)
  }

  lemma WorkKeepsItsPlace(s: State, n: State)
    requires Inv(s) && SameWork(s, n)
    ensures KnownOnly(n) && Placed(n) && TakenOk(n)
    ensures Apart(n.c.attempts, n.taken, Drained(n.threads), n.c.calls.resumes, n.dropped)
    ensures n.c.Held(n.owned) == s.c.Held(s.owned)
  {
    hide Prompt, OneChain, AskedQuiet, Drained;
    assert forall a :: Owed(n, a) ==> Owed(s, a);
  }

  lemma StepFire(s: State, t: nat)
    requires Inv(s) && t in s.threads && s.threads[t].Timer?
    ensures Inv(Go(s.(c := s.c.Entered()), t, Entered))
  {
    ThreadMoves(s.threads, t, Entered);
    WorkKeepsItsPlace(s, Go(s.(c := s.c.Entered()), t, Entered));
    hide KnownOnly, Placed, TakenOk, Apart, Drained, Coord.Held;
    assert t in LiveThreads(s.threads);
  }

  lemma LeaveDrains(threads: map<nat, Pc>, t: nat)
    requires t in threads && threads[t].Leaving?
    ensures Drained(threads - {t}) == Drained(threads)
  {
    forall a | a in Drained(threads)
      ensures a in Drained(threads - {t})
    {
      var u :| u in threads && threads[u].Draining? && a in threads[u].left;
      assert (threads - {t})[u] == threads[u];
    }
  }

  lemma StepLeave(s: State, t: nat)
    requires Inv(s) && t in s.threads && s.threads[t].Leaving?
    ensures Inv(s.(c := s.c.Left(), threads := s.threads - {t}))
  {
    LeaveDrains(s.threads, t);
    WorkKeepsItsPlace(s, s.(c := s.c.Left(), threads := s.threads - {t}));
    hide KnownOnly, Placed, TakenOk, Apart, Drained, Coord.Held;
    assert LiveThreads(s.threads - {t}) == LiveThreads(s.threads);
    assert Passes(s.threads - {t}) == Passes(s.threads) - {t};
  }

  lemma PurgedHeld(attempts: map<string, Attempt>, owned: set<Attempt>, marks: set<(string, string)>)
    ensures HeldWork(OwnedOnly(attempts, owned).Values, owned, marks) == HeldWork(attempts.Values, owned, marks)
  {
    forall a | a in HeldWork(attempts.Values, owned, marks)
      ensures a in OwnedOnly(attempts, owned).Values
    {
      var k :| k in attempts && attempts[k] == a;
      assert OwnedOnly(attempts, owned)[k] == a;
    }
  }

  lemma Purges(s: State)
    requires Inv(s)
    ensures Inv(s.(c := s.c.Purged(s.owned)))
    ensures s.c.Purged(s.owned).Held(s.owned) == s.c.Held(s.owned)
  {
    var n := s.(c := s.c.Purged(s.owned));
    PurgedHeld(s.c.attempts, s.owned, s.c.parkExpired);
    assert AskedQuiet(n);
  }

  lemma StepFirstLook(s: State, t: nat)
    requires Inv(s) && t in s.threads && s.threads[t].Entered?
    ensures Inv(FirstLooking(s, t))
  {
    Purges(s);
    var n := s.(c := s.c.Purged(s.owned));
    Moves(n, t, Listed(n.c.Held(s.owned)));
  }

  lemma StepStopOne(s: State, t: nat, a: Attempt)
    requires Inv(s) && Enabled(s, StopOne(t, a))
    ensures Inv(StoppingOne(s, t, a))
  {
    var n := s.(c := s.c.(flags := s.c.flags.(stopped := s.c.flags.stopped + {a})));
    assert n.c.Held(n.owned) == s.c.Held(s.owned);
    assert AskedQuiet(n);
    Moves(n, t, Stopping(s.threads[t].todo - {a}));
  }

  // With nothing held, nothing is owed but what others carry.
  lemma NothingOwed(s: State, threads: map<nat, Pc>, awaiting: set<string>)
    requires Placed(s) && Drained(threads) == Drained(s.threads) && s.c.Held(s.owned) == {}
    ensures Placed(s.(c := s.c.(awaiting := awaiting, recovering := false), threads := threads))
    ensures AskedQuiet(s.(c := s.c.(awaiting := awaiting, recovering := false), threads := threads))
  {
    var n := s.(c := s.c.(awaiting := awaiting, recovering := false), threads := threads);
    hide Drained;
    assert n.c.Held(n.owned) == {};
    forall a | Owed(n, a)
      ensures a in n.taken || a in Drained(n.threads)
    {
      assert Owed(s, a);
      assert InMap(s.c.attempts, a) && !s.c.Expired(a) ==> a in s.c.Held(s.owned);
    }
  }

  lemma ChainEnds(s: State, t: nat, pc: Pc)
    requires Inv(s) && t in s.threads && Live(s.threads[t]) && InPass(s.threads[t]) && !s.threads[t].Draining?
    requires pc == Leaving || pc == Draining({})
    ensures OneChain(false, s.c.checking, s.threads[t := pc])
    ensures s.c.recovering
  {
    CheckedRecovers(s, t);
    ThreadMoves(s.threads, t, pc);
    hide KnownOnly, Placed, Apart, TakenOk, AskedQuiet, Prompt, Drained;
    assert LiveThreads(s.threads[t := pc]) == {};
  }

  // The chain ends because nothing is held any more.
  lemma EndsEmpty(s: State, t: nat, pc: Pc, awaiting: set<string>)
    requires Inv(s) && t in s.threads && Live(s.threads[t]) && InPass(s.threads[t]) && !s.threads[t].Draining?
    requires s.c.Held(s.owned) == {}
    requires pc == Leaving || pc == Draining({})
    ensures Inv(Go(s.(c := s.c.(awaiting := awaiting, recovering := false)), t, pc))
  {
    ChainEnds(s, t, pc);
    ThreadMoves(s.threads, t, pc);
    NothingOwed(s, s.threads[t := pc], awaiting);
    hide Placed, AskedQuiet, Drained, Coord.Held, Apart, OneChain;
  }

  lemma Wakes(s: State, t: nat, timer: nat, due: real)
    requires Inv(s) && t in s.threads && Live(s.threads[t]) && InPass(s.threads[t])
    requires timer !in s.threads && due <= s.now + RECHECK_SECONDS
    ensures Inv(Go(Go(s, t, Leaving), timer, Timer(due)))
  {
    var mid := s.threads[t := Leaving];
    CheckedRecovers(s, t);
    ThreadMoves(s.threads, t, Leaving);
    ThreadMoves(mid, timer, Timer(due));
    assert LiveThreads(mid[timer := Timer(due)]) == {timer};
  }

  lemma Asks(s: State, t: nat, models: set<string>)
    requires Inv(s) && t in s.threads && s.threads[t].Ready? && s.c.Held(s.owned) <= s.c.flags.stopped
    ensures Inv(Go(s.(c := s.c.(awaiting := {}, nextCheck := s.now + RECHECK_SECONDS, checkedModels := models)), t, Asking))
  {
    var n := Go(s.(c := s.c.(awaiting := {}, nextCheck := s.now + RECHECK_SECONDS, checkedModels := models)), t, Asking);
    ThreadMoves(s.threads, t, Asking);
    CheckedRecovers(s, t);
    WorkKeepsItsPlace(s, n);
    hide KnownOnly, Placed, TakenOk, Apart, Drained, Coord.Held;
    assert AskedQuiet(n);
  }

  lemma StepAwaiting(s: State, awaiting: set<string>)
    requires Inv(s)
    ensures Inv(s.(c := s.c.(awaiting := awaiting)))
    ensures Inv(s.(c := s.c.(awaiting := awaiting, nextCheck := s.now + RECHECK_SECONDS)))
  {
    var n := s.(c := s.c.(awaiting := awaiting));
    var m := s.(c := s.c.(awaiting := awaiting, nextCheck := s.now + RECHECK_SECONDS));
    assert n.c.Held(n.owned) == s.c.Held(s.owned) && m.c.Held(m.owned) == s.c.Held(s.owned);
    assert AskedQuiet(n) && AskedQuiet(m);
  }

  // Polling for carried work, or parking because the next check is not due:
  // only `awaiting` changes, and the wake-up is at most one recheck away.
  lemma WakeUpIsNear(c: Coord, owned: set<Attempt>, now: real)
    requires c.nextCheck <= now + RECHECK_SECONDS && c.SecondLooked(owned, now).1.Wake?
    ensures c.SecondLooked(owned, now).1.delay <= RECHECK_SECONDS
    ensures var d := c.SecondLooked(owned, now).0; d == c.Purged(owned).(awaiting := d.awaiting)
  {
    DecidedNotChecked(c.Purged(owned), c.Purged(owned).Held(owned), now);
  }

  lemma CheckIsNear(s: State)
    requires Inv(s)
    ensures s.c.nextCheck <= s.now + RECHECK_SECONDS
  {
  }

  lemma WakesAfter(s: State, t: nat, timer: nat, c: Coord, delay: real)
    requires Inv(s) && t in s.threads && s.threads[t].Ready? && timer !in s.threads
    requires c == s.c.Purged(s.owned).(awaiting := c.awaiting) && delay <= RECHECK_SECONDS
    ensures Inv(Go(Go(s.(c := c), t, Leaving), timer, Timer(s.now + delay)))
  {
    hide Inv;
    Purges(s);
    StepAwaiting(s.(c := s.c.Purged(s.owned)), c.awaiting);
    Wakes(s.(c := c), t, timer, s.now + delay);
  }

  lemma StepSecondLook(s: State, t: nat, timer: nat)
    requires Inv(s) && Enabled(s, SecondLook(t, timer))
    ensures Inv(SecondLooking(s, t, timer))
  {
    hide Inv;
    CheckIsNear(s);
    Purges(s);
    var n := s.(c := s.c.Purged(s.owned));
    DecidedNotChecked(n.c, n.c.Held(s.owned), s.now);
    var (c, look) := s.c.SecondLooked(s.owned, s.now);
    match look
    case Over => EndsEmpty(n, t, Leaving, {});
    case Wake(delay) =>
      WakeUpIsNear(s.c, s.owned, s.now);
      WakesAfter(s, t, timer, c, delay);
    case Ask => Asks(n, t, c.checkedModels);
    case Raised =>
      StepAwaiting(n, {});
      Moves(s.(c := c), t, Answered(Failed));
  }

  // --- the last lock section --------------------------------------------------

  lemma ResumesApart(s: State, list: set<Attempt>)
    requires Inv(s) && list == s.c.Held(s.owned)
    ensures Apart(map[], s.taken, Drained(s.threads), s.c.calls.Resumed(list).resumes, s.dropped)
    ensures forall a :: s.c.calls.Resumed(list).resumes[a] > 0 ==> a in s.known
  {
    forall a | a in list
      ensures InMap(s.c.attempts, a) && s.c.calls.resumes[a] == 0 && a in s.known
    {
      var k :| k in s.c.attempts && s.c.attempts[k] == a;
    }
  }

  lemma ResumesPlaced(s: State, n: State)
    requires Inv(s) && n.owned == s.owned && n.taken == s.taken && n.dropped == s.dropped
    requires n.c.flags == s.c.flags && Drained(s.threads) <= Drained(n.threads)
    requires n.c.calls == s.c.calls.Resumed(s.c.Held(s.owned)) || s.c.Held(s.owned) <= Drained(n.threads)
    requires n.c.calls == s.c.calls || n.c.calls == s.c.calls.Resumed(s.c.Held(s.owned))
    ensures Placed(n)
  {
    forall a | Owed(n, a)
      ensures a in n.taken || a in Drained(n.threads)
    {
      assert Owed(s, a);
      assert InMap(s.c.attempts, a) && !s.c.Expired(a) ==> a in s.c.Held(s.owned);
    }
  }

  function ResumedAll(s: State, t: nat): State {
    Go(s.(c := s.c.(attempts := map[], recovering := false, calls := s.c.calls.Resumed(s.c.Held(s.owned)))), t, Leaving)
  }

  lemma ResumesAllPlaces(s: State, t: nat)
    requires Inv(s) && t in s.threads && s.threads[t].Answered?
    ensures var n := ResumedAll(s, t);
            && OneChain(false, n.c.checking, n.threads) && KnownOnly(n) && Placed(n)
            && Apart(map[], n.taken, Drained(n.threads), n.c.calls.resumes, n.dropped)
  {
    var n := ResumedAll(s, t);
    ResumesApart(s, s.c.Held(s.owned));
    ChainEnds(s, t, Leaving);
    hide Apart, OneChain;
    ThreadMoves(s.threads, t, Leaving);
    ResumesPlaced(s, n);
  }

  lemma ResumesAll(s: State, t: nat)
    requires Inv(s) && t in s.threads && s.threads[t].Answered?
    ensures Inv(ResumedAll(s, t))
  {
    ResumesAllPlaces(s, t);
    hide Apart, OneChain, Placed, KnownOnly;
    var n := ResumedAll(s, t);
    assert n.c.Held(n.owned) == {};
    assert AskedQuiet(n);
  }

  // Park expired: the pass keeps the list, marks it, and drains it outside the lock.
  lemma ExpiresApart(s: State, t: nat, list: set<Attempt>)
    requires Inv(s) && t in s.threads && s.threads[t].Answered? && list == s.c.Held(s.owned)
    ensures Apart(map[], s.taken, Drained(s.threads[t := Draining(list)]), s.c.calls.resumes, s.dropped)
    ensures OneChain(false, s.c.checking, s.threads[t := Draining(list)])
    ensures list <= s.known
  {
    CheckedRecovers(s, t);
    ThreadMoves(s.threads, t, Draining(list));
    forall a | a in list
      ensures InMap(s.c.attempts, a) && a in s.known
    {
      var k :| k in s.c.attempts && s.c.attempts[k] == a;
    }
    forall u | u in s.threads && s.threads[u].Draining?
      ensures s.threads[u].left !! list
    {
      assert s.threads[u].left <= Drained(s.threads);
    }
  }

  lemma Expires(s: State, t: nat)
    requires Inv(s) && t in s.threads && s.threads[t].Answered?
    ensures var list := s.c.Held(s.owned);
            Inv(Go(s.(c := s.c.(recovering := false, attempts := map[], parkExpired := s.c.parkExpired + Keys(list))),
                   t, Draining(list)))
  {
    var list := s.c.Held(s.owned);
    var n := Go(s.(c := s.c.(recovering := false, attempts := map[], parkExpired := s.c.parkExpired + Keys(list))),
                t, Draining(list));
    ExpiresApart(s, t, list);
    ThreadMoves(s.threads, t, Draining(list));
    assert n.c.Held(n.owned) == {};
    assert TakenOk(n) by {
      forall a | a in s.taken && a in s.owned
        ensures Key(a) !in Keys(list)
      {
        assert a.agent !in s.c.attempts;
      }
    }
    ResumesPlaced(s, n);
    hide Placed;
  }

  lemma StepSettle(s: State, t: nat)
    requires Inv(s) && Enabled(s, Settle(t))
    ensures Inv(Settling(s, t))
  {
    hide Inv;
    Purges(s);
    var n := s.(c := s.c.Purged(s.owned));
    var verdict := s.threads[t].verdict;
    var pending := n.c.Held(s.owned);
    DecidedChecked(n.c, pending, verdict, s.now);
    match n.c.Decided(pending, verdict, s.now)
    case Resume => ResumesAll(n, t);
    case Release(ParkExpired) => Expires(n, t);
    case Release(NoOwnedWork) => EndsEmpty(n, t, Draining({}), n.c.awaiting);
    case Park(_, delay) => Moves(n, t, Rescheduling(s.now, delay));
  }

  lemma StepReschedule(s: State, t: nat, timer: nat)
    requires Inv(s) && Enabled(s, Reschedule(t, timer))
    ensures Inv(WakingLater(s, t, timer))
  {
    assert PromptPc(s.threads[t], s.c.parkedSince, s.now);
    Wakes(s, t, timer, s.now + s.threads[t].delay);
  }

  // --- finishing passes and the release drain ---------------------------------

  lemma DrainShrinks(threads: map<nat, Pc>, t: nat, a: Attempt)
    requires forall v, u :: v in threads && u in threads && v != u && threads[v].Draining? && threads[u].Draining? ==>
               threads[v].left !! threads[u].left
    requires t in threads && threads[t].Draining? && a in threads[t].left
    ensures Drained(threads[t := Draining(threads[t].left - {a})]) == Drained(threads) - {a}
  {
    var n := threads[t := Draining(threads[t].left - {a})];
    forall b | b in Drained(threads) && b != a
      ensures b in Drained(n)
    {
      var u :| u in threads && threads[u].Draining? && b in threads[u].left;
      assert n[u].Draining? && b in n[u].left;
    }
    forall u | u in n && n[u].Draining?
      ensures a !in n[u].left
    {
      assert u != t ==> threads[u].left !! threads[t].left;
    }
  }

  lemma DrainOneChain(s: State, t: nat, a: Attempt)
    requires Inv(s) && Enabled(s, DrainOne(t, a))
    ensures var threads := s.threads[t := Draining(s.threads[t].left - {a})];
            OneChain(s.c.recovering, s.c.checking, threads)
            && Prompt(s.c.nextCheck, s.c.parkedSince, s.now, threads)
  {
    LiveMoves(s.threads, t, Draining(s.threads[t].left - {a}));
    PassMoves(s.threads, t, Draining(s.threads[t].left - {a}));
  }

  lemma DrainOnePlaces(s: State, t: nat, a: Attempt)
    requires Inv(s) && Enabled(s, DrainOne(t, a))
    ensures var n := DrainingOne(s, t, a);
            && KnownOnly(n)
            && Apart(n.c.attempts, n.taken, Drained(n.threads), n.c.calls.resumes, n.dropped)
  {
    DrainShrinks(s.threads, t, a);
    assert a in Drained(s.threads);
  }

  lemma DrainOnePlaced(s: State, t: nat, a: Attempt)
    requires Inv(s) && Enabled(s, DrainOne(t, a))
    ensures Placed(DrainingOne(s, t, a))
  {
    DrainShrinks(s.threads, t, a);
    assert a in Drained(s.threads);
  }

  lemma StepDrainOne(s: State, t: nat, a: Attempt)
    requires Inv(s) && Enabled(s, DrainOne(t, a))
    ensures Inv(DrainingOne(s, t, a))
  {
    hide KnownOnly, Placed, Apart, OneChain, Prompt;
    var n := DrainingOne(s, t, a);
    DrainOneChain(s, t, a);
    DrainOnePlaces(s, t, a);
    DrainOnePlaced(s, t, a);
    assert n.c.Held(n.owned) == s.c.Held(s.owned);
    assert AskedQuiet(n);
  }

  lemma StepDrainDone(s: State, t: nat)
    requires Inv(s) && Enabled(s, DrainDone(t))
    ensures Inv(Go(s, t, Leaving))
  {
    LiveMoves(s.threads, t, Leaving);
    PassMoves(s.threads, t, Leaving);
    var n := s.threads[t := Leaving];
    assert Drained(n) == Drained(s.threads) by {
      forall b | b in Drained(s.threads)
        ensures b in Drained(n)
      {
        var u :| u in s.threads && s.threads[u].Draining? && b in s.threads[u].left;
        assert n[u] == s.threads[u];
      }
    }
    assert AskedQuiet(Go(s, t, Leaving));
  }

  lemma TakeApart(s: State, eligible: set<Attempt>)
    requires Inv(s)
    ensures var n := Taking(s, eligible);
            KnownOnly(n) && Apart(n.c.attempts, n.taken, Drained(n.threads), n.c.calls.resumes, n.dropped)
  {
    var n := Taking(s, eligible);
    forall a | a in s.c.Taken(s.owned, eligible)
      ensures InMap(s.c.attempts, a) && a in s.known && !InMap(n.c.attempts, a)
    {
      var k :| k in s.c.attempts && s.c.attempts[k] == a;
    }
  }

  lemma TakeTaken(s: State, eligible: set<Attempt>)
    requires Inv(s)
    ensures TakenOk(Taking(s, eligible)) && Placed(Taking(s, eligible))
  {
    var n := Taking(s, eligible);
    var taken := s.c.Taken(s.owned, eligible);
    forall a | a in taken
      ensures InMap(s.c.attempts, a) && a.agent in Agents(taken) && a in s.c.flags.waiting
    {
      var k :| k in s.c.attempts && s.c.attempts[k] == a;
    }
    forall a | InMap(s.c.attempts, a) && a !in taken
      ensures a.agent !in Agents(taken)
    {
      assert forall b :: b in taken && b.agent == a.agent ==> InMap(s.c.attempts, b) && b == a;
    }
  }

  lemma StepTake(s: State, eligible: set<Attempt>)
    requires Inv(s)
    ensures Inv(Taking(s, eligible))
  {
    var n := Taking(s, eligible);
    TakeApart(s, eligible);
    TakeTaken(s, eligible);
    assert n.c.Held(n.owned) <= s.c.Held(s.owned);
    assert AskedQuiet(n);
  }

  // --- giving taken work back --------------------------------------------------

  // Restoring one attempt at a time; setdefault never meets another entry.
  lemma RestoreOne(s: State, a: Attempt)
    requires Inv(s) && a in s.taken && a in s.owned && s.c.recovering
    ensures a.agent !in s.c.attempts
    ensures Inv(s.(c := s.c.(attempts := s.c.attempts[a.agent := a]), taken := s.taken - {a}))
  {
    var n := s.(c := s.c.(attempts := s.c.attempts[a.agent := a]), taken := s.taken - {a});
    RestoredApart(s, a);
    forall b | b in n.c.Held(n.owned)
      ensures b == a || b in s.c.Held(s.owned)
    {
      var k :| k in n.c.attempts && n.c.attempts[k] == b;
    }
    assert Quiet(s.c.flags, s.launching, a);
    assert AskedQuiet(n);
  }

  lemma RestoredApart(s: State, a: Attempt)
    requires Inv(s) && a in s.taken && a in s.owned && s.c.recovering
    ensures var n := s.(c := s.c.(attempts := s.c.attempts[a.agent := a]), taken := s.taken - {a});
            KnownOnly(n) && Placed(n) && Apart(n.c.attempts, n.taken, Drained(n.threads), n.c.calls.resumes, n.dropped)
  {
    var n := s.(c := s.c.(attempts := s.c.attempts[a.agent := a]), taken := s.taken - {a});
    forall b
      ensures InMap(n.c.attempts, b) <==> b == a || InMap(s.c.attempts, b)
    {
    }
  }

  lemma ResumeTaken(s: State, a: Attempt)
    requires Inv(s) && a in s.taken
    ensures Inv(s.(c := s.c.(calls := s.c.calls.Resumed({a})), taken := s.taken - {a}))
  {
    var n := s.(c := s.c.(calls := s.c.calls.Resumed({a})), taken := s.taken - {a});
    assert n.c.Held(n.owned) == s.c.Held(s.owned);
    assert AskedQuiet(n);
  }

  lemma ForgetTaken(s: State, a: Attempt)
    requires Inv(s) && a in s.taken && a !in s.owned
    ensures Inv(s.(taken := s.taken - {a}))
  {
    assert AskedQuiet(s.(taken := s.taken - {a}));
  }

  lemma {:induction false} StepRestore(s: State, back: seq<Attempt>)
    requires Inv(s) && Distinct(back) && forall a :: a in back ==> a in s.taken
    ensures Inv(Restoring(s, back))
    decreases |back|
  {
    hide Inv;
    if back == [] {
      assert s.taken - (set a | a in back) == s.taken;
    } else {
      var a, rest := back[0], back[1..];
      assert back == [a] + rest;
      var n: State;
      if a !in s.owned {
        ForgetTaken(s, a);
        n := s.(taken := s.taken - {a});
      } else if s.c.recovering {
        RestoreOne(s, a);
        n := s.(c := s.c.(attempts := s.c.attempts[a.agent := a]), taken := s.taken - {a});
      } else {
        ResumeTaken(s, a);
        n := s.(c := s.c.(calls := s.c.calls.Resumed({a})), taken := s.taken - {a});
      }
      forall b | b in rest
        ensures b in n.taken
      {
        assert b in back;
      }
      StepRestore(n, rest);
      assert s.taken - (set b | b in back) == n.taken - (set b | b in rest);
    }
  }

  lemma StepTransferred(s: State, list: set<Attempt>)
    requires Inv(s) && list <= s.taken
    ensures Inv(s.(taken := s.taken - list, dropped := s.dropped + list))
  {
    assert AskedQuiet(s.(taken := s.taken - list, dropped := s.dropped + list));
  }

  lemma StepClock(s: State, to: real)
    requires Inv(s) && s.now <= to
    ensures Inv(s.(now := to))
  {
    assert AskedQuiet(s.(now := to));
  }

  lemma StepDisown(s: State, a: Attempt)
    requires Inv(s)
    ensures Inv(s.(owned := s.owned - {a}))
  {
    var n := s.(owned := s.owned - {a});
    assert n.c.Held(n.owned) <= s.c.Held(s.owned);
    assert AskedQuiet(n);
    forall b | Owed(n, b)
      ensures Owed(s, b)
    {
    }
  }

  lemma StepSpawnBegins(s: State, a: Attempt)
    requires Inv(s)
    ensures Inv(s.(c := s.c.(flags := s.c.flags.(started := s.c.flags.started + {a}))))
  {
    var n := s.(c := s.c.(flags := s.c.flags.(started := s.c.flags.started + {a})));
    assert n.c.Held(n.owned) == s.c.Held(s.owned);
    assert AskedQuiet(n);
  }

  lemma OutsideKeepsInv(s: State, act: Action)
    requires Inv(s) && Enabled(s, act) && !OfPass(act)
    ensures Inv(Next(s, act))
  {
    hide Inv, Owed;
    match act
    case Tick(to) => StepClock(s, to);
    case Disown(a) => StepDisown(s, a);
    case Register(a, owns) => StepRegister(s, a, owns);
    case SpawnBegins(a) => StepSpawnBegins(s, a);
    case SpawnEnds(a, running) => StepSpawn(s, a, running);
    case Discard(agent, trace) => StepDiscard(s, agent, trace);
    case Request(agent, trace, cmd, t) => StepRequest(s, agent, trace, cmd, t);
    case ResumeRecovery(cmd, ms, wall, agents, t) => StepResumeRecovery(s, cmd, ms, wall, agents, t);
    case TakeParked(eligible) => StepTake(s, eligible);
    case Restore(back) => StepRestore(s, back);
    case Transferred(list) => StepTransferred(s, list);
  }

  // The steps that only move a pass on.
  predicate OnlyMoves(act: Action) {
    act.Announce? || act.DecideFirst? || act.StopFails? || act.StopDone? || act.SelectorAnswers?
  }

  lemma MoveKeepsInv(s: State, act: Action)
    requires Inv(s) && Enabled(s, act) && OnlyMoves(act)
    ensures Inv(Next(s, act))
  {
    hide Inv, Owed;
    match act
    case Announce(t) => Moves(s, t, Timer(s.now));
    case DecideFirst(t) =>
      Moves(s, t, if s.c.Decided(s.threads[t].list, NotChecked, s.now).Kill? then Stopping(s.threads[t].list) else Ready);
    case StopFails(t) => Moves(s, t, Answered(Failed));
    case StopDone(t) => Moves(s, t, Ready);
    case SelectorAnswers(t, verdict) => Moves(s, t, Answered(verdict));
  }

  lemma PassKeepsInv(s: State, act: Action)
    requires Inv(s) && Enabled(s, act) && OfPass(act) && !OnlyMoves(act)
    ensures Inv(Next(s, act))
  {
    hide Inv, Owed;
    match act
    case Fire(t) => StepFire(s, t);
    case FirstLook(t) => StepFirstLook(s, t);
    case StopOne(t, a) => StepStopOne(s, t, a);
    case SecondLook(t, timer) => StepSecondLook(s, t, timer);
    case Settle(t) => StepSettle(s, t);
    case Reschedule(t, timer) => StepReschedule(s, t, timer);
    case DrainOne(t, a) => StepDrainOne(s, t, a);
    case DrainDone(t) => StepDrainDone(s, t);
    case Leave(t) => StepLeave(s, t);
  }

  lemma StepKeepsInv(s: State, act: Action)
    requires Inv(s) && Enabled(s, act)
    ensures Inv(Next(s, act))
  {
    hide Inv, Enabled, Next, OfPass, OnlyMoves;
    if OfPass(act) && OnlyMoves(act) {
      MoveKeepsInv(s, act);
    } else if OfPass(act) {
      PassKeepsInv(s, act);
    } else {
      OutsideKeepsInv(s, act);
    }
  }

  lemma {:induction false} RunKeepsInv(s: State, acts: seq<Action>)
    requires Inv(s) && IsRun(s, acts)
    ensures Inv(Run(s, acts))
    decreases |acts|
  {
    hide Inv, Next, Enabled;
    if acts != [] {
      StepKeepsInv(s, acts[0]);
      RunKeepsInv(Next(s, acts[0]), acts[1..]);
    }
  }

  lemma InitInv(s: State)
    requires Init(s)
    ensures Inv(s)
  {
    assert LiveThreads(s.threads) == {} && Passes(s.threads) == {} && Drained(s.threads) == {};
    assert s.c.Held(s.owned) == {};
  }
}
