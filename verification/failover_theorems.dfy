/** What every run of the failover machine guarantees. */
module FailoverTheorems {
  import opened FailoverPlan
  import opened AccountFailover
  import opened FailoverMachine
  import opened FailoverInvariant
  import opened FailoverOverlap

  lemma Reachable(s0: State, acts: seq<Action>)
    requires Init(s0) && IsRun(s0, acts)
    ensures Inv(Run(s0, acts))
  {
    InitInv(s0);
    RunKeepsInv(s0, acts);
  }

  /** `recovering` is true exactly while one chain is live, so two deciding passes
      never coexist and a recovery never lacks its next pass; and the release
      drain's test of `checking` sees every pass there is. */
  lemma RecoveryIsOneChain(s0: State, acts: seq<Action>)
    requires Init(s0) && IsRun(s0, acts)
    ensures var s := Run(s0, acts);
            && (s.c.recovering <==> exists t :: t in s.threads && Live(s.threads[t]))
            && (forall t, u :: t in s.threads && u in s.threads && Live(s.threads[t]) && Live(s.threads[u]) ==> t == u)
            && (forall eligible, t :: t in s.threads && InPass(s.threads[t]) ==> s.c.Taken(s.owned, eligible) == {})
  {
    hide IsRun, Run;
    Reachable(s0, acts);
    var s := Run(s0, acts);
    forall t | t in s.threads && Live(s.threads[t])
      ensures s.c.recovering && LiveThreads(s.threads) == {t}
    {
      CheckedRecovers(s, t);
    }
    if s.c.recovering {
      var t :| LiveThreads(s.threads) == {t};
      assert t in LiveThreads(s.threads);
    }
    forall t | t in s.threads && InPass(s.threads[t])
      ensures s.c.checking != 0
    {
      assert t in Passes(s.threads);
    }
  }

  /** Paused work is in exactly one place until it is run again, which happens at
      most once: waiting in the table of a live recovery (and so in every pending
      list read next), held by the release drain, or in the list of one finishing
      pass. */
  lemma PausedWorkHasOnePlace(s0: State, acts: seq<Action>, a: Attempt)
    requires Init(s0) && IsRun(s0, acts)
    ensures var s := Run(s0, acts);
            var waiting, taken, draining := a in s.c.attempts.Values, a in s.taken, a in Drained(s.threads);
            && s.c.calls.resumes[a] <= 1
            && !(waiting && taken) && !(taken && draining) && !(waiting && draining)
            && (s.c.calls.resumes[a] > 0 ==> !waiting && !taken && !draining)
            && (Owed(s, a) ==> waiting || taken || draining)
            && (Owed(s, a) && waiting ==> s.c.recovering && a in s.c.Held(s.owned))
            && (forall t, u :: t in s.threads && u in s.threads && t != u && s.threads[t].Draining? && s.threads[u].Draining? ==>
                 a !in s.threads[t].left || a !in s.threads[u].left)
  {
    hide IsRun, Run;
    Reachable(s0, acts);
    var s := Run(s0, acts);
    if a in s.c.attempts.Values {
      var k :| k in s.c.attempts && s.c.attempts[k] == a;
      assert InMap(s.c.attempts, a);
    }
    assert InMap(s.c.attempts, a) <==> a in s.c.attempts.Values;
  }

  // --- expired work ------------------------------------------------------------

  // Steps that end the mark of an expired (agent, trace).
  predicate EndsMark(act: Action, k: (string, string)) {
    match act
    case Discard(agent, trace) => (agent, trace) == k
    case Register(a, _) => a.agent == k.0 && a.trace != k.1
    case _ => false
  }

  lemma {:induction false} RestoredFrame(c: Coord, owned: set<Attempt>, back: seq<Attempt>)
    ensures var d := c.Restored(owned, back).0;
            d.parkExpired == c.parkExpired && d.calls.pauses == c.calls.pauses && d.flags == c.flags
    decreases |back|
  {
    if back != [] {
      var a := back[0];
      RestoredFrame(c, owned, back[1..]);
      RestoredFrame(c.(attempts := if a.agent in c.attempts then c.attempts else c.attempts[a.agent := a]),
                    owned, back[1..]);
      RestoredFrame(c.(calls := c.calls.Resumed({a})), owned, back[1..]);
    }
  }

  ghost predicate MarkKept(s: State, n: State, k: (string, string)) {
    k in n.c.parkExpired && forall a :: Key(a) == k ==> n.c.calls.pauses[a] == s.c.calls.pauses[a]
  }

  lemma PassKeepsMark(s: State, act: Action, k: (string, string))
    requires Enabled(s, act) && k in s.c.parkExpired && OfPass(act)
    ensures MarkKept(s, Next(s, act), k)
  {
    hide Coord.Decided, Coord.Held;
  }

  lemma OutsideKeepsMark(s: State, act: Action, k: (string, string))
    requires Enabled(s, act) && k in s.c.parkExpired && !OfPass(act) && !EndsMark(act, k)
    ensures MarkKept(s, Next(s, act), k)
  {
    hide Coord.Decided;
    if act.Restore? {
      RestoredFrame(s.c, s.owned, act.back);
    }
  }

  /** Work released because its park expired is never parked again: until that
      (agent, trace) is discarded or the agent registers another trace, no step of
      any recovery calls its pause callback or lists it as pending. */
  lemma {:induction false} ExpiredWorkIsNeverParkedAgain(s: State, acts: seq<Action>, k: (string, string))
    requires IsRun(s, acts) && k in s.c.parkExpired
    requires forall i :: 0 <= i < |acts| ==> !EndsMark(acts[i], k)
    ensures var n := Run(s, acts);
            && k in n.c.parkExpired
            && (forall a :: Key(a) == k ==> n.c.calls.pauses[a] == s.c.calls.pauses[a])
            && (forall a, owned :: Key(a) == k ==> a !in n.c.Held(owned))
    decreases |acts|
  {
    hide Enabled, Next, OfPass;
    if acts != [] {
      if OfPass(acts[0]) {
        PassKeepsMark(s, acts[0], k);
      } else {
        OutsideKeepsMark(s, acts[0], k);
      }
      ExpiredWorkIsNeverParkedAgain(Next(s, acts[0]), acts[1..], k);
    }
  }

  // The release marks exactly the work it lets go, and keeps it to run it.
  lemma ReleaseMarksWhatItDrains(s: State, t: nat)
    requires Enabled(s, Settle(t)) && Settling(s, t).threads[t].Draining? && Settling(s, t).threads[t].left != {}
    ensures var n := Settling(s, t);
            && n.c.parkExpired == s.c.parkExpired + Keys(n.threads[t].left)
            && n.threads[t].left == s.c.Held(s.owned)
            && n.c.attempts == map[] && !n.c.recovering
            && s.now - s.c.parkedSince >= MAX_PARK_SECONDS
  {
    PurgedHeld(s.c.attempts, s.owned, s.c.parkExpired);
    DecidedChecked(s.c.Purged(s.owned), s.c.Purged(s.owned).Held(s.owned), s.threads[t].verdict, s.now);
  }

  /** From the step that releases expired work: it comes no earlier than the cap, and
      until that (agent, trace) is discarded or the agent registers another trace,
      nothing released is ever paused again or listed as pending. */
  lemma ReleasedWorkIsNeverParkedAgain(s: State, t: nat, a: Attempt, acts: seq<Action>)
    requires Enabled(s, Settle(t)) && Settling(s, t).threads[t].Draining? && a in Settling(s, t).threads[t].left
    requires IsRun(Settling(s, t), acts) && forall i :: 0 <= i < |acts| ==> !EndsMark(acts[i], Key(a))
    ensures s.now - s.c.parkedSince >= MAX_PARK_SECONDS && a in s.c.Held(s.owned)
    ensures var n := Run(Settling(s, t), acts);
            && (forall b :: Key(b) == Key(a) ==> n.c.calls.pauses[b] == s.c.calls.pauses[b])
            && (forall b, owned :: Key(b) == Key(a) ==> b !in n.c.Held(owned))
  {
    ReleaseMarksWhatItDrains(s, t);
    assert Settling(s, t).c.calls.pauses == s.c.calls.pauses;
    ExpiredWorkIsNeverParkedAgain(Settling(s, t), acts, Key(a));
  }

  // --- what a verified resume may start ----------------------------------------

  /** A pass resumes work as verified only after the selector said that an account
      serves every model involved, and then only work with no process left that
      could still act: stopped by this recovery, or parked before one existed. */
  lemma VerifiedResumeIsSafe(s0: State, acts: seq<Action>, t: nat, a: Attempt)
    requires Init(s0) && IsRun(s0, acts) && Enabled(Run(s0, acts), Settle(t))
    requires var s := Run(s0, acts); Settling(s, t).c.calls.resumes[a] > s.c.calls.resumes[a]
    ensures var s := Run(s0, acts);
            && s.threads[t] == Answered(Usable)
            && a in s.c.Held(s.owned) && a.model in s.c.checkedModels
            && Quiet(s.c.flags, s.launching, a)
            && !Settling(s, t).c.recovering
  {
    hide IsRun, Run;
    Reachable(s0, acts);
    var s := Run(s0, acts);
    PurgedHeld(s.c.attempts, s.owned, s.c.parkExpired);
    DecidedChecked(s.c.Purged(s.owned), s.c.Purged(s.owned).Held(s.owned), s.threads[t].verdict, s.now);
  }

  // --- work without a process -----------------------------------------------------

  lemma StepKeepsQuiet(s: State, act: Action, a: Attempt)
    requires Enabled(s, act) && a in s.known && Quiet(s.c.flags, s.launching, a)
    ensures var n := Next(s, act); a in n.known && Quiet(n.c.flags, n.launching, a)
  {
    hide Coord.Decided, Coord.Held;
    if act.Restore? {
      RestoredFrame(s.c, s.owned, act.back);
    }
  }

  // What has no process left never gets one: a new attempt is another object.
  lemma {:induction false} QuietForGood(s: State, acts: seq<Action>, a: Attempt)
    requires IsRun(s, acts) && a in s.known && Quiet(s.c.flags, s.launching, a)
    ensures var n := Run(s, acts); a in n.known && Quiet(n.c.flags, n.launching, a)
    decreases |acts|
  {
    hide Next, Enabled, Quiet;
    if acts != [] {
      StepKeepsQuiet(s, acts[0], a);
      QuietForGood(Next(s, acts[0]), acts[1..], a);
    }
  }

  /** What cancellation may rely on: at any moment of any run `parked` is true exactly
      for waiting work of that turn that has no process, and none can be started for
      it at any later moment either. */
  lemma ParkedWorkHasNoProcess(s0: State, acts: seq<Action>, agent: string, trace: string, more: seq<Action>)
    requires Init(s0) && IsRun(s0, acts) && IsRun(Run(s0, acts), more)
    ensures var s, n := Run(s0, acts), Run(Run(s0, acts), more);
            && (s.c.IsParked(agent, trace) <==>
                 agent in s.c.attempts && s.c.attempts[agent].trace == trace
                 && s.c.attempts[agent] in s.c.flags.waiting && Quiet(s.c.flags, s.launching, s.c.attempts[agent]))
            && (s.c.IsParked(agent, trace) ==> Quiet(n.c.flags, n.launching, s.c.attempts[agent]))
  {
    Reachable(s0, acts);
    var s := Run(s0, acts);
    if s.c.IsParked(agent, trace) {
      QuietForGood(s, more, s.c.attempts[agent]);
    }
  }

  // --- what an expired release may start -----------------------------------------------

  ghost predicate Drains(s: State, t: nat, verdict: Verdict) {
    && Enabled(s, Settle(t)) && s.threads[t].verdict == verdict
    && t in Settling(s, t).threads && Settling(s, t).threads[t].Draining?
  }

  // Every release on this verdict, in every run, lets go only of work without a process.
  ghost predicate ReleasesQuietly(verdict: Verdict) {
    forall s0, acts, t, a :: Init(s0) && IsRun(s0, acts) && Drains(Run(s0, acts), t, verdict) ==>
      var n := Settling(Run(s0, acts), t);
      a in n.threads[t].left ==> Quiet(n.c.flags, n.launching, a)
  }

  lemma ReleaseAfterACheckIsQuiet(s0: State, acts: seq<Action>, t: nat, verdict: Verdict, a: Attempt)
    requires Init(s0) && IsRun(s0, acts) && Drains(Run(s0, acts), t, verdict)
    requires verdict != Failed && a in Settling(Run(s0, acts), t).threads[t].left
    ensures var n := Settling(Run(s0, acts), t); Quiet(n.c.flags, n.launching, a)
  {
    hide IsRun, Run;
    Reachable(s0, acts);
    var s := Run(s0, acts);
    ReleaseMarksWhatItDrains(s, t);
    assert Checked(s.threads[t]);
  }

  /** A release is sure to let go only of work without a process exactly when its pass
      did not fail: after any answer of the selector everything was stopped before it
      was asked; a pass that fails to stop a process and settles after the cap runs the
      work again beside it. */
  lemma ReleasesQuietlyExactly(verdict: Verdict)
    ensures ReleasesQuietly(verdict) <==> verdict != Failed
  {
    hide IsRun, Run, Settling, Quiet, Init;
    if verdict != Failed {
      forall s0, acts, t, a | Init(s0) && IsRun(s0, acts) && Drains(Run(s0, acts), t, verdict)
                              && a in Settling(Run(s0, acts), t).threads[t].left
        ensures var n := Settling(Run(s0, acts), t); Quiet(n.c.flags, n.launching, a)
      {
        ReleaseAfterACheckIsQuiet(s0, acts, t, verdict, a);
      }
    } else {
      var a := Attempt(0, "agent", "trace", "model");
      var s0, acts := AFailedStopDrains(a);
      assert Drains(Run(s0, acts), 0, Failed);
    }
  }

  // --- nothing is parked for ever -----------------------------------------------

  // Once a check has been made the pass settles, and only that can outlast the cap.
  predicate HasChecked(pc: Pc) { pc.Asking? || pc.Answered? }

  predicate Soon(nextCheck: real, parkedSince: real) {
    nextCheck <= 0.0 || nextCheck < parkedSince + MAX_PARK_SECONDS + RECHECK_SECONDS
  }

  // Until then the next check falls due before the cap and one recheck.
  ghost predicate CheckSoon(nextCheck: real, parkedSince: real, threads: map<nat, Pc>) {
    forall t :: t in threads && Live(threads[t]) && !HasChecked(threads[t]) ==> Soon(nextCheck, parkedSince)
  }

  lemma OnlyLive(s: State, t: nat)
    requires Inv(s) && t in s.threads && Live(s.threads[t])
    ensures forall u :: u in s.threads && Live(s.threads[u]) ==> u == t
  {
    CheckedRecovers(s, t);
    hide Inv;
    forall u | u in s.threads && Live(s.threads[u])
      ensures u == t
    {
      assert u in LiveThreads(s.threads);
    }
  }

  lemma NoneLive(s: State)
    requires Inv(s) && !s.c.recovering
    ensures forall u :: u in s.threads ==> !Live(s.threads[u])
  {
    assert forall u :: u in s.threads ==> u !in LiveThreads(s.threads);
  }

  lemma OutsideKeepsSoon(s: State, act: Action)
    requires Inv(s) && Enabled(s, act) && !OfPass(act) && CheckSoon(s.c.nextCheck, s.c.parkedSince, s.threads)
    ensures var n := Next(s, act); CheckSoon(n.c.nextCheck, n.c.parkedSince, n.threads)
  {
    CheckIsNear(s);
    if !s.c.recovering {
      NoneLive(s);
    }
    hide Inv, Coord.Held;
    if act.Restore? {
      ClockFrame(s.c, s.owned, act.back);
    }
  }

  lemma {:induction false} ClockFrame(c: Coord, owned: set<Attempt>, back: seq<Attempt>)
    ensures var d := c.Restored(owned, back).0; d.nextCheck == c.nextCheck && d.parkedSince == c.parkedSince
    decreases |back|
  {
    if back != [] {
      var a := back[0];
      ClockFrame(c, owned, back[1..]);
      ClockFrame(c.(attempts := if a.agent in c.attempts then c.attempts else c.attempts[a.agent := a]), owned, back[1..]);
      ClockFrame(c.(calls := c.calls.Resumed({a})), owned, back[1..]);
    }
  }

  lemma SettleKeepsSoon(s: State, t: nat)
    requires Inv(s) && Enabled(s, Settle(t)) && CheckSoon(s.c.nextCheck, s.c.parkedSince, s.threads)
    ensures var n := Settling(s, t); CheckSoon(n.c.nextCheck, n.c.parkedSince, n.threads)
  {
    CheckIsNear(s);
    OnlyLive(s, t);
    DecidedChecked(s.c.Purged(s.owned), s.c.Purged(s.owned).Held(s.owned), s.threads[t].verdict, s.now);
    hide Inv, Coord.Held, Coord.Decided;
  }

  lemma LookFrame(c: Coord, owned: set<Attempt>, now: real)
    ensures var (d, look) := c.SecondLooked(owned, now);
            d.parkedSince == c.parkedSince && (look.Wake? ==> d.nextCheck == c.nextCheck)
  {
    hide Coord.Held, Coord.Decided;
  }

  lemma LookKeepsSoon(s: State, t: nat, timer: nat)
    requires Inv(s) && Enabled(s, SecondLook(t, timer)) && CheckSoon(s.c.nextCheck, s.c.parkedSince, s.threads)
    ensures var n := SecondLooking(s, t, timer); CheckSoon(n.c.nextCheck, n.c.parkedSince, n.threads)
  {
    OnlyLive(s, t);
    LookFrame(s.c, s.owned, s.now);
    hide Inv, Coord.SecondLooked;
  }

  lemma StopKeepsSoon(s: State, act: Action)
    requires Inv(s) && Enabled(s, act) && CheckSoon(s.c.nextCheck, s.c.parkedSince, s.threads)
    requires act.FirstLook? || act.DecideFirst? || act.StopOne? || act.StopFails? || act.StopDone? || act.SelectorAnswers?
    ensures var n := Next(s, act); CheckSoon(n.c.nextCheck, n.c.parkedSince, n.threads)
  {
    hide Inv, Coord.Held, Coord.Decided;
  }

  lemma TimerKeepsSoon(s: State, act: Action)
    requires Inv(s) && Enabled(s, act) && CheckSoon(s.c.nextCheck, s.c.parkedSince, s.threads)
    requires act.Announce? || act.Fire? || act.Reschedule? || act.DrainOne? || act.DrainDone? || act.Leave?
    ensures var n := Next(s, act); CheckSoon(n.c.nextCheck, n.c.parkedSince, n.threads)
  {
    hide Inv, Coord.Held;
  }

  lemma PassKeepsSoon(s: State, act: Action)
    requires Inv(s) && Enabled(s, act) && OfPass(act) && CheckSoon(s.c.nextCheck, s.c.parkedSince, s.threads)
    ensures var n := Next(s, act); CheckSoon(n.c.nextCheck, n.c.parkedSince, n.threads)
  {
    hide Inv, CheckSoon;
    if act.Settle? {
      SettleKeepsSoon(s, act.t);
    } else if act.SecondLook? {
      LookKeepsSoon(s, act.t, act.timer);
    } else if act.Announce? || act.Fire? || act.Reschedule? || act.DrainOne? || act.DrainDone? || act.Leave? {
      hide Next;
      TimerKeepsSoon(s, act);
    } else {
      hide Next;
      StopKeepsSoon(s, act);
    }
  }

  lemma {:induction false} RunKeepsSoon(s: State, acts: seq<Action>)
    requires Inv(s) && IsRun(s, acts) && CheckSoon(s.c.nextCheck, s.c.parkedSince, s.threads)
    ensures var n := Run(s, acts); CheckSoon(n.c.nextCheck, n.c.parkedSince, n.threads)
    decreases |acts|
  {
    hide Inv, Next, Enabled, OfPass, CheckSoon;
    if acts != [] {
      StepKeepsInv(s, acts[0]);
      if OfPass(acts[0]) {
        PassKeepsSoon(s, acts[0]);
      } else {
        OutsideKeepsSoon(s, acts[0]);
      }
      RunKeepsSoon(Next(s, acts[0]), acts[1..]);
    }
  }

  /** Every wake-up is at most a minute away; a pass parks again only before the cap; one
      that waits without a check while it holds work will check before the cap and one
      minute; and one that settles after the cap ends the recovery. */
  lemma ParkIsBounded(s0: State, acts: seq<Action>, t: nat)
    requires Init(s0) && IsRun(s0, acts)
    ensures var s := Run(s0, acts);
            t in s.threads ==>
              && (s.threads[t].Timer? ==> s.threads[t].due <= s.now + RECHECK_SECONDS)
              && (s.threads[t].Rescheduling? ==>
                    s.threads[t].delay == RECHECK_SECONDS && s.threads[t].at - s.c.parkedSince < MAX_PARK_SECONDS)
              && (s.threads[t].Ready? && s.c.SecondLooked(s.owned, s.now).1.Wake? && s.c.Held(s.owned) != {} ==>
                    s.now + s.c.SecondLooked(s.owned, s.now).1.delay
                      < s.c.parkedSince + MAX_PARK_SECONDS + RECHECK_SECONDS)
              && (Enabled(s, Settle(t)) && s.now - s.c.parkedSince >= MAX_PARK_SECONDS ==>
                    !Settling(s, t).c.recovering && Settling(s, t).c.Held(s.owned) == {})
  {
    hide IsRun, Run;
    Reachable(s0, acts);
    InitInv(s0);
    RunKeepsSoon(s0, acts);
    var s := Run(s0, acts);
    hide Inv, CheckSoon, Enabled, Settling, Coord.SecondLooked, Coord.Held;
    if t in s.threads {
      WaitIsBounded(s, t);
      if s.threads[t].Ready? && s.c.SecondLooked(s.owned, s.now).1.Wake? && s.c.Held(s.owned) != {} {
        LookIsBounded(s, t);
      }
      if Enabled(s, Settle(t)) && s.now - s.c.parkedSince >= MAX_PARK_SECONDS {
        SettleIsFinal(s, t);
      }
    }
  }

  lemma WaitIsBounded(s: State, t: nat)
    requires Inv(s) && t in s.threads
    ensures s.threads[t].Timer? ==> s.threads[t].due <= s.now + RECHECK_SECONDS
    ensures s.threads[t].Rescheduling? ==>
              s.threads[t].delay == RECHECK_SECONDS && s.threads[t].at - s.c.parkedSince < MAX_PARK_SECONDS
  {
    assert PromptPc(s.threads[t], s.c.parkedSince, s.now);
  }

  lemma LookIsBounded(s: State, t: nat)
    requires Inv(s) && t in s.threads && s.threads[t].Ready? && CheckSoon(s.c.nextCheck, s.c.parkedSince, s.threads)
    requires s.c.SecondLooked(s.owned, s.now).1.Wake? && s.c.Held(s.owned) != {}
    ensures s.now + s.c.SecondLooked(s.owned, s.now).1.delay < s.c.parkedSince + MAX_PARK_SECONDS + RECHECK_SECONDS
  {
    PurgedHeld(s.c.attempts, s.owned, s.c.parkExpired);
    assert s.now >= 0.0 && Soon(s.c.nextCheck, s.c.parkedSince);
    hide Inv;
    DecidedNotChecked(s.c.Purged(s.owned), s.c.Held(s.owned), s.now);
  }

  lemma SettleIsFinal(s: State, t: nat)
    requires Enabled(s, Settle(t)) && s.now - s.c.parkedSince >= MAX_PARK_SECONDS
    ensures !Settling(s, t).c.recovering && Settling(s, t).c.Held(s.owned) == {}
  {
    DecidedChecked(s.c.Purged(s.owned), s.c.Purged(s.owned).Held(s.owned), s.threads[t].verdict, s.now);
  }

  // --- handing the recovery's clock to the next runtime --------------------------

  // One handoff: how long the old runtime still ran, the wall clock when it wrote
  // the record and when the next one read it, and the next one's own clock.
  datatype Hop = Hop(stay: real, wallAtCarry: real, wallAtBoot: real, bootNow: real)

  // The park age the next runtime starts from.
  function AgeAfter(c: Coord, h: Hop, now: real, next: Coord): real
    requires c.recovering && !next.recovering
  {
    var ms := c.CarriedOver(h.wallAtCarry, now + h.stay).value;
    h.bootNow - next.RecoveryResumed(["selector"], ms, h.wallAtBoot, {}, h.bootNow).0.parkedSince
  }

  // The start is written in whole milliseconds, cut towards zero.
  lemma RecordedStart(start: real)
    ensures Truncated(start * 1000.0) as real / 1000.0 <= start
            <==> start >= 0.0 || Truncated(start * 1000.0) as real == start * 1000.0
    ensures start >= 0.0 ==> start - Truncated(start * 1000.0) as real / 1000.0 < 0.001
  {
  }

  lemma OneHop(c: Coord, h: Hop, now: real, next: Coord)
    requires c.recovering && !next.recovering && c.parkedSince <= now
    requires h.stay >= 0.0 && h.wallAtCarry <= h.wallAtBoot
    requires now + h.stay - c.parkedSince <= h.wallAtCarry
    ensures var truly := now + h.stay - c.parkedSince + (h.wallAtBoot - h.wallAtCarry);
            truly <= AgeAfter(c, h, now, next) < truly + 0.001
  {
    RecordedStart(h.wallAtCarry - (now + h.stay - c.parkedSince));
  }

  ghost predicate Follows(age: real, h: Hop, next: real) {
    exists c: Coord, n: Coord, now ::
      c.recovering && !n.recovering && now - c.parkedSince == age && next == AgeAfter(c, h, now, n)
  }

  // The runtimes of a chain of handoffs: each starts where the last record left
  // it.  The park must not have begun before the wall clock's zero.
  ghost predicate IsChain(ages: seq<real>, hops: seq<Hop>) {
    && |ages| == |hops| + 1 && ages[0] >= 0.0
    && forall i :: 0 <= i < |hops| ==>
         && hops[i].stay >= 0.0 && hops[i].wallAtCarry <= hops[i].wallAtBoot
         && ages[i] + hops[i].stay <= hops[i].wallAtCarry
         && Follows(ages[i], hops[i], ages[i + 1])
  }

  function TrueAge(first: real, hops: seq<Hop>): real {
    if hops == [] then first
    else
      var h := hops[|hops| - 1];
      TrueAge(first, hops[..|hops| - 1]) + h.stay + (h.wallAtBoot - h.wallAtCarry)
  }

  /** However often the runtime is replaced, the recorded park age never falls
      short of the real one and runs ahead by less than a millisecond a handoff,
      so handoffs never extend the bound on parking. */
  lemma {:induction false} HandoffsNeverExtendThePark(ages: seq<real>, hops: seq<Hop>)
    requires IsChain(ages, hops)
    ensures TrueAge(ages[0], hops) <= ages[|hops|]
    ensures hops != [] ==> ages[|hops|] < TrueAge(ages[0], hops) + |hops| as real * 0.001
  {
    if hops != [] {
      var n := |hops| - 1;
      assert IsChain(ages[..n + 1], hops[..n]) by {
        assert forall i :: 0 <= i < n ==> hops[..n][i] == hops[i];
      }
      HandoffsNeverExtendThePark(ages[..n + 1], hops[..n]);
      assert Follows(ages[n], hops[n], ages[n + 1]);
      var c: Coord, next: Coord, now :|
        c.recovering && !next.recovering && now - c.parkedSince == ages[n] && ages[n + 1] == AgeAfter(c, hops[n], now, next);
      assert ages[n] >= 0.0 by {
        TrueAgeGrows(ages[0], hops[..n]);
      }
      OneHop(c, hops[n], now, next);
    }
  }

  lemma {:induction false} TrueAgeGrows(first: real, hops: seq<Hop>)
    requires first >= 0.0
    requires forall i :: 0 <= i < |hops| ==> hops[i].stay >= 0.0 && hops[i].wallAtCarry <= hops[i].wallAtBoot
    ensures TrueAge(first, hops) >= 0.0
  {
    if hops != [] {
      TrueAgeGrows(first, hops[..|hops| - 1]);
    }
  }
}
