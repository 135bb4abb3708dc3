/** Every interleaving of one coordinator's lock sections with its timers, its
    recovery passes, the dispatcher, the release drain and the loss of ownership. */
module FailoverMachine {
  import opened FailoverPlan
  import opened AccountFailover

  /** Where one thread of the protocol stands between two of its steps. */
  datatype Pc =
    | Announced                                // recovering is set, schedule(0.0) still to come
    | Timer(due: real)
    | Entered                                  // recover() has counted itself
    | Listed(list: set<Attempt>)               // first pending list read, lock released
    | Stopping(todo: set<Attempt>)             // stopping the listed processes
    | Ready                                    // before the second lock section
    | Asking                                   // the selector runs outside the lock
    | Answered(verdict: Verdict)               // before the last lock section
    | Rescheduling(at: real, delay: real)      // parked; its wake-up still to be scheduled
    | Draining(left: set<Attempt>)             // resuming expired work, outside the lock
    | Leaving                                  // before recover() counts itself out

  // A recovery chain: something that is or will become a deciding pass.
  predicate Live(pc: Pc) { !pc.Draining? && !pc.Leaving? }

  // Inside recover(), so counted in `checking`.
  predicate InPass(pc: Pc) { !pc.Announced? && !pc.Timer? }

  datatype State = State(
    c: Coord,
    now: real,
    owned: set<Attempt>,            // whose owned() callback answers true
    known: set<Attempt>,            // registered so far
    launching: set<Attempt>,        // the dispatcher may still start a process for it
    taken: set<Attempt>,            // held by the release drain
    dropped: set<Attempt>,          // discarded, or transferred to the next runtime
    threads: map<nat, Pc>)

  function LiveThreads(threads: map<nat, Pc>): set<nat> { set t | t in threads && Live(threads[t]) }

  function Passes(threads: map<nat, Pc>): set<nat> { set t | t in threads && InPass(threads[t]) }

  // --- steps ----------------------------------------------------------------

  datatype Action =
    | Tick(to: real)
    | Disown(a: Attempt)
    | Register(a: Attempt, owns: bool)
    | SpawnBegins(a: Attempt)
    | SpawnEnds(a: Attempt, running: bool)
    | Discard(agent: string, trace: string)
    | Request(agent: string, trace: string, cmd: seq<string>, t: nat)
    | ResumeRecovery(cmd: seq<string>, parkedSinceMs: int, wall: real, agents: set<string>, t: nat)
    | Announce(t: nat)
    | Fire(t: nat)
    | FirstLook(t: nat)
    | DecideFirst(t: nat)
    | StopOne(t: nat, a: Attempt)
    | StopFails(t: nat)
    | StopDone(t: nat)
    | SecondLook(t: nat, timer: nat)
    | SelectorAnswers(t: nat, verdict: Verdict)
    | Settle(t: nat)
    | Reschedule(t: nat, timer: nat)
    | DrainOne(t: nat, a: Attempt)
    | DrainDone(t: nat)
    | Leave(t: nat)
    | TakeParked(eligible: set<Attempt>)
    | Restore(back: seq<Attempt>)
    | Transferred(list: set<Attempt>)

  // Paused and not yet run again: what the coordinator must not lose.
  predicate Owed(s: State, a: Attempt) {
    a in s.owned && a in s.c.flags.waiting && s.c.calls.resumes[a] == 0 && a !in s.dropped
  }

  ghost predicate Distinct(list: seq<Attempt>) { forall i, j :: 0 <= i < j < |list| ==> list[i] != list[j] }

  ghost predicate Enabled(s: State, act: Action) {
    match act
    case Tick(to) => s.now <= to
    case Disown(a) => true
    // The dispatcher starts a new attempt for an agent only once no earlier one
    // of that agent is still owed its resume; every attempt is a new object.
    case Register(a, _) => a !in s.known && (forall b :: b in s.known && Owed(s, b) ==> b.agent != a.agent)
    case SpawnBegins(a) => a in s.launching
    case SpawnEnds(a, running) => a in s.launching && (running ==> a in s.c.flags.started)
    case Discard(_, _) => true
    case Request(_, _, _, t) => t !in s.threads
    case ResumeRecovery(_, _, _, _, t) => t !in s.threads
    case Announce(t) => t in s.threads && s.threads[t].Announced?
    case Fire(t) => t in s.threads && s.threads[t].Timer? && s.threads[t].due <= s.now
    case FirstLook(t) => t in s.threads && s.threads[t].Entered?
    case DecideFirst(t) => t in s.threads && s.threads[t].Listed?
    // _stop_owned waits for the spawn to settle before it touches the process.
    case StopOne(t, a) => t in s.threads && s.threads[t].Stopping? && a in s.threads[t].todo
                          && (a in s.c.flags.stopped || a in s.c.flags.spawned)
    case StopFails(t) => t in s.threads && s.threads[t].Stopping?
    case StopDone(t) => t in s.threads && s.threads[t].Stopping? && s.threads[t].todo == {}
    case SecondLook(t, timer) => t in s.threads && s.threads[t].Ready? && timer !in s.threads
    case SelectorAnswers(t, v) => t in s.threads && s.threads[t].Asking? && v != NotChecked
    case Settle(t) => t in s.threads && s.threads[t].Answered? && s.threads[t].verdict != NotChecked
    case Reschedule(t, timer) => t in s.threads && s.threads[t].Rescheduling? && timer !in s.threads
    case DrainOne(t, a) => t in s.threads && s.threads[t].Draining? && a in s.threads[t].left
    case DrainDone(t) => t in s.threads && s.threads[t].Draining? && s.threads[t].left == {}
    case Leave(t) => t in s.threads && s.threads[t].Leaving?
    case TakeParked(_) => true
    case Restore(back) => Distinct(back) && (forall a :: a in back ==> a in s.taken)
    case Transferred(list) => list <= s.taken
  }

  function Go(s: State, t: nat, pc: Pc): State { s.(threads := s.threads[t := pc]) }

  function Registering(s: State, a: Attempt, owns: bool): State {
    var (c, parked) := s.c.Registered(a);
    s.(c := c, known := s.known + {a},
       owned := if owns then s.owned + {a} else s.owned - {a},
       // Told to wait, the dispatcher returns without starting anything.
       launching := if parked then s.launching else s.launching + {a})
  }

  function SpawnEnding(s: State, a: Attempt, running: bool): State {
    s.(launching := s.launching - {a},
       c := s.c.(flags := s.c.flags.(spawned := s.c.flags.spawned + {a},
                                     handled := if running then s.c.flags.handled + {a} else s.c.flags.handled)))
  }

  function Discarding(s: State, agent: string, trace: string): State {
    s.(c := s.c.Discarded(agent, trace),
       dropped := if agent in s.c.attempts && s.c.attempts[agent].trace == trace
                  then s.dropped + {s.c.attempts[agent]} else s.dropped)
  }

  function Requesting(s: State, agent: string, trace: string, cmd: seq<string>, t: nat): State {
    var next := s.(c := s.c.Requested(s.owned, s.now, agent, trace, cmd));
    if s.c.Accepts(agent, trace, cmd) && !s.c.recovering then Go(next, t, Announced) else next
  }

  function ResumingRecovery(s: State, cmd: seq<string>, ms: int, wall: real, agents: set<string>, t: nat): State {
    var (c, started) := s.c.RecoveryResumed(cmd, ms, wall, agents, s.now);
    if started then Go(s.(c := c), t, Announced) else s.(c := c)
  }

  function FirstLooking(s: State, t: nat): State {
    var c := s.c.Purged(s.owned);
    Go(s.(c := c), t, Listed(c.Held(s.owned)))
  }

  function DecidingFirst(s: State, t: nat): State
    requires t in s.threads && s.threads[t].Listed?
  {
    var list := s.threads[t].list;
    Go(s, t, if s.c.Decided(list, NotChecked, s.now).Kill? then Stopping(list) else Ready)
  }

  function StoppingOne(s: State, t: nat, a: Attempt): State
    requires t in s.threads && s.threads[t].Stopping?
  {
    Go(s.(c := s.c.(flags := s.c.flags.(stopped := s.c.flags.stopped + {a}))), t, Stopping(s.threads[t].todo - {a}))
  }

  function SecondLooking(s: State, t: nat, timer: nat): State {
    var (c, look) := s.c.SecondLooked(s.owned, s.now);
    var next := s.(c := c);
    match look
    case Over => Go(next, t, Leaving)
    case Wake(delay) => Go(Go(next, t, Leaving), timer, Timer(s.now + delay))
    case Ask => Go(next, t, Asking)
    case Raised => Go(next, t, Answered(Failed))
  }

  function Settling(s: State, t: nat): State
    requires t in s.threads && s.threads[t].Answered? && s.threads[t].verdict != NotChecked
  {
    var (c, outcome) := s.c.Settled(s.owned, s.now, s.threads[t].verdict);
    var next := s.(c := c);
    match outcome
    case AllResumed => Go(next, t, Leaving)
    case Drain(list) => Go(next, t, Draining(list))
    case Again(delay) => Go(next, t, Rescheduling(s.now, delay))
  }

  function WakingLater(s: State, t: nat, timer: nat): State
    requires t in s.threads && s.threads[t].Rescheduling?
  {
    Go(Go(s, t, Leaving), timer, Timer(s.now + s.threads[t].delay))
  }

  function DrainingOne(s: State, t: nat, a: Attempt): State
    requires t in s.threads && s.threads[t].Draining?
  {
    var next := if a in s.owned then s.(c := s.c.(calls := s.c.calls.Resumed({a}))) else s;
    Go(next, t, Draining(s.threads[t].left - {a}))
  }

  function Taking(s: State, eligible: set<Attempt>): State {
    var taken := s.c.Taken(s.owned, eligible);
    s.(c := s.c.WithoutTaken(taken), taken := s.taken + taken)
  }

  function Restoring(s: State, back: seq<Attempt>): State {
    s.(c := s.c.Restored(s.owned, back).0, taken := s.taken - (set a | a in back))
  }

  ghost function Next(s: State, act: Action): State
    requires Enabled(s, act)
  {
    match act
    case Tick(to) => s.(now := to)
    case Disown(a) => s.(owned := s.owned - {a})
    case Register(a, owns) => Registering(s, a, owns)
    case SpawnBegins(a) => s.(c := s.c.(flags := s.c.flags.(started := s.c.flags.started + {a})))
    case SpawnEnds(a, running) => SpawnEnding(s, a, running)
    case Discard(agent, trace) => Discarding(s, agent, trace)
    case Request(agent, trace, cmd, t) => Requesting(s, agent, trace, cmd, t)
    case ResumeRecovery(cmd, ms, wall, agents, t) => ResumingRecovery(s, cmd, ms, wall, agents, t)
    case Announce(t) => Go(s, t, Timer(s.now))
    case Fire(t) => Go(s.(c := s.c.Entered()), t, Entered)
    case FirstLook(t) => FirstLooking(s, t)
    case DecideFirst(t) => DecidingFirst(s, t)
    case StopOne(t, a) => StoppingOne(s, t, a)
    case StopFails(t) => Go(s, t, Answered(Failed))
    case StopDone(t) => Go(s, t, Ready)
    case SecondLook(t, timer) => SecondLooking(s, t, timer)
    case SelectorAnswers(t, verdict) => Go(s, t, Answered(verdict))
    case Settle(t) => Settling(s, t)
    case Reschedule(t, timer) => WakingLater(s, t, timer)
    case DrainOne(t, a) => DrainingOne(s, t, a)
    case DrainDone(t) => Go(s, t, Leaving)
    case Leave(t) => s.(c := s.c.Left(), threads := s.threads - {t})
    case TakeParked(eligible) => Taking(s, eligible)
    case Restore(back) => Restoring(s, back)
    case Transferred(list) => s.(taken := s.taken - list, dropped := s.dropped + list)
  }

  // Steps of a recovery chain or of a finishing pass, as against steps of the
  // dispatcher, the release drain, the clock and the owners of the work.
  predicate OfPass(act: Action) {
    act.Announce? || act.Fire? || act.FirstLook? || act.DecideFirst? || act.StopOne? || act.StopFails?
    || act.StopDone? || act.SecondLook? || act.SelectorAnswers? || act.Settle? || act.Reschedule?
    || act.DrainOne? || act.DrainDone? || act.Leave?
  }

  predicate Init(s: State) {
    s.c.attempts == map[] && !s.c.recovering && s.c.checking == 0 && s.c.awaiting == {}
    && s.c.parkExpired == {} && s.c.flags == Flags({}, {}, {}, {}, {})
    && s.c.calls == Calls(multiset{}, multiset{}) && s.c.nextCheck == 0.0
    && s.now >= 0.0 && s.owned == {} && s.known == {} && s.launching == {} && s.taken == {}
    && s.dropped == {} && s.threads == map[]
  }

  ghost predicate IsRun(s: State, acts: seq<Action>)
    decreases |acts|
  {
    acts == [] || (Enabled(s, acts[0]) && IsRun(Next(s, acts[0]), acts[1..]))
  }

  ghost function Run(s: State, acts: seq<Action>): State
    requires IsRun(s, acts)
    decreases |acts|
  {
    if acts == [] then s else Run(Next(s, acts[0]), acts[1..])
  }

  // --- the invariant ---------------------------------------------------------

  predicate InMap(attempts: map<string, Attempt>, a: Attempt) { a.agent in attempts && attempts[a.agent] == a }

  // What finishing passes still hold in their local lists.
  function Drained(threads: map<nat, Pc>): set<Attempt> {
    set t, a | t in threads && threads[t].Draining? && a in threads[t].left :: a
  }

  // No process of this attempt can be running or still be started.
  predicate Quiet(flags: Flags, launching: set<Attempt>, a: Attempt) {
    a in flags.stopped || (a in flags.spawned && a !in flags.handled && a !in launching)
  }

  ghost predicate KnownOnly(s: State) {
    && (forall k :: k in s.c.attempts ==> s.c.attempts[k].agent == k && s.c.attempts[k] in s.known)
    && Drained(s.threads) <= s.known
    && s.taken <= s.known && s.dropped <= s.known && s.launching <= s.known
    && s.c.flags.waiting <= s.known && s.c.flags.spawned <= s.known && s.c.flags.handled <= s.known
    && s.c.flags.stopped <= s.known
    && (forall a :: s.c.calls.resumes[a] > 0 ==> a in s.known)
  }

  // One recovery chain while recovering, none otherwise; `checking` counts the
  // passes; two finishing passes never hold the same attempt.
  ghost predicate OneChain(recovering: bool, checking: int, threads: map<nat, Pc>) {
    && (recovering ==> exists t :: LiveThreads(threads) == {t})
    && (!recovering ==> LiveThreads(threads) == {})
    && checking == |Passes(threads)|
    && (forall t, u :: t in threads && u in threads && t != u && threads[t].Draining? && threads[u].Draining? ==>
         threads[t].left !! threads[u].left)
  }

  // Nothing owed is lost ...
  ghost predicate Placed(s: State) {
    forall a :: Owed(s, a) ==>
      || (InMap(s.c.attempts, a) && s.c.recovering && !s.c.Expired(a))
      || a in s.taken
      || a in Drained(s.threads)
  }

  // ... and nothing is in two places, or in one after it was run again.
  ghost predicate Apart(attempts: map<string, Attempt>, taken: set<Attempt>, drained: set<Attempt>,
                        resumes: multiset<Attempt>, dropped: set<Attempt>)
  {
    && taken !! drained && taken !! dropped && drained !! dropped
    && (forall a :: a in taken || a in drained || a in dropped ==> !InMap(attempts, a))
    && (forall a :: resumes[a] <= 1)
    && (forall a :: resumes[a] > 0 ==> !InMap(attempts, a) && a !in taken && a !in drained)
  }

  ghost predicate TakenOk(s: State) {
    && (forall a :: InMap(s.c.attempts, a) && a in s.c.flags.waiting ==> !s.c.Expired(a))
    && (forall a :: a in s.taken ==>
         a in s.c.flags.waiting && a in s.c.flags.spawned && a !in s.c.flags.handled)
    && (forall a :: a in s.taken && a in s.owned ==> a.agent !in s.c.attempts && !s.c.Expired(a))
    && (forall a, b :: a in s.taken && b in s.taken && a in s.owned && b in s.owned && a.agent == b.agent ==> a == b)
    && s.c.flags.spawned !! s.launching
  }

  predicate Checked(pc: Pc) { pc == Asking || (pc.Answered? && pc.verdict != Failed) }

  // Once the selector is asked, everything the pass may run again is quiet.
  ghost predicate AskedQuiet(s: State) {
    (exists t :: t in s.threads && Checked(s.threads[t])) ==>
      forall a :: a in s.c.Held(s.owned) ==> Quiet(s.c.flags, s.launching, a)
  }

  predicate PromptPc(pc: Pc, parkedSince: real, now: real) {
    match pc
    case Timer(due) => due <= now + RECHECK_SECONDS
    case Rescheduling(at, delay) => at <= now && delay == RECHECK_SECONDS && at - parkedSince < MAX_PARK_SECONDS
    case _ => true
  }

  ghost predicate Prompt(nextCheck: real, parkedSince: real, now: real, threads: map<nat, Pc>) {
    && nextCheck <= now + RECHECK_SECONDS
    && now >= 0.0
    && (forall t :: t in threads ==> PromptPc(threads[t], parkedSince, now))
  }

  ghost predicate Inv(s: State) {
    && KnownOnly(s)
    && OneChain(s.c.recovering, s.c.checking, s.threads)
    && Placed(s)
    && Apart(s.c.attempts, s.taken, Drained(s.threads), s.c.calls.resumes, s.dropped)
    && TakenOk(s)
    && AskedQuiet(s)
    && Prompt(s.c.nextCheck, s.c.parkedSince, s.now, s.threads)
  }
}
