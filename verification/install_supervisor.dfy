/** Supervising one generation of a model install against a job store that may cancel,
    fail or supersede it between any two steps: `supervise_install` in
    scripts/transcription_model_job.py over `start`, `heartbeat`, `finish` and
    `is_active_for_worker` of server/lib/background_jobs.py. */
module InstallSupervisor {

  datatype Status = Queued | Running | Succeeded | Failed | Cancelled

  predicate Active(status: Status) { status.Queued? || status.Running? }

  // The job's row. `ours`: this worker's pid and token are on it.
  datatype Row = Row(gen: int, status: Status, ours: bool)

  datatype Child = None | Alive | Exited(code: int)

  // The store's calls commit, and only then read the row they return.
  datatype Pc =
    | Begin
    | StartRead
    | Launching
    | Looping
    | Gate                        // the child runs; is the row still this worker's?
    | Gated
    | BeatRead
    | Stopping(tidy: bool)        // tidy: and fail the row if it is still active
    | EarlyRollback(tidy: bool)
    | EarlyRead
    | EarlyFinish
    | Finishing
    | FinishRead
    | LastRollback(status: Status)
    | Returned(code: int)

  datatype State = State(
    gen: int,                     // the generation supervised
    row: Row,
    mine: Status,                 // the last status the row had under that generation
    child: Child,
    pc: Pc,
    early: bool,                  // the install was stopped, not waited for
    slipped: bool,                // finish committed for this generation and read a newer one
    read: Status,                 // the status finish read
    invoked: bool,                // a rollback was asked for
    removed: bool,                // ... and found the row terminal as it must be
    found: Row)                   // the row that the rollback of a stopped install met

  datatype Action =
    // the store's other users, and the child
    | Cancel | Reconcile | Supersede | NewerMoves(status: Status) | ChildExits(code: int)
    // the supervisor
    | StartCommit | StartReads | LaunchOk | LaunchFails | Poll | CheckGate(stop: bool)
    | SkipBeat | BeatCommit | BeatReads | StopChild(code: int) | RollBackEarly | ReadEarly | FinishEarly
    | FinishCommit | FinishReads | RollBackLast

  predicate Outside(act: Action) {
    act.Cancel? || act.Reconcile? || act.Supersede? || act.NewerMoves? || act.ChildExits?
  }

  predicate Enabled(s: State, act: Action) {
    match act
    case Cancel => Active(s.row.status)
    case Reconcile => Active(s.row.status)
    case Supersede => true
    case NewerMoves(_) => s.row.gen != s.gen
    case ChildExits(_) => s.child.Alive?
    case StartCommit => s.pc.Begin?
    case StartReads => s.pc.StartRead?
    case LaunchOk => s.pc.Launching?
    case LaunchFails => s.pc.Launching?
    case Poll => s.pc.Looping? && !s.child.None?
    case CheckGate(_) => s.pc.Gate?
    case SkipBeat => s.pc.Gated?
    case BeatCommit => s.pc.Gated?
    case BeatReads => s.pc.BeatRead?
    case StopChild(_) => s.pc.Stopping?
    case RollBackEarly => s.pc.EarlyRollback?
    case ReadEarly => s.pc.EarlyRead?
    case FinishEarly => s.pc.EarlyFinish?
    case FinishCommit => s.pc.Finishing? && s.child.Exited?
    case FinishReads => s.pc.FinishRead? && s.child.Exited?
    case RollBackLast => s.pc.LastRollback?
  }

  // Writing a status to the row.
  function Mark(s: State, status: Status): State {
    s.(row := s.row.(status := status), mine := if s.row.gen == s.gen then status else s.mine)
  }

  // finish(): fenced by generation and worker; a row that has ended stays as it is.
  predicate MayFinish(s: State) { s.row.gen == s.gen && s.row.ours }

  function Finish(s: State, status: Status): State {
    if MayFinish(s) && Active(s.row.status) then Mark(s, status) else s
  }

  function Outcome(child: Child): Status { if child == Exited(0) then Succeeded else Failed }

  // Detaches the files only while the row has this generation and the status named.
  function RollBack(s: State, status: Status): State {
    s.(invoked := true, removed := s.removed || (s.row.gen == s.gen && s.row.status == status))
  }

  function Next(s: State, act: Action): State
    requires Enabled(s, act)
  {
    match act
    case Cancel => Mark(s, Cancelled)
    case Reconcile => Mark(s, Failed)
    case Supersede => s.(row := Row(s.row.gen + 1, Queued, false))
    case NewerMoves(status) => Mark(s, status)
    case ChildExits(code) => s.(child := Exited(code))
    case StartCommit =>
      if !Active(s.row.status) then s.(pc := StartRead)
      else if s.row.gen != s.gen then s.(pc := Returned(2))
      else Mark(s, Running).(row := Row(s.gen, Running, true), pc := StartRead)
    case StartReads => s.(pc := if s.row.status.Running? then Launching else Returned(2))
    case LaunchOk => s.(child := Alive, pc := Looping)
    case LaunchFails => Finish(s, Failed).(pc := Returned(1))
    case Poll => s.(pc := if s.child.Alive? then Gate else Finishing)
    case CheckGate(stop) =>
      s.(pc := if stop || !(MayFinish(s) && Active(s.row.status)) then Stopping(true) else Gated)
    case SkipBeat => s.(pc := Looping)
    case BeatCommit => s.(pc := if Active(s.row.status) && !MayFinish(s) then Stopping(false) else BeatRead)
    case BeatReads => s.(pc := if s.row.status.Running? then Looping else Stopping(false))
    case StopChild(code) =>
      s.(child := if s.child.Alive? then Exited(code) else s.child, early := true, pc := EarlyRollback(s.pc.tidy))
    case RollBackEarly =>
      RollBack(s, Cancelled).(found := s.row, pc := if s.pc.tidy then EarlyRead else Returned(130))
    case ReadEarly => s.(pc := if Active(s.row.status) then EarlyFinish else Returned(130))
    case FinishEarly => Finish(s, Failed).(pc := Returned(130))
    case FinishCommit =>
      if !MayFinish(s) then s.(pc := LastRollback(Cancelled)) else Finish(s, Outcome(s.child)).(pc := FinishRead)
    case FinishReads =>
      s.(slipped := s.row.gen != s.gen, read := s.row.status,
         pc := if s.row.status.Cancelled? then LastRollback(Cancelled)
               else if s.row.status != Outcome(s.child) then LastRollback(Failed)
               else Returned(s.child.code))
    case RollBackLast => RollBack(s, s.pc.status).(pc := Returned(130))
  }

  predicate Init(s: State) {
    && s.row == Row(s.gen, Queued, false) && s.mine == Queued && s.child.None? && s.pc.Begin?
    && !s.early && !s.slipped && !s.invoked && !s.removed
  }

  ghost predicate IsRun(s: State, acts: seq<Action>)
    decreases |acts|
  {
    acts == [] || (Enabled(s, acts[0]) && IsRun(Next(s, acts[0]), acts[1..]))
  }

  ghost function Run(s: State, acts: seq<Action>): State
    requires IsRun(s, acts)
    decreases |acts|
  {
    if acts == [] then s else Run(Next(s, acts[0]), acts[1..])
  }

  // --- what every step keeps ---------------------------------------------------------------

  // Generations only go up, and the row tells this one's status while it has it.
  predicate Stored(s: State) {
    && s.row.gen >= s.gen
    && (s.row.gen == s.gen ==> s.row.status == s.mine)
    && (s.row.gen == s.gen && !s.pc.Begin? && !s.child.None? ==> s.row.ours)
    && (s.mine.Succeeded? ==> s.child == Exited(0))
  }

  predicate Launched(s: State) {
    && (s.pc.Begin? || s.pc.StartRead? || s.pc.Launching? ==> s.child.None?)
    && (s.pc.StartRead? && s.row.gen == s.gen && !s.row.ours ==> !Active(s.row.status))
    && (s.pc.Launching? && s.row.gen == s.gen ==> s.row.ours)
    && (s.pc.Looping? || s.pc.Gate? || s.pc.Gated? || s.pc.BeatRead? || s.pc.Stopping? ==> !s.child.None?)
    && (s.pc.Finishing? || s.pc.FinishRead? || s.pc.LastRollback? ==> s.child.Exited?)
    && (s.pc.EarlyRollback? || s.pc.EarlyRead? || s.pc.EarlyFinish? ==> s.child.Exited?)
    && (s.pc.Returned? ==> !s.child.Alive?)
    && (s.pc == Returned(0) ==> s.child == Exited(0))
    && (s.early ==> s.child.Exited?)
  }

  // Where the end of it stands.
  predicate Ending(s: State) {
    && (s.slipped ==> s.row.gen > s.gen && (s.pc.LastRollback? || s.pc.Returned?))
    && (s.slipped && s.pc.LastRollback? ==> s.read != Outcome(s.child))
    && (s.slipped && s.pc.Returned? ==> !s.early && s.child.Exited? && (s.invoked <==> s.read != Outcome(s.child)))
    && (s.slipped && s.pc.Returned? ==> s.pc.code == if s.invoked then 130 else s.child.code)
    && (s.removed ==> s.invoked)
    && (s.pc.FinishRead? ==> !s.early && !Active(s.mine) && (s.child == Exited(0) || s.mine != Succeeded))
    && (s.pc.EarlyRead? || s.pc.EarlyFinish? ==> s.early && s.invoked)
    && (s.pc.EarlyRollback? ==> s.early)
    && (s.early ==> s.pc.EarlyRollback? || s.pc.EarlyRead? || s.pc.EarlyFinish? || s.pc == Returned(130))
    && (s.pc.LastRollback? && !s.slipped && s.row.gen == s.gen ==> s.mine == s.pc.status)
    && (s.pc.LastRollback? ==> !s.early && !Active(s.pc.status))
    && (s.invoked ==> s.pc.EarlyRead? || s.pc.EarlyFinish? || s.pc == Returned(130))
    && (s.early && s.invoked ==> (s.removed <==> s.found.gen == s.gen && s.found.status == Cancelled))
    && (s.early && s.invoked ==> s.found.gen >= s.gen && s.row.gen >= s.found.gen)
    && (s.early && s.invoked && s.row.gen == s.gen && !Active(s.found.status) ==> s.mine == s.found.status)
    && (s.early && s.pc.Returned? ==> s.invoked)
    && (s.pc.Returned? && s.child.Exited? && !s.invoked ==> !s.early)
    && (s.pc.Returned? && s.child.Exited? && !s.slipped ==> s.invoked || s.mine == Outcome(s.child))
    && (s.pc.Returned? && s.child.Exited? && !s.slipped && !s.early && s.invoked && s.row.gen == s.gen ==> s.removed)
    && (s.pc.Returned? && s.child.Exited? && s.pc.code != 130 ==> s.pc.code == s.child.code)
    && (s.mine.Succeeded? ==> s.pc.FinishRead? || s.slipped || s.pc == Returned(0))
  }

  predicate Inv(s: State) { Stored(s) && Launched(s) && Ending(s) }

  lemma OutsideKeepsInv(s: State, act: Action)
    requires Inv(s) && Enabled(s, act) && Outside(act)
    ensures Inv(Next(s, act))
  {
  }

  predicate Starting(act: Action) {
    act.StartCommit? || act.StartReads? || act.LaunchOk? || act.LaunchFails? || act.Poll? || act.CheckGate?
    || act.SkipBeat? || act.BeatCommit? || act.BeatReads?
  }

  lemma StartKeepsInv(s: State, act: Action)
    requires Inv(s) && Enabled(s, act) && Starting(act)
    ensures Inv(Next(s, act))
  {
  }

  lemma EndKeepsInv(s: State, act: Action)
    requires Inv(s) && Enabled(s, act) && !Starting(act) && !Outside(act)
    ensures Inv(Next(s, act))
  {
  }

  lemma StepKeepsInv(s: State, act: Action)
    requires Inv(s) && Enabled(s, act)
    ensures Inv(Next(s, act)) && Next(s, act).gen == s.gen
  {
    assert Next(s, act).gen == s.gen;
    hide Inv, Next, Enabled;
    if Outside(act) {
      OutsideKeepsInv(s, act);
    } else if Starting(act) {
      StartKeepsInv(s, act);
    } else {
      EndKeepsInv(s, act);
    }
  }

  lemma {:induction false} RunKeepsInv(s: State, acts: seq<Action>)
    requires Inv(s) && IsRun(s, acts)
    ensures Inv(Run(s, acts)) && Run(s, acts).gen == s.gen
    decreases |acts|
  {
    if acts != [] {
      hide Inv, Next, Enabled;
      StepKeepsInv(s, acts[0]);
      RunKeepsInv(Next(s, acts[0]), acts[1..]);
    }
  }

  // --- the results ---------------------------------------------------------------------------

  /** Zero is returned only for an install that finished. It is returned for a job that
      did not succeed exactly when finish read a newer generation's success in its place,
      and something else for one that did exactly when it read anything else there. */
  lemma ZeroMeansSucceededExactly(s: State, acts: seq<Action>)
    requires Init(s) && IsRun(s, acts)
    ensures var n := Run(s, acts);
            n.pc.Returned? ==>
              && (n.pc.code == 0 ==> n.child == Exited(0))
              && (n.pc.code == 0 <==> if n.slipped then n.read == Succeeded && n.child == Exited(0) else n.mine == Succeeded)
              && (n.pc.code == 0 && n.mine != Succeeded <==>
                   n.slipped && n.read == Succeeded && n.child == Exited(0) && n.mine != Succeeded)
              && (n.pc.code != 0 && n.mine == Succeeded <==>
                   n.slipped && n.read != Succeeded && n.mine == Succeeded)
  {
    RunKeepsInv(s, acts);
  }

  /** An install that finished while its row did not succeed returns without a rollback
      asked for exactly when finish read a newer generation's success in its place; and
      one that was waited for is really detached, unless a newer generation has the row
      by then. */
  lemma NoInstallOutlivesItsJobExactly(s: State, acts: seq<Action>)
    requires Init(s) && IsRun(s, acts)
    ensures var n := Run(s, acts);
            n.pc.Returned? && n.child == Exited(0) && n.mine != Succeeded ==>
              && (!n.invoked <==> n.slipped && n.read == Succeeded)
              && (!n.early && n.row.gen == n.gen ==> n.removed)
  {
    RunKeepsInv(s, acts);
  }

  // A run of one state or more, each from the one before.
  ghost predicate Reaches(s: State, n: State) { exists acts :: IsRun(s, acts) && Run(s, acts) == n }

  lemma StepsTo(s: State, act: Action, n: State)
    requires Enabled(s, act) && Reaches(Next(s, act), n)
    ensures Reaches(s, n)
  {
    hide Next, Enabled;
    var rest :| IsRun(Next(s, act), rest) && Run(Next(s, act), rest) == n;
    assert ([act] + rest)[1..] == rest;
    assert IsRun(s, [act] + rest) && Run(s, [act] + rest) == n;
  }

  lemma StaysAt(s: State)
    ensures Reaches(s, s)
  {
    assert IsRun(s, []) && Run(s, []) == s;
  }

  // The start of every run that gets to the child.
  function ChildStarted(s: State): State
    requires Init(s)
  {
    s.(row := Row(s.gen, Running, true), mine := Running, child := Alive, pc := Looping)
  }

  lemma Starts(s: State, n: State)
    requires Init(s) && Reaches(ChildStarted(s), n)
    ensures Reaches(s, n)
  {
    var s1 := Next(s, StartCommit);
    var s2 := Next(s1, StartReads);
    assert Next(s2, LaunchOk) == ChildStarted(s);
    hide Reaches;
    StepsTo(s2, LaunchOk, n);
    StepsTo(s1, StartReads, n);
    StepsTo(s, StartCommit, n);
  }

  /** The exception happens: the reconciler fails the row, finish commits nothing, a new
      generation succeeds before finish reads, and zero is returned for a failed job. */
  lemma ANewerGenerationCanBeTakenForThisOne(s: State)
    requires Init(s)
    ensures exists n: State :: Reaches(s, n) && n.pc == Returned(0) && n.mine == Failed && n.slipped && !n.invoked
                               && n.row == Row(n.gen + 1, Succeeded, false)
  {
    hide Reaches;
    var c0 := ChildStarted(s);
    var c1 := Next(c0, ChildExits(0));
    var c2 := Next(c1, Poll);
    var c3 := Next(c2, Reconcile);
    var c4 := Next(c3, FinishCommit);
    var c5 := Next(c4, Supersede);
    var c6 := Next(c5, NewerMoves(Succeeded));
    var n := Next(c6, FinishReads);
    assert n.pc == Returned(0) && n.mine == Failed && n.slipped && !n.invoked;
    StaysAt(n);
    StepsTo(c6, FinishReads, n);
    StepsTo(c5, NewerMoves(Succeeded), n);
    StepsTo(c4, Supersede, n);
    StepsTo(c3, FinishCommit, n);
    StepsTo(c2, Reconcile, n);
    StepsTo(c1, Poll, n);
    StepsTo(c0, ChildExits(0), n);
    Starts(s, n);
  }

  /** A succeeded job can be reported as failed, and its install asked to go: finish
      commits, and reads the next generation's row before that has ended. */
  lemma ASucceededJobCanReturnNonZero(s: State)
    requires Init(s)
    ensures exists n: State :: Reaches(s, n) && n.pc == Returned(130) && n.mine == Succeeded && n.child == Exited(0)
                               && n.invoked && !n.removed
  {
    hide Reaches;
    var c0 := ChildStarted(s);
    var c1 := Next(c0, ChildExits(0));
    var c2 := Next(c1, Poll);
    var c3 := Next(c2, FinishCommit);
    var c4 := Next(c3, Supersede);
    var c5 := Next(c4, FinishReads);
    var n := Next(c5, RollBackLast);
    assert n.pc == Returned(130) && n.mine == Succeeded && n.invoked && !n.removed && n.child == Exited(0);
    StaysAt(n);
    StepsTo(c5, RollBackLast, n);
    StepsTo(c4, FinishReads, n);
    StepsTo(c3, Supersede, n);
    StepsTo(c2, FinishCommit, n);
    StepsTo(c1, Poll, n);
    StepsTo(c0, ChildExits(0), n);
    Starts(s, n);
  }

  /** A stopped install is detached exactly when the row its rollback met had this
      generation and read cancelled. Of one whose job has the row in the end, that is:
      exactly when the job ends cancelled and had ended before the rollback. */
  lemma AStoppedInstallGoesExactly(s: State, acts: seq<Action>)
    requires Init(s) && IsRun(s, acts)
    ensures var n := Run(s, acts);
            n.pc.Returned? && n.early ==>
              && n.invoked && (n.removed <==> n.found.gen == n.gen && n.found.status == Cancelled)
              && (n.row.gen == n.gen ==>
                   (n.removed <==> n.row.status == Cancelled && !Active(n.found.status)))
  {
    RunKeepsInv(s, acts);
  }

  /** So a cancellation that comes after the rollback leaves a cancelled job's finished
      install in place. */
  lemma ALateCancelLeavesIt(s: State)
    requires Init(s)
    ensures exists n: State :: Reaches(s, n) && n.pc == Returned(130) && n.child == Exited(0)
                               && n.row == Row(n.gen, Cancelled, true) && n.invoked && !n.removed
  {
    hide Reaches;
    var c0 := ChildStarted(s);
    var c1 := Next(c0, Poll);
    var c2 := Next(c1, CheckGate(true));
    var c3 := Next(c2, ChildExits(0));
    var c4 := Next(c3, StopChild(1));
    var c5 := Next(c4, RollBackEarly);
    var c6 := Next(c5, Cancel);
    var n := Next(c6, ReadEarly);
    assert n.pc == Returned(130) && n.child == Exited(0) && n.row == Row(n.gen, Cancelled, true) && n.invoked && !n.removed;
    StaysAt(n);
    StepsTo(c6, ReadEarly, n);
    StepsTo(c5, Cancel, n);
    StepsTo(c4, RollBackEarly, n);
    StepsTo(c3, StopChild(1), n);
    StepsTo(c2, ChildExits(0), n);
    StepsTo(c1, CheckGate(true), n);
    StepsTo(c0, Poll, n);
    Starts(s, n);
  }

  /** Otherwise, asking is not removing: of a job the reconciler had
      failed, an install that finished just before it was stopped stays in place. */
  lemma AStoppedInstallCanStay(s: State)
    requires Init(s)
    ensures exists n: State :: Reaches(s, n) && n.pc == Returned(130) && n.child == Exited(0) && n.mine == Failed
                               && n.row.gen == n.gen && n.invoked && !n.removed
  {
    hide Reaches;
    var c0 := ChildStarted(s);
    var c1 := Next(c0, Poll);
    var c2 := Next(c1, Reconcile);
    var c3 := Next(c2, CheckGate(false));
    var c4 := Next(c3, ChildExits(0));
    var c5 := Next(c4, StopChild(1));
    var c6 := Next(c5, RollBackEarly);
    var n := Next(c6, ReadEarly);
    assert n.pc == Returned(130) && n.child == Exited(0) && n.mine == Failed && n.row.gen == n.gen && !n.removed;
    StaysAt(n);
    StepsTo(c6, ReadEarly, n);
    StepsTo(c5, RollBackEarly, n);
    StepsTo(c4, StopChild(1), n);
    StepsTo(c3, ChildExits(0), n);
    StepsTo(c2, CheckGate(false), n);
    StepsTo(c1, Reconcile, n);
    StepsTo(c0, Poll, n);
    Starts(s, n);
  }

  // --- the program's own loop -------------------------------------------------------------------

  lemma {:induction false} OneMoreStep(s: State, acts: seq<Action>, act: Action)
    requires IsRun(s, acts) && Enabled(Run(s, acts), act)
    ensures IsRun(s, acts + [act]) && Run(s, acts + [act]) == Next(Run(s, acts), act)
    decreases |acts|
  {
    if acts == [] {
      assert IsRun(Next(s, act), []);
      assert [] + [act] == [act] && [act][1..] == [];
    } else {
      assert (acts + [act])[1..] == acts[1..] + [act];
      OneMoreStep(Next(s, acts[0]), acts[1..], act);
    }
  }

  // What the store's other users and the child leave alone.
  predicate SamePlace(a: State, b: State) {
    && b == a.(row := b.row, mine := b.mine, child := b.child)
    && (a.child.Alive? || b.child == a.child) && !(a.child.Alive? && b.child.None?)
  }

  /** The supervisor as it is written, between whose steps anything may happen: it takes
      the machine's steps and no others. */
  class Supervisor {
    ghost const start: State
    ghost var acts: seq<Action>
    var s: State

    ghost predicate Valid()
      reads this
    {
      Init(start) && IsRun(start, acts) && Run(start, acts) == s
    }

    constructor (gen: int)
      ensures Valid() && s.gen == gen && s.pc.Begin?
    {
      var zero := State(gen, Row(gen, Queued, false), Queued, None, Begin, false, false, Queued, false, false,
                        Row(gen, Queued, false));
      start, acts, s := zero, [], zero;
    }

    method Take(act: Action)
      requires Valid() && Enabled(s, act)
      modifies this
      ensures Valid() && s == Next(old(s), act)
    {
      OneMoreStep(start, acts, act);
      s := Next(s, act);
      acts := acts + [act];
    }

    method Elsewhere()
      requires Valid()
      modifies this
      ensures Valid() && SamePlace(old(s), s)
    {
      hide Valid;
      var n: int := *;
      for i := 0 to if n < 0 then 0 else n
        invariant Valid() && SamePlace(old(s), s)
      {
        var act: Action := *;
        if Outside(act) && Enabled(s, act) {
          Take(act);
        }
      }
    }

    // The store's own moves first, then one of the supervisor's.
    method Step(act: Action)
      requires Valid() && !Outside(act) && Enabled(s, act)
      modifies this
      ensures Valid()
      ensures exists b :: SamePlace(old(s), b) && Enabled(b, act) && s == Next(b, act)
    {
      Elsewhere();
      Take(act);
    }

    /** Runs until it returns, or for the given number of polls. */
    method Supervise(polls: nat) returns (code: int, done: bool)
      requires Valid() && s.pc.Begin? && s.child.None?
      modifies this
      ensures Valid()
      ensures done ==> s.pc == Returned(code)
      ensures done && code == 0 ==> s.child == Exited(0)
      ensures done && !(s.slipped && s.read == Succeeded) && code == 0 ==> s.mine == Succeeded
      ensures done && !(s.slipped && s.read != Succeeded) && s.mine == Succeeded ==> code == 0
    {
      hide Valid, Inv;
      StartUp();
      for i := 0 to polls
        invariant Valid() && (s.pc.Looping? || s.pc.Finishing? || s.pc.Stopping? || s.pc.Returned?)
        invariant s.pc.Looping? ==> !s.child.None?
        invariant s.pc.Finishing? ==> s.child.Exited?
      {
        if !s.pc.Looping? {
          break;
        }
        Round();
      }
      if s.pc.Stopping? {
        StopEarly();
      } else if s.pc.Finishing? {
        FinishUp();
      }
      done := s.pc.Returned?;
      code := if done then s.pc.code else 0;
      Ends();
    }

    method StartUp()
      requires Valid() && s.pc.Begin? && s.child.None?
      modifies this
      ensures Valid() && (s.pc.Returned? || (s.pc.Looping? && !s.child.None?))
    {
      hide Valid;
      Step(StartCommit);
      if s.pc.StartRead? {
        Step(StartReads);
      }
      if s.pc.Launching? {
        var launched: bool := *;
        if !launched {
          Step(LaunchFails);
        } else {
          Step(LaunchOk);
        }
      }
    }

    method Round()
      requires Valid() && s.pc.Looping? && !s.child.None?
      modifies this
      ensures Valid() && !s.child.None?
      ensures s.pc.Looping? || (s.pc.Finishing? && s.child.Exited?) || s.pc.Stopping?
    {
      hide Valid;
      Step(Poll);
      if s.pc.Gate? {
        var stop: bool := *;
        Step(CheckGate(stop));
        if s.pc.Gated? {
          Beat();
        }
      }
    }

    // The heartbeat, when one is due.
    method Beat()
      requires Valid() && s.pc.Gated? && !s.child.None?
      modifies this
      ensures Valid() && !s.child.None? && (s.pc.Looping? || s.pc.Stopping?)
    {
      hide Valid;
      var due: bool := *;
      if due {
        Step(BeatCommit);
        if s.pc.BeatRead? {
          Step(BeatReads);
        }
      } else {
        Step(SkipBeat);
      }
    }

    method StopEarly()
      requires Valid() && s.pc.Stopping?
      modifies this
      ensures Valid() && s.pc.Returned?
    {
      hide Valid;
      var killed: int := *;
      Step(StopChild(killed));
      Step(RollBackEarly);
      if s.pc.EarlyRead? {
        Step(ReadEarly);
      }
      if s.pc.EarlyFinish? {
        Step(FinishEarly);
      }
    }

    method FinishUp()
      requires Valid() && s.pc.Finishing? && s.child.Exited?
      modifies this
      ensures Valid() && s.pc.Returned?
    {
      hide Valid;
      Step(FinishCommit);
      if s.pc.FinishRead? {
        Step(FinishReads);
      }
      if s.pc.LastRollback? {
        Step(RollBackLast);
      }
    }

    lemma Ends()
      requires Valid()
      ensures s.pc == Returned(0) ==> s.child == Exited(0)
      ensures s.pc.Returned? && !(s.slipped && s.read == Succeeded) && s.pc.code == 0 ==> s.mine == Succeeded
      ensures s.pc.Returned? && !(s.slipped && s.read != Succeeded) && s.mine == Succeeded ==> s.pc.code == 0
    {
      ZeroMeansSucceededExactly(start, acts);
    }
  }
}
