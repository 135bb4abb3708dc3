/** The watcher's runs: every interleaving of its steps with crashes, restarts and
    the job being taken from it, and its own loops as runs of that machine. */
module CallWatchRuns {
  import opened CallWatch

  // Where the one watcher process stands; only the seen file outlives it.
  datatype Proc =
    | Down
    | Top(gen: int, seen: set<string>)                      // before the loop's ownership check
    | Scanning(gen: int, seen: set<string>)
    | Asking(gen: int, seen: set<string>, stem: string)     // before the check of its own for this call
    | Cleared(gen: int, seen: set<string>, stem: string)    // it said 0
    | Adding(gen: int, seen: set<string>)                   // seen has the call; the file not yet

  datatype Event = Owned(gen: int, status: int) | Sent(gen: int, stem: string)

  datatype State = State(
    proc: Proc,
    file: string,                 // reported_calls.txt; none reads as the empty text
    fenced: set<int>,             // generations ended or superseded
    admitted: seq<string>,        // what the Host acted on, in order
    trace: seq<Event>)

  // Seconds of each call, fixed once its summary is there.
  type Calls = string -> real

  predicate Short(calls: Calls, stem: string) { calls(stem) <= 15.0 }

  datatype Action =
    | Start(gen: int)                                  // registered under a new generation
    | LoopCheck(status: int)
    | Found(stem: string)                              // a finished call in the journals
    | FreshCheck(status: int)
    | Send(reached: bool, confirmed: bool)             // the request may be lost, or the receipt
    | Save(names: seq<string>)
    | EndScan
    | Crash
    | Fence(gen: int)

  // A generation that has ended never answers 0 again; one that has not, never 1.
  predicate Answers(s: State, gen: int, status: int) {
    (status == 0 ==> gen !in s.fenced) && (status == 1 ==> gen in s.fenced)
  }

  predicate Enabled(calls: Calls, s: State, act: Action) {
    match act
    case Start(gen) => s.proc.Down? && gen !in s.fenced
    case LoopCheck(status) => s.proc.Top? && Answers(s, s.proc.gen, status)
    case Found(stem) => s.proc.Scanning? && stem !in s.proc.seen
    case FreshCheck(status) => s.proc.Asking? && Answers(s, s.proc.gen, status)
    case Send(reached, confirmed) => s.proc.Cleared? && (confirmed ==> reached)
    case Save(names) => s.proc.Adding? && AsSet(names) == s.proc.seen
    case EndScan => s.proc.Scanning?
    case Crash => true
    case Fence(_) => true
  }

  // The Host acts once on each request id, which is the call's own.
  function Admit(admitted: seq<string>, stem: string): seq<string> {
    if stem in admitted then admitted else admitted + [stem]
  }

  function After(status: int, good: Proc, retry: Proc): Proc {
    if status == 0 then good else if status == 1 then Down else retry
  }

  function Next(calls: Calls, s: State, act: Action): State
    requires Enabled(calls, s, act)
  {
    match act
    case Start(gen) => s.(proc := Top(gen, Split(s.file)))
    case LoopCheck(status) =>
      var p := s.proc;
      s.(proc := After(status, Scanning(p.gen, p.seen), p), trace := s.trace + [Owned(p.gen, status)])
    case Found(stem) =>
      var p := s.proc;
      s.(proc := if Short(calls, stem) then Adding(p.gen, p.seen + {stem}) else Asking(p.gen, p.seen, stem))
    case FreshCheck(status) =>
      var p := s.proc;
      s.(proc := After(status, Cleared(p.gen, p.seen, p.stem), Top(p.gen, p.seen)),
         trace := s.trace + [Owned(p.gen, status)])
    case Send(reached, confirmed) =>
      var p := s.proc;
      s.(proc := if confirmed then Adding(p.gen, p.seen + {p.stem}) else Top(p.gen, p.seen),
         admitted := if reached then Admit(s.admitted, p.stem) else s.admitted,
         trace := s.trace + [Sent(p.gen, p.stem)])
    case Save(names) => s.(proc := Scanning(s.proc.gen, s.proc.seen), file := Saved(names))
    case EndScan => s.(proc := Top(s.proc.gen, s.proc.seen))
    case Crash => s.(proc := Down)
    case Fence(gen) => s.(fenced := s.fenced + {gen})
  }

  predicate Init(s: State) { s.proc.Down? && s.file == "" && s.admitted == [] && s.trace == [] }

  ghost predicate IsRun(calls: Calls, s: State, acts: seq<Action>)
    decreases |acts|
  {
    acts == [] || (Enabled(calls, s, acts[0]) && IsRun(calls, Next(calls, s, acts[0]), acts[1..]))
  }

  ghost function Run(calls: Calls, s: State, acts: seq<Action>): State
    requires IsRun(calls, s, acts)
    decreases |acts|
  {
    if acts == [] then s else Run(calls, Next(calls, s, acts[0]), acts[1..])
  }

  lemma {:induction false} OneMoreStep(calls: Calls, s: State, acts: seq<Action>, act: Action)
    requires IsRun(calls, s, acts) && Enabled(calls, Run(calls, s, acts), act)
    ensures IsRun(calls, s, acts + [act])
    ensures Run(calls, s, acts + [act]) == Next(calls, Run(calls, s, acts), act)
    decreases |acts|
  {
    if acts == [] {
      assert [] + [act] == [act] && [act][1..] == [];
      assert IsRun(calls, Next(calls, s, act), []);
    } else {
      assert (acts + [act])[1..] == acts[1..] + [act];
      OneMoreStep(calls, Next(calls, s, acts[0]), acts[1..], act);
    }
  }

  // --- what every step keeps -----------------------------------------------------------------

  // Short, or the Host has acted on it.
  predicate Handled(calls: Calls, s: State, stem: string) { Short(calls, stem) || stem in s.admitted }

  // A word of another name.
  ghost predicate Piece(names: iset<string>, w: string) { exists d :: IsPiece(names, d, w) }

  predicate IsPiece(names: iset<string>, d: string, w: string) { d in names && d != w && w in Split(d) }

  ghost predicate AllKnown(calls: Calls, names: iset<string>, s: State, stems: set<string>) {
    forall stem :: stem in stems ==> Handled(calls, s, stem) || Piece(names, stem)
  }

  // Read from the file, or one of the names.
  ghost predicate AllNames(names: iset<string>, stems: set<string>) {
    forall stem :: stem in stems ==> Plain(stem) || stem in names
  }

  function Memory(p: Proc): set<string> { if p.Down? then {} else p.seen }

  ghost predicate Ledger(calls: Calls, names: iset<string>, s: State) {
    && AllKnown(calls, names, s, Memory(s.proc) + Split(s.file)) && AllNames(names, Memory(s.proc))
    && (s.proc.Asking? || s.proc.Cleared? ==> s.proc.stem in names && !Short(calls, s.proc.stem))
  }

  ghost predicate Once(calls: Calls, s: State) {
    && (forall i, j :: 0 <= i < j < |s.admitted| ==> s.admitted[i] != s.admitted[j])
    && (forall i :: 0 <= i < |s.admitted| ==> !Short(calls, s.admitted[i]))
    && (forall i :: 0 <= i < |s.admitted| ==> WasSent(s.trace, s.admitted[i]))
  }

  ghost predicate WasSent(trace: seq<Event>, stem: string) {
    exists i :: 0 <= i < |trace| && trace[i].Sent? && trace[i].stem == stem
  }

  ghost predicate SendsFollowOwnership(trace: seq<Event>) {
    forall i :: 0 <= i < |trace| && trace[i].Sent? ==> i > 0 && trace[i - 1] == Owned(trace[i].gen, 0)
  }

  ghost predicate EndsAreFinal(trace: seq<Event>) {
    forall i, j :: 0 <= i < j < |trace| && trace[i].Owned? && trace[i].status == 1 ==> trace[j].gen != trace[i].gen
  }

  ghost predicate Protocol(s: State) {
    && SendsFollowOwnership(s.trace) && EndsAreFinal(s.trace)
    && (s.proc.Cleared? ==> s.trace != [] && s.trace[|s.trace| - 1] == Owned(s.proc.gen, 0))
    && (forall i :: 0 <= i < |s.trace| && s.trace[i].Owned? && s.trace[i].status == 1 ==>
         s.trace[i].gen in s.fenced && (!s.proc.Down? ==> s.trace[i].gen != s.proc.gen))
  }

  ghost predicate Inv(calls: Calls, names: iset<string>, s: State) {
    Ledger(calls, names, s) && Once(calls, s) && Protocol(s)
  }

  // The calls a run comes upon.
  ghost predicate Over(acts: seq<Action>, names: iset<string>) {
    forall i :: 0 <= i < |acts| && acts[i].Found? ==> acts[i].stem in names
  }

  lemma AdmitKeeps(admitted: seq<string>, stem: string)
    ensures stem in Admit(admitted, stem) && forall x :: x in admitted ==> x in Admit(admitted, stem)
    ensures forall x :: x in Admit(admitted, stem) ==> x in admitted || x == stem
  {
  }

  lemma StepKeepsLedger(calls: Calls, names: iset<string>, s: State, act: Action)
    requires Ledger(calls, names, s) && Enabled(calls, s, act) && (act.Found? ==> act.stem in names)
    ensures Ledger(calls, names, Next(calls, s, act))
  {
    hide Split, Saved, Plain, Piece;
    match act
    case Save(list) => SavedAreKnown(calls, names, s, list);
    case Start(_) => WordsPlain(s.file);
    case Send(reached, _) =>
      AdmitKeeps(s.admitted, s.proc.stem);
      var n := Next(calls, s, act);
      assert forall stem :: Handled(calls, s, stem) ==> Handled(calls, n, stem);
    case _ =>
  }

  lemma WordsPlain(text: string)
    ensures forall w :: w in Split(text) ==> Plain(w)
  {
    WordsArePlain(text, "");
  }

  // What is saved comes back whole or in pieces.
  lemma SavedAreKnown(calls: Calls, names: iset<string>, s: State, list: seq<string>)
    requires AllKnown(calls, names, s, AsSet(list)) && AllNames(names, AsSet(list))
    ensures AllKnown(calls, names, s, Split(Saved(list)))
  {
    WordsPlain(Saved(list));
    hide Split, Saved, Plain, Handled;
    forall w | w in Split(Saved(list))
      ensures Handled(calls, s, w) || Piece(names, w)
    {
      SavedWords(list, w);
      var i :| 0 <= i < |list| && w in Split(list[i]);
      assert list[i] in AsSet(list);
      if Plain(list[i]) {
        PlainIsOneWord(list[i]);
      } else {
        assert IsPiece(names, list[i], w);
      }
    }
  }

  lemma SentStays(trace: seq<Event>, e: Event, stem: string)
    requires WasSent(trace, stem) || (e.Sent? && e.stem == stem)
    ensures WasSent(trace + [e], stem)
  {
    if WasSent(trace, stem) {
      var i :| 0 <= i < |trace| && trace[i].Sent? && trace[i].stem == stem;
      assert (trace + [e])[i] == trace[i];
    } else {
      assert (trace + [e])[|trace|] == e;
    }
  }

  lemma StepKeepsOnce(calls: Calls, names: iset<string>, s: State, act: Action)
    requires Ledger(calls, names, s) && Once(calls, s) && Enabled(calls, s, act)
    ensures Once(calls, Next(calls, s, act))
  {
    hide Split, Saved;
    var n := Next(calls, s, act);
    if n.trace != s.trace {
      var e := n.trace[|s.trace|];
      forall i | 0 <= i < |n.admitted|
        ensures WasSent(n.trace, n.admitted[i])
      {
        SentStays(s.trace, e, n.admitted[i]);
      }
    }
  }

  lemma StepKeepsProtocol(calls: Calls, s: State, act: Action)
    requires Protocol(s) && Enabled(calls, s, act)
    ensures Protocol(Next(calls, s, act))
  {
    hide Split, Saved;
  }

  lemma {:induction false} RunKeepsInv(calls: Calls, names: iset<string>, s: State, acts: seq<Action>)
    requires Inv(calls, names, s) && IsRun(calls, s, acts) && Over(acts, names)
    ensures Inv(calls, names, Run(calls, s, acts))
    decreases |acts|
  {
    if acts != [] {
      assert acts[0].Found? ==> acts[0].stem in names;
      StepKeepsLedger(calls, names, s, acts[0]);
      StepKeepsOnce(calls, names, s, acts[0]);
      StepKeepsProtocol(calls, s, acts[0]);
      assert Over(acts[1..], names) by {
        assert forall i :: 0 <= i < |acts| - 1 ==> acts[1..][i] == acts[i + 1];
      }
      hide Ledger, Once, Protocol, Next, Enabled;
      RunKeepsInv(calls, names, Next(calls, s, acts[0]), acts[1..]);
    }
  }

  lemma {:induction false} RunKeepsProtocol(calls: Calls, s: State, acts: seq<Action>)
    requires Protocol(s) && IsRun(calls, s, acts)
    ensures Protocol(Run(calls, s, acts))
    decreases |acts|
  {
    if acts != [] {
      StepKeepsProtocol(calls, s, acts[0]);
      hide Protocol, Next, Enabled;
      RunKeepsProtocol(calls, Next(calls, s, acts[0]), acts[1..]);
    }
  }

  // --- the results ------------------------------------------------------------------------------

  /** At any moment, with crashes anywhere: what the seen file or the running process
      takes for done is a short call, one the Host acted on, or a piece of some other
      name; the Host acted on a call at most once, and only on long ones sent to it. */
  lemma DeliveryIsExactlyOnce(calls: Calls, names: iset<string>, s: State, acts: seq<Action>)
    requires Init(s) && IsRun(calls, s, acts) && Over(acts, names)
    ensures var n := Run(calls, s, acts);
            && (forall stem :: stem in Split(n.file) + Memory(n.proc) ==>
                 Short(calls, stem) || stem in n.admitted || Piece(names, stem))
            && (forall i, j :: 0 <= i < j < |n.admitted| ==> n.admitted[i] != n.admitted[j])
            && (forall stem :: stem in n.admitted ==> !Short(calls, stem) && WasSent(n.trace, stem))
  {
    assert Split("") == {};
    RunKeepsInv(calls, names, s, acts);
  }

  ghost predicate Reaches(calls: Calls, names: iset<string>, s: State, n: State) {
    exists acts :: IsRun(calls, s, acts) && Over(acts, names) && Run(calls, s, acts) == n
  }

  lemma ReachesItself(calls: Calls, names: iset<string>, s: State)
    ensures Reaches(calls, names, s, s)
  {
    assert IsRun(calls, s, []) && Over([], names) && Run(calls, s, []) == s;
  }

  lemma ReachesNext(calls: Calls, names: iset<string>, s: State, n: State, act: Action) returns (next: State)
    requires Reaches(calls, names, s, n) && Enabled(calls, n, act) && (act.Found? ==> act.stem in names)
    ensures next == Next(calls, n, act) && Reaches(calls, names, s, next)
  {
    next := Next(calls, n, act);
    var acts :| IsRun(calls, s, acts) && Over(acts, names) && Run(calls, s, acts) == n;
    OneMoreStep(calls, s, acts, act);
    assert Over(acts + [act], names);
  }

  // No call of these is taken for done without being short or acted on.
  ghost predicate NonePassedOver(calls: Calls, names: iset<string>, s: State) {
    forall stem :: stem in names && stem in Split(s.file) + Memory(s.proc) ==> Handled(calls, s, stem)
  }

  ghost predicate NeverPassesOver(calls: Calls, names: iset<string>) {
    forall s, n :: Init(s) && Reaches(calls, names, s, n) ==> NonePassedOver(calls, names, n)
  }

  // Split at its whitespace, no name gives another long call's name.
  ghost predicate NoPieceIsACall(calls: Calls, names: iset<string>) {
    forall d, w :: IsPiece(names, d, w) && w in names ==> Short(calls, w)
  }

  /** No run that comes upon these calls passes one over exactly when no word of a
      name with whitespace in it is another long call's name; names without
      whitespace, such as the journal's own, always meet that. */
  lemma NoCallIsPassedOverExactly(calls: Calls, names: iset<string>)
    ensures NeverPassesOver(calls, names) <==> NoPieceIsACall(calls, names)
    ensures (forall d :: d in names ==> Plain(d)) ==> NoPieceIsACall(calls, names)
  {
    hide Split, Enabled, Next, IsRun, Run;
    if NoPieceIsACall(calls, names) {
      forall s, n | Init(s) && Reaches(calls, names, s, n)
        ensures NonePassedOver(calls, names, n)
      {
        var acts :| IsRun(calls, s, acts) && Over(acts, names) && Run(calls, s, acts) == n;
        DeliveryIsExactlyOnce(calls, names, s, acts);
      }
    } else {
      var d, w :| IsPiece(names, d, w) && w in names && !Short(calls, w);
      var s, n := APieceOfANameHidesACall(calls, names, d, w);
    }
    if forall d :: d in names ==> Plain(d) {
      forall d, w
        ensures !IsPiece(names, d, w)
      {
        if d in names {
          PlainIsOneWord(d);
        }
      }
    }
  }

  /** A name with whitespace in it, once saved, comes back in pieces after a restart,
      and a call named like a piece is never reviewed. */
  lemma APieceOfANameHidesACall(calls: Calls, names: iset<string>, d: string, w: string) returns (s: State, n: State)
    requires IsPiece(names, d, w) && w in names && !Short(calls, w)
    ensures Init(s) && Reaches(calls, names, s, n) && n.proc.Scanning?
    ensures w in n.proc.seen && !Handled(calls, n, w) && !Enabled(calls, n, Found(w))
  {
    assert Split("") == {};
    OneName([d]);
    assert [d][1..] == [] && AsSet([d]) == {d};
    SavedWords([d], w);
    assert w in Split(Saved([d])) by { assert w in Split([d][0]); }
    hide Split, Saved, Reaches;
    s := State(Down, "", {}, [], []);
    ReachesItself(calls, names, s);
    n := ReachesNext(calls, names, s, s, Start(0));
    n := ReachesNext(calls, names, s, n, LoopCheck(0));
    n := ReachesNext(calls, names, s, n, Found(d));
    if !Short(calls, d) {
      n := ReachesNext(calls, names, s, n, FreshCheck(0));
      n := ReachesNext(calls, names, s, n, Send(true, true));
    }
    assert n.proc == Adding(0, {d}) && n.fenced == {} && w !in n.admitted;
    n := ReachesNext(calls, names, s, n, Save([d]));
    n := ReachesNext(calls, names, s, n, Crash);
    n := ReachesNext(calls, names, s, n, Start(0));
    n := ReachesNext(calls, names, s, n, LoopCheck(0));
  }

  /** Every send comes right after an answer that its generation owns the job, and
      once a generation was answered to have ended, it does nothing any more. */
  lemma NothingIsSentWithoutOwnership(calls: Calls, s: State, acts: seq<Action>)
    requires Init(s) && IsRun(calls, s, acts)
    ensures var trace := Run(calls, s, acts).trace;
            && (forall i :: 0 <= i < |trace| && trace[i].Sent? ==> i > 0 && trace[i - 1] == Owned(trace[i].gen, 0))
            && (forall i, j :: 0 <= i < j < |trace| && trace[i].Owned? && trace[i].status == 1 ==>
                 trace[j].gen != trace[i].gen)
  {
    RunKeepsProtocol(calls, s, acts);
  }

  // The call is in the file, and any process there is knows it.
  ghost predicate Settled(s: State, stem: string) {
    && stem in Split(s.file) && (!s.proc.Down? ==> stem in s.proc.seen)
    && (s.proc.Asking? || s.proc.Cleared? ==> s.proc.stem != stem)
  }

  lemma StepKeepsSettled(calls: Calls, s: State, act: Action, stem: string)
    requires Settled(s, stem) && Enabled(calls, s, act)
    ensures Settled(Next(calls, s, act), stem)
    ensures var n := Next(calls, s, act);
            s.trace <= n.trace && forall i :: |s.trace| <= i < |n.trace| ==> !(n.trace[i].Sent? && n.trace[i].stem == stem)
  {
    if act.Save? {
      WordsPlain(s.file);
      PlainIsOneWord(stem);
      var i :| 0 <= i < |act.names| && act.names[i] == stem;
      SavedWords(act.names, stem);
      assert stem in Split(act.names[i]);
    }
    hide Split, Saved;
  }

  /** Once a call is in the seen file it stays there, and no run sends it again. */
  lemma {:induction false} SeenIsNeverSentAgain(calls: Calls, s: State, acts: seq<Action>, stem: string)
    requires Settled(s, stem) && IsRun(calls, s, acts)
    ensures var n := Run(calls, s, acts);
            && stem in Split(n.file) && s.trace <= n.trace
            && forall i :: |s.trace| <= i < |n.trace| ==> !(n.trace[i].Sent? && n.trace[i].stem == stem)
    decreases |acts|
  {
    if acts != [] {
      StepKeepsSettled(calls, s, acts[0], stem);
      hide Next, Enabled, Settled, Split;
      SeenIsNeverSentAgain(calls, Next(calls, s, acts[0]), acts[1..], stem);
    }
  }

  // --- the program's own loops -------------------------------------------------------------------

  /** The process and its loops: whatever the journals hold and the Host answers, they
      take the machine's steps and no others, so a stretch of them is part of a run. */
  class Watcher {
    const calls: Calls
    ghost const start: State
    ghost var acts: seq<Action>
    var s: State

    ghost predicate Valid()
      reads this
    {
      Init(start) && IsRun(calls, start, acts) && Run(calls, start, acts) == s
    }

    constructor (calls: Calls)
      ensures Valid() && s.proc.Down? && acts == [] && this.calls == calls
    {
      var zero := State(Down, "", {}, [], []);
      this.calls := calls;
      start, acts, s := zero, [], zero;
    }

    method Take(act: Action)
      requires Valid() && Enabled(calls, s, act)
      modifies this
      ensures Valid() && s == Next(calls, old(s), act) && acts == old(acts) + [act]
    {
      OneMoreStep(calls, start, acts, act);
      s := Next(calls, s, act);
      acts := acts + [act];
    }

    // job-active, whose answer is the store's; the job may have been ended since.
    method Ask(gen: int) returns (status: int)
      requires Valid()
      modifies this
      ensures Valid() && old(acts) <= acts
      ensures Answers(s, gen, status) && s == old(s).(fenced := s.fenced)
    {
      var ended: bool := *;
      if ended {
        Take(Fence(gen));
      }
      var known: bool := *;
      status := if !known then 2 else if gen in s.fenced then 1 else 0;
    }

    // sorted(seen), in some order.
    method Names(seen: set<string>) returns (names: seq<string>)
      ensures AsSet(names) == seen
    {
      names := [];
      var left := seen;
      while left != {}
        invariant left <= seen && AsSet(names) == seen - left
        decreases left
      {
        var name :| name in left;
        OneName([name] + names);
        assert ([name] + names)[1..] == names;
        names, left := [name] + names, left - {name};
      }
    }

    method Scan(paths: seq<string>) returns (status: int)
      requires Valid() && s.proc.Scanning?
      modifies this
      ensures Valid() && old(acts) <= acts
      ensures status == 0 ==> s.proc.Scanning?
      ensures status == 1 ==> s.proc.Down?
      ensures status != 0 && status != 1 ==> s.proc.Top? && s.proc.gen == old(s.proc.gen)
      ensures s.proc.Scanning? ==> s.proc.gen == old(s.proc.gen)
    {
      hide Valid, Split, Saved;
      for i := 0 to |paths|
        invariant Valid() && old(acts) <= acts && s.proc.Scanning? && s.proc.gen == old(s.proc.gen)
      {
        // Older than the boundary, still being written, or not readable.
        var passed: bool := *;
        if paths[i] in s.proc.seen || passed {
          continue;
        }
        Take(Found(paths[i]));
        if calls(paths[i]) <= 15.0 {
          var names := Names(s.proc.seen);
          Take(Save(names));
          continue;
        }
        status := Ask(s.proc.gen);
        Take(FreshCheck(status));
        if status != 0 {
          return;
        }
        var reached: bool, receipt: bool := *, *;
        Take(Send(reached, reached && receipt));
        if !(reached && receipt) {
          return 2;
        }
        var names := Names(s.proc.seen);
        Take(Save(names));
      }
      status := 0;
    }

    /** From a new registration on, for as many rounds as the process lives. */
    method Watch(gen: int, rounds: seq<seq<string>>) returns (stopped: bool)
      requires Valid() && s.proc.Down? && gen !in s.fenced
      modifies this
      ensures Valid() && old(acts) <= acts
      ensures stopped ==> s.proc.Down?
      ensures SendsFollowOwnership(s.trace) && EndsAreFinal(s.trace)
    {
      Take(Start(gen));
      var delay, uncertain := 5, false;
      hide Valid, Split;
      stopped := false;
      for i := 0 to |rounds|
        invariant Valid() && old(acts) <= acts && s.proc.Top? && s.proc.gen == gen && 5 <= delay <= 60
      {
        var status := Ask(gen);
        Take(LoopCheck(status));
        if status == 0 {
          uncertain := false;
          status := Scan(rounds[i]);
          if status == 0 {
            Take(EndScan);
          }
        }
        if status == 1 {
          stopped := true;
          break;
        }
        if status != 0 {
          uncertain := true;
          delay := if delay * 2 < 60 then delay * 2 else 60;
        } else {
          delay := 5;
        }
      }
      assert Protocol(s) by { TraceIsSafe(); }
    }

    lemma TraceIsSafe()
      requires Valid()
      ensures Protocol(s)
    {
      RunKeepsProtocol(calls, start, acts);
    }
  }
}
