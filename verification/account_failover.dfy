/** One account pool's recovery coordinator (server/lib/account_failover.py).

    Every `with self.lock:` block of the source is one function on `Coord`, the
    coordinator's fields together with the flags of the attempts it knows and a
    record of the callbacks it ran.  The class at the end is the source's object:
    its methods change the fields in place and are proved to compute those
    functions.  What holds over every interleaving is proved in FailoverMachine. */
module AccountFailover {
  import opened FailoverPlan
  import opened Wrappers

  const RECHECK_SECONDS := 60.0
  const MAX_PARK_SECONDS := 1800.0
  const CARRIED_WORK_WAIT_SECONDS := 120.0
  const CARRIED_WORK_POLL_SECONDS := 1.0
  const SETTINGS := Settings(RECHECK_SECONDS, MAX_PARK_SECONDS)

  // The identity of an Attempt object and its constant fields.
  datatype Attempt = Attempt(id: nat, agent: string, trace: string, model: string)

  function Key(a: Attempt): (string, string) { (a.agent, a.trace) }

  // A new trace for the agent ends the old one's expired mark.
  function KeptMarks(marks: set<(string, string)>, a: Attempt): set<(string, string)> {
    set k | k in marks && (k.0 != a.agent || k.1 == a.trace)
  }

  function OwnedOnly(attempts: map<string, Attempt>, owned: set<Attempt>): map<string, Attempt> {
    map k | k in attempts && attempts[k] in owned :: attempts[k]
  }

  // Owned work whose park has not expired: what a recovery parks and holds.
  function HeldWork(list: set<Attempt>, owned: set<Attempt>, marks: set<(string, string)>): set<Attempt> {
    set a | a in list && a in owned && Key(a) !in marks
  }

  function Agents(list: set<Attempt>): set<string> { set a | a in list :: a.agent }

  function Keys(list: set<Attempt>): set<(string, string)> { set a | a in list :: Key(a) }

  // Mutable fields of the Attempt objects: the attempts with
  // state["account_recovery"], a set `spawned` event, a handle,
  // state["spawn_started"], and `stopped`.
  datatype Flags = Flags(
    waiting: set<Attempt>, spawned: set<Attempt>, handled: set<Attempt>,
    started: set<Attempt>, stopped: set<Attempt>)

  // How often each attempt's pause and resume callbacks have run.
  datatype Calls = Calls(pauses: multiset<Attempt>, resumes: multiset<Attempt>)
  {
    function Paused(list: set<Attempt>): Calls { this.(pauses := pauses + multiset(list)) }
    function Resumed(list: set<Attempt>): Calls { this.(resumes := resumes + multiset(list)) }

    lemma OneMore(list: set<Attempt>, a: Attempt)
      requires a !in list
      ensures Paused(list).Paused({a}) == Paused(list + {a})
      ensures Resumed(list).Resumed({a}) == Resumed(list + {a})
    {
      assert multiset(list + {a}) == multiset(list) + multiset({a});
    }
  }

  datatype Coord = Coord(
    attempts: map<string, Attempt>,
    recovering: bool,
    command: seq<string>,
    nextCheck: real,
    parkedSince: real,
    checkedModels: set<string>,
    checking: int,
    awaiting: set<string>,
    awaitingUntil: real,
    parkExpired: set<(string, string)>,
    flags: Flags,
    calls: Calls)
  {
    predicate Expired(a: Attempt) { Key(a) in parkExpired }

    function Held(owned: set<Attempt>): set<Attempt> { HeldWork(attempts.Values, owned, parkExpired) }

    function Purged(owned: set<Attempt>): Coord { this.(attempts := OwnedOnly(attempts, owned)) }

    function Decided(pending: set<Attempt>, verdict: Verdict, now: real): Decision {
      Plan(parkedSince, nextCheck, checkedModels).Decide(
        set a | a in pending :: PendingWork(a.model, a in flags.stopped), verdict, now, SETTINGS)
    }

    // --- lock sections ------------------------------------------------------

    function Registered(a: Attempt): (Coord, bool) {
      var c := this.(
        parkExpired := KeptMarks(parkExpired, a),
        attempts := attempts[a.agent := a],
        awaiting := awaiting - {a.agent});
      if recovering && !c.Expired(a) then
        (c.(flags := flags.(waiting := flags.waiting + {a}, spawned := flags.spawned + {a}),
          calls := calls.Paused({a})), true)
      else
        (c, false)
    }

    function Discarded(agent: string, trace: string): Coord {
      var c := this.(parkExpired := parkExpired - {(agent, trace)});
      if agent in attempts && attempts[agent].trace == trace then
        c.(attempts := attempts - {agent})
      else
        c
    }

    predicate IsParked(agent: string, trace: string) {
      agent in attempts && attempts[agent].trace == trace && attempts[agent] in flags.waiting
      && (attempts[agent] in flags.stopped
          || (attempts[agent] in flags.spawned && attempts[agent] !in flags.handled))
    }

    predicate Accepts(agent: string, trace: string, cmd: seq<string>) {
      cmd != [] && agent in attempts && attempts[agent].trace == trace && (agent, trace) !in parkExpired
    }

    function Requested(owned: set<Attempt>, now: real, agent: string, trace: string, cmd: seq<string>): Coord {
      if !Accepts(agent, trace, cmd) || recovering then
        this
      else
        this.(recovering := true, parkedSince := now, command := cmd,
              flags := flags.(waiting := flags.waiting + Held(owned)), calls := calls.Paused(Held(owned)))
    }

    function Entered(): Coord { this.(checking := checking + 1) }

    function Left(): Coord { this.(checking := checking - 1) }

    function SecondLooked(owned: set<Attempt>, now: real): (Coord, Look) {
      var c := Purged(owned);
      var pending := c.Held(owned);
      if pending == {} && awaiting != {} && now < awaitingUntil then
        (c, Wake(CARRIED_WORK_POLL_SECONDS))
      else
        match c.Decided(pending, NotChecked, now)
        case Release(_) => (c.(awaiting := {}, recovering := false), Over)
        case Park(_, delay) => (c.(awaiting := {}), Wake(delay))
        // Only Check carries models: reading them off a Kill raises, after
        // next_check is set and before checked_models is.
        case Check(models) =>
          (c.(awaiting := {}, nextCheck := now + RECHECK_SECONDS, checkedModels := models), Ask)
        case _ => (c.(awaiting := {}, nextCheck := now + RECHECK_SECONDS), Raised)
    }

    function Settled(owned: set<Attempt>, now: real, verdict: Verdict): (Coord, Outcome)
      requires verdict != NotChecked
    {
      var c := Purged(owned);
      var pending := c.Held(owned);
      match c.Decided(pending, verdict, now)
      case Resume =>
        (c.(attempts := map[], recovering := false, calls := calls.Resumed(pending)), AllResumed)
      case Release(ParkExpired) =>
        (c.(recovering := false, attempts := map[],
            parkExpired := parkExpired + Keys(pending)), Drain(pending))
      case Release(NoOwnedWork) => (c.(recovering := false), Drain({}))
      case Park(_, delay) => (c, Again(delay))
    }

    function Takable(owned: set<Attempt>, eligible: set<Attempt>): set<Attempt> {
      set a | a in attempts.Values && a in flags.waiting && a in flags.spawned && a !in flags.handled
              && a !in flags.started && a in owned && a in eligible
    }

    function Taken(owned: set<Attempt>, eligible: set<Attempt>): set<Attempt> {
      if checking != 0 then {} else Takable(owned, eligible)
    }

    function WithoutTaken(taken: set<Attempt>): Coord {
      this.(attempts := attempts - Agents(taken))
    }

    function Restored(owned: set<Attempt>, list: seq<Attempt>): (Coord, seq<Attempt>)
      decreases |list|
    {
      if list == [] then (this, [])
      else
        var a := list[0];
        if a !in owned then
          Restored(owned, list[1..])
        else if recovering then
          var (c, parked) := this.(attempts := if a.agent in attempts then attempts else attempts[a.agent := a])
                             .Restored(owned, list[1..]);
          (c, [a] + parked)
        else
          this.(calls := calls.Resumed({a})).Restored(owned, list[1..])
    }

    function CarriedOver(wall: real, now: real): Option<int> {
      if !recovering then None
      else Some(Truncated((wall - AtLeastZero(now - parkedSince)) * 1000.0))
    }

    function RecoveryResumed(cmd: seq<string>, parkedSinceMs: int, wall: real, agents: set<string>, now: real)
      : (Coord, bool)
    {
      if cmd == [] || recovering then (this, false)
      else
        (this.(recovering := true,
               parkedSince := now - AtLeastZero(wall - parkedSinceMs as real / 1000.0),
               command := cmd, nextCheck := 0.0,
               awaiting := agents - attempts.Keys,
               awaitingUntil := now + CARRIED_WORK_WAIT_SECONDS), true)
    }
  }

  // How a pass leaves its second lock section ...
  datatype Look = Over | Wake(delay: real) | Ask | Raised
  // ... and its last one.
  datatype Outcome = AllResumed | Drain(list: set<Attempt>) | Again(wait: real)

  function AtLeastZero(x: real): real { if x < 0.0 then 0.0 else x }

  // Python's int(): towards zero.
  function Truncated(x: real): int {
    if x >= 0.0 then x.Floor else -((-x).Floor)
  }

  /** The source's object.  Callbacks that ask about the rest of the program are
      parameters: `owned` holds the attempts whose owned() answers true, `now` the
      clock's reading in this lock section. */
  class Coordinator {
    var attempts: map<string, Attempt>
    var recovering: bool
    var command: seq<string>
    var nextCheck: real
    var parkedSince: real
    var checkedModels: set<string>
    var checking: int
    var awaiting: set<string>
    var awaitingUntil: real
    var parkExpired: set<(string, string)>
    var flags: Flags
    var calls: Calls

    function View(): Coord
      reads this
    {
      Coord(attempts, recovering, command, nextCheck, parkedSince, checkedModels, checking,
            awaiting, awaitingUntil, parkExpired, flags, calls)
    }

    method Pause(a: Attempt)
      modifies this`flags, this`calls
      ensures flags == old(flags).(waiting := old(flags).waiting + {a}) && calls == old(calls).Paused({a})
    {
      flags := flags.(waiting := flags.waiting + {a});
      calls := calls.Paused({a});
    }

    method Resume(a: Attempt)
      modifies this`calls
      ensures calls == old(calls).Resumed({a})
    {
      calls := calls.Resumed({a});
    }

    method Register(a: Attempt) returns (wait: bool)
      modifies this
      ensures View() == old(View()).Registered(a).0 && wait == old(View()).Registered(a).1
    {
      parkExpired := KeptMarks(parkExpired, a);
      attempts := attempts[a.agent := a];
      awaiting := awaiting - {a.agent};
      if recovering && Key(a) !in parkExpired {
        Pause(a);
        flags := flags.(spawned := flags.spawned + {a});
        return true;
      }
      return false;
    }

    method Discard(agent: string, trace: string)
      modifies this
      ensures View() == old(View()).Discarded(agent, trace)
    {
      parkExpired := parkExpired - {(agent, trace)};
      if agent in attempts && attempts[agent].trace == trace {
        attempts := attempts - {agent};
      }
    }

    method Parked(agent: string, trace: string) returns (parked: bool)
      ensures parked == View().IsParked(agent, trace)
    {
      if agent !in attempts || attempts[agent].trace != trace {
        return false;
      }
      var a := attempts[agent];
      return a in flags.waiting && (a in flags.stopped || (a in flags.spawned && a !in flags.handled));
    }

    // True: the turn waits for recovery.  announce: this call started one and
    // must schedule its first pass once the lock is released.
    method Request(owned: set<Attempt>, now: real, agent: string, trace: string, cmd: seq<string>)
      returns (accepted: bool, announce: bool)
      modifies this
      ensures accepted == old(View()).Accepts(agent, trace, cmd)
      ensures announce == (accepted && !old(recovering))
      ensures View() == old(View()).Requested(owned, now, agent, trace, cmd)
    {
      if cmd == [] || agent !in attempts || attempts[agent].trace != trace {
        return false, false;
      }
      if (agent, trace) in parkExpired {
        return false, false;
      }
      if recovering {
        return true, false;
      }
      recovering := true;
      parkedSince := now;
      command := cmd;
      assert View().Held(owned) == old(View()).Held(owned);
      PauseHeld(attempts.Values, owned, parkExpired);
      return true, true;
    }

    method PauseHeld(list: set<Attempt>, owned: set<Attempt>, marks: set<(string, string)>)
      modifies this`flags, this`calls
      ensures flags == old(flags).(waiting := old(flags).waiting + HeldWork(list, owned, marks))
      ensures calls == old(calls).Paused(HeldWork(list, owned, marks))
    {
      var todo := list;
      ghost var before, ran := flags, calls;
      ghost var paused: set<Attempt> := {};
      while todo != {}
        invariant todo <= list && paused == HeldWork(list - todo, owned, marks)
        invariant flags == before.(waiting := before.waiting + paused)
        invariant calls == ran.Paused(paused)
        decreases |todo|
      {
        var a :| a in todo;
        assert list - (todo - {a}) == (list - todo) + {a};
        if a in owned && Key(a) !in marks {
          Pause(a);
          ran.OneMore(paused, a);
          paused := paused + {a};
        }
        todo := todo - {a};
      }
      assert list - todo == list;
    }

    method ResumeOwned(list: set<Attempt>, owned: set<Attempt>)
      requires list <= owned
      modifies this`calls
      ensures calls == old(calls).Resumed(list)
    {
      var todo := list;
      ghost var resumed: set<Attempt> := {};
      while todo != {}
        invariant todo <= list && resumed == list - todo
        invariant calls == old(calls).Resumed(resumed)
        decreases |todo|
      {
        var a :| a in todo;
        if a in owned {
          Resume(a);
          old(calls).OneMore(resumed, a);
        }
        resumed := resumed + {a};
        todo := todo - {a};
      }
      assert resumed == list;
    }

    method Forget(taken: set<Attempt>)
      modifies this`attempts
      ensures attempts == old(attempts) - Agents(taken)
    {
      var todo := taken;
      while todo != {}
        invariant todo <= taken
        invariant attempts == old(attempts) - Agents(taken - todo)
        decreases |todo|
      {
        var a :| a in todo;
        assert Agents(taken - (todo - {a})) == Agents(taken - todo) + {a.agent};
        attempts := attempts - {a.agent};
        todo := todo - {a};
      }
      assert taken - todo == taken;
    }

    method Pending(owned: set<Attempt>) returns (pending: set<Attempt>)
      modifies this
      ensures View() == old(View()).Purged(owned)
      ensures pending == View().Held(owned)
    {
      attempts := OwnedOnly(attempts, owned);
      pending := set a | a in attempts.Values && Key(a) !in parkExpired;
    }

    // recover(): the two sections around the pass.
    method Enter()
      modifies this
      ensures View() == old(View()).Entered()
    {
      checking := checking + 1;
    }

    method Leave()
      modifies this
      ensures View() == old(View()).Left()
    {
      checking := checking - 1;
    }

    // _stop_owned for an attempt whose spawn has settled and whose process ended.
    method MarkStopped(a: Attempt)
      modifies this
      ensures View() == old(View()).(flags := old(flags).(stopped := old(flags).stopped + {a}))
    {
      flags := flags.(stopped := flags.stopped + {a});
    }

    method SecondLook(owned: set<Attempt>, now: real) returns (look: Look)
      modifies this
      ensures View() == old(View()).SecondLooked(owned, now).0
      ensures look == old(View()).SecondLooked(owned, now).1
    {
      var pending := Pending(owned);
      if pending == {} && awaiting != {} && now < awaitingUntil {
        return Wake(CARRIED_WORK_POLL_SECONDS);
      }
      awaiting := {};
      var decision := View().Decided(pending, NotChecked, now);
      if decision.Release? {
        recovering := false;
        return Over;
      }
      if decision.Park? {
        return Wake(decision.delay);
      }
      nextCheck := now + RECHECK_SECONDS;
      if !decision.Check? {
        return Raised;
      }
      checkedModels := decision.models;
      return Ask;
    }

    method Settle(owned: set<Attempt>, now: real, verdict: Verdict) returns (outcome: Outcome)
      requires verdict != NotChecked
      modifies this
      ensures View() == old(View()).Settled(owned, now, verdict).0
      ensures outcome == old(View()).Settled(owned, now, verdict).1
    {
      var pending := Pending(owned);
      var decision := View().Decided(pending, verdict, now);
      if decision.Resume? {
        attempts := map[];
        recovering := false;
        ResumeOwned(pending, owned);
        return AllResumed;
      }
      if decision.Release? {
        recovering := false;
        if decision.reason == ParkExpired {
          parkExpired := parkExpired + Keys(pending);
          attempts := map[];
          return Drain(pending);
        }
        return Drain({});
      }
      return Again(decision.delay);
    }

    method TakeParked(owned: set<Attempt>, eligible: set<Attempt>) returns (taken: set<Attempt>)
      modifies this
      ensures taken == old(View()).Taken(owned, eligible)
      ensures View() == old(View()).WithoutTaken(taken)
    {
      if checking != 0 {
        taken := {};
        assert attempts - Agents(taken) == attempts;
        return;
      }
      taken := View().Takable(owned, eligible);
      Forget(taken);
    }

    method Restore(owned: set<Attempt>, list: seq<Attempt>) returns (parked: seq<Attempt>)
      modifies this
      ensures View() == old(View()).Restored(owned, list).0
      ensures parked == old(View()).Restored(owned, list).1
    {
      parked := [];
      var i := 0;
      ghost var all := View().Restored(owned, list);
      assert list[0..] == list;
      while i < |list|
        invariant 0 <= i <= |list|
        invariant all.0 == View().Restored(owned, list[i..]).0
        invariant all.1 == parked + View().Restored(owned, list[i..]).1
      {
        var a := list[i];
        assert list[i..][0] == a && list[i..][1..] == list[i + 1..];
        if a in owned {
          if recovering {
            if a.agent !in attempts {
              attempts := attempts[a.agent := a];
            }
            parked := parked + [a];
          } else {
            Resume(a);
          }
        }
        i := i + 1;
      }
      assert list[i..] == [];
    }

    method CarryOver(wall: real, now: real) returns (parkedSinceMs: Option<int>)
      ensures parkedSinceMs == View().CarriedOver(wall, now)
    {
      if !recovering {
        return None;
      }
      var age := if now - parkedSince < 0.0 then 0.0 else now - parkedSince;
      return Some(Truncated((wall - age) * 1000.0));
    }

    method ResumeRecovery(cmd: seq<string>, parkedSinceMs: int, wall: real, agents: set<string>, now: real)
      returns (announce: bool)
      modifies this
      ensures View() == old(View()).RecoveryResumed(cmd, parkedSinceMs, wall, agents, now).0
      ensures announce == old(View()).RecoveryResumed(cmd, parkedSinceMs, wall, agents, now).1
    {
      if cmd == [] || recovering {
        return false;
      }
      var elapsed := wall - parkedSinceMs as real / 1000.0;
      if elapsed < 0.0 {
        elapsed := 0.0;
      }
      recovering := true;
      parkedSince := now - elapsed;
      command := cmd;
      nextCheck := 0.0;
      awaiting := agents - attempts.Keys;
      awaitingUntil := now + CARRIED_WORK_WAIT_SECONDS;
      return true;
    }
  }
}
