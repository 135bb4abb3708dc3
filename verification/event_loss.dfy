/** What delivery out of order can always do to a client of the event stream
    (`_broadcast_now` and `_deliver` in server/lib/audio_stream.py, `_sse` in
    server/server.py). */
module EventLoss {
  import opened EventReplay
  import opened EventStream

  ghost predicate Reaches(s: State, n: State) { exists acts :: IsRun(s, acts) && Run(s, acts) == n }

  lemma StaysAt(s: State)
    ensures Reaches(s, s)
  {
    assert IsRun(s, []) && Run(s, []) == s;
  }

  lemma StepsTo(s: State, act: Action, n: State)
    requires Enabled(s, act) && Reaches(Next(s, act), n)
    ensures Reaches(s, n)
  {
    var rest :| IsRun(Next(s, act), rest) && Run(Next(s, act), rest) == n;
    RunFirst(s, act, rest);
  }

  lemma Onward(s: State, m: State, n: State)
    requires Reaches(s, m) && Reaches(m, n)
    ensures Reaches(s, n)
  {
    var first :| IsRun(s, first) && Run(s, first) == m;
    var rest :| IsRun(m, rest) && Run(m, rest) == n;
    RunThen(s, first, rest);
  }

  // --- lost for good -----------------------------------------------------------------

  ghost predicate Past(got: Got, id: nat) { got.lastId >= id && id !in got.written }

  ghost predicate AllAbove(events: seq<Event>, id: nat) { forall k :: 0 <= k < |events| ==> events[k].id > id }

  ghost predicate PhasePast(phase: Phase, id: nat) {
    match phase
    case Paging(cursor) => cursor >= id
    case Writing(from, page, _, _) => from >= id && AllAbove(page, id)
    case Live(_) => true
  }

  // Every cursor is past it, and nothing that is still to be sent is it.
  ghost predicate Lost(s: State, id: nat) {
    && Ascending(s.store) && s.store != [] && s.store[|s.store| - 1].id > id
    && (forall k :: k in s.pending ==> k < |s.store| && s.store[k].id > id)
    && Past(Got(s.lastId, s.written), id) && (forall k :: 0 <= k < |s.earlier| ==> Past(s.earlier[k], id))
    && (s.conn.On? ==> AllAbove(s.conn.queue, id) && PhasePast(s.conn.phase, id))
  }

  lemma {:induction false} ReplayableAre(rows: seq<Event>, id: nat)
    requires AllAbove(rows, id)
    ensures AllAbove(Replayable(rows), id)
  {
    if rows != [] {
      assert AllAbove(rows[1..], id);
      ReplayableAre(rows[1..], id);
    }
  }

  lemma PagesAreAbove(store: seq<Event>, cursor: int, id: nat)
    requires Ascending(store) && cursor >= id
    ensures AllAbove(Recent(store, cursor), id)
  {
    var rows := Owed(store, cursor);
    forall k | 0 <= k < |rows|
      ensures rows[k].id > id
    {
      var i := OwedRow(store, cursor, k);
    }
    ReplayableAre(Take(rows, PAGE), id);
  }

  lemma SendingKeepsLost(s: State, act: Action, id: nat)
    requires Lost(s, id) && Enabled(s, act) && (act.WriteReplayed? || act.WriteLive? || act.EndPage? || act.ReadPage?)
    ensures Lost(Next(s, act), id)
  {
    if act.ReadPage? {
      PagesAreAbove(s.store, s.conn.phase.cursor, id);
    }
    hide Recent, Ascending;
  }

  lemma StepKeepsLost(s: State, act: Action, id: nat)
    requires Lost(s, id) && Enabled(s, act)
    ensures Lost(Next(s, act), id)
  {
    if act.WriteReplayed? || act.WriteLive? || act.EndPage? || act.ReadPage? {
      SendingKeepsLost(s, act, id);
    } else {
      hide Recent;
    }
  }

  // Whatever happens then, it is never written.
  lemma {:induction false} LostForGood(s: State, acts: seq<Action>, id: nat)
    requires Lost(s, id) && IsRun(s, acts)
    ensures id !in Run(s, acts).written
    decreases |acts|
  {
    if acts != [] {
      StepKeepsLost(s, acts[0], id);
      hide Lost, Enabled, Next;
      LostForGood(Next(s, acts[0]), acts[1..], id);
    }
  }

  // --- getting there --------------------------------------------------------------------

  // The client has all that was delivered, and waits.
  predicate Waits(s: State) { s.conn.On? && s.conn.phase.Live? && !s.conn.evicted }

  ghost predicate Unsent(s: State, i: nat) { i in s.pending && i < |s.store| && s.store[i].id !in s.written }

  lemma WritesOne(s: State, i: nat)
    requires Inv(s) && Waits(s) && Unsent(s, i) && s.conn.queue != []
    ensures Enabled(s, WriteLive)
    ensures var n := LiveOne(s);
            Inv(n) && Waits(n) && Unsent(n, i) && |n.conn.queue| < |s.conn.queue|
            && n.store == s.store && n.pending == s.pending && n.capacity == s.capacity && n.first == s.first
  {
    StepWriteLive(s);
    assert s.conn.queue[0] == s.store[s.conn.head] && s.conn.head < s.delivered <= i;
  }

  lemma {:induction false} WritesAll(s: State, i: nat) returns (n: State)
    requires Inv(s) && Waits(s) && Unsent(s, i)
    ensures Reaches(s, n) && Inv(n) && Waits(n) && Unsent(n, i) && n.conn.queue == []
    ensures n.store == s.store && n.pending == s.pending && n.capacity == s.capacity && n.first == s.first
    decreases |s.conn.queue|
  {
    if s.conn.queue == [] {
      n := s;
      StaysAt(s);
    } else {
      WritesOne(s, i);
      assert Next(s, WriteLive) == LiveOne(s);
      hide Inv, Unsent, Reaches, Next, Enabled, LiveOne;
      n := WritesAll(LiveOne(s), i);
      StepsTo(s, WriteLive, n);
    }
  }

  // The later event is delivered and written, and the client leaves with it.
  lemma Overtaken(s: State, i: nat, j: nat) returns (n: State)
    requires Inv(s) && Waits(s) && s.conn.queue == [] && s.capacity > 0 && Unsent(s, i)
    requires j in s.pending && i < j < |s.store| && s.store[j].visible
    ensures Reaches(s, n)
    ensures n.store == s.store && n.pending == s.pending - {j} && n.conn == Off && n.earlier == []
    ensures Past(Got(n.lastId, n.written), s.store[i].id)
  {
    var s1 := Delivered(s, j);
    var s2 := LiveOne(s1);
    n := Gone(s2, |s2.earlier|);
    assert s1.conn.queue == [s.store[j]];
    assert Next(s, Deliver(j)) == s1 && Next(s1, WriteLive) == s2 && Next(s2, Disconnect(|s2.earlier|)) == n;
    hide Reaches;
    StaysAt(n);
    StepsTo(s2, Disconnect(|s2.earlier|), n);
    StepsTo(s1, WriteLive, n);
    StepsTo(s, Deliver(j), n);
  }

  // What is delivered while nobody is connected is delivered to nobody.
  lemma {:induction false} NobodyIsThere(s: State) returns (n: State)
    requires s.conn == Off && forall k :: k in s.pending ==> k < |s.store|
    ensures Reaches(s, n) && n.pending == {}
    ensures n == s.(pending := {}, delivered := n.delivered)
    decreases |s.pending|
  {
    if s.pending == {} {
      n := s;
      StaysAt(s);
    } else {
      var k :| k in s.pending;
      var m := Delivered(s, k);
      assert Next(s, Deliver(k)) == m && Enabled(s, Deliver(k));
      hide Reaches, Next, Enabled;
      n := NobodyIsThere(m);
      StepsTo(s, Deliver(k), n);
    }
  }

  ghost predicate CanReceive(s: State) { Waits(s) && s.capacity > 0 }

  // Recorded, wanted, not sent yet, and with a later visible event to overtake it.
  ghost predicate CanBeOvertaken(s: State, i: nat, j: nat) {
    && Unsent(s, i) && s.first < s.store[i].id && Wanted(s.store[i])
    && j in s.pending && i < j < |s.store| && s.store[j].visible
  }

  /** Order of delivery is needed wherever it can be broken: from every state a run in
      order reaches with a client on the live queue, and for every event it wants and
      has not been sent while a later one is recorded too, letting the later one go
      first has a continuation after which everything is delivered and no run whatsoever
      sends the client the event. */
  lemma OvertakingCanAlwaysLose(s0: State, acts: seq<Action>, i: nat, j: nat) returns (n: State)
    requires Init(s0) && IsRun(s0, acts) && OrderedRun(s0, acts)
    requires CanReceive(Run(s0, acts)) && CanBeOvertaken(Run(s0, acts), i, j)
    ensures Reaches(Run(s0, acts), n) && n.pending == {} && n.store == Run(s0, acts).store
    ensures n.store[i].id <= n.lastId
    ensures forall more :: IsRun(n, more) ==> n.store[i].id !in Run(n, more).written
  {
    var s := Run(s0, acts);
    assert Inv(s0);
    RunKeepsInv(s0, acts);
    var a := WritesAll(s, i);
    var b := Overtaken(a, i, j);
    assert forall k :: k in b.pending ==> k < |b.store|;
    n := NobodyIsThere(b);
    var id := n.store[i].id;
    assert Lost(n, id);
    hide Lost, Inv, Run, IsRun, Reaches, Past;
    Onward(s, a, b);
    Onward(s, b, n);
    forall more | IsRun(n, more)
      ensures id !in Run(n, more).written
    {
      LostForGood(n, more, id);
    }
  }
}
