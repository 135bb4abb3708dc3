/** One client's event stream across connections: replay, the live queue behind it,
    back-pressure eviction, disconnects and reconnects with `Last-Event-ID`
    (`_sse` in server/server.py, `_broadcast_now` and `_deliver` in
    server/lib/audio_stream.py).  Broadcasters record an event and deliver it in
    two steps, and any number of them may be between the two.  A connection that
    ends may lose any tail of what was written to it. */
module EventStream {
  import opened EventReplay

  datatype Phase =
    | Paging(cursor: int)                                          // before a recent() call
    | Writing(from: int, page: seq<Event>, next: nat, seen: nat)   // writing one page
    | Live(upTo: nat)                                              // writing from the queue

  // `head` counts the stored events before the queue's first; `seen` and `upTo`
  // are the store's length at the page's read.  They only record history.
  datatype Connection =
    | Off
    | On(head: nat, queue: seq<Event>, evicted: bool, phase: Phase)

  // What a client has: its Last-Event-ID, and the ids that reached it.
  datatype Got = Got(lastId: int, written: set<nat>)

  datatype State = State(
    capacity: nat,             // of a subscriber's queue
    store: seq<Event>,
    delivered: nat,            // one past the event delivered last
    pending: set<nat>,         // places in the store recorded but not delivered yet
    conn: Connection,
    first: int,                // the client's first cursor
    lastId: int,               // its Last-Event-ID, once all written on this connection is there
    written: set<nat>,         // and the ids that have reached it by then
    earlier: seq<Got>)         // the same before each event written on this connection

  datatype Action =
    | Record(e: Event)
    | Deliver(i: nat)
    | Connect
    | ReadPage
    | WriteReplayed
    | EndPage
    | WriteLive
    | CloseEvicted(arrived: nat)   // how many of the events written arrived
    | Disconnect(arrived: nat)

  ghost predicate Enabled(s: State, act: Action) {
    match act
    case Record(e) => e.id > 0 && (s.store != [] ==> e.id > s.store[|s.store| - 1].id)
    case Deliver(i) => i in s.pending && i < |s.store|
    case Connect => s.conn.Off?
    case ReadPage => s.conn.On? && s.conn.phase.Paging?
    case WriteReplayed => s.conn.On? && s.conn.phase.Writing? && s.conn.phase.next < |s.conn.phase.page|
    case EndPage => s.conn.On? && s.conn.phase.Writing? && s.conn.phase.next == |s.conn.phase.page|
    case WriteLive => s.conn.On? && s.conn.phase.Live? && s.conn.queue != []
    case CloseEvicted(arrived) =>
      s.conn.On? && s.conn.phase.Live? && s.conn.queue == [] && s.conn.evicted && arrived <= |s.earlier|
    case Disconnect(arrived) => s.conn.On? && arrived <= |s.earlier|
  }

  function Write(s: State, e: Event): State {
    if e.visible then
      s.(lastId := e.id, written := s.written + {e.id}, earlier := s.earlier + [Got(s.lastId, s.written)])
    else s
  }

  function Offered(conn: Connection, capacity: nat, e: Event): Connection {
    if conn.Off? || conn.evicted then conn
    else if |conn.queue| < capacity then conn.(queue := conn.queue + [e])
    else conn.(evicted := true)
  }

  function Recorded(s: State, e: Event): State {
    s.(store := s.store + [e], pending := s.pending + {|s.store|})
  }

  function Delivered(s: State, i: nat): State
    requires i < |s.store|
  {
    s.(pending := s.pending - {i}, delivered := i + 1, conn := Offered(s.conn, s.capacity, s.store[i]))
  }

  function PageRead(s: State): State
    requires s.conn.On? && s.conn.phase.Paging?
  {
    var cursor := s.conn.phase.cursor;
    s.(conn := s.conn.(phase := Writing(cursor, Recent(s.store, cursor), 0, |s.store|)))
  }

  function ReplayedOne(s: State): State
    requires s.conn.On? && s.conn.phase.Writing? && s.conn.phase.next < |s.conn.phase.page|
  {
    var p := s.conn.phase;
    Write(s.(conn := s.conn.(phase := p.(next := p.next + 1))), p.page[p.next])
  }

  function AfterPage(p: Phase): Phase
    requires p.Writing?
  {
    if |p.page| < PAGE || p.page[|p.page| - 1].id <= p.from then Live(p.seen) else Paging(p.page[|p.page| - 1].id)
  }

  function LiveOne(s: State): State
    requires s.conn.On? && s.conn.queue != []
  {
    Write(s.(conn := s.conn.(head := s.conn.head + 1, queue := s.conn.queue[1..])), s.conn.queue[0])
  }

  // The connection is gone, and with it what had not arrived.
  function Gone(s: State, arrived: nat): State
    requires arrived <= |s.earlier|
  {
    var got := if arrived < |s.earlier| then s.earlier[arrived] else Got(s.lastId, s.written);
    s.(conn := Off, lastId := got.lastId, written := got.written, earlier := [])
  }

  ghost function Next(s: State, act: Action): State
    requires Enabled(s, act)
  {
    match act
    case Record(e) => Recorded(s, e)
    case Deliver(i) => Delivered(s, i)
    case Connect => s.(conn := On(s.delivered, [], false, Paging(s.lastId)))
    case ReadPage => PageRead(s)
    case WriteReplayed => ReplayedOne(s)
    case EndPage => s.(conn := s.conn.(phase := AfterPage(s.conn.phase)))
    case WriteLive => LiveOne(s)
    case CloseEvicted(arrived) => Gone(s, arrived)
    case Disconnect(arrived) => Gone(s, arrived)
  }

  ghost predicate IsRun(s: State, acts: seq<Action>)
    decreases |acts|
  {
    acts == [] || (Enabled(s, acts[0]) && IsRun(Next(s, acts[0]), acts[1..]))
  }

  ghost function Run(s: State, acts: seq<Action>): State
    requires IsRun(s, acts)
    decreases |acts|
  {
    if acts == [] then s else Run(Next(s, acts[0]), acts[1..])
  }

  // --- the two conditions the guarantee rests on --------------------------------

  // No event of a non-replayable type is stored.
  predicate Clean(e: Event) { e.survives ==> e.replayable }

  // Events are delivered in the order they were recorded.
  ghost predicate InOrder(s: State, act: Action) {
    match act
    case Record(e) => Clean(e)
    case Deliver(i) => forall j :: j in s.pending ==> i <= j
    case _ => true
  }

  ghost predicate OrderedRun(s: State, acts: seq<Action>)
    requires IsRun(s, acts)
    decreases |acts|
  {
    acts == [] || (InOrder(s, acts[0]) && OrderedRun(Next(s, acts[0]), acts[1..]))
  }

  // A client connects with a cursor some earlier event gave it; all is delivered.
  ghost predicate Init(s: State) {
    && Ascending(s.store) && (forall i :: 0 <= i < |s.store| ==> Clean(s.store[i]) && s.store[i].id > 0)
    && s.conn == Off && s.lastId == s.first && s.written == {} && s.earlier == []
    && s.delivered == |s.store| && s.pending == {}
    && (Passed(s.store, s.first))
  }

  // --- what is kept -----------------------------------------------------------------

  predicate Wanted(e: Event) { e.survives && e.replayable && e.visible }

  // Nothing the client wants between its first cursor and h is still unwritten.
  ghost predicate NoHole(store: seq<Event>, first: int, written: set<nat>, h: int) {
    forall i :: 0 <= i < |store| && first < store[i].id <= h && Wanted(store[i]) ==> store[i].id in written
  }

  ghost predicate NoHoleBefore(store: seq<Event>, first: int, written: set<nat>, n: nat) {
    forall i :: 0 <= i < n && i < |store| && first < store[i].id && Wanted(store[i]) ==> store[i].id in written
  }

  function Frontier(p: Phase): int
    requires p.Writing? && p.next <= |p.page|
  {
    if p.next == 0 then p.from else p.page[p.next - 1].id
  }

  // No event stored from now on can have an id this low.
  predicate Passed(store: seq<Event>, h: int) { h <= 0 || (store != [] && h <= store[|store| - 1].id) }

  ghost predicate GotOk(store: seq<Event>, first: int, got: Got) {
    NoHole(store, first, got.written, got.lastId) && Passed(store, got.lastId)
  }

  ghost predicate AllGotOk(store: seq<Event>, first: int, gots: seq<Got>) {
    forall k :: 0 <= k < |gots| ==> GotOk(store, first, gots[k])
  }

  ghost predicate StoreOk(s: State) {
    && Ascending(s.store) && (forall i :: 0 <= i < |s.store| ==> Clean(s.store[i]) && s.store[i].id > 0)
    && s.delivered <= |s.store|
    && (forall i :: i in s.pending <==> s.delivered <= i < |s.store|)
    && GotOk(s.store, s.first, Got(s.lastId, s.written)) && AllGotOk(s.store, s.first, s.earlier)
  }

  ghost predicate QueueOk(store: seq<Event>, delivered: nat, conn: Connection) {
    conn.On? ==>
      && delivered <= |store| && conn.head + |conn.queue| <= delivered
      && conn.queue == store[conn.head..conn.head + |conn.queue|]
      && (!conn.evicted ==> conn.head + |conn.queue| == delivered)
  }

  ghost predicate PhaseOk(s: State) {
    match s.conn
    case Off => true
    case On(head, _, _, phase) =>
      match phase
      case Paging(cursor) => NoHole(s.store, s.first, s.written, cursor) && Passed(s.store, cursor)
      case Writing(from, page, next, seen) =>
        && head <= seen <= |s.store| && next <= |page|
        && page == Recent(s.store[..seen], from)
        && from <= Frontier(phase) && NoHole(s.store, s.first, s.written, Frontier(phase)) && Passed(s.store, Frontier(phase))
      case Live(upTo) => upTo <= |s.store| && NoHoleBefore(s.store, s.first, s.written, upTo) && NoHoleBefore(s.store, s.first, s.written, head)
  }

  ghost predicate Inv(s: State) { StoreOk(s) && QueueOk(s.store, s.delivered, s.conn) && PhaseOk(s) }

  // --- the steps --------------------------------------------------------------------

  lemma RowIsOwed(store: seq<Event>, cursor: int, i: nat) returns (j: nat)
    requires Ascending(store) && i < |store| && store[i].survives && store[i].id > 0 && store[i].id > cursor
    ensures j < |Owed(store, cursor)| && Owed(store, cursor)[j] == store[i]
  {
    var k := Cut(store, AtLeastZero(cursor));
    CutSplits(store, AtLeastZero(cursor));
    SurvivorsKeep(store[k..]);
    assert store[k..][i - k] == store[i];
    assert store[i] in Survivors(store[k..]);
    j :| 0 <= j < |Owed(store, cursor)| && Owed(store, cursor)[j] == store[i];
  }

  lemma OwedRow(store: seq<Event>, cursor: int, j: nat) returns (i: nat)
    requires Ascending(store) && j < |Owed(store, cursor)|
    ensures i < |store| && store[i] == Owed(store, cursor)[j] && store[i].id > cursor
  {
    var k := Cut(store, AtLeastZero(cursor));
    CutSplits(store, AtLeastZero(cursor));
    SurvivorsKeep(store[k..]);
    assert Survivors(store[k..])[j] in store[k..];
    var m :| 0 <= m < |store[k..]| && store[k..][m] == Survivors(store[k..])[j];
    i := k + m;
  }

  // The rows of a clean page are the survivors right above its cursor, in order.
  lemma CleanRows(store: seq<Event>, cursor: int)
    requires Ascending(store) && forall i :: 0 <= i < |store| ==> Clean(store[i])
    ensures Ascending(Owed(store, cursor))
    ensures Recent(store, cursor) == Take(Owed(store, cursor), PAGE)
  {
    var rows := Owed(store, cursor);
    SurvivorsKeep(After(store, AtLeastZero(cursor)));
    forall j | 0 <= j < |rows|
      ensures rows[j].replayable
    {
      assert rows[j] in Survivors(After(store, AtLeastZero(cursor)));
      var i := OwedRow(store, cursor, j);
    }
    hide Survivors;
    ReplayableKeeps(Take(rows, PAGE));
  }

  lemma Between(rows: seq<Event>, n: nat, j: nat, below: int)
    requires Ascending(rows) && n < |rows| && j < |rows|
    requires below < rows[j].id <= rows[n].id && (n == 0 || below == rows[n - 1].id)
    ensures j == n
  {
  }

  // Nothing owed lies between two neighbours of a page.
  lemma PageGap(store: seq<Event>, p: Phase, i: nat)
    requires Ascending(store) && forall i :: 0 <= i < |store| ==> Clean(store[i])
    requires p.Writing? && p.page == Recent(store, p.from) && p.next < |p.page|
    requires i < |store| && store[i].survives && store[i].id > 0
    requires p.from < store[i].id && Frontier(p) < store[i].id <= p.page[p.next].id
    ensures store[i].id == p.page[p.next].id
  {
    CleanRows(store, p.from);
    var j := RowIsOwed(store, p.from, i);
    Between(Owed(store, p.from), p.next, j, Frontier(p));
  }

  // A short page reads out all there is.
  lemma PageEnd(store: seq<Event>, p: Phase, i: nat)
    requires Ascending(store) && forall i :: 0 <= i < |store| ==> Clean(store[i])
    requires p.Writing? && p.page == Recent(store, p.from) && p.next == |p.page| < PAGE
    requires i < |store| && store[i].survives && store[i].id > 0 && p.from <= Frontier(p)
    ensures store[i].id <= Frontier(p)
  {
    if store[i].id > p.from {
      CleanRows(store, p.from);
      var j := RowIsOwed(store, p.from, i);
      assert j <= p.next - 1;
    }
  }

  lemma NoHoleGrows(store: seq<Event>, first: int, written: set<nat>, h: int, e: Event)
    requires NoHole(store, first, written, h) && Passed(store, h) && e.id > 0
    requires store != [] ==> e.id > store[|store| - 1].id
    ensures NoHole(store + [e], first, written, h) && Passed(store + [e], h)
  {
  }

  lemma RecordPhase(s: State, e: Event)
    requires Inv(s) && Enabled(s, Record(e)) && s.conn.On?
    ensures PhaseOk(Recorded(s, e))
  {
    match s.conn.phase
    case Paging(cursor) => NoHoleGrows(s.store, s.first, s.written, cursor, e);
    case Writing(_, _, _, seen) =>
      NoHoleGrows(s.store, s.first, s.written, Frontier(s.conn.phase), e);
      assert (s.store + [e])[..seen] == s.store[..seen];
    case Live(upTo) =>
      assert s.conn.head <= |s.store|;
  }

  lemma StepRecord(s: State, e: Event)
    requires Inv(s) && Enabled(s, Record(e)) && Clean(e)
    ensures Inv(Recorded(s, e))
  {
    NoHoleGrows(s.store, s.first, s.written, s.lastId, e);
    forall k | 0 <= k < |s.earlier|
      ensures GotOk(s.store + [e], s.first, s.earlier[k])
    {
      NoHoleGrows(s.store, s.first, s.earlier[k].written, s.earlier[k].lastId, e);
    }
    if s.conn.On? {
      assert (s.store + [e])[s.conn.head..s.conn.head + |s.conn.queue|] == s.conn.queue;
      RecordPhase(s, e);
    }
    hide PhaseOk, NoHole;
  }

  lemma StepDeliver(s: State, i: nat)
    requires Inv(s) && Enabled(s, Deliver(i)) && InOrder(s, Deliver(i))
    ensures Inv(Delivered(s, i))
  {
    assert i == s.delivered by {
      assert s.delivered in s.pending;
    }
  }

  lemma StepReadPage(s: State)
    requires Inv(s) && Enabled(s, ReadPage)
    ensures Inv(PageRead(s))
  {
    assert s.store[..|s.store|] == s.store;
  }

  // Writing an event of the store that closes the gap above h.
  lemma NoHoleWrite(s: State, h: int, e: Event, k: nat)
    requires Ascending(s.store) && NoHole(s.store, s.first, s.written, h) && k < |s.store| && s.store[k] == e
    requires forall i :: 0 <= i < k && h < s.store[i].id && s.first < s.store[i].id && Wanted(s.store[i]) ==>
               s.store[i].id in s.written
    ensures NoHole(s.store, s.first, Write(s, e).written, e.id)
  {
    var n := Write(s, e);
    forall i | 0 <= i < |n.store| && n.first < n.store[i].id <= e.id && Wanted(n.store[i])
      ensures n.store[i].id in n.written
    {
      assert i <= k;
    }
  }

  // Writing the next event of a page moves the frontier up to it.
  lemma WriteReplayedFrontier(s: State)
    requires Inv(s) && Enabled(s, WriteReplayed)
    ensures var p, n := s.conn.phase, ReplayedOne(s);
            var e := p.page[p.next];
            && NoHole(n.store, n.first, n.written, e.id) && p.from < e.id && Passed(s.store, e.id)
            && (!e.visible ==> NoHole(n.store, n.first, n.written, s.lastId))
  {
    var p := s.conn.phase;
    var seen := s.store[..p.seen];
    CleanRows(seen, p.from);
    var k := OwedRow(seen, p.from, p.next);
    forall i | 0 <= i < k && Frontier(p) < s.store[i].id && s.store[i].survives
      ensures false
    {
      assert s.store[i] == seen[i] && s.store[i].id < s.store[k].id;
      PageGap(seen, p, i);
    }
    hide Recent, Owed;
    NoHoleWrite(s.(conn := s.conn.(phase := p.(next := p.next + 1))), Frontier(p), p.page[p.next], k);
  }

  lemma StepWriteReplayed(s: State)
    requires Inv(s) && Enabled(s, WriteReplayed)
    ensures Inv(ReplayedOne(s))
  {
    WriteReplayedFrontier(s);
    hide NoHole, Recent, Ascending;
  }

  lemma EndPageReads(s: State)
    requires Inv(s) && Enabled(s, EndPage)
    ensures var p := s.conn.phase;
            if |p.page| < PAGE then forall i :: 0 <= i < p.seen && s.store[i].survives ==> s.store[i].id <= Frontier(p)
            else p.page[|p.page| - 1].id > p.from
  {
    var p := s.conn.phase;
    var seen := s.store[..p.seen];
    CleanRows(seen, p.from);
    if |p.page| < PAGE {
      forall i | 0 <= i < p.seen && s.store[i].survives
        ensures s.store[i].id <= Frontier(p)
      {
        assert s.store[i] == seen[i];
        PageEnd(seen, p, i);
      }
    } else {
      var k := OwedRow(seen, p.from, |p.page| - 1);
    }
  }

  lemma StepEndPage(s: State)
    requires Inv(s) && Enabled(s, EndPage)
    ensures Inv(s.(conn := s.conn.(phase := AfterPage(s.conn.phase))))
  {
    EndPageReads(s);
    hide Recent, Ascending;
    var p := s.conn.phase;
    var n := s.(conn := s.conn.(phase := AfterPage(p)));
    if |p.page| < PAGE {
      assert NoHoleBefore(s.store, s.first, s.written, p.seen);
      assert NoHoleBefore(n.store, n.first, n.written, p.seen) && NoHoleBefore(n.store, n.first, n.written, s.conn.head);
    }
  }

  lemma WriteLiveFrontier(s: State)
    requires Inv(s) && Enabled(s, WriteLive)
    ensures var n, e := LiveOne(s), s.conn.queue[0];
            && NoHole(n.store, n.first, n.written, e.id) && Passed(s.store, e.id)
            && NoHoleBefore(n.store, n.first, n.written, s.conn.head + 1)
            && (!e.visible ==> NoHole(n.store, n.first, n.written, s.lastId))
  {
    var head := s.conn.head;
    var e := s.conn.queue[0];
    var n := s.(conn := s.conn.(head := head + 1, queue := s.conn.queue[1..]));
    assert e == s.store[head];
    assert forall i :: 0 <= i < |s.store| && s.store[i].id < s.store[head].id ==> i < head;
    NoHoleWrite(n, s.store[head].id - 1, e, head);
  }

  lemma StepWriteLive(s: State)
    requires Inv(s) && Enabled(s, WriteLive)
    ensures Inv(LiveOne(s))
  {
    var n := LiveOne(s);
    WriteLiveFrontier(s);
    hide NoHole, Ascending;
    assert n.conn.queue == s.store[s.conn.head + 1..s.conn.head + 1 + |n.conn.queue|];
  }

  lemma StepKeepsInv(s: State, act: Action)
    requires Inv(s) && Enabled(s, act) && InOrder(s, act)
    ensures Inv(Next(s, act))
  {
    match act
    case Record(e) => StepRecord(s, e);
    case Deliver(i) => StepDeliver(s, i);
    case ReadPage => StepReadPage(s);
    case WriteReplayed => StepWriteReplayed(s);
    case EndPage => StepEndPage(s);
    case WriteLive => StepWriteLive(s);
    case Connect =>
    case CloseEvicted(_) =>
    case Disconnect(_) =>
  }

  lemma {:induction false} RunKeepsInv(s: State, acts: seq<Action>)
    requires Inv(s) && IsRun(s, acts) && OrderedRun(s, acts)
    ensures Inv(Run(s, acts))
    decreases |acts|
  {
    hide Inv;
    if acts != [] {
      StepKeepsInv(s, acts[0]);
      RunKeepsInv(Next(s, acts[0]), acts[1..]);
    }
  }

  // --- the guarantee ------------------------------------------------------------------

  // However many of the events written on this connection have arrived.
  ghost predicate NeverAHole(s: State) {
    forall k :: 0 <= k <= |s.earlier| ==> var got := if k < |s.earlier| then s.earlier[k] else Got(s.lastId, s.written);
                                          NoHole(s.store, s.first, got.written, got.lastId)
  }

  /** Whatever disconnects, evictions and reconnects with `Last-Event-ID` happen, each
      losing any tail of what was written: at every moment each event the client may
      see, from its first cursor up to its last id, has reached it on this or an
      earlier connection; and when the queue is drained, what has been written to it
      holds everything stored since its first cursor. */
  lemma ReconnectsLoseNothing(s0: State, acts: seq<Action>)
    requires Init(s0) && IsRun(s0, acts) && OrderedRun(s0, acts)
    ensures var s := Run(s0, acts);
            && NeverAHole(s)
            && (s.conn.On? && s.conn.phase.Live? && s.conn.queue == [] && !s.conn.evicted && s.pending == {} ==>
                  NoHoleBefore(s.store, s.first, s.written, |s.store|))
  {
    assert Inv(s0);
    RunKeepsInv(s0, acts);
    var s := Run(s0, acts);
    assert NeverAHole(s) by {
      assert forall k :: 0 <= k < |s.earlier| ==> GotOk(s.store, s.first, s.earlier[k]);
    }
    if s.conn.On? && s.conn.phase.Live? && s.conn.queue == [] && !s.conn.evicted && s.pending == {} {
      assert s.delivered == |s.store| by {
        assert s.delivered < |s.store| ==> s.delivered in s.pending;
      }
    }
  }

  /** Why the order of delivery matters: a client that has drained its queue is left
      with a gap by the next delivery exactly when that delivery overtakes a recorded
      event the client wants and has not been sent. */
  lemma OvertakingIsExactlyTheGap(s: State, i: nat)
    requires Inv(s) && Enabled(s, Deliver(i)) && s.store[i].visible && s.capacity > 0
    requires s.conn.On? && s.conn.phase.Live? && s.conn.queue == [] && !s.conn.evicted
    ensures Enabled(Delivered(s, i), WriteLive)
    ensures var n := LiveOne(Delivered(s, i));
            NoHole(n.store, n.first, n.written, n.lastId) <==>
            forall j :: j in s.pending && j < i && s.first < s.store[j].id && Wanted(s.store[j]) ==> s.store[j].id in s.written
  {
    var e := s.store[i];
    var n := LiveOne(Delivered(s, i));
    assert Delivered(s, i).conn.queue == [e] && n.lastId == e.id && n.written == s.written + {e.id};
    if NoHole(n.store, n.first, n.written, n.lastId) {
      forall j | j in s.pending && j < i && s.first < s.store[j].id && Wanted(s.store[j])
        ensures s.store[j].id in s.written
      {
        assert s.store[j].id in n.written;
      }
    }
    if forall j :: j in s.pending && j < i && s.first < s.store[j].id && Wanted(s.store[j]) ==> s.store[j].id in s.written {
      forall j | 0 <= j < |s.store| && s.first < s.store[j].id <= e.id && Wanted(s.store[j])
        ensures s.store[j].id in n.written
      {
        assert j <= i;
      }
    }
  }

  lemma RunFirst(s: State, act: Action, rest: seq<Action>)
    requires Enabled(s, act) && IsRun(Next(s, act), rest)
    ensures IsRun(s, [act] + rest) && Run(s, [act] + rest) == Run(Next(s, act), rest)
  {
    assert ([act] + rest)[1..] == rest;
  }

  lemma {:induction false} RunThen(s: State, first: seq<Action>, rest: seq<Action>)
    requires IsRun(s, first) && IsRun(Run(s, first), rest)
    ensures IsRun(s, first + rest) && Run(s, first + rest) == Run(Run(s, first), rest)
    decreases |first|
  {
    if first == [] {
      assert first + rest == rest;
    } else {
      assert (first + rest)[1..] == first[1..] + rest;
      RunThen(Next(s, first[0]), first[1..], rest);
    }
  }

  // The later event goes out first, and the client leaves.
  lemma SecondEventOvertakes(s0: State, e1: Event, e2: Event) returns (acts: seq<Action>)
    requires Init(s0) && s0.store == [] && s0.first == 0 && s0.capacity > 1
    requires e1 == Event(1, true, true, true) && e2 == Event(2, true, true, true)
    ensures IsRun(s0, acts)
    ensures Run(s0, acts) == State(s0.capacity, [e1, e2], 2, {0}, Off, 0, 2, {2}, [])
  {
    var s1 := Next(s0, Connect);
    var s2 := Next(s1, ReadPage);
    assert s2.conn.phase == Writing(0, [], 0, 0);
    var s3 := Next(s2, EndPage);
    var s4 := Next(s3, Record(e1));
    var s5 := Next(s4, Record(e2));
    assert s5.store == [e1, e2] && s5.pending == {0, 1};
    var s6 := Next(s5, Deliver(1));
    assert s6.conn == On(0, [e2], false, Live(0)) && s6.pending == {0};
    var s7 := Next(s6, WriteLive);
    RunFirst(s7, Disconnect(1), []);
    RunFirst(s6, WriteLive, [Disconnect(1)]);
    RunFirst(s5, Deliver(1), [WriteLive] + [Disconnect(1)]);
    acts := [Deliver(1)] + ([WriteLive] + [Disconnect(1)]);
    RunFirst(s4, Record(e2), acts);
    acts := [Record(e2)] + acts;
    RunFirst(s3, Record(e1), acts);
    acts := [Record(e1)] + acts;
    RunFirst(s2, EndPage, acts);
    acts := [EndPage] + acts;
    RunFirst(s1, ReadPage, acts);
    acts := [ReadPage] + acts;
    RunFirst(s0, Connect, acts);
    acts := [Connect] + acts;
  }

  // The earlier one is delivered to nobody, and the client comes back.
  lemma NobodyAsksForTheFirst(s: State, e1: Event, e2: Event) returns (acts: seq<Action>)
    requires s == State(s.capacity, [e1, e2], 2, {0}, Off, 0, 2, {2}, [])
    requires e1 == Event(1, true, true, true) && e2 == Event(2, true, true, true)
    ensures IsRun(s, acts)
    ensures Run(s, acts) == State(s.capacity, [e1, e2], 1, {}, On(1, [], false, Live(2)), 0, 2, {2}, [])
  {
    var s1 := Next(s, Deliver(0));
    var s2 := Next(s1, Connect);
    assert Cut([e1, e2], 2) == 1 + Cut([e2], 2);
    var s3 := Next(s2, ReadPage);
    assert s3.conn.phase == Writing(2, [], 0, 2);
    RunFirst(s3, EndPage, []);
    RunFirst(s2, ReadPage, [EndPage]);
    RunFirst(s1, Connect, [ReadPage] + [EndPage]);
    acts := [Connect] + ([ReadPage] + [EndPage]);
    RunFirst(s, Deliver(0), acts);
    acts := [Deliver(0)] + acts;
  }

  /** Recording and delivering are two steps.  When a later event is delivered first
      and the connection breaks before the earlier one is, the client's cursor has
      passed it: the next connection drains everything and still lacks it. */
  lemma DeliveryOutOfOrderLosesAnEvent(s0: State, e1: Event, e2: Event)
    requires Init(s0) && s0.store == [] && s0.first == 0 && s0.capacity > 1
    requires e1 == Event(1, true, true, true) && e2 == Event(2, true, true, true)
    ensures exists acts :: IsRun(s0, acts) &&
              var s := Run(s0, acts);
              && s.conn.On? && s.conn.phase.Live? && s.conn.queue == [] && !s.conn.evicted && s.pending == {}
              && s.store == [e1, e2] && s.lastId == 2 && s.written == {2}
  {
    var first := SecondEventOvertakes(s0, e1, e2);
    var rest := NobodyAsksForTheFirst(Run(s0, first), e1, e2);
    RunThen(s0, first, rest);
  }
}
