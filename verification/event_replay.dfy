/** What a reconnecting event-stream client is sent from the store: `events_after`
    (server/lib/sse_store.py), `recent` (server/lib/audio_stream.py) and the replay
    loop of `_sse` (server/server.py). */
module EventReplay {

  const PAGE := 500

  // One stored row as one client sees it.  `survives`: _egress does not drop it;
  // `replayable`: not of a type that must never be replayed; `visible`: the
  // client may see it.
  datatype Event = Event(id: nat, survives: bool, replayable: bool, visible: bool)

  ghost predicate Ascending(rows: seq<Event>) {
    forall i, j :: 0 <= i < j < |rows| ==> rows[i].id < rows[j].id
  }

  // How many leading rows a cursor has passed, and the rows above it.
  function Cut(rows: seq<Event>, cursor: int): (k: nat)
    ensures k <= |rows|
  {
    if rows == [] || rows[0].id > cursor then 0 else 1 + Cut(rows[1..], cursor)
  }

  function After(rows: seq<Event>, cursor: int): seq<Event> { rows[Cut(rows, cursor)..] }

  function Survivors(rows: seq<Event>): seq<Event> {
    if rows == [] then [] else (if rows[0].survives then [rows[0]] else []) + Survivors(rows[1..])
  }

  function Replayable(rows: seq<Event>): seq<Event> {
    if rows == [] then [] else (if rows[0].replayable then [rows[0]] else []) + Replayable(rows[1..])
  }

  function Take<T>(s: seq<T>, n: nat): seq<T> { if |s| <= n then s else s[..n] }

  function AtLeastZero(x: int): nat { if x < 0 then 0 else x }

  // Everything a client with this cursor is still owed by the store.
  function Owed(store: seq<Event>, cursor: int): seq<Event> { Survivors(After(store, AtLeastZero(cursor))) }

  function Recent(store: seq<Event>, cursor: int): seq<Event> { Replayable(Take(Owed(store, cursor), PAGE)) }

  // --- facts about the filters ------------------------------------------------

  lemma {:induction false} CutSplits(rows: seq<Event>, cursor: int)
    requires Ascending(rows)
    ensures forall i :: 0 <= i < Cut(rows, cursor) ==> rows[i].id <= cursor
    ensures forall i :: Cut(rows, cursor) <= i < |rows| ==> rows[i].id > cursor
  {
    if rows != [] && rows[0].id <= cursor {
      CutSplits(rows[1..], cursor);
      assert forall i :: 0 < i < |rows| ==> rows[i] == rows[1..][i - 1];
    }
  }

  // Reading up to one row leaves the rows behind it.
  lemma AfterRow(rows: seq<Event>, i: nat)
    requires Ascending(rows) && i < |rows|
    ensures After(rows, rows[i].id) == rows[i + 1..]
  {
    CutSplits(rows, rows[i].id);
    assert Cut(rows, rows[i].id) == i + 1 by {
      assert i + 1 < |rows| ==> rows[i + 1].id > rows[i].id;
    }
  }

  lemma Regroup(a: seq<Event>, b: seq<Event>, c: seq<Event>)
    ensures a + (b + c) == (a + b) + c
  {
  }

  // The first row, or what is left of it.
  lemma OneKept(rows: seq<Event>)
    requires rows != []
    ensures Survivors(rows) == (if rows[0].survives then [rows[0]] else []) + Survivors(rows[1..])
    ensures Replayable(rows) == (if rows[0].replayable then [rows[0]] else []) + Replayable(rows[1..])
  {
  }

  lemma {:induction false} SurvivorsConcat(a: seq<Event>, b: seq<Event>)
    ensures Survivors(a + b) == Survivors(a) + Survivors(b)
  {
    if a == [] {
      assert a + b == b;
    } else {
      assert (a + b)[1..] == a[1..] + b && (a + b)[0] == a[0];
      OneKept(a);
      OneKept(a + b);
      SurvivorsConcat(a[1..], b);
      hide Survivors, Replayable;
      Regroup(if a[0].survives then [a[0]] else [], Survivors(a[1..]), Survivors(b));
    }
  }

  lemma {:induction false} ReplayableConcat(a: seq<Event>, b: seq<Event>)
    ensures Replayable(a + b) == Replayable(a) + Replayable(b)
  {
    if a == [] {
      assert a + b == b;
    } else {
      assert (a + b)[1..] == a[1..] + b && (a + b)[0] == a[0];
      OneKept(a);
      OneKept(a + b);
      ReplayableConcat(a[1..], b);
      hide Survivors, Replayable;
      Regroup(if a[0].replayable then [a[0]] else [], Replayable(a[1..]), Replayable(b));
    }
  }

  lemma {:induction false} SurvivorsKeep(rows: seq<Event>)
    requires Ascending(rows)
    ensures Ascending(Survivors(rows)) && |Survivors(rows)| <= |rows|
    ensures forall e :: e in Survivors(rows) <==> e in rows && e.survives
  {
    if rows != [] {
      SurvivorsKeep(rows[1..]);
    }
  }

  predicate AllAre(rows: seq<Event>, replayable: bool) {
    forall i :: 0 <= i < |rows| ==> rows[i].replayable == replayable
  }

  lemma AllAreStep(rows: seq<Event>, replayable: bool)
    requires rows != []
    ensures AllAre(rows, replayable) <==> rows[0].replayable == replayable && AllAre(rows[1..], replayable)
  {
    assert forall i :: 0 < i < |rows| ==> rows[i] == rows[1..][i - 1];
  }

  lemma {:induction false} ReplayableKeeps(rows: seq<Event>)
    ensures |Replayable(rows)| <= |rows|
    ensures |Replayable(rows)| == |rows| <==> (forall i :: 0 <= i < |rows| ==> rows[i].replayable)
    ensures Replayable(rows) == [] <==> (forall i :: 0 <= i < |rows| ==> !rows[i].replayable)
    ensures |Replayable(rows)| == |rows| ==> Replayable(rows) == rows
  {
    KeptExactly(rows);
  }

  lemma {:induction false} KeptExactly(rows: seq<Event>)
    ensures |Replayable(rows)| <= |rows|
    ensures |Replayable(rows)| == |rows| <==> AllAre(rows, true)
    ensures Replayable(rows) == [] <==> AllAre(rows, false)
    ensures |Replayable(rows)| == |rows| ==> Replayable(rows) == rows
  {
    if rows != [] {
      KeptExactly(rows[1..]);
      AllAreStep(rows, true);
      AllAreStep(rows, false);
      hide AllAre;
    }
  }

  // What is owed after the first n owed rows were read.
  lemma OwedAfter(store: seq<Event>, cursor: int, n: nat)
    requires Ascending(store) && 0 < n <= |Owed(store, cursor)|
    ensures Owed(store, cursor)[n - 1].id > cursor
    ensures Owed(store, Owed(store, cursor)[n - 1].id) == Owed(store, cursor)[n..]
  {
    var k := Cut(store, AtLeastZero(cursor));
    CutSplits(store, AtLeastZero(cursor));
    var m := OwedSplit(store[k..], n);
    AfterRow(store, k + m);
    assert store[k..][m + 1..] == store[k + m + 1..];
  }

  // The row the n-th survivor sits at, and what survives behind it.
  lemma {:induction false} OwedSplit(rows: seq<Event>, n: nat) returns (m: nat)
    requires 0 < n <= |Survivors(rows)|
    ensures m < |rows| && rows[m] == Survivors(rows)[n - 1]
    ensures Survivors(rows[m + 1..]) == Survivors(rows)[n..]
  {
    if rows[0].survives && n == 1 {
      m := 0;
    } else {
      var rest := rows[1..];
      m := OwedSplit(rest, if rows[0].survives then n - 1 else n);
      assert rows[m + 2..] == rest[m + 1..] && rows[m + 1] == rest[m];
      m := m + 1;
    }
  }

  // --- reading the store --------------------------------------------------------

  // SELECT ... WHERE event_id > after ORDER BY event_id LIMIT want
  function Select(store: seq<Event>, after: nat, want: nat): seq<Event> { Take(After(store, after), want) }

  function Limit(asked: int): (n: nat)
    ensures 1 <= n <= 5000
  {
    if asked < 1 then 1 else if asked > 5000 then 5000 else asked
  }

  /** A dropped row does not count against the limit: the read goes on past it. */
  method EventsAfter(store: seq<Event>, cursor: int, asked: int) returns (out: seq<Event>)
    requires Ascending(store)
    ensures out == Take(Owed(store, cursor), Limit(asked))
  {
    var limit, after := Limit(asked), AtLeastZero(cursor);
    out := [];
    while |out| < limit
      invariant |out| <= limit
      invariant out + Survivors(After(store, after)) == Owed(store, cursor)
      decreases |After(store, after)|
    {
      var want := limit - |out|;
      var rows := Select(store, after, want);
      ghost var all := After(store, after);
      SelectStep(store, after, want);
      out := out + Survivors(rows);
      if |rows| < want {
        assert rows == all;
        break;
      }
      after := rows[|rows| - 1].id;
    }
  }

  lemma SelectStep(store: seq<Event>, after: nat, want: nat)
    requires Ascending(store) && want > 0
    ensures var all, rows := After(store, after), Select(store, after, want);
            && |Survivors(rows)| <= |rows| <= want
            && (|rows| < want ==> rows == all)
            && (|rows| == want ==> Survivors(rows) + Survivors(After(store, rows[want - 1].id)) == Survivors(all)
                                   && |After(store, rows[want - 1].id)| < |all|)
  {
    var all, rows := After(store, after), Select(store, after, want);
    SurvivorsShrink(rows);
    if |rows| == want {
      var k := Cut(store, after);
      AfterRow(store, k + want - 1);
      assert store[k + want - 1] == rows[want - 1];
      var rest := store[k + want..];
      assert all == rows + rest;
      hide Survivors, Cut, Ascending;
      SurvivorsConcat(rows, rest);
    }
  }

  lemma {:induction false} SurvivorsShrink(rows: seq<Event>)
    ensures |Survivors(rows)| <= |rows|
  {
    if rows != [] {
      SurvivorsShrink(rows[1..]);
    }
  }

  // --- the replay loop -------------------------------------------------------------

  // What the loop reads out, page by page, from a store that does not change.
  ghost function Replayed(store: seq<Event>, cursor: int): seq<Event>
    requires Ascending(store)
    decreases |Owed(store, cursor)|
  {
    var page := Recent(store, cursor);
    ReplayableKeeps(Take(Owed(store, cursor), PAGE));
    if |page| < PAGE then page
    else
      OwedAfter(store, cursor, PAGE);
      page + Replayed(store, page[PAGE - 1].id)
  }

  function Visible(rows: seq<Event>): seq<Event> {
    if rows == [] then [] else (if rows[0].visible then [rows[0]] else []) + Visible(rows[1..])
  }

  lemma OneVisible(rows: seq<Event>)
    requires rows != []
    ensures Visible(rows) == (if rows[0].visible then [rows[0]] else []) + Visible(rows[1..])
  {
  }

  lemma {:induction false} VisibleConcat(a: seq<Event>, b: seq<Event>)
    ensures Visible(a + b) == Visible(a) + Visible(b)
  {
    if a == [] {
      assert a + b == b;
    } else {
      assert (a + b)[1..] == a[1..] + b && (a + b)[0] == a[0];
      OneVisible(a);
      OneVisible(a + b);
      VisibleConcat(a[1..], b);
      hide Visible;
      Regroup(if a[0].visible then [a[0]] else [], Visible(a[1..]), Visible(b));
    }
  }

  method MaxId(page: seq<Event>, otherwise: int) returns (most: int)
    requires Ascending(page)
    ensures most == if page == [] then otherwise else page[|page| - 1].id
  {
    if page == [] {
      return otherwise;
    }
    most := page[0].id;
    for i := 1 to |page|
      invariant most == page[i - 1].id
    {
      if page[i].id > most {
        most := page[i].id;
      }
    }
  }

  lemma PageStep(store: seq<Event>, cursor: int)
    requires Ascending(store)
    ensures var rows, page := Owed(store, cursor), Recent(store, cursor);
            && (|page| < PAGE ==> Replayed(store, cursor) == page)
            && (|page| >= PAGE ==>
                  |rows| >= PAGE && page == rows[..PAGE] && page[PAGE - 1].id > cursor
                  && Owed(store, page[PAGE - 1].id) == rows[PAGE..]
                  && Replayed(store, cursor) == page + Replayed(store, page[PAGE - 1].id))
  {
    ReplayableKeeps(Take(Owed(store, cursor), PAGE));
    if |Recent(store, cursor)| >= PAGE {
      OwedAfter(store, cursor, PAGE);
    }
  }

  lemma RecentAscends(store: seq<Event>, cursor: int)
    requires Ascending(store)
    ensures Ascending(Recent(store, cursor))
  {
    SurvivorsKeep(After(store, AtLeastZero(cursor)));
    ReplayableAscends(Take(Owed(store, cursor), PAGE));
  }

  // The inner loop: one `id:` and one `data:` line for each event the client may see.
  method WriteVisible(page: seq<Event>) returns (written: seq<Event>)
    ensures written == Visible(page)
  {
    written := [];
    for i := 0 to |page|
      invariant Visible(page) == written + Visible(page[i..])
    {
      assert page[i..][1..] == page[i + 1..];
      if page[i].visible {
        written := written + [page[i]];
      }
    }
  }

  /** The replay part of `_sse` for a client that sent a cursor. */
  method Replay(store: seq<Event>, replayAfter: int) returns (written: seq<Event>)
    requires Ascending(store)
    ensures written == Visible(Replayed(store, replayAfter))
  {
    written := [];
    var cursor := replayAfter;
    ghost var all := Visible(Replayed(store, replayAfter));
    while true
      invariant all == written + Visible(Replayed(store, cursor))
      decreases |Owed(store, cursor)|
    {
      var rows := EventsAfter(store, cursor, PAGE);
      var page := Replayable(rows);
      PageStep(store, cursor);
      RecentAscends(store, cursor);
      VisibleConcat(page, Replayed(store, cursor)[|page|..]);
      var out := WriteVisible(page);
      written := written + out;
      if |page| < PAGE {
        break;
      }
      var next := MaxId(page, cursor);
      if next <= cursor {
        break;
      }
      cursor := next;
    }
  }

  lemma {:induction false} ReplayableAscends(rows: seq<Event>)
    requires Ascending(rows)
    ensures Ascending(Replayable(rows)) && forall e :: e in Replayable(rows) <==> e in rows && e.replayable
  {
    if rows != [] {
      ReplayableAscends(rows[1..]);
    }
  }

  // No row that must not be replayed is followed, on a later page, by one that must.
  ghost predicate NothingBehindAShortPage(rows: seq<Event>) {
    forall i, j :: 0 <= i < |rows| && !rows[i].replayable && (i / PAGE + 1) * PAGE <= j < |rows| ==> !rows[j].replayable
  }

  /** The paging loop stops at the first short page.  A row of a non-replayable type
      shortens its page, so replay reaches every replayable row owed to the client
      exactly when no such row is followed by a replayable one on a later page. */
  lemma {:induction false} ReplayIsCompleteExactly(store: seq<Event>, cursor: int)
    requires Ascending(store)
    ensures Replayed(store, cursor) == Replayable(Owed(store, cursor)) <==> NothingBehindAShortPage(Owed(store, cursor))
    decreases |Owed(store, cursor)|
  {
    var rows := Owed(store, cursor);
    PageStep(store, cursor);
    hide Replayed, Owed;
    if |rows| < PAGE {
      ReplayableKeeps(rows);
    } else {
      PageAndRest(rows);
      ReplayableKeeps(rows[..PAGE]);
      ReplayableKeeps(rows[PAGE..]);
      if forall i :: 0 <= i < PAGE ==> rows[i].replayable {
        ReplayIsCompleteExactly(store, rows[PAGE - 1].id);
        FullFirstPage(rows);
        SamePrefix(rows[..PAGE], Replayed(store, rows[PAGE - 1].id), Replayable(rows[PAGE..]));
      } else {
        var k :| 0 <= k < PAGE && !rows[k].replayable;
        assert rows[..PAGE][k] == rows[k];
        ShortFirstPage(rows, k);
      }
    }
  }

  lemma PageAndRest(rows: seq<Event>)
    requires |rows| >= PAGE
    ensures Replayable(rows) == Replayable(rows[..PAGE]) + Replayable(rows[PAGE..])
  {
    assert rows == rows[..PAGE] + rows[PAGE..];
    ReplayableConcat(rows[..PAGE], rows[PAGE..]);
  }

  lemma SamePrefix(a: seq<Event>, x: seq<Event>, y: seq<Event>)
    ensures a + x == a + y <==> x == y
  {
    assert (a + x)[|a|..] == x && (a + y)[|a|..] == y;
  }

  lemma ShortFirstPage(rows: seq<Event>, k: nat)
    requires |rows| >= PAGE > k && !rows[k].replayable
    ensures NothingBehindAShortPage(rows) <==> forall j :: 0 <= j < |rows[PAGE..]| ==> !rows[PAGE..][j].replayable
  {
    assert k / PAGE == 0;
    if NothingBehindAShortPage(rows) {
      forall j | 0 <= j < |rows[PAGE..]|
        ensures !rows[PAGE..][j].replayable
      {
        assert (k / PAGE + 1) * PAGE <= PAGE + j;
      }
    }
    if forall j :: 0 <= j < |rows[PAGE..]| ==> !rows[PAGE..][j].replayable {
      forall i, j | 0 <= i < |rows| && !rows[i].replayable && (i / PAGE + 1) * PAGE <= j < |rows|
        ensures !rows[j].replayable
      {
        assert rows[j] == rows[PAGE..][j - PAGE];
      }
    }
  }

  lemma FullFirstPage(rows: seq<Event>)
    requires |rows| >= PAGE && forall i :: 0 <= i < PAGE ==> rows[i].replayable
    ensures NothingBehindAShortPage(rows) <==> NothingBehindAShortPage(rows[PAGE..])
  {
    var rest := rows[PAGE..];
    if NothingBehindAShortPage(rows) {
      forall i, j | 0 <= i < |rest| && !rest[i].replayable && (i / PAGE + 1) * PAGE <= j < |rest|
        ensures !rest[j].replayable
      {
        assert (i + PAGE) / PAGE == i / PAGE + 1;
        assert !rows[i + PAGE].replayable && rows[j + PAGE] == rest[j];
      }
    }
    if NothingBehindAShortPage(rest) {
      forall i, j | 0 <= i < |rows| && !rows[i].replayable && (i / PAGE + 1) * PAGE <= j < |rows|
        ensures !rows[j].replayable
      {
        assert (i - PAGE) / PAGE == i / PAGE - 1;
        assert !rest[i - PAGE].replayable && rows[j] == rest[j - PAGE];
      }
    }
  }

  /** One old row of a type that is never replayed, then five hundred ordinary
      events: the first page comes out one short, and the last event, though
      stored and owed, is not replayed. */
  lemma AStaleActionRowHidesLaterEvents(store: seq<Event>)
    requires |store| == PAGE + 1
    requires forall i :: 0 <= i < |store| ==> store[i] == Event(i + 1, true, i > 0, true)
    ensures Owed(store, 0) == store && store[PAGE].replayable
    ensures store[PAGE] !in Replayed(store, 0)
  {
    AllSurvive(store, 0);
    var first := store[..PAGE];
    assert first[0] == store[0];
    ReplayableKeeps(first);
    ReplayableAscends(first);
    hide Survivors, Replayable;
    assert Take(Owed(store, 0), PAGE) == first;
    assert Replayed(store, 0) == Replayable(first);
    assert forall i :: 0 <= i < PAGE ==> first[i] == store[i] && first[i].id <= PAGE;
  }

  lemma {:induction false} AllSurvive(rows: seq<Event>, cursor: int)
    requires forall e :: e in rows ==> e.survives && e.id > cursor
    ensures After(rows, cursor) == rows && Survivors(rows) == rows
  {
    if rows != [] {
      AllSurvive(rows[1..], cursor);
    }
  }
}
