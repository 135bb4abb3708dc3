/** Paging through an agent pair's conversation: `load_timeline` in
    server/lib/agent_conversations.py, and what following its cursors collects. */
module PairTimeline {

  // One stored message. `pair` is the query's own WHERE: this conversation's rows;
  // the timestamp stands for its place in the text order, an absent one being first.
  datatype Row = Row(id: string, pair: bool, timestamp: int, place: int, revision: int)

  type Key = (int, int, int)

  // Chat order, and change order.
  function Order(changes: bool, r: Row): Key {
    if changes then (r.revision, r.timestamp, r.place) else (r.timestamp, r.place, 0)
  }

  predicate Less(a: Key, b: Key) {
    a.0 < b.0 || (a.0 == b.0 && (a.1 < b.1 || (a.1 == b.1 && a.2 < b.2)))
  }

  // Which rows a query keeps.
  datatype Where = All | Newer(revision: int) | Before(key: Key)

  predicate Keeps(where: Where, r: Row) {
    r.pair && match where
              case All => true
              case Newer(revision) => r.revision > revision
              case Before(key) => Less(Order(false, r), key)
  }

  function Insert(changes: bool, r: Row, s: seq<Row>): seq<Row> {
    if s == [] then [r]
    else if Less(Order(changes, s[0]), Order(changes, r)) then [s[0]] + Insert(changes, r, s[1..])
    else [r] + s
  }

  // SELECT ... WHERE ... ORDER BY: equal keys come out in some order, here the table's.
  function Select(table: seq<Row>, where: Where, changes: bool): seq<Row> {
    if table == [] then []
    else if Keeps(where, table[0]) then Insert(changes, table[0], Select(table[1..], where, changes))
    else Select(table[1..], where, changes)
  }

  function FirstOf(s: seq<Row>, n: nat): seq<Row> { if |s| <= n then s else s[..n] }

  function LastOf(s: seq<Row>, n: nat): seq<Row> { if |s| <= n then s else s[|s| - n..] }

  function LatestRevision(s: seq<Row>, atLeast: int): int {
    if s == [] then atLeast
    else if s[0].revision > atLeast then LatestRevision(s[1..], s[0].revision)
    else LatestRevision(s[1..], atLeast)
  }

  function Head(table: seq<Row>): int {
    var rows := Select(table, All, false);
    if rows == [] then 0 else LatestRevision(rows[1..], rows[0].revision)
  }

  const MAX_LIMIT := 4999

  function Clamped(limit: int): (n: nat)
    ensures 1 <= n <= MAX_LIMIT
  {
    var asked := if limit == 0 then 100 else limit;
    var most := if asked < MAX_LIMIT then asked else MAX_LIMIT;
    if most < 1 then 1 else most
  }

  function Lookup(table: seq<Row>, id: string): seq<Row> {
    if table == [] then [] else if table[0].id == id then [table[0]] else Lookup(table[1..], id)
  }

  datatype Page = UnknownCursor | Page(turns: seq<Row>, hasMore: bool, latestRevision: int)

  function Load(table: seq<Row>, after: int, before: string, limit: int): Page {
    var n := Clamped(limit);
    if after != 0 then
      var rows := FirstOf(Select(table, Newer(after), true), n + 1);
      var turns := FirstOf(rows, n);
      Page(turns, |rows| > n, if |rows| > n then LatestRevision(turns[1..], turns[0].revision) else Head(table))
    else if before == "" then
      var rows := LastOf(Select(table, All, false), n + 1);
      Page(LastOf(rows, n), |rows| > n, Head(table))
    else
      var cursor := Lookup(table, before);
      if cursor == [] then UnknownCursor
      else
        var rows := LastOf(Select(table, Before(Order(false, cursor[0])), false), n + 1);
        Page(LastOf(rows, n), |rows| > n, Head(table))
  }

  // --- sorting -------------------------------------------------------------------------

  ghost predicate Ascending(changes: bool, s: seq<Row>) {
    forall i, j :: 0 <= i < j < |s| ==> !Less(Order(changes, s[j]), Order(changes, s[i]))
  }

  lemma NotLess(a: Key, b: Key, c: Key)
    requires !Less(b, a) && !Less(c, b)
    ensures !Less(c, a)
  {
  }

  lemma {:induction false} InsertAdds(changes: bool, r: Row, s: seq<Row>)
    ensures multiset(Insert(changes, r, s)) == multiset(s) + multiset{r}
  {
    if s != [] && Less(Order(changes, s[0]), Order(changes, r)) {
      InsertAdds(changes, r, s[1..]);
      assert s == [s[0]] + s[1..];
    }
  }

  lemma InsertedWas(changes: bool, r: Row, s: seq<Row>, j: nat)
    requires j < |Insert(changes, r, s)|
    ensures Insert(changes, r, s)[j] == r || Insert(changes, r, s)[j] in s
  {
    InsertAdds(changes, r, s);
    assert Insert(changes, r, s)[j] in multiset(Insert(changes, r, s));
  }

  lemma {:induction false} InsertSorts(changes: bool, r: Row, s: seq<Row>)
    requires Ascending(changes, s)
    ensures Ascending(changes, Insert(changes, r, s))
  {
    if s == [] {
    } else if Less(Order(changes, s[0]), Order(changes, r)) {
      InsertSorts(changes, r, s[1..]);
      var rest := Insert(changes, r, s[1..]);
      forall j | 0 <= j < |rest|
        ensures !Less(Order(changes, rest[j]), Order(changes, s[0]))
      {
        InsertedWas(changes, r, s[1..], j);
      }
      Prepended(changes, s[0], rest);
    } else {
      forall j | 0 <= j < |s|
        ensures !Less(Order(changes, s[j]), Order(changes, r))
      {
        NotLess(Order(changes, r), Order(changes, s[0]), Order(changes, s[j]));
      }
      Prepended(changes, r, s);
    }
  }

  lemma Prepended(changes: bool, r: Row, s: seq<Row>)
    requires Ascending(changes, s) && forall j :: 0 <= j < |s| ==> !Less(Order(changes, s[j]), Order(changes, r))
    ensures Ascending(changes, [r] + s)
  {
    hide Less, Order;
  }

  // The rows a query keeps, as many times as the table has them.
  function Kept(table: seq<Row>, where: Where): multiset<Row> {
    if table == [] then multiset{}
    else if Keeps(where, table[0]) then Kept(table[1..], where) + multiset{table[0]}
    else Kept(table[1..], where)
  }

  lemma {:induction false} SelectSorts(table: seq<Row>, where: Where, changes: bool)
    ensures Ascending(changes, Select(table, where, changes))
    ensures multiset(Select(table, where, changes)) == Kept(table, where)
    ensures forall i :: 0 <= i < |Select(table, where, changes)| ==> Keeps(where, Select(table, where, changes)[i])
  {
    if table != [] {
      SelectSorts(table[1..], where, changes);
      if Keeps(where, table[0]) {
        var s := Select(table[1..], where, changes);
        InsertSorts(changes, table[0], s);
        InsertAdds(changes, table[0], s);
        var all := Insert(changes, table[0], s);
        forall i | 0 <= i < |all|
          ensures Keeps(where, all[i])
        {
          assert all[i] in multiset(all);
        }
      }
    }
  }

  function Filter(s: seq<Row>, where: Where): seq<Row> {
    if s == [] then [] else if Keeps(where, s[0]) then [s[0]] + Filter(s[1..], where) else Filter(s[1..], where)
  }

  lemma {:induction false} FilterInsert(changes: bool, r: Row, s: seq<Row>, where: Where)
    requires Ascending(changes, s)
    ensures Filter(Insert(changes, r, s), where) ==
            if Keeps(where, r) then Insert(changes, r, Filter(s, where)) else Filter(s, where)
  {
    if s == [] {
      assert [r][1..] == [];
    } else if Less(Order(changes, s[0]), Order(changes, r)) {
      FilterInsert(changes, r, s[1..], where);
      var all := Insert(changes, r, s);
      assert all[1..] == Insert(changes, r, s[1..]) && all[0] == s[0];
    } else {
      assert ([r] + s)[1..] == s;
      NothingBefore(changes, r, s, where);
    }
  }

  // r goes in front of what nothing in s precedes.
  lemma {:induction false} NothingBefore(changes: bool, r: Row, s: seq<Row>, where: Where)
    requires forall i :: 0 <= i < |s| ==> !Less(Order(changes, s[i]), Order(changes, r))
    ensures Insert(changes, r, Filter(s, where)) == [r] + Filter(s, where)
  {
    if s != [] && !Keeps(where, s[0]) {
      NothingBefore(changes, r, s[1..], where);
    }
  }

  // A narrower query gives the rows of the wider one that it keeps, in the same order.
  lemma {:induction false} SelectFilters(table: seq<Row>, where: Where, changes: bool)
    ensures Select(table, where, changes) == Filter(Select(table, All, changes), where)
  {
    if table != [] {
      SelectFilters(table[1..], where, changes);
      SelectSorts(table[1..], All, changes);
      if Keeps(All, table[0]) {
        FilterInsert(changes, table[0], Select(table[1..], All, changes), where);
      }
    }
  }

  // A filter that keeps the rows up to k, or from k on, cuts there.
  lemma {:induction false} FilterCuts(s: seq<Row>, where: Where, k: nat)
    requires k <= |s|
    ensures KeepsFirst(s, where, k) ==> Filter(s, where) == s[..k]
    ensures KeepsRest(s, where, k) ==> Filter(s, where) == s[k..]
  {
    hide Keeps;
    if s != [] {
      var j := if k == 0 then 0 else k - 1;
      assert forall i :: 0 <= i < |s| - 1 ==> s[1..][i] == s[i + 1];
      FilterCuts(s[1..], where, j);
      assert KeepsFirst(s, where, k) ==> KeepsFirst(s[1..], where, j);
      assert KeepsRest(s, where, k) ==> KeepsRest(s[1..], where, j);
      if k > 0 {
        assert s[..k] == [s[0]] + s[1..][..k - 1] && s[k..] == s[1..][k - 1..];
      }
    }
  }

  ghost predicate KeepsFirst(s: seq<Row>, where: Where, k: nat) {
    forall i :: 0 <= i < |s| ==> (Keeps(where, s[i]) <==> i < k)
  }

  ghost predicate KeepsRest(s: seq<Row>, where: Where, k: nat) {
    forall i :: 0 <= i < |s| ==> (Keeps(where, s[i]) <==> k <= i)
  }

  // --- the store -----------------------------------------------------------------------

  // message_id is a primary key; revisions count up from one.
  ghost predicate Stored(table: seq<Row>) {
    && (forall i, j :: 0 <= i < j < |table| ==> table[i].id != table[j].id)
    && (forall i :: 0 <= i < |table| ==> table[i].id != "" && table[i].revision > 0)
  }

  lemma {:induction false} LookupFinds(table: seq<Row>, i: nat)
    requires i < |table| && forall j, k :: 0 <= j < k < |table| ==> table[j].id != table[k].id
    ensures Lookup(table, table[i].id) == [table[i]]
  {
    if i > 0 {
      assert table[1..][i - 1] == table[i];
      LookupFinds(table[1..], i - 1);
    }
  }

  lemma {:induction false} KeptIsInTheTable(table: seq<Row>, where: Where, r: Row) returns (i: nat)
    requires r in Kept(table, where)
    ensures i < |table| && table[i] == r && r.pair
  {
    if Keeps(where, table[0]) && table[0] == r {
      i := 0;
    } else {
      var j := KeptIsInTheTable(table[1..], where, r);
      i := j + 1;
    }
  }

  lemma SelectedIsStored(table: seq<Row>, where: Where, changes: bool, k: nat)
    requires Stored(table) && k < |Select(table, where, changes)|
    ensures var r := Select(table, where, changes)[k];
            r.pair && r.id != "" && r.revision > 0 && Lookup(table, r.id) == [r]
  {
    var s := Select(table, where, changes);
    SelectSorts(table, where, changes);
    assert s[k] in multiset(s);
    var i := KeptIsInTheTable(table, where, s[k]);
    LookupFinds(table, i);
  }

  // --- back through the pages -----------------------------------------------------------

  function Chat(table: seq<Row>): seq<Row> { Select(table, All, false) }

  // What the `before` cursor leaves: everything, or the rows under the cursor's row.
  function Left(table: seq<Row>, before: string): seq<Row> {
    if before == "" then Chat(table)
    else if Lookup(table, before) == [] then []
    else Select(table, Before(Order(false, Lookup(table, before)[0])), false)
  }

  // The rows under a key are the first m, in chat order.
  lemma CutBelow(table: seq<Row>, key: Key) returns (m: nat)
    ensures m <= |Chat(table)| && Select(table, Before(key), false) == Chat(table)[..m]
    ensures forall i :: 0 <= i < |Chat(table)| ==> (Less(Order(false, Chat(table)[i]), key) <==> i < m)
  {
    var s := Chat(table);
    SelectSorts(table, All, false);
    m := 0;
    while m < |s| && Less(Order(false, s[m]), key)
      invariant m <= |s| && forall i :: 0 <= i < m ==> Less(Order(false, s[i]), key)
    {
      m := m + 1;
    }
    SelectFilters(table, Before(key), false);
    FilterCuts(s, Before(key), m);
  }

  // After a full page the cursor's row has fewer rows under it, and with distinct
  // keys it has exactly those the page did not reach.
  lemma NextCursor(table: seq<Row>, before: string, limit: int) returns (m: nat)
    requires Stored(table) && |Left(table, before)| > Clamped(limit)
    ensures var left, n := Left(table, before), Clamped(limit);
            var next := Left(table, left[|left| - n].id);
            && m <= |left| - n && next == left[..m] && left[|left| - n].id != ""
            && (forall i :: 0 <= i < m ==> Less(Order(false, left[i]), Order(false, left[|left| - n])))
            && (Distinct(left) ==> m == |left| - n)
  {
    var s, left, n := Chat(table), Left(table, before), Clamped(limit);
    var whole := |s|;
    if before != "" {
      whole := CutBelow(table, Order(false, Lookup(table, before)[0]));
    }
    assert left == s[..whole];
    var k := |left| - n;
    SelectedIsStored(table, All, false, k);
    SelectSorts(table, All, false);
    m := CutBelow(table, Order(false, s[k]));
    assert !Less(Order(false, s[k]), Order(false, s[k]));
    assert s[..m] == left[..m];
    if m < k {
      assert left[m] == s[m] && left[k] == s[k];
      assert Order(false, left[m]) == Order(false, left[k]);
    }
  }

  ghost predicate Distinct(s: seq<Row>) {
    forall i, j :: 0 <= i < j < |s| ==> Order(false, s[i]) != Order(false, s[j])
  }

  lemma NextIsShorter(table: seq<Row>, before: string, limit: int)
    requires Stored(table) && |Left(table, before)| > Clamped(limit)
    ensures var left := Left(table, before);
            |Left(table, left[|left| - Clamped(limit)].id)| < |left|
  {
    var m := NextCursor(table, before, limit);
    hide Left, Stored, Clamped;
  }

  lemma BackPageShape(table: seq<Row>, before: string, limit: int)
    ensures var page, left, n := Load(table, 0, before, limit), Left(table, before), Clamped(limit);
            && (page.UnknownCursor? ==> left == [])
            && (page.Page? ==> page.turns == LastOf(left, n) && page.hasMore == (|left| > n))
  {
    hide Clamped, Select, Lookup, LastOf, Head;
    LastOfLast(Left(table, before), Clamped(limit));
  }

  lemma BackPage(table: seq<Row>, before: string, limit: int)
    requires Stored(table)
    ensures var page, left, n := Load(table, 0, before, limit), Left(table, before), Clamped(limit);
            && (page.UnknownCursor? ==> left == [])
            && (page.Page? ==> page.turns == LastOf(left, n) && page.hasMore == (|left| > n))
            && (page.Page? && page.hasMore ==> page.turns == left[|left| - n..] && page.turns[0] == left[|left| - n]
                                               && |Left(table, page.turns[0].id)| < |left|)
  {
    hide Clamped, Stored, Load, Left;
    var left, n := Left(table, before), Clamped(limit);
    BackPageShape(table, before, limit);
    LastOfLast(left, n);
    if |left| > n {
      NextIsShorter(table, before, limit);
    }
  }

  lemma LastOfLast(s: seq<Row>, n: nat)
    ensures LastOf(LastOf(s, n + 1), n) == LastOf(s, n)
    ensures |LastOf(s, n + 1)| > n <==> |s| > n
    ensures |s| > n ==> LastOf(s, n) == s[|s| - n..]
  {
  }

  // The pages from a cursor back to the beginning, oldest first.
  ghost function Back(table: seq<Row>, before: string, limit: int): seq<Row>
    requires Stored(table)
    decreases |Left(table, before)|
  {
    hide *;
    BackPage(table, before, limit);
    var page := Load(table, 0, before, limit);
    if page.UnknownCursor? then []
    else if !page.hasMore then page.turns
    else Back(table, page.turns[0].id, limit) + page.turns
  }

  // What a page adds, in terms of what its cursor leaves.
  lemma BackStep(table: seq<Row>, before: string, limit: int)
    requires Stored(table)
    ensures var left, n := Left(table, before), Clamped(limit);
            && (|left| <= n ==> Back(table, before, limit) == left)
            && (|left| > n ==> Back(table, before, limit) == Back(table, left[|left| - n].id, limit) + left[|left| - n..])
  {
    BackPage(table, before, limit);
    hide Load, Left, Stored, Clamped;
  }

  lemma DistinctCursor(table: seq<Row>, before: string, limit: int)
    requires Stored(table) && Distinct(Left(table, before)) && |Left(table, before)| > Clamped(limit)
    ensures var left := Left(table, before);
            var k := |left| - Clamped(limit);
            var next := Left(table, left[k].id);
            left == next + left[k..] && |next| < |left| && Distinct(next)
  {
    var m := NextCursor(table, before, limit);
    hide Left, Stored, Clamped, Order;
    DistinctStart(Left(table, before), m);
  }

  lemma DistinctStart(s: seq<Row>, m: nat)
    requires Distinct(s) && m <= |s|
    ensures Distinct(s[..m]) && s == s[..m] + s[m..]
  {
    hide Order;
  }

  lemma {:induction false} BackCollectsWhatIsLeft(table: seq<Row>, before: string, limit: int)
    requires Stored(table) && Distinct(Left(table, before))
    ensures Back(table, before, limit) == Left(table, before)
    decreases |Left(table, before)|
  {
    BackStep(table, before, limit);
    hide Left, Stored, Clamped, Distinct, Back;
    if |Left(table, before)| > Clamped(limit) {
      DistinctCursor(table, before, limit);
      BackCollectsWhatIsLeft(table, Left(table, before)[|Left(table, before)| - Clamped(limit)].id, limit);
    }
  }

  // Page by page of one row, no two rows with one key are ever collected.
  lemma {:induction false} SinglesAreDistinct(table: seq<Row>, before: string, one: int)
    requires Stored(table) && Clamped(one) == 1
    ensures Distinct(Back(table, before, one)) && Within(Back(table, before, one), Left(table, before))
    decreases |Left(table, before)|
  {
    var left := Left(table, before);
    BackStep(table, before, one);
    hide Left, Stored, Clamped, Order, Back;
    if |left| > 1 {
      var m := NextCursor(table, before, one);
      var r := left[|left| - 1];
      SinglesAreDistinct(table, r.id, one);
      OneLater(Back(table, r.id, one), left[..m], left, r);
      assert left[|left| - 1..] == [r];
    }
  }

  lemma OneLater(rest: seq<Row>, under: seq<Row>, left: seq<Row>, r: Row)
    requires Distinct(rest) && Within(rest, under) && Within(under, left) && r in left
    requires forall i :: 0 <= i < |under| ==> Less(Order(false, under[i]), Order(false, r))
    ensures Distinct(rest + [r]) && Within(rest + [r], left)
  {
    forall i | 0 <= i < |rest|
      ensures Less(Order(false, rest[i]), Order(false, r)) && rest[i] in left
    {
      var j :| 0 <= j < |under| && under[j] == rest[i];
    }
  }

  ghost predicate Within(s: seq<Row>, t: seq<Row>) { forall i :: 0 <= i < |s| ==> s[i] in t }

  /** Following the `before` cursors collects every row of the pair, once and in
      order, at every page size exactly when no two rows share timestamp and place:
      the cursor's strict order passes over the rows it ties with. */
  lemma BackIsCompleteExactly(table: seq<Row>)
    requires Stored(table)
    ensures AllBack(table) <==> Distinct(Chat(table))
    ensures Ascending(false, Chat(table)) && multiset(Chat(table)) == Kept(table, All)
  {
    SelectSorts(table, All, false);
    if Distinct(Chat(table)) {
      DistinctIsEnough(table);
    }
    if AllBack(table) {
      assert Back(table, "", 1) == Chat(table);
      SinglesAreDistinct(table, "", 1);
    }
  }

  ghost predicate AllBack(table: seq<Row>)
    requires Stored(table)
  {
    forall limit :: Back(table, "", limit) == Chat(table)
  }

  lemma DistinctIsEnough(table: seq<Row>)
    requires Stored(table) && Distinct(Chat(table))
    ensures AllBack(table)
  {
    forall limit
      ensures Back(table, "", limit) == Chat(table)
    {
      BackCollectsWhatIsLeft(table, "", limit);
    }
  }

  // --- forward through the changes ---------------------------------------------------------

  function Changes(table: seq<Row>, after: int): seq<Row> { Select(table, Newer(after), true) }

  lemma {:induction false} LatestIsTheMost(s: seq<Row>, atLeast: int)
    ensures LatestRevision(s, atLeast) >= atLeast
    ensures forall i :: 0 <= i < |s| ==> s[i].revision <= LatestRevision(s, atLeast)
    ensures LatestRevision(s, atLeast) == atLeast || exists i :: 0 <= i < |s| && s[i].revision == LatestRevision(s, atLeast)
  {
    if s != [] {
      var more := if s[0].revision > atLeast then s[0].revision else atLeast;
      LatestIsTheMost(s[1..], more);
      if LatestRevision(s, atLeast) != more {
        var i :| 0 <= i < |s[1..]| && s[1..][i].revision == LatestRevision(s, atLeast);
        assert s[i + 1].revision == LatestRevision(s, atLeast);
      }
    }
  }

  // The rows newer than a revision are the last ones, in change order.
  lemma RevisionsRise(s: seq<Row>)
    requires Ascending(true, s)
    ensures forall i, j :: 0 <= i < j < |s| ==> s[i].revision <= s[j].revision
  {
    forall i, j | 0 <= i < j < |s|
      ensures s[i].revision <= s[j].revision
    {
      assert !Less(Order(true, s[j]), Order(true, s[i]));
    }
  }

  lemma CutAfter(table: seq<Row>, after: int) returns (k: nat)
    ensures var all := Select(table, All, true);
            && k <= |all| && Changes(table, after) == all[k..] && (k == |all| || all[k].revision > after)
            && (forall i :: 0 <= i < |all| ==> (all[i].revision > after <==> k <= i))
            && (forall i, j :: 0 <= i < j < |all| ==> all[i].revision <= all[j].revision)
  {
    var all := Select(table, All, true);
    SelectSorts(table, All, true);
    RevisionsRise(all);
    SelectFilters(table, Newer(after), true);
    hide Select, Ascending;
    k := 0;
    while k < |all| && all[k].revision <= after
      invariant k <= |all| && forall i :: 0 <= i < k ==> all[i].revision <= after
    {
      k := k + 1;
    }
    FilterCuts(all, Newer(after), k);
  }

  ghost predicate DistinctRevisions(s: seq<Row>) {
    forall i, j :: 0 <= i < j < |s| ==> s[i].revision != s[j].revision
  }

  function Cursor(turns: seq<Row>): int
    requires turns != []
  {
    LatestRevision(turns[1..], turns[0].revision)
  }

  // A full page of changes moves the cursor up to its last row.
  // The cursor of a full page is its last row's revision.
  lemma CursorIsLast(rows: seq<Row>)
    requires rows != [] && forall i, j :: 0 <= i < j < |rows| ==> rows[i].revision <= rows[j].revision
    ensures Cursor(rows) == rows[|rows| - 1].revision
  {
    LatestIsTheMost(rows[1..], rows[0].revision);
    assert |rows| > 1 ==> rows[1..][|rows| - 2] == rows[|rows| - 1];
  }

  // A full page of changes moves the cursor up to its last row.
  lemma NextRevision(table: seq<Row>, after: int, limit: int) returns (m: nat)
    requires Stored(table) && |Changes(table, after)| > Clamped(limit)
    ensures var news, n := Changes(table, after), Clamped(limit);
            var cursor := Cursor(news[..n]);
            && cursor == news[n - 1].revision > after && cursor > 0
            && n <= m <= |news| && Changes(table, cursor) == news[m..]
            && (forall i :: m <= i < |news| ==> news[i].revision > cursor)
            && (DistinctRevisions(news) ==> m == n)
  {
    var all, news, n := Select(table, All, true), Changes(table, after), Clamped(limit);
    var k := CutAfter(table, after);
    SelectedIsStored(table, Newer(after), true, n - 1);
    hide Clamped, Stored, Select;
    CursorIsLast(news[..n]);
    var j := CutAfter(table, Cursor(news[..n]));
    hide Cursor, Changes;
    m := j - k;
    assert all[j..] == news[m..];
    assert all[k + n - 1] == news[n - 1];
    if m > n {
      assert news[n] == all[k + n] && news[n].revision == news[n - 1].revision;
    }
  }

  datatype Caught = Caught(rows: seq<Row>, cursor: int)

  // A client's catch-up: ask again from each page's revision until it is the last.
  ghost function CatchUp(table: seq<Row>, after: int, limit: int): Caught
    requires Stored(table)
    decreases if after == 0 then 1 else 0, |Changes(table, after)|
  {
    var page := Load(table, after, "", limit);
    if !page.hasMore then Caught(page.turns, page.latestRevision)
    else
      assert page.latestRevision != 0 && (after != 0 ==> |Changes(table, page.latestRevision)| < |Changes(table, after)|)
        by { PageMovesOn(table, after, limit); }
      var rest := CatchUp(table, page.latestRevision, limit);
      Caught(page.turns + rest.rows, rest.cursor)
  }

  lemma HeadIsTheMost(table: seq<Row>)
    requires Stored(table)
    ensures Changes(table, Head(table)) == []
    ensures Chat(table) != [] ==> Head(table) > 0
  {
    var rows, all := Chat(table), Select(table, All, true);
    if rows != [] {
      LatestIsTheMost(rows[1..], rows[0].revision);
      SelectedIsStored(table, All, false, 0);
    }
    SelectSorts(table, All, true);
    SelectSorts(table, All, false);
    var k := CutAfter(table, Head(table));
    hide Select, Kept, Stored, Ascending;
    forall i | 0 <= i < |all|
      ensures all[i].revision <= Head(table)
    {
      assert all[i] in multiset(all) && all[i] in multiset(rows);
      var j :| 0 <= j < |rows| && rows[j] == all[i];
      assert j > 0 ==> rows[1..][j - 1] == rows[j];
    }
  }

  lemma PageMovesOn(table: seq<Row>, after: int, limit: int)
    requires Stored(table) && Load(table, after, "", limit).hasMore
    ensures var next := Load(table, after, "", limit).latestRevision;
            next > 0 && (after != 0 ==> |Changes(table, next)| < |Changes(table, after)|)
  {
    if after != 0 {
      var m := NextRevision(table, after, limit);
      var news, n := Changes(table, after), Clamped(limit);
      assert FirstOf(FirstOf(news, n + 1), n) == news[..n];
    } else {
      HeadIsTheMost(table);
    }
  }

  lemma ChangesPage(table: seq<Row>, after: int, limit: int)
    requires after != 0
    ensures var page, news, n := Load(table, after, "", limit), Changes(table, after), Clamped(limit);
            && page.turns == FirstOf(news, n) && page.hasMore == (|news| > n)
            && page.latestRevision == if page.hasMore then Cursor(news[..n]) else Head(table)
  {
    var news, n := Changes(table, after), Clamped(limit);
    assert |news| > n ==> FirstOf(FirstOf(news, n + 1), n) == news[..n];
  }

  lemma {:induction false} CatchUpCollects(table: seq<Row>, after: int, limit: int)
    requires Stored(table) && after != 0
    ensures CatchUp(table, after, limit).cursor == Head(table)
    ensures DistinctRevisions(Changes(table, after)) ==> CatchUp(table, after, limit).rows == Changes(table, after)
    decreases |Changes(table, after)|
  {
    var news, n := Changes(table, after), Clamped(limit);
    ChangesPage(table, after, limit);
    if |news| > n {
      var m := NextRevision(table, after, limit);
      CatchUpCollects(table, Cursor(news[..n]), limit);
      assert DistinctRevisions(news) ==> news[..n] + news[m..] == news;
    }
  }

  lemma {:induction false} SinglesRise(table: seq<Row>, after: int, one: int)
    requires Stored(table) && after != 0 && Clamped(one) == 1
    ensures var all := CatchUp(table, after, one).rows;
            DistinctRevisions(all) && forall i :: 0 <= i < |all| ==> all[i].revision > after
    decreases |Changes(table, after)|
  {
    var news := Changes(table, after);
    ChangesPage(table, after, one);
    SelectSorts(table, Newer(after), true);
    if |news| > 1 {
      var m := NextRevision(table, after, one);
      SinglesRise(table, news[0].revision, one);
      assert CatchUp(table, after, one).rows == [news[0]] + CatchUp(table, news[0].revision, one).rows;
    }
  }

  /** From any revision but zero, catching up ends at the head, and it collects exactly
      the newer rows, at every page size, exactly when their revisions are distinct. */
  lemma CatchUpIsCompleteExactly(table: seq<Row>, after: int)
    requires Stored(table) && after != 0
    ensures forall limit :: CatchUp(table, after, limit).cursor == Head(table)
    ensures AllCaught(table, after) <==> DistinctRevisions(Changes(table, after))
    ensures multiset(Changes(table, after)) == Kept(table, Newer(after))
  {
    SelectSorts(table, Newer(after), true);
    forall limit
      ensures CatchUp(table, after, limit).cursor == Head(table)
      ensures DistinctRevisions(Changes(table, after)) ==> CatchUp(table, after, limit).rows == Changes(table, after)
    {
      CatchUpCollects(table, after, limit);
    }
    if AllCaught(table, after) {
      assert CatchUp(table, after, 1).rows == Changes(table, after);
      SinglesRise(table, after, 1);
    }
  }

  ghost predicate AllCaught(table: seq<Row>, after: int)
    requires Stored(table)
  {
    forall limit :: CatchUp(table, after, limit).rows == Changes(table, after)
  }

  /** Zero counts as no revision at all: from there a client gets the newest page and
      is put at the head, so it has every row exactly when they fit one page. */
  lemma CatchUpFromZeroIsOnePage(table: seq<Row>, limit: int)
    requires Stored(table)
    ensures CatchUp(table, 0, limit).rows == LastOf(Chat(table), Clamped(limit))
    ensures CatchUp(table, 0, limit).rows == Chat(table) <==> |Chat(table)| <= Clamped(limit)
    ensures CatchUp(table, 0, limit).cursor == Head(table)
  {
    var page, n := Load(table, 0, "", limit), Clamped(limit);
    HeadIsTheMost(table);
    assert page.turns == LastOf(Chat(table), n);
    if page.hasMore {
      var head := Head(table);
      ChangesPage(table, head, limit);
      assert CatchUp(table, head, limit) == Caught([], head);
      assert page.turns + [] == page.turns;
    }
  }
}
