/** The revisions the timeline is caught up by: what the writers of `messages` make of
    them (`_next_revision` in server/lib/message_import_common.py, and its callers). */
module PairWrites {
  import opened PairTimeline

  // `given`: the message each revision was given to, ever.
  datatype Store = Store(table: seq<Row>, clock: int, given: map<int, string>)

  datatype Write =
    | Put(row: Row)              // an insert, or an update of the row of that id
    | Tick                       // a revision for a conversation's head only
    | Move(id: string, place: int)
    | Delete(id: string)
    | Restore(row: Row)          // a row of an earlier snapshot, as it was

  function At(table: seq<Row>, id: string): (i: nat)
    ensures i <= |table| && (i < |table| ==> table[i].id == id) && forall j :: 0 <= j < i ==> table[j].id != id
  {
    if table == [] || table[0].id == id then 0 else 1 + At(table[1..], id)
  }

  predicate Has(table: seq<Row>, id: string) { At(table, id) < |table| }

  predicate Enabled(s: Store, w: Write) {
    match w
    case Put(row) => row.id != ""
    case Tick => true
    case Move(id, _) => Has(s.table, id)
    case Delete(id) => Has(s.table, id)
    case Restore(row) => !Has(s.table, row.id) && row.revision in s.given && s.given[row.revision] == row.id
  }

  function Next(s: Store, w: Write): Store
    requires Enabled(s, w)
  {
    match w
    case Put(row) =>
      var i, revision := At(s.table, row.id), s.clock + 1;
      var now := row.(revision := revision);
      Store(if i < |s.table| then s.table[i := now] else s.table + [now], revision, s.given[revision := row.id])
    case Tick => s.(clock := s.clock + 1)
    case Move(id, place) =>
      var i := At(s.table, id);
      s.(table := s.table[i := s.table[i].(place := place)])
    case Delete(id) =>
      var i := At(s.table, id);
      s.(table := s.table[..i] + s.table[i + 1..])
    case Restore(row) => s.(table := s.table + [row])
  }

  ghost predicate IsRun(s: Store, writes: seq<Write>)
    decreases |writes|
  {
    writes == [] || (Enabled(s, writes[0]) && IsRun(Next(s, writes[0]), writes[1..]))
  }

  ghost function Run(s: Store, writes: seq<Write>): Store
    requires IsRun(s, writes)
    decreases |writes|
  {
    if writes == [] then s else Run(Next(s, writes[0]), writes[1..])
  }

  predicate Init(s: Store) { s == Store([], 0, map[]) }

  ghost predicate Ids(table: seq<Row>) { forall i, j :: 0 <= i < j < |table| ==> table[i].id != table[j].id }

  predicate Owned(given: map<int, string>, r: Row) { r.revision in given && given[r.revision] == r.id && r.id != "" }

  ghost predicate Inv(s: Store) {
    && Ids(s.table) && (forall i :: 0 <= i < |s.table| ==> Owned(s.given, s.table[i]))
    && s.clock >= 0 && (forall r :: r in s.given ==> 0 < r <= s.clock && s.given[r] != "")
  }

  lemma PutKeepsInv(s: Store, row: Row)
    requires Inv(s) && Enabled(s, Put(row))
    ensures Inv(Next(s, Put(row)))
  {
  }

  lemma DeleteKeepsInv(s: Store, id: string)
    requires Inv(s) && Enabled(s, Delete(id))
    ensures Inv(Next(s, Delete(id)))
  {
    var i, n := At(s.table, id), Next(s, Delete(id));
    assert forall k :: 0 <= k < |n.table| ==> n.table[k] == s.table[if k < i then k else k + 1];
  }

  lemma StepKeepsInv(s: Store, w: Write)
    requires Inv(s) && Enabled(s, w)
    ensures Inv(Next(s, w))
  {
    match w
    case Put(row) => PutKeepsInv(s, row);
    case Delete(id) => DeleteKeepsInv(s, id);
    case _ =>
  }

  lemma {:induction false} RunKeepsInv(s: Store, writes: seq<Write>)
    requires Inv(s) && IsRun(s, writes)
    ensures Inv(Run(s, writes))
    decreases |writes|
  {
    if writes != [] {
      StepKeepsInv(s, writes[0]);
      hide Inv, Next, Enabled;
      RunKeepsInv(Next(s, writes[0]), writes[1..]);
    }
  }

  lemma {:induction false} InsertedApart(changes: bool, r: Row, s: seq<Row>)
    requires DistinctRevisions(s) && forall i :: 0 <= i < |s| ==> s[i].revision != r.revision
    ensures DistinctRevisions(Insert(changes, r, s))
  {
    if s != [] && Less(Order(changes, s[0]), Order(changes, r)) {
      InsertedApart(changes, r, s[1..]);
      var rest := Insert(changes, r, s[1..]);
      forall j | 0 <= j < |rest|
        ensures rest[j].revision != s[0].revision
      {
        InsertedWas(changes, r, s[1..], j);
      }
    }
  }

  lemma {:induction false} SelectedApart(table: seq<Row>, where: Where, changes: bool)
    requires DistinctRevisions(table)
    ensures DistinctRevisions(Select(table, where, changes))
  {
    if table != [] {
      var s := Select(table[1..], where, changes);
      SelectedApart(table[1..], where, changes);
      SelectSorts(table[1..], where, changes);
      hide Select, Insert, Keeps, Kept;
      forall i | 0 <= i < |s|
        ensures s[i].revision != table[0].revision
      {
        assert s[i] in multiset(s);
        var j := KeptIsInTheTable(table[1..], where, s[i]);
        assert table[1..][j] == table[j + 1];
      }
      InsertedApart(changes, table[0], s);
    }
    SelectOne(table, where, changes);
  }

  lemma SelectOne(table: seq<Row>, where: Where, changes: bool)
    ensures Select(table, where, changes) ==
            if table == [] then []
            else if Keeps(where, table[0]) then Insert(changes, table[0], Select(table[1..], where, changes))
            else Select(table[1..], where, changes)
  {
  }

  /** Each write of a row takes the next revision, and nothing else gives a row one: over
      all runs of the writers revisions are distinct, and catching up from any revision
      but zero collects exactly the newer rows at every page size. */
  lemma CatchUpIsCompleteForWhatIsWritten(s0: Store, writes: seq<Write>, after: int)
    requires Init(s0) && IsRun(s0, writes) && after != 0
    ensures var table := Run(s0, writes).table;
            Stored(table) && DistinctRevisions(table) && AllCaught(table, after)
  {
    RunKeepsInv(s0, writes);
    var table := Run(s0, writes).table;
    SelectedApart(table, Newer(after), true);
    CatchUpIsCompleteExactly(table, after);
  }
}
