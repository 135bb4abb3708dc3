/** The conversation list's one query (`_list_conversations_uncached` in
    server/lib/agent_conversations.py) against the timeline each entry opens. */
module ConversationList {
  import T = PairTimeline
  import opened Wrappers

  // One stored message. `pair`: what the query asks of every row but for its agents;
  // an agent stands for its place in the order of ids.
  datatype Message = Message(
    id: string, agent: int, sender: int, pair: bool, user: bool,
    timestamp: int, place: int, revision: int)

  function Low(m: Message): int { if m.agent < m.sender then m.agent else m.sender }

  function High(m: Message): int { if m.agent < m.sender then m.sender else m.agent }

  // --- the query -------------------------------------------------------------------------

  // pair_rows, of one group.
  function Group(messages: seq<Message>, alive: set<int>, low: int, high: int): seq<Message> {
    if messages == [] then []
    else
      var m, rest := messages[0], Group(messages[1..], alive, low, high);
      if m.pair && m.agent in alive && m.sender in alive && Low(m) == low && High(m) == high then [m] + rest else rest
  }

  // One seek into the index: one direction of a conversation.
  function Seek(messages: seq<Message>, agent: int, sender: int): seq<Message> {
    if messages == [] then []
    else
      var m, rest := messages[0], Seek(messages[1..], agent, sender);
      if m.pair && m.agent == agent && m.sender == sender then [m] + rest else rest
  }

  function Key(m: Message): T.Key { (m.timestamp, m.place, 0) }

  // ORDER BY timestamp DESC, seq DESC LIMIT 1
  function Newest(s: seq<Message>): (r: Option<Message>)
    ensures r.None? <==> s == []
    ensures r.Some? ==> r.value in s && forall i :: 0 <= i < |s| ==> !T.Less(Key(r.value), Key(s[i]))
  {
    if s == [] then None
    else
      var rest := Newest(s[1..]);
      if rest.Some? && T.Less(Key(s[0]), Key(rest.value)) then rest else Some(s[0])
  }

  function Most(s: seq<int>): (r: int)
    requires s != []
    ensures r in s && forall i :: 0 <= i < |s| ==> s[i] <= r
  {
    if |s| == 1 then s[0]
    else
      var rest := Most(s[1..]);
      if s[0] > rest then s[0] else rest
  }

  function Revisions(s: seq<Message>): (r: seq<int>)
    ensures |r| == |s| && forall i :: 0 <= i < |s| ==> r[i] == s[i].revision
  {
    seq(|s|, i requires 0 <= i < |s| => s[i].revision)
  }

  datatype Entry = Entry(count: nat, latestRevision: int, delivered: bool, newest: Option<Message>)

  // A row of the list, before what was never delivered is left out.
  function EntryOf(messages: seq<Message>, alive: set<int>, low: int, high: int): Option<Entry> {
    var group := Group(messages, alive, low, high);
    if group == [] then None
    else Some(Entry(|group|, Most(Revisions(group)), exists m :: m in group && m.user,
                    Newest(Seek(messages, low, high) + Seek(messages, high, low))))
  }

  // --- the timeline's rows -------------------------------------------------------------------

  // The timeline's own predicate: either direction.
  predicate Between(m: Message, a: int, b: int) {
    m.pair && ((m.agent == a && m.sender == b) || (m.agent == b && m.sender == a))
  }

  function RowOf(m: Message, a: int, b: int): T.Row { T.Row(m.id, Between(m, a, b), m.timestamp, m.place, m.revision) }

  function Table(messages: seq<Message>, a: int, b: int): (r: seq<T.Row>)
    ensures |r| == |messages| && forall i :: 0 <= i < |r| ==> r[i] == RowOf(messages[i], a, b)
  {
    seq(|messages|, i requires 0 <= i < |messages| => RowOf(messages[i], a, b))
  }

  function Rows(s: seq<Message>, a: int, b: int): multiset<T.Row> {
    if s == [] then multiset{} else Rows(s[1..], a, b) + multiset{RowOf(s[0], a, b)}
  }

  // The group has the two seeks' rows, each once.
  lemma {:induction false} GroupIsBothSeeks(messages: seq<Message>, alive: set<int>, low: int, high: int)
    requires low < high && low in alive && high in alive
    ensures multiset(Group(messages, alive, low, high)) ==
            multiset(Seek(messages, low, high)) + multiset(Seek(messages, high, low))
    ensures forall i :: 0 <= i < |Group(messages, alive, low, high)| ==> Between(Group(messages, alive, low, high)[i], low, high)
  {
    if messages != [] {
      GroupIsBothSeeks(messages[1..], alive, low, high);
    }
  }

  lemma {:induction false} GroupHas(messages: seq<Message>, alive: set<int>, low: int, high: int, m: Message)
    requires low < high && low in alive && high in alive
    ensures m in Group(messages, alive, low, high) <==> m in messages && Between(m, low, high)
  {
    if messages != [] {
      GroupHas(messages[1..], alive, low, high, m);
    }
  }

  // And the timeline has just those.
  lemma {:induction false} GroupIsTheChat(messages: seq<Message>, alive: set<int>, low: int, high: int)
    requires low < high && low in alive && high in alive
    ensures T.Kept(Table(messages, low, high), T.All) == Rows(Group(messages, alive, low, high), low, high)
    ensures |Rows(Group(messages, alive, low, high), low, high)| == |Group(messages, alive, low, high)|
  {
    if messages != [] {
      GroupIsTheChat(messages[1..], alive, low, high);
      assert Table(messages, low, high)[1..] == Table(messages[1..], low, high);
      assert Table(messages, low, high)[0] == RowOf(messages[0], low, high);
    }
  }

  lemma {:induction false} RowsHas(s: seq<Message>, a: int, b: int, r: T.Row)
    ensures r in Rows(s, a, b) <==> exists i :: 0 <= i < |s| && RowOf(s[i], a, b) == r
  {
    if s != [] {
      RowsHas(s[1..], a, b, r);
      assert forall i :: 0 < i < |s| ==> s[i] == s[1..][i - 1];
      if i :| 0 <= i < |s| - 1 && RowOf(s[1..][i], a, b) == r {
        assert s[i + 1] == s[1..][i];
      }
    }
  }

  ghost predicate IsSomeones(r: T.Row, group: seq<Message>, a: int, b: int) {
    exists k :: 0 <= k < |group| && RowOf(group[k], a, b) == r
  }

  // Each row is some message's, and each message's row is there.
  ghost predicate Matches(chat: seq<T.Row>, group: seq<Message>, a: int, b: int) {
    && (forall i :: 0 <= i < |chat| ==> IsSomeones(chat[i], group, a, b))
    && (forall k :: 0 <= k < |group| ==> RowOf(group[k], a, b) in chat)
  }

  lemma FromChat(chat: seq<T.Row>, group: seq<Message>, a: int, b: int, i: nat) returns (k: nat)
    requires Matches(chat, group, a, b) && i < |chat|
    ensures k < |group| && RowOf(group[k], a, b) == chat[i]
    ensures chat[i].revision == group[k].revision && T.Order(false, chat[i]) == Key(group[k])
  {
    assert IsSomeones(chat[i], group, a, b);
    k :| 0 <= k < |group| && RowOf(group[k], a, b) == chat[i];
  }

  lemma ToChat(chat: seq<T.Row>, group: seq<Message>, a: int, b: int, k: nat) returns (i: nat)
    requires Matches(chat, group, a, b) && k < |group|
    ensures i < |chat| && chat[i] == RowOf(group[k], a, b)
    ensures chat[i].revision == group[k].revision && T.Order(false, chat[i]) == Key(group[k])
  {
    assert RowOf(group[k], a, b) in chat;
    i :| 0 <= i < |chat| && chat[i] == RowOf(group[k], a, b);
  }

  // The chat's rows are the group's.
  lemma ChatRows(messages: seq<Message>, alive: set<int>, low: int, high: int)
    requires low < high && low in alive && high in alive
    ensures var chat, group := T.Chat(Table(messages, low, high)), Group(messages, alive, low, high);
            |chat| == |group| && Matches(chat, group, low, high)
  {
    var table, group := Table(messages, low, high), Group(messages, alive, low, high);
    var chat := T.Chat(table);
    GroupIsTheChat(messages, alive, low, high);
    T.SelectSorts(table, T.All, false);
    assert multiset(chat) == Rows(group, low, high);
    assert |chat| == |multiset(chat)|;
    hide T.Chat, T.Kept, Group, Rows, Table, RowOf;
    forall i | 0 <= i < |chat|
      ensures IsSomeones(chat[i], group, low, high)
    {
      assert chat[i] in multiset(chat);
      RowsHas(group, low, high, chat[i]);
    }
    forall k | 0 <= k < |group|
      ensures RowOf(group[k], low, high) in chat
    {
      RowsHas(group, low, high, RowOf(group[k], low, high));
      assert RowOf(group[k], low, high) in multiset(chat);
    }
  }

  lemma MostIsLatest(chat: seq<T.Row>, group: seq<Message>, a: int, b: int)
    requires chat != [] && group != [] && Matches(chat, group, a, b)
    ensures T.LatestRevision(chat[1..], chat[0].revision) == Most(Revisions(group))
  {
    var head, most := T.LatestRevision(chat[1..], chat[0].revision), Most(Revisions(group));
    T.LatestIsTheMost(chat[1..], chat[0].revision);
    hide T.LatestRevision, Most, Matches, RowOf, Key, T.Order;
    var k :| 0 <= k < |group| && Revisions(group)[k] == most;
    var i := ToChat(chat, group, a, b, k);
    assert i > 0 ==> chat[1..][i - 1] == chat[i];
    var j := if head == chat[0].revision then 0 else var j :| 0 <= j < |chat| - 1 && chat[1..][j].revision == head; j + 1;
    var l := FromChat(chat, group, a, b, j);
    assert Revisions(group)[l] == head;
  }

  lemma HeadIsMost(messages: seq<Message>, alive: set<int>, low: int, high: int)
    requires low < high && low in alive && high in alive && Group(messages, alive, low, high) != []
    ensures T.Head(Table(messages, low, high)) == Most(Revisions(Group(messages, alive, low, high)))
  {
    ChatRows(messages, alive, low, high);
    hide Group, Table, T.Select, T.LatestRevision, Most, Matches;
    MostIsLatest(T.Chat(Table(messages, low, high)), Group(messages, alive, low, high), low, high);
  }

  // What the seeks find is of the group, and nothing of the group is newer.
  lemma NewestOfTheGroup(messages: seq<Message>, alive: set<int>, low: int, high: int)
    requires low < high && low in alive && high in alive && Group(messages, alive, low, high) != []
    ensures var group, newest := Group(messages, alive, low, high), Newest(Seek(messages, low, high) + Seek(messages, high, low));
            newest.Some? && newest.value in group && forall i :: 0 <= i < |group| ==> !T.Less(Key(newest.value), Key(group[i]))
  {
    var group := Group(messages, alive, low, high);
    var seeks := Seek(messages, low, high) + Seek(messages, high, low);
    GroupIsBothSeeks(messages, alive, low, high);
    hide Group, Seek, T.Less, Key;
    assert multiset(seeks) == multiset(group);
    assert group[0] in multiset(group) && group[0] in multiset(seeks);
    var newest := Newest(seeks).value;
    assert newest in multiset(seeks) && newest in multiset(group);
    forall i | 0 <= i < |group|
      ensures !T.Less(Key(newest), Key(group[i]))
    {
      assert group[i] in multiset(group) && group[i] in multiset(seeks);
    }
  }

  lemma LastIsNewest(chat: seq<T.Row>, group: seq<Message>, newest: Message, low: int, high: int)
    requires T.Ascending(false, chat) && chat != [] && newest in group && Matches(chat, group, low, high)
    requires forall i :: 0 <= i < |group| ==> !T.Less(Key(newest), Key(group[i]))
    ensures Key(newest) == T.Order(false, chat[|chat| - 1])
    ensures T.Distinct(chat) ==> RowOf(newest, low, high) == chat[|chat| - 1]
  {
    var l := |chat| - 1;
    var j :| 0 <= j < |group| && group[j] == newest;
    var i := ToChat(chat, group, low, high, j);
    var k := FromChat(chat, group, low, high, l);
    hide Matches, RowOf, Key;
    assert i < l ==> !T.Less(T.Order(false, chat[l]), T.Order(false, chat[i]));
    assert !T.Less(Key(newest), Key(group[k]));
    assert T.Order(false, chat[l]) == T.Order(false, chat[i]);
    assert T.Distinct(chat) ==> i == l;
  }

  lemma NewestIsLast(messages: seq<Message>, alive: set<int>, low: int, high: int)
    requires low < high && low in alive && high in alive && Group(messages, alive, low, high) != []
    ensures var newest, chat := Newest(Seek(messages, low, high) + Seek(messages, high, low)), T.Chat(Table(messages, low, high));
            && newest.Some? && chat != [] && Key(newest.value) == T.Order(false, chat[|chat| - 1])
            && (T.Distinct(chat) ==> RowOf(newest.value, low, high) == chat[|chat| - 1])
  {
    var chat, group := T.Chat(Table(messages, low, high)), Group(messages, alive, low, high);
    ChatRows(messages, alive, low, high);
    NewestOfTheGroup(messages, alive, low, high);
    T.SelectSorts(Table(messages, low, high), T.All, false);
    hide Group, Table, Seek, T.Select, T.Kept, T.Ascending, T.Less, Key, RowOf, Matches;
    var newest := Newest(Seek(messages, low, high) + Seek(messages, high, low)).value;
    LastIsNewest(chat, group, newest, low, high);
  }

  lemma NewestPage(table: seq<T.Row>, limit: int)
    ensures var page := T.Load(table, 0, "", limit);
            && page.Page? && page.latestRevision == T.Head(table) && (page.turns == [] <==> T.Chat(table) == [])
            && (page.turns != [] ==> page.turns[|page.turns| - 1] == T.Chat(table)[|T.Chat(table)| - 1])
  {
    hide T.Head, T.Select;
  }

  lemma EntryParts(messages: seq<Message>, alive: set<int>, low: int, high: int)
    ensures var group, entry := Group(messages, alive, low, high), EntryOf(messages, alive, low, high);
            && (entry.None? <==> group == [])
            && (entry.Some? ==> (entry.value.delivered <==> exists m :: m in group && m.user))
            && (entry.Some? ==> entry.value.count == |group| && entry.value.latestRevision == Most(Revisions(group))
                                && entry.value.newest == Newest(Seek(messages, low, high) + Seek(messages, high, low)))
  {
    hide Group, Seek, Newest, Most;
  }

  /** An entry agrees with the timeline it opens: there is one exactly when the timeline
      has a row; it counts the timeline's rows, has its latest revision, and was delivered
      to if one of the conversation's messages is a user's row; and the two
      seeks find a newest row of the conversation, the last turn of the timeline's newest
      page if no two rows tie, and one of its place in any case. */
  lemma EntryIsTheTimelines(messages: seq<Message>, alive: set<int>, low: int, high: int, limit: int)
    requires low < high && low in alive && high in alive
    ensures var table, entry := Table(messages, low, high), EntryOf(messages, alive, low, high);
            var page := T.Load(table, 0, "", limit);
            && page.Page? && (entry.None? <==> page.turns == [])
            && (entry.Some? ==>
                 && (entry.value.delivered <==> exists m :: m in messages && m.user && Between(m, low, high))
                 && entry.value.count == |T.Chat(table)| && entry.value.latestRevision == page.latestRevision
                 && entry.value.newest.Some? && page.turns != []
                 && var last, newest := page.turns[|page.turns| - 1], entry.value.newest.value;
                    && T.Order(false, last) == Key(newest)
                    && (T.Distinct(T.Chat(table)) ==> last == RowOf(newest, low, high)))
  {
    hide *;
    ChatRows(messages, alive, low, high);
    NewestPage(Table(messages, low, high), limit);
    EntryParts(messages, alive, low, high);
    forall m: Message
      ensures m in Group(messages, alive, low, high) <==> m in messages && Between(m, low, high)
    {
      GroupHas(messages, alive, low, high, m);
    }
    if Group(messages, alive, low, high) != [] {
      HeadIsMost(messages, alive, low, high);
      NewestIsLast(messages, alive, low, high);
    }
  }
}
