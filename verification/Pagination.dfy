/** Message history with keyset pagination (presidium-storage/src/store.rs). */
module Pagination {
  import opened Results
  import opened Terms

  datatype Row = Row(id: int, conversationId: string, messageId: Bytes, status: nat)

  datatype InsertError = NoConversation | DuplicateMessage

  /** The messages table in id order. Ids come from AUTOINCREMENT: each is above every id used before. */
  predicate Ordered(rows: seq<Row>) {
    forall i, j :: 0 <= i < j < |rows| ==> rows[i].id < rows[j].id
  }

  predicate Selected(row: Row, conversation: string, before: Option<int>) {
    row.conversationId == conversation && (before.Some? ==> row.id < before.value)
  }

  /** SELECT ... WHERE conversation_id AND id < before ORDER BY id DESC. */
  function Newest(rows: seq<Row>, conversation: string, before: Option<int>): seq<Row> {
    if rows == [] then []
    else
      var last := rows[|rows| - 1];
      (if Selected(last, conversation, before) then [last] else []) + Newest(rows[..|rows| - 1], conversation, before)
  }

  /** ... LIMIT limit; a negative limit is no limit. */
  function Page(rows: seq<Row>, conversation: string, before: Option<int>, limit: int): seq<Row> {
    var all := Newest(rows, conversation, before);
    if 0 <= limit < |all| then all[..limit] else all
  }

  class MessageStore {
    var conversations: set<string>
    var rows: seq<Row>
    var lastId: int
    ghost var tables: seq<seq<Row>>

    /** `tables` lists the states of the table so far, the present one last. */
    ghost predicate Valid()
      reads this
    {
      && Ordered(rows)
      && tables != [] && tables[|tables| - 1] == rows && Growing(tables)
      && (forall i :: 0 <= i < |rows| ==> rows[i].id <= lastId)
      && (forall i, j :: 0 <= i < j < |rows| ==>
            !(rows[i].conversationId == rows[j].conversationId && rows[i].messageId == rows[j].messageId))
    }

    constructor (known: set<string>)
      ensures Valid() && rows == [] && conversations == known && lastId == 0
    {
      conversations, rows, lastId, tables := known, [], 0, [[]];
    }

    /** Inserts under a fresh id, or fails on the foreign key or the uniqueness of the message id. */
    method InsertMessage(conversation: string, messageId: Bytes, status: nat) returns (result: Result<int, InsertError>)
      requires Valid()
      modifies `rows, `lastId, `tables
      ensures Valid() && Grew(old(rows), rows)
      ensures tables == if result.Success? then old(tables) + [rows] else old(tables)
      ensures result == Failure(NoConversation) <==> conversation !in old(conversations)
      ensures result == Failure(DuplicateMessage) <==>
        conversation in old(conversations)
        && exists i :: 0 <= i < |old(rows)|
             && old(rows)[i].conversationId == conversation && old(rows)[i].messageId == messageId
      ensures result.Success? ==>
        && result.value == lastId && lastId > old(lastId)
        && rows == old(rows) + [Row(lastId, conversation, messageId, status)]
      ensures result.Failure? ==> rows == old(rows) && lastId == old(lastId)
    {
      if conversation !in conversations {
        return Failure(NoConversation);
      }
      if exists i :: 0 <= i < |rows| && rows[i].conversationId == conversation && rows[i].messageId == messageId {
        return Failure(DuplicateMessage);
      }
      lastId := lastId + 1;
      rows := rows + [Row(lastId, conversation, messageId, status)];
      GrowingExtends(tables, rows);
      tables := tables + [rows];
      result := Success(lastId);
    }

    method UpdateMessageStatus(id: int, status: nat)
      requires Valid()
      modifies `rows, `tables
      ensures tables == old(tables) + [rows]
      ensures Valid() && |rows| == |old(rows)| && Grew(old(rows), rows)
      ensures forall i :: 0 <= i < |rows| ==>
        rows[i] == if old(rows)[i].id == id then old(rows)[i].(status := status) else old(rows)[i]
    {
      rows := seq(|rows|, i requires 0 <= i < |rows| reads this =>
        if rows[i].id == id then rows[i].(status := status) else rows[i]);
      GrowingExtends(tables, rows);
      tables := tables + [rows];
    }

    /** The newest selected rows, newest first: a selected row is left out only when the page is full
        of newer ones. */
    method ListMessages(conversation: string, before: Option<int>, limit: int) returns (page: seq<Row>)
      requires Valid()
      ensures page == Page(rows, conversation, before, limit)
      ensures forall i, j :: 0 <= i < j < |page| ==> page[i].id > page[j].id
      ensures forall row :: row in page ==> row in rows && Selected(row, conversation, before)
      ensures limit >= 0 ==> |page| <= limit
      ensures forall row :: row in rows && Selected(row, conversation, before) && row !in page ==>
        |page| == limit && forall i :: 0 <= i < |page| ==> page[i].id > row.id
    {
      page := Page(rows, conversation, before, limit);
      PageIsNewest(rows, conversation, before, limit);
    }
  }

  // ---------------------------------------------------------------- ids of a selection

  function Ids(rows: seq<Row>): seq<int> {
    seq(|rows|, i requires 0 <= i < |rows| => rows[i].id)
  }

  function NewestIds(rows: seq<Row>, conversation: string, before: Option<int>): seq<int> {
    Ids(Newest(rows, conversation, before))
  }

  lemma {:induction false} NewestHolds(rows: seq<Row>, conversation: string, before: Option<int>, row: Row)
    ensures row in Newest(rows, conversation, before) <==> row in rows && Selected(row, conversation, before)
  {
    if rows == [] {
    } else {
      var n := |rows| - 1;
      NewestHolds(rows[..n], conversation, before, row);
      assert rows == rows[..n] + [rows[n]];
    }
  }

  predicate Descends(rows: seq<Row>) {
    forall i, j :: 0 <= i < j < |rows| ==> rows[i].id > rows[j].id
  }

  lemma DescendsBehind(first: Row, rest: seq<Row>)
    requires Descends(rest) && forall i :: 0 <= i < |rest| ==> rest[i].id < first.id
    ensures Descends([first] + rest)
  {
  }

  lemma {:induction false} NewestDescends(rows: seq<Row>, conversation: string, before: Option<int>)
    requires Ordered(rows)
    ensures Descends(Newest(rows, conversation, before))
  {
    if rows == [] {
    } else {
      var n := |rows| - 1;
      NewestDescends(rows[..n], conversation, before);
      NewestBounded(rows[..n], conversation, before, rows[n].id);
      var all, rest := Newest(rows, conversation, before), Newest(rows[..n], conversation, before);
      if Selected(rows[n], conversation, before) {
        DescendsBehind(rows[n], rest);
        assert all == [rows[n]] + rest;
      } else {
        assert all == rest;
      }
    }
  }

  lemma NewestMembers(rows: seq<Row>, conversation: string, before: Option<int>)
    requires Ordered(rows)
    ensures var all := Newest(rows, conversation, before);
      && (forall row :: row in all <==> row in rows && Selected(row, conversation, before))
      && (forall i, j :: 0 <= i < j < |all| ==> all[i].id > all[j].id)
  {
    NewestDescends(rows, conversation, before);
    forall row: Row {
      NewestHolds(rows, conversation, before, row);
    }
  }

  lemma PageIsNewest(rows: seq<Row>, conversation: string, before: Option<int>, limit: int)
    requires Ordered(rows)
    ensures var page := Page(rows, conversation, before, limit);
      && (forall i, j :: 0 <= i < j < |page| ==> page[i].id > page[j].id)
      && (forall row :: row in page ==> row in rows && Selected(row, conversation, before))
      && (forall row :: row in rows && Selected(row, conversation, before) && row !in page ==>
            |page| == limit && forall i :: 0 <= i < |page| ==> page[i].id > row.id)
  {
    var all, page := Newest(rows, conversation, before), Page(rows, conversation, before, limit);
    NewestMembers(rows, conversation, before);
    assert forall i :: 0 <= i < |page| ==> page[i] == all[i];
    forall row | row in rows && Selected(row, conversation, before) && row !in page
      ensures |page| == limit && forall i :: 0 <= i < |page| ==> page[i].id > row.id
    {
      var j :| 0 <= j < |all| && all[j] == row;
      assert j >= |page|;
    }
  }

  lemma {:induction false} NewestBounded(rows: seq<Row>, conversation: string, before: Option<int>, bound: int)
    requires forall i :: 0 <= i < |rows| ==> rows[i].id < bound
    ensures forall i :: 0 <= i < |Newest(rows, conversation, before)| ==>
      Newest(rows, conversation, before)[i].id < bound
  {
    if rows == [] {
    } else {
      NewestBounded(rows[..|rows| - 1], conversation, before, bound);
    }
  }

  /** Narrowing a selection to ids below its entry `k` drops the first `k + 1` entries. */
  lemma {:induction false} NewestBelow(rows: seq<Row>, conversation: string, before: Option<int>, k: nat)
    requires Ordered(rows) && k < |Newest(rows, conversation, before)|
    ensures var all := Newest(rows, conversation, before);
      Newest(rows, conversation, Some(all[k].id)) == all[k + 1..]
    decreases rows, 0
  {
    var n := |rows| - 1;
    var rest, last := rows[..n], rows[n];
    var all, below := Newest(rows, conversation, before), Newest(rest, conversation, before);
    if !Selected(last, conversation, before) {
      assert all == below;
      BelowOlder(rest, last, conversation, before, k);
    } else {
      assert all == [last] + below;
      if k == 0 {
        NewestUnbounded(rest, conversation, before, last.id);
      } else {
        BelowOlder(rest, last, conversation, before, k - 1);
        PastFirst(last, below, k);
      }
    }
  }

  lemma PastFirst(first: Row, rest: seq<Row>, k: nat)
    requires 0 < k <= |rest|
    ensures ([first] + rest)[k] == rest[k - 1] && ([first] + rest)[k + 1..] == rest[k..]
  {
  }

  lemma BelowOlder(rest: seq<Row>, last: Row, conversation: string, before: Option<int>, k: nat)
    requires Ordered(rest) && (forall i :: 0 <= i < |rest| ==> rest[i].id < last.id)
    requires k < |Newest(rest, conversation, before)|
    ensures var below := Newest(rest, conversation, before);
      && !Selected(last, conversation, Some(below[k].id))
      && Newest(rest, conversation, Some(below[k].id)) == below[k + 1..]
    decreases rest, 1
  {
    NewestBounded(rest, conversation, before, last.id);
    NewestBelow(rest, conversation, before, k);
  }

  /** A bound above every id, and at most the bound given, selects the same rows. */
  lemma {:induction false} NewestUnbounded(rows: seq<Row>, conversation: string, before: Option<int>, bound: int)
    requires forall i :: 0 <= i < |rows| ==> rows[i].id < bound
    requires before.Some? ==> bound < before.value
    ensures Newest(rows, conversation, Some(bound)) == Newest(rows, conversation, before)
  {
    if rows == [] {
    } else {
      NewestUnbounded(rows[..|rows| - 1], conversation, before, bound);
    }
  }

  // ---------------------------------------------------------------- pages of a growing table

  /** Between two looks at the table, rows may have been added above and statuses changed. */
  predicate Grew(earlier: seq<Row>, later: seq<Row>) {
    && |earlier| <= |later|
    && (forall i :: 0 <= i < |earlier| ==>
          later[i].id == earlier[i].id && later[i].conversationId == earlier[i].conversationId)
  }

  /** A selection below an old id sees nothing of what was inserted since. */
  lemma {:induction false} GrowthInvisible(earlier: seq<Row>, later: seq<Row>, conversation: string, bound: int)
    requires Ordered(later) && Grew(earlier, later)
    requires exists i :: 0 <= i < |earlier| && bound <= earlier[i].id
    ensures NewestIds(later, conversation, Some(bound)) == NewestIds(earlier, conversation, Some(bound))
    decreases |later|
  {
    if |later| > |earlier| {
      GrowthInvisible(earlier, later[..|later| - 1], conversation, bound);
    } else {
      SameIds(earlier, later, conversation, Some(bound));
    }
  }

  lemma {:induction false} SameIds(a: seq<Row>, b: seq<Row>, conversation: string, before: Option<int>)
    requires |a| == |b| && Grew(a, b)
    ensures NewestIds(a, conversation, before) == NewestIds(b, conversation, before)
  {
    if a == [] {
    } else {
      SameIds(a[..|a| - 1], b[..|b| - 1], conversation, before);
      assert Newest(a, conversation, before)
          == (if Selected(a[|a| - 1], conversation, before) then [a[|a| - 1]] else [])
            + Newest(a[..|a| - 1], conversation, before);
      assert Newest(b, conversation, before)
          == (if Selected(b[|b| - 1], conversation, before) then [b[|b| - 1]] else [])
            + Newest(b[..|b| - 1], conversation, before);
      IdsShift(a, conversation, before);
      IdsShift(b, conversation, before);
    }
  }

  lemma IdsShift(rows: seq<Row>, conversation: string, before: Option<int>)
    requires rows != []
    ensures var last := rows[|rows| - 1];
      NewestIds(rows, conversation, before) ==
        (if Selected(last, conversation, before) then [last.id] else [])
          + NewestIds(rows[..|rows| - 1], conversation, before)
  {
  }

  /** Where `n` entries from position `m` on end in a list of `length`. */
  function End(length: nat, m: nat, n: nat): nat {
    if m + n < length then m + n else length
  }

  /** The ids of one page. */
  function PageIds(rows: seq<Row>, conversation: string, before: Option<int>, limit: int): seq<int> {
    Ids(Page(rows, conversation, before, limit))
  }

  lemma PageIdsAreTaken(rows: seq<Row>, conversation: string, before: Option<int>, limit: int)
    requires limit > 0
    ensures var all := NewestIds(rows, conversation, before);
      PageIds(rows, conversation, before, limit) == all[..End(|all|, 0, limit)]
  {
  }

  /** A look at the table: the ids of the page below an id, at the `i`th visit. */
  type Look = (nat, Option<int>) -> seq<int>

  /** Visits to a table in its successive states. */
  function LooksAt(tables: seq<seq<Row>>, conversation: string, limit: int): Look {
    (i: nat, before: Option<int>) => if i < |tables| then PageIds(tables[i], conversation, before, limit) else []
  }

  /** The ids a reader collects over so many pages: each asks for ids below the last one seen, and an
      empty page ends it. */
  function Follow(look: Look, visit: nat, pages: nat, before: Option<int>): seq<int>
    decreases pages
  {
    if pages == 0 then []
    else
      var page := look(visit, before);
      if page == [] then [] else page + Follow(look, visit + 1, pages - 1, Some(page[|page| - 1]))
  }

  predicate Growing(tables: seq<seq<Row>>) {
    && (forall i :: 0 <= i < |tables| ==> Ordered(tables[i]))
    && (forall i, j :: 0 <= i <= j < |tables| ==> Grew(tables[i], tables[j]))
  }

  lemma GrowingExtends(tables: seq<seq<Row>>, rows: seq<Row>)
    requires Growing(tables) && tables != [] && Ordered(rows) && Grew(tables[|tables| - 1], rows)
    ensures Growing(tables + [rows])
  {
    forall i, j | 0 <= i <= j < |tables + [rows]|
      ensures Grew((tables + [rows])[i], (tables + [rows])[j])
    {
      if i < j == |tables| {
        assert Grew(tables[i], tables[|tables| - 1]);
      }
    }
  }

  /** The states a reader looks at: at each visit one no earlier than at the visit before. */
  predicate Visits(tables: seq<seq<Row>>, visits: seq<nat>) {
    && (forall i :: 0 <= i < |visits| ==> visits[i] < |tables|)
    && (forall i, j :: 0 <= i <= j < |visits| ==> visits[i] <= visits[j])
  }

  function Visited(tables: seq<seq<Row>>, visits: seq<nat>): seq<seq<Row>>
    requires Visits(tables, visits)
  {
    seq(|visits|, i requires 0 <= i < |visits| => tables[visits[i]])
  }

  /** What is left below entry `k` of the first look, seen from any later look. */
  lemma LeftBelow(origin: seq<Row>, later: seq<Row>, conversation: string, k: nat)
    requires Ordered(origin) && Ordered(later) && Grew(origin, later) && k < |NewestIds(origin, conversation, None)|
    ensures var all := NewestIds(origin, conversation, None);
      NewestIds(later, conversation, Some(all[k])) == all[k + 1..]
  {
    var rows := Newest(origin, conversation, None);
    NewestMembers(origin, conversation, None);
    assert rows[k] in origin;
    GrowthInvisible(origin, later, conversation, rows[k].id);
    NewestBelow(origin, conversation, None, k);
  }

  function Times(limit: nat, n: nat): nat {
    if n == 0 then 0 else limit + Times(limit, n - 1)
  }

  lemma {:induction false} TimesIsProduct(limit: nat, n: nat)
    ensures Times(limit, n) == limit * n
  {
    if n == 0 {
    } else {
      TimesIsProduct(limit, n - 1);
    }
  }

  /** A reader that has seen the first `m` entries of the list is shown the next ones. */
  predicate ShowsNext(look: Look, visit: nat, all: seq<int>, m: nat, limit: nat) {
    1 <= m <= |all| ==> look(visit, Some(all[m - 1])) == all[m..End(|all|, m, limit)]
  }

  ghost predicate SeesListed(look: Look, visit: nat, end: nat, all: seq<int>, limit: nat) {
    forall i: nat, m: nat :: visit <= i < end ==> ShowsNext(look, i, all, m, limit)
  }

  lemma SlicesJoin(all: seq<int>, a: nat, b: nat, c: nat)
    requires a <= b <= c <= |all|
    ensures all[a..b] + all[b..c] == all[a..c]
  {
  }

  /** The later pages, all measured against the list of the first look. */
  lemma {:induction false} FollowFrom(look: Look, visit: nat, pages: nat, all: seq<int>, m: nat, limit: nat)
    requires limit > 0 && 1 <= m <= |all| && SeesListed(look, visit, visit + pages, all, limit)
    ensures Follow(look, visit, pages, Some(all[m - 1])) == all[m..End(|all|, m, Times(limit, pages))]
    decreases pages
  {
    if pages == 0 {
    } else {
      assert ShowsNext(look, visit, all, m, limit);
      var e := End(|all|, m, limit);
      if m < |all| {
        assert all[m..e][e - m - 1] == all[e - 1];
        FollowFrom(look, visit + 1, pages - 1, all, e, limit);
        SlicesJoin(all, m, e, End(|all|, e, Times(limit, pages - 1)));
      }
    }
  }

  lemma FollowAll(look: Look, pages: nat, all: seq<int>, limit: nat)
    requires limit > 0 && pages > 0 && look(0, None) == all[..End(|all|, 0, limit)]
    requires SeesListed(look, 1, pages, all, limit)
    ensures Follow(look, 0, pages, None) == all[..End(|all|, 0, limit * pages)]
  {
    TimesIsProduct(limit, pages);
    if all != [] {
      var e := End(|all|, 0, limit);
      assert all[..e][e - 1] == all[e - 1];
      FollowFrom(look, 1, pages - 1, all, e, limit);
      SlicesJoin(all, 0, e, End(|all|, e, Times(limit, pages - 1)));
    }
  }

  lemma SliceOfRest(all: seq<int>, m: nat, limit: nat)
    requires m <= |all|
    ensures all[m..][..End(|all[m..]|, 0, limit)] == all[m..End(|all|, m, limit)]
  {
  }

  lemma ShownLater(tables: seq<seq<Row>>, conversation: string, limit: nat, i: nat, m: nat)
    requires limit > 0 && 1 <= i < |tables| && Growing(tables)
    ensures ShowsNext(LooksAt(tables, conversation, limit), i, NewestIds(tables[0], conversation, None), m, limit)
  {
    var all := NewestIds(tables[0], conversation, None);
    if 1 <= m <= |all| {
      LeftBelow(tables[0], tables[i], conversation, m - 1);
      PageIdsAreTaken(tables[i], conversation, Some(all[m - 1]), limit);
      SliceOfRest(all, m, limit);
    }
  }

  lemma LaterLooksSee(tables: seq<seq<Row>>, conversation: string, limit: nat)
    requires limit > 0 && tables != [] && Growing(tables)
    ensures var all := NewestIds(tables[0], conversation, None);
      SeesListed(LooksAt(tables, conversation, limit), 1, |tables|, all, limit)
  {
    var all := NewestIds(tables[0], conversation, None);
    forall i: nat, m: nat | 1 <= i < |tables|
      ensures ShowsNext(LooksAt(tables, conversation, limit), i, all, m, limit)
    {
      ShownLater(tables, conversation, limit, i, m);
    }
  }

  /** Pagination is exact. For any positive limit, and with inserts and status changes between pages,
      following the pages yields the messages that existed at the first page, newest first, none twice
      and none skipped: after any number of pages, exactly the first limit * pages of them. */
  lemma PaginationIsExact(tables: seq<seq<Row>>, conversation: string, limit: nat)
    requires limit > 0 && tables != [] && Growing(tables)
    ensures var all := NewestIds(tables[0], conversation, None);
      && Follow(LooksAt(tables, conversation, limit), 0, |tables|, None) == all[..End(|all|, 0, limit * |tables|)]
      && (forall i, j :: 0 <= i < j < |all| ==> all[i] > all[j])
      && (forall row :: row in tables[0] && row.conversationId == conversation ==> row.id in all)
      && (forall id :: id in all ==>
            exists row :: row in tables[0] && row.conversationId == conversation && row.id == id)
  {
    var all := NewestIds(tables[0], conversation, None);
    AllIdsListed(tables[0], conversation);
    LaterLooksSee(tables, conversation, limit);
    PageIdsAreTaken(tables[0], conversation, None, limit);
    FollowAll(LooksAt(tables, conversation, limit), |tables|, all, limit);
  }

  /** Pagination over the life of a store. Whatever calls the store has answered, a reader that asks for
      page after page, at any times in their order, sees what `PaginationIsExact` says. */
  lemma StorePaginationIsExact(store: MessageStore, visits: seq<nat>, conversation: string, limit: nat)
    requires store.Valid() && Visits(store.tables, visits) && visits != [] && limit > 0
    ensures var all := NewestIds(store.tables[visits[0]], conversation, None);
      && Follow(LooksAt(Visited(store.tables, visits), conversation, limit), 0, |visits|, None)
           == all[..End(|all|, 0, limit * |visits|)]
      && (forall i, j :: 0 <= i < j < |all| ==> all[i] > all[j])
  {
    var seen := Visited(store.tables, visits);
    assert Growing(seen);
    PaginationIsExact(seen, conversation, limit);
  }

  lemma AllIdsListed(rows: seq<Row>, conversation: string)
    requires Ordered(rows)
    ensures var all := NewestIds(rows, conversation, None);
      && (forall i, j :: 0 <= i < j < |all| ==> all[i] > all[j])
      && (forall row :: row in rows && row.conversationId == conversation ==> row.id in all)
      && (forall id :: id in all ==> exists row :: row in rows && row.conversationId == conversation && row.id == id)
  {
    var listed := Newest(rows, conversation, None);
    var all := Ids(listed);
    NewestMembers(rows, conversation, None);
    forall row | row in rows && row.conversationId == conversation
      ensures row.id in all
    {
      var i :| 0 <= i < |listed| && listed[i] == row;
      assert all[i] == row.id;
    }
    forall id | id in all
      ensures exists row :: row in rows && row.conversationId == conversation && row.id == id
    {
      var i :| 0 <= i < |all| && all[i] == id;
      assert listed[i] in listed;
    }
  }
}
