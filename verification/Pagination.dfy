/** Cursor pagination over the event and journal tables. */
module Pagination {
  import opened Optional
  import opened CursorWalk
  import opened Sequences
  import opened Strings

  /** What a query orders by.  Journal rows have no start. */
  datatype Key = Key(start: string, id: string)

  datatype Row<+T> = Row(key: Key, data: T)

  datatype EventData = EventData(endTs: string, account: string, originEvent: string, updatedAt: string, source: string)

  datatype JournalData = JournalData(eventId: string)

  type EventRow = Row<EventData>

  type JournalRow = Row<JournalData>

  predicate Precedes(a: Key, b: Key) {
    Less(a.start, b.start) || (a.start == b.start && Less(a.id, b.id))
  }

  lemma {:induction false} PrecedesTotal(a: Key, b: Key)
    ensures Precedes(a, b) || a == b || Precedes(b, a)
    ensures Precedes(a, b) ==> a != b && !Precedes(b, a)
  {
    LessTotal(a.start, b.start);
    LessTotal(a.id, b.id);
  }

  lemma {:induction false} PrecedesTransitive(a: Key, b: Key, c: Key)
    requires Precedes(a, b) && Precedes(b, c)
    ensures Precedes(a, c)
  {
    if Less(a.start, b.start) && Less(b.start, c.start) {
      LessTransitive(a.start, b.start, c.start);
    } else if a.start == b.start && b.start == c.start {
      LessTransitive(a.id, b.id, c.id);
    }
  }

  // ----- Sorted listings -----

  predicate Ascending<T>(rows: seq<Row<T>>) {
    forall i, j :: 0 <= i < j < |rows| ==> Precedes(rows[i].key, rows[j].key)
  }

  predicate UniqueKeys<T>(rows: seq<Row<T>>) {
    forall i, j :: 0 <= i < j < |rows| ==> rows[i].key != rows[j].key
  }

  function Insert<T>(rows: seq<Row<T>>, r: Row<T>): seq<Row<T>> {
    if rows == [] || Precedes(r.key, rows[0].key) then [r] + rows else [rows[0]] + Insert(rows[1..], r)
  }

  /** ORDER BY. */
  function Sort<T>(rows: seq<Row<T>>): seq<Row<T>> {
    if rows == [] then [] else Insert(Sort(rows[1..]), rows[0])
  }

  lemma {:induction false} InsertMembers<T>(rows: seq<Row<T>>, r: Row<T>, x: Row<T>)
    ensures x in Insert(rows, r) <==> x == r || x in rows
  {
    if !(rows == [] || Precedes(r.key, rows[0].key)) {
      InsertMembers(rows[1..], r, x);
      assert x in rows <==> x == rows[0] || x in rows[1..];
    }
  }

  lemma {:induction false} ConsAscending<T>(r: Row<T>, rows: seq<Row<T>>)
    requires Ascending(rows) && forall x :: x in rows ==> Precedes(r.key, x.key)
    ensures Ascending([r] + rows)
  {
    assert forall i :: 0 <= i < |rows| ==> rows[i] in rows;
  }

  lemma {:induction false} InsertAscending<T>(rows: seq<Row<T>>, r: Row<T>)
    requires Ascending(rows) && forall x :: x in rows ==> x.key != r.key
    ensures Ascending(Insert(rows, r))
  {
    if rows == [] {
    } else if Precedes(r.key, rows[0].key) {
      forall x | x in rows ensures Precedes(r.key, x.key) {
        if x != rows[0] {
          var i :| 0 <= i < |rows| && rows[i] == x;
          PrecedesTransitive(r.key, rows[0].key, x.key);
        }
      }
      ConsAscending(r, rows);
    } else {
      assert rows[0] in rows;
      PrecedesTotal(r.key, rows[0].key);
      assert forall x :: x in rows[1..] ==> x in rows;
      InsertAscending(rows[1..], r);
      forall x | x in Insert(rows[1..], r) ensures Precedes(rows[0].key, x.key) {
        InsertMembers(rows[1..], r, x);
        if x in rows[1..] {
          var i :| 0 <= i < |rows| - 1 && rows[1..][i] == x;
          assert rows[i + 1] == x;
        }
      }
      ConsAscending(rows[0], Insert(rows[1..], r));
    }
  }

  lemma {:induction false} InsertFresh<T>(sorted: seq<Row<T>>, rows: seq<Row<T>>)
    requires rows != [] && UniqueKeys(rows) && Ascending(sorted)
    requires forall x :: x in sorted <==> x in rows[1..]
    ensures Ascending(Insert(sorted, rows[0]))
    ensures forall x :: x in Insert(sorted, rows[0]) <==> x in rows
  {
    forall x ensures x in Insert(sorted, rows[0]) <==> x in rows {
      InsertMembers(sorted, rows[0], x);
      assert x in rows <==> x == rows[0] || x in rows[1..];
    }
    forall x | x in sorted ensures x.key != rows[0].key {
      var i :| 0 <= i < |rows| - 1 && rows[1..][i] == x;
      assert rows[i + 1] == x;
    }
    InsertAscending(sorted, rows[0]);
  }

  /** Sorting keeps the rows and puts them in key order. */
  lemma {:induction false} SortSound<T>(rows: seq<Row<T>>)
    requires UniqueKeys(rows)
    ensures Ascending(Sort(rows))
    ensures forall x :: x in Sort(rows) <==> x in rows
  {
    if rows != [] {
      SortSound(rows[1..]);
      InsertFresh(Sort(rows[1..]), rows);
    }
  }

  lemma {:induction false} HeadIsLeast<T>(a: seq<Row<T>>, x: Row<T>)
    requires Ascending(a) && x in a
    ensures x == a[0] || Precedes(a[0].key, x.key)
  {
    var i :| 0 <= i < |a| && a[i] == x;
  }

  lemma {:induction false} TailMembers<T>(a: seq<Row<T>>, x: Row<T>)
    requires Ascending(a) && a != []
    ensures x in a[1..] <==> x in a && x != a[0]
  {
    if x in a[1..] {
      var i :| 0 <= i < |a| - 1 && a[1..][i] == x;
      PrecedesTotal(a[0].key, a[i + 1].key);
    }
  }

  /** An ascending list is determined by its rows. */
  lemma {:induction false} AscendingUnique<T>(a: seq<Row<T>>, b: seq<Row<T>>)
    requires Ascending(a) && Ascending(b) && forall x :: x in a <==> x in b
    ensures a == b
  {
    assert |b| > 0 ==> b[0] in b;
    if a == [] {
    } else {
      assert a[0] in b;
      HeadIsLeast(b, a[0]);
      assert b[0] in a;
      HeadIsLeast(a, b[0]);
      PrecedesTotal(a[0].key, b[0].key);
      forall x ensures x in a[1..] <==> x in b[1..] {
        TailMembers(a, x);
        TailMembers(b, x);
      }
      AscendingUnique(a[1..], b[1..]);
      assert a == [a[0]] + a[1..] && b == [b[0]] + b[1..];
    }
  }

  // ----- One page -----

  predicate Beyond(k: Key, cursor: Option<Key>) {
    cursor.None? || Precedes(cursor.value, k)
  }

  /** The rows a WHERE clause with a cursor keeps, in table order. */
  function Where<T>(rows: seq<Row<T>>, keep: Row<T> -> bool, cursor: Option<Key>): seq<Row<T>> {
    if rows == [] then []
    else (if keep(rows[0]) && Beyond(rows[0].key, cursor) then [rows[0]] else []) + Where(rows[1..], keep, cursor)
  }

  function Select<T>(rows: seq<Row<T>>, keep: Row<T> -> bool, cursor: Option<Key>): seq<Row<T>> {
    Sort(Where(rows, keep, cursor))
  }

  lemma {:induction false} WhereMembers<T>(rows: seq<Row<T>>, keep: Row<T> -> bool, cursor: Option<Key>, x: Row<T>)
    ensures x in Where(rows, keep, cursor) <==> x in rows && keep(x) && Beyond(x.key, cursor)
  {
    if rows != [] {
      WhereMembers(rows[1..], keep, cursor, x);
      assert x in rows <==> x == rows[0] || x in rows[1..];
    }
  }

  lemma {:induction false} WhereUnique<T>(rows: seq<Row<T>>, keep: Row<T> -> bool, cursor: Option<Key>)
    requires UniqueKeys(rows)
    ensures UniqueKeys(Where(rows, keep, cursor))
  {
    if rows != [] {
      WhereUnique(rows[1..], keep, cursor);
      var rest := Where(rows[1..], keep, cursor);
      forall j | 0 <= j < |rest| ensures rest[j].key != rows[0].key {
        WhereMembers(rows[1..], keep, cursor, rest[j]);
        var i :| 0 <= i < |rows| - 1 && rows[1..][i] == rest[j];
        assert rows[i + 1].key == rest[j].key;
      }
    }
  }

  lemma {:induction false} SelectAscending<T>(rows: seq<Row<T>>, keep: Row<T> -> bool, cursor: Option<Key>)
    requires UniqueKeys(rows)
    ensures Ascending(Select(rows, keep, cursor))
  {
    WhereUnique(rows, keep, cursor);
    SortSound(Where(rows, keep, cursor));
  }

  /** A listing holds exactly the rows that pass the filter and the cursor. */
  lemma {:induction false} SelectMembers<T>(rows: seq<Row<T>>, keep: Row<T> -> bool, cursor: Option<Key>, x: Row<T>)
    requires UniqueKeys(rows)
    ensures x in Select(rows, keep, cursor) <==> x in rows && keep(x) && Beyond(x.key, cursor)
  {
    WhereUnique(rows, keep, cursor);
    SortSound(Where(rows, keep, cursor));
    WhereMembers(rows, keep, cursor, x);
  }

  lemma {:induction false} SuffixMembers<T>(all: seq<Row<T>>, i: nat, x: Row<T>)
    requires Ascending(all) && i < |all|
    ensures x in all[i + 1..] <==> x in all && Precedes(all[i].key, x.key)
  {
    if x in all {
      var j :| 0 <= j < |all| && all[j] == x;
      PrecedesTotal(all[i].key, all[j].key);
      if j > i {
        assert all[i + 1..][j - i - 1] == x;
      }
    }
  }

  /** A query that starts after row `i` of the listing returns the rest of it. */
  lemma {:induction false} CursorIsSuffix<T>(rows: seq<Row<T>>, keep: Row<T> -> bool, i: nat)
    requires UniqueKeys(rows) && i < |Select(rows, keep, None)|
    ensures Select(rows, keep, None)[i] in rows
    ensures Select(rows, keep, Some(Select(rows, keep, None)[i].key)) == Select(rows, keep, None)[i + 1..]
  {
    var all := Select(rows, keep, None);
    var rest := Select(rows, keep, Some(all[i].key));
    SelectAscending(rows, keep, None);
    SelectAscending(rows, keep, Some(all[i].key));
    SelectMembers(rows, keep, None, all[i]);
    forall x ensures x in rest <==> x in all[i + 1..] {
      SelectMembers(rows, keep, None, x);
      SelectMembers(rows, keep, Some(all[i].key), x);
      SuffixMembers(all, i, x);
    }
    AscendingUnique(rest, all[i + 1..]);
  }

  // ----- Events -----

  /** `ListEventsQuery` without limit and cursor; "" stands for an absent filter. */
  datatype EventQuery = EventQuery(
    timeMin: string,
    timeMax: string,
    account: string,
    originEvent: string,
    updatedAfter: string,
    source: string)

  predicate Matches(q: EventQuery, r: EventRow) {
    && (q.timeMin != "" ==> Less(q.timeMin, r.data.endTs))
    && (q.timeMax != "" ==> Less(r.key.start, q.timeMax))
    && (q.account != "" ==> r.data.account == q.account)
    && (q.originEvent != "" ==> r.data.originEvent == q.originEvent)
    && (q.updatedAfter != "" ==> Less(q.updatedAfter, r.data.updatedAt))
    && (q.source != "" ==> r.data.source == q.source)
  }

  function EventFilter(q: EventQuery): EventRow -> bool {
    r => Matches(q, r)
  }

  function EncodeCursor(k: Key): string {
    k.start + "|" + k.id
  }

  /** A cursor that does not split in two is ignored. */
  function DecodeCursor(cursor: string): Option<Key> {
    var parts := Split(cursor, '|');
    if cursor != "" && |parts| == 2 then Some(Key(parts[0], parts[1])) else None
  }

  /** A cursor is understood exactly when neither part contains the separator. */
  lemma {:induction false} CursorRoundTrip(k: Key)
    ensures DecodeCursor(EncodeCursor(k)) == Some(k) <==> '|' !in k.start && '|' !in k.id
    ensures DecodeCursor(EncodeCursor(k)) == None <==> '|' in k.start || '|' in k.id
  {
    var cursor := EncodeCursor(k);
    SplitLength(cursor, '|');
    OccurrencesConcat(k.start + "|", k.id, '|');
    OccurrencesConcat(k.start, "|", '|');
    assert Occurrences("|", '|') == 1;
    NoOccurrences(k.start, '|');
    NoOccurrences(k.id, '|');
    if '|' !in k.start && '|' !in k.id {
      assert cursor == k.start + ['|'] + k.id;
      SplitAppend(k.start, '|', k.id);
      SplitWhole(k.id, '|');
    }
  }

  function EventListing(rows: seq<EventRow>, q: EventQuery, cursor: Option<Key>): seq<EventRow> {
    Select(rows, EventFilter(q), cursor)
  }

  /** `listCanonicalEvents`. */
  method ListCanonicalEvents(rows: seq<EventRow>, q: EventQuery, limit: nat, cursor: string)
    returns (items: seq<EventRow>, next: Option<string>, hasMore: bool)
    ensures Page(items, hasMore) == Cut(EventListing(rows, q, DecodeCursor(cursor)), limit)
    ensures next == if hasMore && items != [] then Some(EncodeCursor(items[|items| - 1].key)) else None
  {
    var found := EventListing(rows, q, DecodeCursor(cursor));
    var fetched := if |found| <= limit + 1 then found else found[..limit + 1];
    hasMore := |fetched| > limit;
    items := if hasMore then fetched[..limit] else fetched;
    assert hasMore ==> fetched[..limit] == found[..limit];
    next := None;
    if hasMore && |items| > 0 {
      next := Some(EncodeCursor(items[|items| - 1].key));
    }
  }

  // ----- Following the cursors -----

  function EventAsk(rows: seq<EventRow>, q: EventQuery): string -> seq<EventRow> {
    c => EventListing(rows, q, DecodeCursor(c))
  }

  function EventMark(): EventRow -> string {
    (r: EventRow) => EncodeCursor(r.key)
  }

  /** Whether the key of a row contains the separator. */
  function HasBar(): EventRow -> bool {
    (r: EventRow) => '|' in r.key.start || '|' in r.key.id
  }

  /** A page that ends in a row with the separator in its key sends the reader back
      to the first page; any other is followed by the rest of the listing. */
  lemma {:induction false} EventsAsked(rows: seq<EventRow>, q: EventQuery)
    requires UniqueKeys(rows)
    ensures Asks(EventListing(rows, q, None), EventAsk(rows, q), EventMark(), HasBar())
  {
    var all := EventListing(rows, q, None);
    forall i: nat | i < |all| ensures Sends(all, EventAsk(rows, q), EventMark(), HasBar(), i) {
      CursorRoundTrip(all[i].key);
      CursorIsSuffix(rows, EventFilter(q), i);
    }
  }

  /** Following the cursors comes to an end exactly when no page but the last ends
      in a row with the separator in its key. */
  lemma {:induction false} WalkEndsIff(rows: seq<EventRow>, q: EventQuery, limit: nat)
    requires limit >= 1 && UniqueKeys(rows)
    ensures (exists n: nat :: Follow(EventAsk(rows, q), EventMark(), limit, n).None?)
            <==> CleanEnds(EventListing(rows, q, None), HasBar(), limit)
  {
    EventsAsked(rows, q);
    EndsIffClean(EventListing(rows, q, None), EventAsk(rows, q), EventMark(), HasBar(), limit);
  }

  /** Following the cursors to the end visits the whole listing once, in pages of
      exactly `limit` but for the last. */
  method WalkEvents(rows: seq<EventRow>, q: EventQuery, limit: nat) returns (pages: seq<seq<EventRow>>)
    requires limit >= 1 && UniqueKeys(rows) && CleanEnds(EventListing(rows, q, None), HasBar(), limit)
    ensures Flatten(pages) == EventListing(rows, q, None)
    ensures forall i :: 0 <= i < |pages| - 1 ==> |pages[i]| == limit
  {
    ghost var all, ask := EventListing(rows, q, None), EventAsk(rows, q);
    ghost var n := 0;
    EventsAsked(rows, q);
    WalkStarts(all, ask, limit);
    CleanPagesIff(all, HasBar(), limit);
    pages := [];
    var cursor, more := "", true;
    while more
      invariant Walking(all, ask, limit, pages, cursor, n, more)
      decreases if more then |all| + 1 - PageEnd(n, limit) else 0
    {
      var items, next, hasMore := ListCanonicalEvents(rows, q, limit, cursor);
      WalkOn(all, ask, EventMark(), HasBar(), limit, pages, cursor, n, Page(items, hasMore));
      if hasMore {
        cursor := next.value;
        n := n + 1;
      }
      pages := pages + [items];
      more := hasMore;
    }
    WalkEnds(all, ask, limit, pages, cursor, n);
  }

  // ----- Journal -----

  predicate OfEvent(eventId: string, r: JournalRow) {
    eventId != "" ==> r.data.eventId == eventId
  }

  function JournalFilter(eventId: string): JournalRow -> bool {
    r => OfEvent(eventId, r)
  }

  function JournalCursor(cursor: string): Option<Key> {
    if cursor != "" then Some(Key("", cursor)) else None
  }

  function JournalListing(rows: seq<JournalRow>, eventId: string, cursor: Option<Key>): seq<JournalRow> {
    Select(rows, JournalFilter(eventId), cursor)
  }

  /** `queryJournal`. */
  method QueryJournal(rows: seq<JournalRow>, eventId: string, limit: nat, cursor: string)
    returns (items: seq<JournalRow>, next: Option<string>, hasMore: bool)
    ensures Page(items, hasMore) == Cut(JournalListing(rows, eventId, JournalCursor(cursor)), limit)
    ensures next == if hasMore && items != [] then Some(items[|items| - 1].key.id) else None
  {
    var found := JournalListing(rows, eventId, JournalCursor(cursor));
    var fetched := if |found| <= limit + 1 then found else found[..limit + 1];
    hasMore := |fetched| > limit;
    items := if hasMore then fetched[..limit] else fetched;
    assert hasMore ==> fetched[..limit] == found[..limit];
    next := None;
    if hasMore && |items| > 0 {
      next := Some(items[|items| - 1].key.id);
    }
  }

  function JournalAsk(rows: seq<JournalRow>, eventId: string): string -> seq<JournalRow> {
    c => JournalListing(rows, eventId, JournalCursor(c))
  }

  function JournalMark(): JournalRow -> string {
    (r: JournalRow) => r.key.id
  }

  function Never(): JournalRow -> bool {
    r => false
  }

  lemma {:induction false} JournalAsked(rows: seq<JournalRow>, eventId: string)
    requires UniqueKeys(rows) && forall r :: r in rows ==> r.key.start == "" && r.key.id != ""
    ensures Asks(JournalListing(rows, eventId, None), JournalAsk(rows, eventId), JournalMark(), Never())
  {
    var all := JournalListing(rows, eventId, None);
    forall i: nat | i < |all| ensures Sends(all, JournalAsk(rows, eventId), JournalMark(), Never(), i) {
      CursorIsSuffix(rows, JournalFilter(eventId), i);
    }
  }

  method WalkJournal(rows: seq<JournalRow>, eventId: string, limit: nat) returns (pages: seq<seq<JournalRow>>)
    requires limit >= 1 && UniqueKeys(rows) && forall r :: r in rows ==> r.key.start == "" && r.key.id != ""
    ensures Flatten(pages) == JournalListing(rows, eventId, None)
    ensures forall i :: 0 <= i < |pages| - 1 ==> |pages[i]| == limit
  {
    ghost var all, ask := JournalListing(rows, eventId, None), JournalAsk(rows, eventId);
    ghost var n := 0;
    JournalAsked(rows, eventId);
    WalkStarts(all, ask, limit);
    pages := [];
    var cursor, more := "", true;
    while more
      invariant Walking(all, ask, limit, pages, cursor, n, more)
      decreases if more then |all| + 1 - PageEnd(n, limit) else 0
    {
      var items, next, hasMore := QueryJournal(rows, eventId, limit, cursor);
      WalkOn(all, ask, JournalMark(), Never(), limit, pages, cursor, n, Page(items, hasMore));
      if hasMore {
        cursor := next.value;
        n := n + 1;
      }
      pages := pages + [items];
      more := hasMore;
    }
    WalkEnds(all, ask, limit, pages, cursor, n);
  }
}
