/** Rows of the user graph and the conditions its queries test. */
module CanonicalStore {
  import opened Journal
  import opened Optional

  type ConstraintId = nat
  type Hash = string

  datatype Source = Provider | OtherSource(name: string)

  /** The columns a projection reads; `endMs` is the parsed end timestamp. */
  datatype Content = Content(endMs: Option<int>, fields: string)

  datatype Row = Row(
    origin: AccountId, originEvent: string, source: Source, constraint: Option<ConstraintId>,
    version: nat, content: Content)

  datatype Edge = Edge(policy: string, from: AccountId, to: AccountId, detail: string, kind: string)

  datatype Calendar = Calendar(account: AccountId, providerId: string)

  datatype MirrorState = Pending | Active | Errored | Tombstoned

  datatype Key = Key(event: EventId, target: AccountId)

  datatype Mirror = Mirror(calendar: string, provider: Option<string>, hash: Hash, state: MirrorState)

  datatype Message =
    | UpsertMirror(key: Key, calendar: string, hash: Hash)
    | DeleteMirror(key: Key, calendar: string, provider: string)

  type Events = map<EventId, Row>
  type Mirrors = map<Key, Mirror>

  function Versions(events: Events): map<EventId, nat> {
    map id | id in events :: events[id].version
  }

  /** UNIQUE(origin_account_id, origin_event_id). */
  ghost predicate UniqueOrigins(events: Events) {
    forall a, b | a in events && b in events && a != b ::
      events[a].origin != events[b].origin || events[a].originEvent != events[b].originEvent
  }

  ghost predicate OriginTaken(events: Events, account: AccountId, originEvent: string) {
    exists id :: id in events && events[id].origin == account && events[id].originEvent == originEvent
  }

  predicate HasCalendar(calendars: set<Calendar>, account: AccountId) {
    exists c :: c in calendars && c.account == account
  }

  predicate OnSomeEdge(edges: seq<Edge>, account: AccountId) {
    exists e :: e in edges && (e.from == account || e.to == account)
  }

  /** `isLikelyOrphanOriginAccount`. */
  predicate Orphan(edges: seq<Edge>, calendars: set<Calendar>, account: AccountId) {
    account != "" && account != "internal" && !HasCalendar(calendars, account) && !OnSomeEdge(edges, account)
  }

  predicate LegacyRow(r: Row, account: AccountId, originEvent: string) {
    r.originEvent == originEvent && r.origin != account && r.source == Provider
  }

  /** The guarded exception to account isolation: the only provider event with
      this origin id under another account, and that account is an orphan. */
  ghost predicate Rebindable(events: Events, edges: seq<Edge>, calendars: set<Calendar>,
                             account: AccountId, originEvent: string, id: EventId) {
    && HasCalendar(calendars, account)
    && id in events && LegacyRow(events[id], account, originEvent)
    && (forall x :: x in events && LegacyRow(events[x], account, originEvent) ==> x == id)
    && Orphan(edges, calendars, events[id].origin)
  }

  /** The event a provider delta of the account addresses. */
  ghost predicate Addressed(events: Events, edges: seq<Edge>, calendars: set<Calendar>,
                            account: AccountId, originEvent: string, id: EventId) {
    || (id in events && events[id].origin == account && events[id].originEvent == originEvent)
    || (!OriginTaken(events, account, originEvent) && Rebindable(events, edges, calendars, account, originEvent, id))
  }

  /** The effect of a created or updated delta: the addressed event is updated
      and, if it was a legacy one, rebound; without one a fresh event is added. */
  ghost predicate Upserted(before: Events, journalBefore: seq<Entry>, after: Events, journal: seq<Entry>,
                           edges: seq<Edge>, calendars: set<Calendar>,
                           account: AccountId, originEvent: string, content: Content, id: EventId) {
    if id in before then
      && Addressed(before, edges, calendars, account, originEvent, id)
      && after == before[id := before[id].(origin := account, content := content, version := before[id].version + 1)]
      && journal == journalBefore + [Entry(id, Updated, None)]
    else
      && (forall x :: !Addressed(before, edges, calendars, account, originEvent, x))
      && !Mentions(journalBefore, id)
      && after == before[id := Row(account, originEvent, Provider, None, 1, content)]
      && journal == journalBefore + [Entry(id, Created, None)]
  }

  predicate Projectable(k: Key, events: Events, edges: seq<Edge>) {
    k.event in events && exists e :: e in edges && e.from == events[k.event].origin && e.to == k.target
  }

  const DAY_MS := 86400000

  /** Outside 30 days back and 365 days ahead; an unknown end is inside. */
  predicate OutOfWindow(endMs: Option<int>, now: int) {
    endMs.Some? && (endMs.value <= now - 30 * DAY_MS || endMs.value >= now + 365 * DAY_MS)
  }

  // ----- What keeps the journal and the store in step -----

  /** The journal replays to the live events and their versions. */
  ghost predicate InStep(events: Events, journal: seq<Entry>) {
    WellFormed(journal) && Replay(journal) == Versions(events)
  }

  lemma {:induction false} InsertInStep(events: Events, journal: seq<Entry>, id: EventId, r: Row)
    requires InStep(events, journal) && id !in events && r.version == 1
    ensures InStep(events[id := r], journal + [Entry(id, Created, None)])
  {
    ReplaySnoc(journal, Entry(id, Created, None));
    assert id !in Versions(events);
    assert Versions(events[id := r]) == Versions(events)[id := 1];
  }

  lemma {:induction false} UpdateInStep(events: Events, journal: seq<Entry>, id: EventId, r: Row)
    requires InStep(events, journal) && id in events && r.version == events[id].version + 1
    ensures InStep(events[id := r], journal + [Entry(id, Updated, None)])
  {
    ReplaySnoc(journal, Entry(id, Updated, None));
    assert id in Versions(events);
    assert Versions(events[id := r]) == Versions(events)[id := r.version];
  }

  lemma {:induction false} DeleteInStep(events: Events, journal: seq<Entry>, id: EventId, from: Option<AccountId>)
    requires InStep(events, journal) && id in events
    ensures InStep(events - {id}, journal + [Entry(id, Deleted, from)])
  {
    ReplaySnoc(journal, Entry(id, Deleted, from));
    assert id in Versions(events);
    assert Versions(events - {id}) == Versions(events) - {id};
  }

  lemma {:induction false} SummaryInStep(events: Events, journal: seq<Entry>, e: Entry)
    requires InStep(events, journal) && e.Summary?
    ensures InStep(events, journal + [e])
  {
    ReplaySnoc(journal, e);
  }

  /** Live events are journaled, so an id the journal does not mention is unused. */
  lemma {:induction false} LiveIsMentioned(events: Events, journal: seq<Entry>, id: EventId)
    requires InStep(events, journal) && id in events
    ensures Mentions(journal, id)
  {
    assert id in Versions(events);
    ReplayMentions(journal, id);
  }

  /** What the journal says about each event id, without replaying it. */
  ghost predicate LifeCounted(events: Events, journal: seq<Entry>) {
    forall id: EventId ::
      && Count(journal, id, Created) == Count(journal, id, Deleted) + (if id in events then 1 else 0)
      && (id in events ==> events[id].version == 1 + UpdatesSinceCreated(journal, id))
  }

  lemma {:induction false} InStepCounts(events: Events, journal: seq<Entry>)
    requires InStep(events, journal)
    ensures LifeCounted(events, journal)
  {
    forall id: EventId
      ensures Count(journal, id, Created) == Count(journal, id, Deleted) + (if id in events then 1 else 0)
      ensures id in events ==> events[id].version == 1 + UpdatesSinceCreated(journal, id)
    {
      JournalCounts(journal, id);
      assert id in events <==> id in Versions(events);
    }
  }

  // ----- Removals that were journaled and then failed -----

  /** What the journal says of an event.  `stuck` counts the removals of it that
      were journaled although the row could not be deleted: each leaves one
      'deleted' entry too many. */
  ghost predicate Counted(events: Events, journal: seq<Entry>, stuck: multiset<EventId>, id: EventId) {
    && Count(journal, id, Deleted) + (if id in events then 1 else 0) == Count(journal, id, Created) + stuck[id]
    && (id in events ==> Mentions(journal, id) && events[id].version == 1 + UpdatesSinceCreated(journal, id))
  }

  ghost predicate Tracked(events: Events, journal: seq<Entry>, stuck: multiset<EventId>) {
    && (forall id: EventId :: Counted(events, journal, stuck, id))
    && (stuck == multiset{} ==> InStep(events, journal))
  }

  /** The journal replays to the store exactly when no removal is stuck. */
  lemma {:induction false} InStepIffNoneStuck(events: Events, journal: seq<Entry>, stuck: multiset<EventId>)
    requires Tracked(events, journal, stuck)
    ensures InStep(events, journal) <==> stuck == multiset{}
  {
    if InStep(events, journal) {
      InStepCounts(events, journal);
      forall id: EventId ensures stuck[id] == 0 {
        assert Counted(events, journal, stuck, id);
      }
    }
  }

  /** Appending an entry adjusts the counts of its event and of no other. */
  lemma {:induction false} CountedSnoc(events: Events, journal: seq<Entry>, stuck: multiset<EventId>, e: Entry,
                                       after: Events, stuckAfter: multiset<EventId>, id: EventId)
    requires Counted(events, journal, stuck, id)
    requires !(e.Entry? && e.event == id) ==>
               stuckAfter[id] == stuck[id] && (id in after <==> id in events) && (id in after ==> after[id] == events[id])
    requires e.Entry? && e.event == id ==>
               match e.change
               case Created => id !in events && id in after && after[id].version == 1 && stuckAfter[id] == stuck[id]
               case Updated => id in events && id in after && after[id].version == events[id].version + 1 && stuckAfter[id] == stuck[id]
               case Deleted => if id in after then id in events && after[id] == events[id] && stuckAfter[id] == stuck[id] + 1
                               else id in events && stuckAfter[id] == stuck[id]
    ensures Counted(after, journal + [e], stuckAfter, id)
  {
    CountSnoc(journal, e, id, Created);
    CountSnoc(journal, e, id, Deleted);
  }

  lemma {:induction false} InsertTracked(events: Events, journal: seq<Entry>, stuck: multiset<EventId>, id: EventId, r: Row)
    requires Tracked(events, journal, stuck) && id !in events && r.version == 1
    ensures Tracked(events[id := r], journal + [Entry(id, Created, None)], stuck)
  {
    var after := events[id := r];
    forall x: EventId ensures Counted(after, journal + [Entry(id, Created, None)], stuck, x) {
      CountedSnoc(events, journal, stuck, Entry(id, Created, None), after, stuck, x);
    }
    if stuck == multiset{} {
      InsertInStep(events, journal, id, r);
    }
  }

  lemma {:induction false} UpdateTracked(events: Events, journal: seq<Entry>, stuck: multiset<EventId>, id: EventId, r: Row)
    requires Tracked(events, journal, stuck) && id in events && r.version == events[id].version + 1
    ensures Tracked(events[id := r], journal + [Entry(id, Updated, None)], stuck)
  {
    var after := events[id := r];
    forall x: EventId ensures Counted(after, journal + [Entry(id, Updated, None)], stuck, x) {
      CountedSnoc(events, journal, stuck, Entry(id, Updated, None), after, stuck, x);
    }
    if stuck == multiset{} {
      UpdateInStep(events, journal, id, r);
    }
  }

  lemma {:induction false} DeleteTracked(events: Events, journal: seq<Entry>, stuck: multiset<EventId>, id: EventId, from: Option<AccountId>)
    requires Tracked(events, journal, stuck) && id in events
    ensures Tracked(events - {id}, journal + [Entry(id, Deleted, from)], stuck)
  {
    var after := events - {id};
    forall x: EventId ensures Counted(after, journal + [Entry(id, Deleted, from)], stuck, x) {
      CountedSnoc(events, journal, stuck, Entry(id, Deleted, from), after, stuck, x);
    }
    if stuck == multiset{} {
      DeleteInStep(events, journal, id, from);
    }
  }

  lemma {:induction false} SummaryTracked(events: Events, journal: seq<Entry>, stuck: multiset<EventId>, e: Entry)
    requires Tracked(events, journal, stuck) && e.Summary?
    ensures Tracked(events, journal + [e], stuck)
  {
    forall x: EventId ensures Counted(events, journal + [e], stuck, x) {
      CountedSnoc(events, journal, stuck, e, events, stuck, x);
    }
    if stuck == multiset{} {
      SummaryInStep(events, journal, e);
    }
  }

  /** A removal journaled for an event that stays. */
  lemma {:induction false} StuckTracked(events: Events, journal: seq<Entry>, stuck: multiset<EventId>, id: EventId, from: Option<AccountId>)
    requires Tracked(events, journal, stuck) && id in events
    ensures Tracked(events, journal + [Entry(id, Deleted, from)], stuck + multiset{id})
  {
    var grown := stuck + multiset{id};
    forall x: EventId ensures Counted(events, journal + [Entry(id, Deleted, from)], grown, x) {
      CountedSnoc(events, journal, stuck, Entry(id, Deleted, from), events, grown, x);
    }
    assert grown[id] > 0;
  }

  /** Live events are journaled, so an id the journal does not mention is unused. */
  lemma {:induction false} TrackedIsMentioned(events: Events, journal: seq<Entry>, stuck: multiset<EventId>, id: EventId)
    requires Tracked(events, journal, stuck) && id in events
    ensures Mentions(journal, id)
  {
    assert Counted(events, journal, stuck, id);
  }

  lemma {:induction false} UpsertKeepsStore(before: Events, journalBefore: seq<Entry>, after: Events, journal: seq<Entry>,
      stuck: multiset<EventId>, edges: seq<Edge>, calendars: set<Calendar>, account: AccountId, originEvent: string,
      content: Content, id: EventId)
    requires UniqueOrigins(before) && Tracked(before, journalBefore, stuck)
    requires Upserted(before, journalBefore, after, journal, edges, calendars, account, originEvent, content, id)
    ensures UniqueOrigins(after) && Tracked(after, journal, stuck)
  {
    if id in before {
      UpdateTracked(before, journalBefore, stuck, id, after[id]);
    } else {
      InsertTracked(before, journalBefore, stuck, id, after[id]);
      forall x | x in before ensures before[x].origin != account || before[x].originEvent != originEvent {
        assert !Addressed(before, edges, calendars, account, originEvent, x);
      }
    }
  }

  // ----- Isolation of a delta batch -----

  /** A row a delta of the account may change at all. */
  ghost predicate Touchable(r: Row, account: AccountId, edges: seq<Edge>, calendars: set<Calendar>) {
    r.origin == account || (r.source == Provider && HasCalendar(calendars, account) && Orphan(edges, calendars, r.origin))
  }

  /** Every event is as before, or was touchable and is named by the batch; what
      is new belongs to the account and is named by the batch. */
  ghost predicate Isolated(before: Events, after: Events, account: AccountId, named: set<string>,
                           edges: seq<Edge>, calendars: set<Calendar>) {
    && (forall id :: id in before ==>
          || (id in after && after[id] == before[id])
          || (&& Touchable(before[id], account, edges, calendars) && before[id].originEvent in named
              && (id in after ==> after[id].origin == account && after[id].originEvent == before[id].originEvent
                                  && after[id].source == before[id].source)))
    && (forall id :: id in after && id !in before ==>
          after[id].origin == account && after[id].originEvent in named && after[id].source == Provider)
  }

  lemma {:induction false} IsolatedUpsert(first: Events, before: Events, journalBefore: seq<Entry>, after: Events, journal: seq<Entry>,
      edges: seq<Edge>, calendars: set<Calendar>, account: AccountId, named: set<string>,
      originEvent: string, content: Content, id: EventId)
    requires Isolated(first, before, account, named, edges, calendars)
    requires Upserted(before, journalBefore, after, journal, edges, calendars, account, originEvent, content, id)
    requires forall x :: x in first ==> Mentions(journalBefore, x)
    ensures Isolated(first, after, account, named + {originEvent}, edges, calendars)
  {
  }

  lemma {:induction false} IsolatedDelete(first: Events, before: Events,
      edges: seq<Edge>, calendars: set<Calendar>, account: AccountId, named: set<string>, originEvent: string, id: EventId)
    requires Isolated(first, before, account, named, edges, calendars)
    requires Addressed(before, edges, calendars, account, originEvent, id)
    ensures Isolated(first, before - {id}, account, named + {originEvent}, edges, calendars)
  {
  }

  // ----- Projections -----

  /** Projection followed by its content hash, for one event under one edge. */
  type Project = (EventId, Content, string, string) -> Hash

  function HashUnder(project: Project, id: EventId, content: Content, e: Edge): Hash {
    project(id, content, e.detail, e.kind)
  }

  /** The targets an event is mirrored to when its origin is `origin`. */
  function Targets(edges: seq<Edge>, id: EventId, origin: AccountId): set<Key> {
    set e | e in edges && e.from == origin :: Key(id, e.to)
  }

  /** All edges between the same two accounts project the event to one hash; in
      particular when there is at most one such edge. */
  ghost predicate Agree(project: Project, id: EventId, content: Content, edges: seq<Edge>, origin: AccountId) {
    forall d, e | d in edges && e in edges && d.from == origin && e.from == origin && d.to == e.to ::
      HashUnder(project, id, content, d) == HashUnder(project, id, content, e)
  }

  /** The event's rows carry the hash of every edge that projects it. */
  ghost predicate Projected(project: Project, id: EventId, content: Content, edges: seq<Edge>, origin: AccountId, mirrors: Mirrors) {
    forall e :: e in edges && e.from == origin ==>
      Key(id, e.to) in mirrors && mirrors[Key(id, e.to)].hash == HashUnder(project, id, content, e)
  }

  /** ... and all of them are ACTIVE. */
  ghost predicate Converged(project: Project, id: EventId, content: Content, edges: seq<Edge>, origin: AccountId, mirrors: Mirrors) {
    Projected(project, id, content, edges, origin, mirrors)
    && forall e :: e in edges && e.from == origin ==> mirrors[Key(id, e.to)].state == Active
  }

  /** Rows of other events are untouched and no row disappears. */
  ghost predicate OthersKept(before: Mirrors, after: Mirrors, id: EventId) {
    && before.Keys <= after.Keys
    && forall k :: k in after && k.event != id ==> k in before && after[k] == before[k]
  }

  /** Messages sent for an event carry the hash its row now stores. */
  ghost predicate Carries(sent: seq<Message>, id: EventId, mirrors: Mirrors) {
    forall m :: m in sent ==> m.UpsertMirror? && m.key.event == id && m.key in mirrors && m.hash == mirrors[m.key].hash
  }

  /** Every PENDING row of a projected target has a message among those sent. */
  ghost predicate PendingSent(sent: seq<Message>, keys: set<Key>, mirrors: Mirrors) {
    forall k :: k in keys && k in mirrors && mirrors[k].state == Pending ==>
      exists m :: m in sent && m == UpsertMirror(k, mirrors[k].calendar, mirrors[k].hash)
  }

  /** `pruneNonProjectableMirrors`. */
  function Prune(mirrors: Mirrors, events: Events, edges: seq<Edge>): Mirrors {
    map k | k in mirrors && Projectable(k, events, edges) :: mirrors[k]
  }

  /** The relational join the mirror table indexes. */
  function Join(events: Events, edges: seq<Edge>): set<Key> {
    set id, e | id in events && e in edges && e.from == events[id].origin :: Key(id, e.to)
  }

  /** A mirror of an event the batch may not touch stays as it is. */
  ghost predicate MirrorsIsolated(before: Mirrors, after: Mirrors, events: Events, account: AccountId, named: set<string>,
                                  edges: seq<Edge>, calendars: set<Calendar>) {
    forall k :: k in before && k.event in events
                && !(Touchable(events[k.event], account, edges, calendars) && events[k.event].originEvent in named) ==>
      k in after && after[k] == before[k]
  }

  lemma {:induction false} TryInsertKeepsStore(before: Events, journal: seq<Entry>, stuck: multiset<EventId>, id: EventId, r: Row)
    requires UniqueOrigins(before) && Tracked(before, journal, stuck)
    requires id !in before && r.version == 1 && !OriginTaken(before, r.origin, r.originEvent)
    ensures UniqueOrigins(before[id := r]) && Tracked(before[id := r], journal + [Entry(id, Created, None)], stuck)
  {
    InsertTracked(before, journal, stuck, id, r);
  }

  // ----- Unlinking an account -----

  function OwnEvents(events: Events, account: AccountId): set<EventId> {
    set id | id in events && events[id].origin == account
  }

  function Outbound(mirrors: Mirrors, events: Events, account: AccountId): set<Key> {
    set k | k in mirrors && k.event in events && events[k.event].origin == account
  }

  function Inbound(mirrors: Mirrors, account: AccountId): set<Key> {
    set k | k in mirrors && k.target == account
  }

  function EdgesWithout(edges: seq<Edge>, account: AccountId): (r: seq<Edge>)
    ensures forall e :: e in r <==> e in edges && e.from != account && e.to != account
  {
    if edges == [] then []
    else (if edges[0].from != account && edges[0].to != account then [edges[0]] else [])
         + EdgesWithout(edges[1..], account)
  }

  function CalendarsWithout(calendars: set<Calendar>, account: AccountId): set<Calendar> {
    set c | c in calendars && c.account != account
  }

  /** An earlier unlink of the same account already journaled one of its present
      event ids, so the primary key of the new journal row would collide. */
  ghost predicate UnlinkCollides(events: Events, journal: seq<Entry>, account: AccountId) {
    exists e :: e in journal && e.Entry? && e.unlinkedFrom == Some(account) && e.event in OwnEvents(events, account)
  }

  /** No event, mirror, edge or calendar mentions the account any more. */
  ghost predicate Forgotten(events: Events, mirrors: Mirrors, edges: seq<Edge>, calendars: set<Calendar>, account: AccountId) {
    && (forall id :: id in events ==> events[id].origin != account)
    && (forall k :: k in mirrors ==> k.target != account && Projectable(k, events, edges))
    && !OnSomeEdge(edges, account) && !HasCalendar(calendars, account)
  }

  lemma {:induction false} PruneForgets(mirrors: Mirrors, events: Events, edges: seq<Edge>, calendars: set<Calendar>, account: AccountId)
    ensures var left := events - OwnEvents(events, account);
            var kept := EdgesWithout(edges, account);
            && Forgotten(left, Prune(mirrors, left, kept), kept, CalendarsWithout(calendars, account), account)
            && Prune(mirrors - Outbound(mirrors, events, account) - Inbound(mirrors, account), left, kept) == Prune(mirrors, left, kept)
  {
  }
}
