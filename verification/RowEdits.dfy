/** Inserting, updating and removing event rows, and what they leave of the
    mirrors and the journal. */
module RowEdits {
  import opened Optional
  import opened Journal
  import opened CanonicalStore
  import opened MirrorMessages
  import opened Sequences

  function IdSet(ids: seq<EventId>): set<EventId> {
    set id | id in ids
  }

  function Minus(events: Events, ids: seq<EventId>): Events {
    events - IdSet(ids)
  }

  function MirrorsWithout(mirrors: Mirrors, gone: set<EventId>): Mirrors {
    map k | k in mirrors && k.event !in gone :: mirrors[k]
  }

  lemma {:induction false} MentionsPrefix(before: seq<Entry>, journal: seq<Entry>, id: EventId)
    requires before <= journal
    ensures Mentions(before, id) ==> Mentions(journal, id)
  {
    assert forall e :: e in before ==> e in journal;
  }

  /** An upsert: the row it names is updated, keeping origin, source and constraint;
      otherwise one is inserted under its unique origin pair, or nothing happens. */
  ghost predicate EventStored(before: Events, journalBefore: seq<Entry>, after: Events, journal: seq<Entry>,
                              id: EventId, origin: AccountId, originEvent: string, source: Source, content: Content) {
    if id in before then
      && after == before[id := before[id].(content := content, version := before[id].version + 1)]
      && journal == journalBefore + [Entry(id, Updated, None)]
    else if OriginTaken(before, origin, originEvent) then
      after == before && journal == journalBefore
    else
      && after == before[id := Row(origin, originEvent, source, None, 1, content)]
      && journal == journalBefore + [Entry(id, Created, None)]
  }

  /** The events, mirrors and journal at one moment. */
  datatype Snapshot = Snapshot(events: Events, mirrors: Mirrors, journal: seq<Entry>)

  /** How the removal of one event ends: it was not there, a queue send failed,
      the database refused because a time allocation references the event, or
      the event and that many mirrors are gone. */
  datatype Removal = NotFound | SendFailed | Referenced | Removed(mirrors: nat)

  /** The delete of each of the event's mirrors was asked for, once. */
  ghost predicate EachAsked(mirrors: Mirrors, id: EventId, keys: seq<Key>) {
    Distinct(keys) && forall k :: k in keys <==> k in KeysOf(mirrors, id)
  }

  /** The removal of an event, having asked for the mirrors in `keys` to be deleted.
      A refused send changes no table; a refused delete drops the mirrors all the same. */
  ghost predicate Removes(a: Snapshot, b: Snapshot, booked: set<EventId>, id: EventId, keys: seq<Key>, r: Removal) {
    match r
    case NotFound => b == a && keys == []
    case SendFailed => b == a && Distinct(keys) && forall k :: k in keys ==> k in KeysOf(a.mirrors, id)
    case Referenced =>
      id in booked && EachAsked(a.mirrors, id, keys) && b == a.(mirrors := a.mirrors - KeysOf(a.mirrors, id))
    case Removed(n) =>
      && id !in booked && EachAsked(a.mirrors, id, keys) && n == |KeysOf(a.mirrors, id)|
      && b == Snapshot(a.events - {id}, a.mirrors - KeysOf(a.mirrors, id), a.journal + [Entry(id, Deleted, None)])
  }

  /** The rows of a prefix of the plan are stored under `ids`, next to what was there. */
  ghost predicate PlanStored(before: Events, events: Events, plan: seq<Row>, ids: seq<EventId>) {
    && |ids| <= |plan| && Distinct(ids)
    && (forall id :: id in before ==> id in events && events[id] == before[id])
    && (forall i :: 0 <= i < |ids| ==> ids[i] in events && events[ids[i]] == plan[i])
    && events.Keys == before.Keys + IdSet(ids)
  }

  lemma {:induction false} PlanStep(before: Events, were: Events, plan: seq<Row>, ids: seq<EventId>, id: EventId)
    requires PlanStored(before, were, plan, ids) && |ids| < |plan| && id !in were
    ensures PlanStored(before, were[id := plan[|ids|]], plan, ids + [id])
  {
    assert forall i :: 0 <= i < |ids| ==> ids[i] in were;
    assert IdSet(ids + [id]) == IdSet(ids) + {id};
  }

  /** Exactly the mirrors of these events are gone, and the delete of each was sent. */
  ghost predicate AskedToDelete(queue: seq<Message>, before: Mirrors, after: Mirrors, gone: set<EventId>) {
    && after == MirrorsWithout(before, gone)
    && forall k :: k in before && k.event in gone ==> DeleteMessage(before, k) in queue
  }

  lemma {:induction false} AskStep(queueWas: seq<Message>, queue: seq<Message>, before: Mirrors, were: Mirrors, after: Mirrors,
                                   gone: set<EventId>, id: EventId, sent: seq<Key>)
    requires AskedToDelete(queueWas, before, were, gone) && after == were - KeysOf(were, id)
    requires (forall k :: k in KeysOf(were, id) ==> k in sent) && forall k :: k in sent ==> k in were
    requires queue == queueWas + DeleteMessages(were, sent)
    ensures AskedToDelete(queue, before, after, gone + {id})
  {
    forall k | k in before && k.event in gone + {id} ensures DeleteMessage(before, k) in queue {
      if k.event in gone {
        assert DeleteMessage(before, k) in queueWas;
      } else {
        assert k in KeysOf(were, id);
        var i :| 0 <= i < |sent| && sent[i] == k;
        assert DeleteMessages(were, sent)[i] == DeleteMessage(were, k);
        assert queue[|queueWas| + i] == DeleteMessage(were, k);
      }
    }
  }

  function DerivedFrom(events: Events, constraint: ConstraintId): set<EventId> {
    set id | id in events && events[id].constraint == Some(constraint)
  }

  lemma {:induction false} MinusSnoc(events: Events, ids: seq<EventId>, i: nat)
    requires i < |ids| && Distinct(ids) && forall id :: id in ids ==> id in events
    ensures ids[i] in Minus(events, ids[..i])
    ensures Minus(events, ids[..i + 1]) == Minus(events, ids[..i]) - {ids[i]}
    ensures ids[..i + 1] == ids[..i] + [ids[i]]
  {
    assert ids[i] in ids && ids[i] !in ids[..i];
    assert ids[..i + 1] == ids[..i] + [ids[i]];
    assert IdSet(ids[..i + 1]) == IdSet(ids[..i]) + {ids[i]};
  }

  lemma {:induction false} MinusAll(events: Events, ids: seq<EventId>, own: set<EventId>)
    requires forall id :: id in ids <==> id in own
    ensures Minus(events, ids) == events - own
  {
    assert IdSet(ids) == own;
  }

  function TripRow(constraint: ConstraintId, tripOrigin: string, content: Content): Row {
    Row("internal", tripOrigin, OtherSource("system"), Some(constraint), 1, content)
  }

  lemma {:induction false} AllMentioned(events: Events, journal: seq<Entry>, stuck: multiset<EventId>)
    requires Tracked(events, journal, stuck)
    ensures forall x :: x in events ==> Mentions(journal, x)
  {
    forall x | x in events ensures Mentions(journal, x) {
      TrackedIsMentioned(events, journal, stuck, x);
    }
  }

  /** Journaling the removal of several events and then deleting them. */
  lemma {:induction false} BulkErased(events: Events, journal: seq<Entry>, stuck: multiset<EventId>, ids: seq<EventId>,
                                      from: Option<AccountId>)
    requires Tracked(events, journal, stuck) && Distinct(ids) && forall id :: id in ids ==> id in events
    ensures Tracked(Minus(events, ids), journal + Deletions(ids, from), stuck)
  {
    if ids == [] {
      assert Minus(events, ids) == events && journal + Deletions(ids, from) == journal;
    } else {
      var n := |ids| - 1;
      var most, last := ids[..n], ids[n];
      assert ids == most + [last] && ids[..n + 1] == ids;
      BulkErased(events, journal, stuck, most, from);
      MinusSnoc(events, ids, n);
      DeleteTracked(Minus(events, most), journal + Deletions(most, from), stuck, last, from);
      DeletionsSnoc(most, last, from);
      Assoc(journal, Deletions(most, from), [Entry(last, Deleted, from)]);
    }
  }

  /** ... and when the database then refuses to delete them. */
  lemma {:induction false} BulkStuck(events: Events, journal: seq<Entry>, stuck: multiset<EventId>, ids: seq<EventId>,
                                     from: Option<AccountId>)
    requires Tracked(events, journal, stuck) && forall id :: id in ids ==> id in events
    ensures Tracked(events, journal + Deletions(ids, from), stuck + multiset(ids))
  {
    if ids == [] {
      assert journal + Deletions(ids, from) == journal && stuck + multiset(ids) == stuck;
    } else {
      var most, last := ids[..|ids| - 1], ids[|ids| - 1];
      assert ids == most + [last];
      BulkStuck(events, journal, stuck, most, from);
      StuckTracked(events, journal + Deletions(most, from), stuck + multiset(most), last, from);
      DeletionsSnoc(most, last, from);
      Assoc(journal, Deletions(most, from), [Entry(last, Deleted, from)]);
      assert stuck + multiset(most) + multiset{last} == stuck + multiset(ids);
    }
  }

  lemma {:induction false} OnceInDistinct(ids: seq<EventId>, id: EventId)
    requires Distinct(ids)
    ensures multiset(ids)[id] <= 1
  {
    if ids != [] {
      assert ids == [ids[0]] + ids[1..];
      OnceInDistinct(ids[1..], id);
      if ids[0] == id {
        assert id !in ids[1..];
        assert id !in multiset(ids[1..]);
      }
    }
  }

  lemma {:induction false} DistinctMultiset(ids: seq<EventId>, own: set<EventId>)
    requires Distinct(ids) && forall id :: id in ids <==> id in own
    ensures multiset(ids) == multiset(own)
  {
    forall id ensures multiset(ids)[id] == multiset(own)[id] {
      if multiset(ids)[id] > 1 {
        OnceInDistinct(ids, id);
      }
    }
  }

  lemma {:induction false} MentionsGrow(journal: seq<Entry>, e: Entry, x: EventId)
    requires Mentions(journal, x)
    ensures Mentions(journal + [e], x)
  {
    var y :| y in journal && y.Entry? && y.event == x;
    assert y in journal + [e];
  }
}
