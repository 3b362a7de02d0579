/** What a batch of provider deltas does, delta by delta. */
module Batches {
  import opened Optional
  import opened Journal
  import opened CanonicalStore
  import opened MirrorMessages
  import opened RowEdits

  datatype Delta = Upsert(created: bool, originEvent: string, content: Option<Content>) | Remove(originEvent: string)

  function Named(deltas: seq<Delta>): set<string> {
    set d | d in deltas :: d.originEvent
  }

  lemma {:induction false} NamedSnoc(deltas: seq<Delta>, i: nat)
    requires i < |deltas|
    ensures Named(deltas[..i + 1]) == Named(deltas[..i]) + {deltas[i].originEvent}
  {
    assert deltas[..i + 1] == deltas[..i] + [deltas[i]];
  }

  /** Whether a delta counted as applied and raised no error, how many mirror
      messages it reported and which it sent. */
  datatype DeltaOutcome = DeltaOutcome(counted: bool, ok: bool, enqueued: nat, sent: seq<Message>)

  ghost predicate UpsertEffect(project: Project, a: Snapshot, b: Snapshot, edges: seq<Edge>, calendars: set<Calendar>,
                               account: AccountId, originEvent: string, content: Content, id: EventId, r: DeltaOutcome) {
    && Upserted(a.events, a.journal, b.events, b.journal, edges, calendars, account, originEvent, content, id)
    && OthersKept(a.mirrors, b.mirrors, id)
    && r.enqueued == (if r.ok then |r.sent| else 0)
    && (r.ok ==> b.mirrors.Keys == a.mirrors.Keys + Targets(edges, id, account))
    && (Agree(project, id, content, edges, account) ==>
          Carries(r.sent, id, b.mirrors)
          && (r.ok ==> Projected(project, id, content, edges, account, b.mirrors)
                       && PendingSent(r.sent, Targets(edges, id, account), b.mirrors)))
  }

  /** Which event a delete ended up with: none exactly when none is addressed. */
  ghost predicate RemoveEffect(a: Snapshot, b: Snapshot, edges: seq<Edge>, calendars: set<Calendar>, booked: set<EventId>,
                               account: AccountId, originEvent: string, id: EventId, keys: seq<Key>, removal: Removal) {
    && Removes(a, b, booked, id, keys, removal)
    && (if removal.NotFound? then forall x :: !Addressed(a.events, edges, calendars, account, originEvent, x)
        else Addressed(a.events, edges, calendars, account, originEvent, id))
  }

  /** What a delete reports and sends; without an error but not counted it found nothing. */
  ghost predicate RemoveOutcome(mirrors: Mirrors, keys: seq<Key>, removal: Removal, r: DeltaOutcome) {
    && (forall k :: k in keys ==> k in mirrors)
    && r == DeltaOutcome(removal.Removed?, removal.Removed? || removal.NotFound?,
                         if removal.Removed? then removal.mirrors else 0, DeleteMessages(mirrors, keys))
  }

  ghost predicate Removing(a: Snapshot, b: Snapshot, edges: seq<Edge>, calendars: set<Calendar>, booked: set<EventId>,
                           account: AccountId, originEvent: string, r: DeltaOutcome) {
    exists id, keys, removal :: RemoveEffect(a, b, edges, calendars, booked, account, originEvent, id, keys, removal)
                                && RemoveOutcome(a.mirrors, keys, removal, r)
  }

  /** An upsert counts exactly when it has a payload; without one it changes
      nothing.  A delete counts when its event was found, its mirror deletes were
      accepted and no time allocation references it. */
  ghost predicate DeltaEffect(project: Project, a: Snapshot, b: Snapshot, edges: seq<Edge>, calendars: set<Calendar>, booked: set<EventId>,
                              account: AccountId, d: Delta, r: DeltaOutcome) {
    if d.Remove? then Removing(a, b, edges, calendars, booked, account, d.originEvent, r)
    else if d.content.None? then b == a && r == DeltaOutcome(false, false, 0, [])
    else r.counted && exists id :: UpsertEffect(project, a, b, edges, calendars, account, d.originEvent, d.content.value, id, r)
  }

  lemma {:induction false} UpsertIsEffect(project: Project, a: Snapshot, b: Snapshot, edges: seq<Edge>, calendars: set<Calendar>,
      booked: set<EventId>, account: AccountId, d: Delta, id: EventId, r: DeltaOutcome)
    requires d.Upsert? && d.content.Some? && r.counted
    requires UpsertEffect(project, a, b, edges, calendars, account, d.originEvent, d.content.value, id, r)
    ensures DeltaEffect(project, a, b, edges, calendars, booked, account, d, r)
  {
  }

  /** Every delta so far had its effect on the tables its predecessor left. */
  ghost predicate Traced(project: Project, trace: seq<Snapshot>, edges: seq<Edge>, calendars: set<Calendar>, booked: set<EventId>,
                         account: AccountId, deltas: seq<Delta>, outcomes: seq<DeltaOutcome>) {
    && |trace| == |outcomes| + 1 && |outcomes| <= |deltas|
    && forall i :: 0 <= i < |outcomes| ==>
         DeltaEffect(project, trace[i], trace[i + 1], edges, calendars, booked, account, deltas[i], outcomes[i])
  }

  lemma {:induction false} TraceStep(project: Project, trace: seq<Snapshot>, edges: seq<Edge>, calendars: set<Calendar>, booked: set<EventId>,
      account: AccountId, deltas: seq<Delta>, outcomes: seq<DeltaOutcome>, next: Snapshot, r: DeltaOutcome)
    requires Traced(project, trace, edges, calendars, booked, account, deltas, outcomes) && |outcomes| < |deltas|
    requires DeltaEffect(project, trace[|outcomes|], next, edges, calendars, booked, account, deltas[|outcomes|], r)
    ensures Traced(project, trace + [next], edges, calendars, booked, account, deltas, outcomes + [r])
  {
    var more, done := trace + [next], outcomes + [r];
    forall i | 0 <= i < |done| ensures DeltaEffect(project, more[i], more[i + 1], edges, calendars, booked, account, deltas[i], done[i]) {
      if i < |outcomes| {
        assert more[i] == trace[i] && more[i + 1] == trace[i + 1];
      }
    }
  }

  function Bump(d: Delta, t: (nat, nat, nat)): (nat, nat, nat) {
    if d.Remove? then (t.0, t.1, t.2 + 1) else if d.created then (t.0 + 1, t.1, t.2) else (t.0, t.1 + 1, t.2)
  }

  /** How many deltas counted, as created, updated and deleted. */
  function Tally(deltas: seq<Delta>, outcomes: seq<DeltaOutcome>): (nat, nat, nat)
    requires |outcomes| <= |deltas|
    decreases |outcomes|
  {
    if outcomes == [] then (0, 0, 0)
    else
      var n := |outcomes| - 1;
      if outcomes[n].counted then Bump(deltas[n], Tally(deltas, outcomes[..n])) else Tally(deltas, outcomes[..n])
  }

  /** The mirror messages reported by the deltas. */
  function Enqueued(outcomes: seq<DeltaOutcome>): nat {
    if outcomes == [] then 0 else Enqueued(outcomes[..|outcomes| - 1]) + outcomes[|outcomes| - 1].enqueued
  }

  /** The messages the deltas sent, in order. */
  function SentBy(outcomes: seq<DeltaOutcome>): seq<Message> {
    if outcomes == [] then [] else SentBy(outcomes[..|outcomes| - 1]) + outcomes[|outcomes| - 1].sent
  }

  lemma {:induction false} OutcomeSnoc(outcomes: seq<DeltaOutcome>, r: DeltaOutcome, queue: seq<Message>)
    ensures Enqueued(outcomes + [r]) == Enqueued(outcomes) + r.enqueued
    ensures queue + SentBy(outcomes + [r]) == queue + SentBy(outcomes) + r.sent
  {
    assert (outcomes + [r])[..|outcomes|] == outcomes;
  }

  /** The origin ids of the deltas that raised an error, in order. */
  function Failures(deltas: seq<Delta>, outcomes: seq<DeltaOutcome>): seq<string>
    requires |outcomes| <= |deltas|
    decreases |outcomes|
  {
    if outcomes == [] then []
    else
      var n := |outcomes| - 1;
      Failures(deltas, outcomes[..n]) + (if outcomes[n].ok then [] else [deltas[n].originEvent])
  }

  /** What a batch has left alone so far. */
  ghost predicate BatchSoFar(first: Events, firstMirrors: Mirrors, events: Events, mirrors: Mirrors, journal: seq<Entry>,
                             account: AccountId, named: set<string>, edges: seq<Edge>, calendars: set<Calendar>) {
    && (forall x :: x in first ==> Mentions(journal, x))
    && Isolated(first, events, account, named, edges, calendars)
    && MirrorsIsolated(firstMirrors, mirrors, first, account, named, edges, calendars)
  }

  /** The state of a batch after |outcomes| deltas. */
  ghost predicate BatchState(project: Project, first: Snapshot, cur: Snapshot, edges: seq<Edge>, calendars: set<Calendar>,
                             booked: set<EventId>, account: AccountId, deltas: seq<Delta>, trace: seq<Snapshot>, outcomes: seq<DeltaOutcome>) {
    && Traced(project, trace, edges, calendars, booked, account, deltas, outcomes)
    && trace[0] == first && trace[|outcomes|] == cur
    && BatchSoFar(first.events, first.mirrors, cur.events, cur.mirrors, cur.journal, account, Named(deltas[..|outcomes|]), edges, calendars)
  }

  /** One more delta of the batch, with outcome r, has led to `next`. */
  ghost predicate BatchOneMore(project: Project, first: Snapshot, next: Snapshot, edges: seq<Edge>, calendars: set<Calendar>, booked: set<EventId>,
      account: AccountId, deltas: seq<Delta>, trace: seq<Snapshot>, outcomes: seq<DeltaOutcome>, r: DeltaOutcome)
    requires |outcomes| < |deltas|
  {
    && BatchState(project, first, next, edges, calendars, booked, account, deltas, trace + [next], outcomes + [r])
    && Tally(deltas, outcomes + [r])
       == (if r.counted then Bump(deltas[|outcomes|], Tally(deltas, outcomes)) else Tally(deltas, outcomes))
    && Failures(deltas, outcomes + [r])
       == Failures(deltas, outcomes) + (if r.ok then [] else [deltas[|outcomes|].originEvent])
  }

  lemma {:induction false} StateNext(project: Project, first: Snapshot, was: Snapshot, next: Snapshot, edges: seq<Edge>,
      calendars: set<Calendar>, booked: set<EventId>, account: AccountId, deltas: seq<Delta>, trace: seq<Snapshot>,
      outcomes: seq<DeltaOutcome>, r: DeltaOutcome)
    requires |outcomes| < |deltas|
    requires BatchState(project, first, was, edges, calendars, booked, account, deltas, trace, outcomes)
    requires DeltaEffect(project, was, next, edges, calendars, booked, account, deltas[|outcomes|], r)
    requires BatchSoFar(first.events, first.mirrors, next.events, next.mirrors, next.journal, account,
                        Named(deltas[..|outcomes|]) + {deltas[|outcomes|].originEvent}, edges, calendars)
    ensures BatchState(project, first, next, edges, calendars, booked, account, deltas, trace + [next], outcomes + [r])
  {
    NamedSnoc(deltas, |outcomes|);
    TraceStep(project, trace, edges, calendars, booked, account, deltas, outcomes, next, r);
  }

  lemma {:induction false} BatchNext(project: Project, first: Snapshot, was: Snapshot, next: Snapshot, edges: seq<Edge>,
      calendars: set<Calendar>, booked: set<EventId>, account: AccountId, deltas: seq<Delta>, trace: seq<Snapshot>,
      outcomes: seq<DeltaOutcome>, r: DeltaOutcome)
    requires |outcomes| < |deltas|
    requires BatchState(project, first, was, edges, calendars, booked, account, deltas, trace, outcomes)
    requires DeltaEffect(project, was, next, edges, calendars, booked, account, deltas[|outcomes|], r)
    requires BatchSoFar(first.events, first.mirrors, next.events, next.mirrors, next.journal, account,
                        Named(deltas[..|outcomes|]) + {deltas[|outcomes|].originEvent}, edges, calendars)
    ensures BatchOneMore(project, first, next, edges, calendars, booked, account, deltas, trace, outcomes, r)
  {
    StateNext(project, first, was, next, edges, calendars, booked, account, deltas, trace, outcomes, r);
  }

  /** Changing only the mirrors of an addressed (or new) event keeps the others. */
  lemma {:induction false} MirrorsElsewhere(first: Events, firstMirrors: Mirrors, before: Events, were: Mirrors, after: Mirrors,
      account: AccountId, named: set<string>, edges: seq<Edge>, calendars: set<Calendar>, originEvent: string, id: EventId)
    requires Isolated(first, before, account, named, edges, calendars)
    requires MirrorsIsolated(firstMirrors, were, first, account, named, edges, calendars)
    requires id in before ==> Addressed(before, edges, calendars, account, originEvent, id)
    requires forall k :: k in were && k.event != id ==> k in after && after[k] == were[k]
    ensures MirrorsIsolated(firstMirrors, after, first, account, named + {originEvent}, edges, calendars)
  {
    forall k | k in firstMirrors && k.event in first
      && !(Touchable(first[k.event], account, edges, calendars) && first[k.event].originEvent in named + {originEvent})
      ensures k in after && after[k] == firstMirrors[k]
    {
      assert k in were && were[k] == firstMirrors[k];
      assert k.event in before && before[k.event] == first[k.event];
    }
  }

  lemma {:induction false} BatchUpsert(first: Events, firstMirrors: Mirrors, before: Events, mirrorsWere: Mirrors, journalWas: seq<Entry>,
      events: Events, mirrors: Mirrors, journal: seq<Entry>, account: AccountId, named: set<string>,
      edges: seq<Edge>, calendars: set<Calendar>, originEvent: string, content: Content, id: EventId)
    requires BatchSoFar(first, firstMirrors, before, mirrorsWere, journalWas, account, named, edges, calendars)
    requires Upserted(before, journalWas, events, journal, edges, calendars, account, originEvent, content, id)
    requires OthersKept(mirrorsWere, mirrors, id)
    ensures BatchSoFar(first, firstMirrors, events, mirrors, journal, account, named + {originEvent}, edges, calendars)
  {
    IsolatedUpsert(first, before, journalWas, events, journal, edges, calendars, account, named, originEvent, content, id);
    forall x | x in first ensures Mentions(journal, x) {
      MentionsGrow(journalWas, journal[|journal| - 1], x);
    }
    MirrorsElsewhere(first, firstMirrors, before, mirrorsWere, mirrors, account, named, edges, calendars, originEvent, id);
  }

  lemma {:induction false} BatchDelete(first: Events, firstMirrors: Mirrors, before: Events, mirrorsWere: Mirrors, journalWas: seq<Entry>,
      account: AccountId, named: set<string>, edges: seq<Edge>, calendars: set<Calendar>, originEvent: string, id: EventId)
    requires BatchSoFar(first, firstMirrors, before, mirrorsWere, journalWas, account, named, edges, calendars)
    requires Addressed(before, edges, calendars, account, originEvent, id)
    ensures BatchSoFar(first, firstMirrors, before - {id}, mirrorsWere - KeysOf(mirrorsWere, id),
                       journalWas + [Entry(id, Deleted, None)], account, named + {originEvent}, edges, calendars)
  {
    IsolatedDelete(first, before, edges, calendars, account, named, originEvent, id);
    forall x | x in first ensures Mentions(journalWas + [Entry(id, Deleted, None)], x) {
      MentionsGrow(journalWas, Entry(id, Deleted, None), x);
    }
    MirrorsElsewhere(first, firstMirrors, before, mirrorsWere, mirrorsWere - KeysOf(mirrorsWere, id),
                     account, named, edges, calendars, originEvent, id);
  }

  /** A delete the database refuses drops the mirrors of the event it addresses. */
  lemma {:induction false} BatchStranded(first: Events, firstMirrors: Mirrors, events: Events, mirrorsWere: Mirrors, journal: seq<Entry>,
      account: AccountId, named: set<string>, edges: seq<Edge>, calendars: set<Calendar>, originEvent: string, id: EventId)
    requires BatchSoFar(first, firstMirrors, events, mirrorsWere, journal, account, named, edges, calendars)
    requires Addressed(events, edges, calendars, account, originEvent, id)
    ensures BatchSoFar(first, firstMirrors, events, mirrorsWere - KeysOf(mirrorsWere, id), journal, account,
                       named + {originEvent}, edges, calendars)
  {
    MirrorsElsewhere(first, firstMirrors, events, mirrorsWere, mirrorsWere - KeysOf(mirrorsWere, id),
                     account, named, edges, calendars, originEvent, id);
  }

  lemma {:induction false} BatchNone(first: Events, firstMirrors: Mirrors, events: Events, mirrors: Mirrors, journal: seq<Entry>,
      account: AccountId, named: set<string>, edges: seq<Edge>, calendars: set<Calendar>, originEvent: string)
    requires BatchSoFar(first, firstMirrors, events, mirrors, journal, account, named, edges, calendars)
    ensures BatchSoFar(first, firstMirrors, events, mirrors, journal, account, named + {originEvent}, edges, calendars)
  {
  }

  /** However a delete ends, the batch keeps what it has to leave alone. */
  lemma {:induction false} BatchRemove(first: Events, firstMirrors: Mirrors, a: Snapshot, b: Snapshot, booked: set<EventId>,
      account: AccountId, named: set<string>, edges: seq<Edge>, calendars: set<Calendar>, originEvent: string,
      id: EventId, keys: seq<Key>, removal: Removal)
    requires BatchSoFar(first, firstMirrors, a.events, a.mirrors, a.journal, account, named, edges, calendars)
    requires RemoveEffect(a, b, edges, calendars, booked, account, originEvent, id, keys, removal)
    ensures BatchSoFar(first, firstMirrors, b.events, b.mirrors, b.journal, account, named + {originEvent}, edges, calendars)
  {
    match removal
    case Removed(_) =>
      BatchDelete(first, firstMirrors, a.events, a.mirrors, a.journal, account, named, edges, calendars, originEvent, id);
    case Referenced =>
      BatchStranded(first, firstMirrors, a.events, a.mirrors, a.journal, account, named, edges, calendars, originEvent, id);
    case _ =>
      BatchNone(first, firstMirrors, a.events, a.mirrors, a.journal, account, named, edges, calendars, originEvent);
  }
}
