/** The user graph: canonical events, mirrors, policy edges, the journal and the
    messages its queues accepted.  Any queue send may fail. */
module UserGraph {
  import opened Optional
  import opened Journal
  import opened CanonicalStore
  import opened MirrorMessages
  import opened Projection
  import opened Recomputation
  import opened Requests
  import opened RowEdits
  import opened Unlinking
  import opened Batches
  import opened Sequences

  class UserGraph {
    var events: Events
    var mirrors: Mirrors
    var edges: seq<Edge>
    var calendars: set<Calendar>
    var journal: seq<Entry>
    var queue: seq<Message>

    /** The events a time allocation references; no event row may go while one does. */
    var allocations: set<EventId>

    /** The removals that were journaled although the row could not be deleted. */
    ghost var stuck: multiset<EventId>

    /** Projection followed by its content hash, for one event under one edge. */
    const project: Project

    constructor (project: Project)
      ensures Valid() && events == map[] && journal == [] && stuck == multiset{}
    {
      this.project := project;
      events, mirrors, edges, calendars, journal, queue := map[], map[], [], {}, [], [];
      allocations, stuck := {}, multiset{};
    }

    /** Origin pairs are unique, no allocation dangles, and the journal accounts
        for every event; it replays to the store unless a removal is stuck. */
    ghost predicate Valid()
      reads this
    {
      UniqueOrigins(events) && allocations <= events.Keys && Tracked(events, journal, stuck)
    }

    /** `createAllocation`: at most one per event, and only for an event that exists. */
    method CreateAllocation(id: EventId) returns (ok: bool)
      requires Valid()
      modifies this`allocations
      ensures Valid()
      ensures ok <==> id in events && id !in old(allocations)
      ensures allocations == if ok then old(allocations) + {id} else old(allocations)
    {
      ok := id in events && id !in allocations;
      if ok {
        allocations := allocations + {id};
      }
    }

    /** `deleteAllocation`. */
    method DeleteAllocation(id: EventId) returns (existed: bool)
      requires Valid()
      modifies this`allocations
      ensures Valid()
      ensures existed <==> id in old(allocations)
      ensures allocations == old(allocations) - {id}
    {
      existed := id in allocations;
      allocations := allocations - {id};
    }

    /** A queue send: it is accepted, or it throws. */
    method Send(m: Message) returns (ok: bool)
      modifies this`queue
      ensures queue == if ok then old(queue) + [m] else old(queue)
    {
      ok := *;
      if ok {
        queue := queue + [m];
      }
    }

    /** `generateId`: an id no journal entry mentions. */
    method GenerateId() returns (id: EventId)
      ensures !Mentions(journal, id)
    {
      id := Above(journal);
    }

    method FindByOrigin(account: AccountId, originEvent: string) returns (r: Option<EventId>)
      ensures r.Some? ==> r.value in events && events[r.value].origin == account && events[r.value].originEvent == originEvent
      ensures r.None? ==> !OriginTaken(events, account, originEvent)
    {
      if id :| id in events && events[id].origin == account && events[id].originEvent == originEvent {
        return Some(id);
      }
      return None;
    }

    /** `findLegacyRebindCandidate`. */
    method FindLegacyRebindCandidate(account: AccountId, originEvent: string) returns (r: Option<EventId>)
      ensures r.Some? ==> Rebindable(events, edges, calendars, account, originEvent, r.value)
      ensures r.None? ==> forall id :: !Rebindable(events, edges, calendars, account, originEvent, id)
    {
      if !HasCalendar(calendars, account) {
        return None;
      }
      var rows := set id | id in events && LegacyRow(events[id], account, originEvent);
      if |rows| != 1 {
        assert forall id :: Rebindable(events, edges, calendars, account, originEvent, id) ==> rows == {id};
        return None;
      }
      var id :| id in rows;
      assert |rows - {id}| == 0;
      if !Orphan(edges, calendars, events[id].origin) {
        return None;
      }
      forall x | x in events && LegacyRow(events[x], account, originEvent) ensures x == id {
        assert x in rows && x !in rows - {id};
      }
      return Some(id);
    }

    /** The update both delta handlers share: contents, version, owner, journal. */
    method UpdateRow(id: EventId, account: AccountId, content: Content)
      requires id in events
      modifies this`events, this`journal
      ensures events == old(events)[id := old(events)[id].(origin := account, content := content,
                                                            version := old(events)[id].version + 1)]
      ensures journal == old(journal) + [Entry(id, Updated, None)]
    {
      var newVersion := events[id].version + 1;
      events := events[id := events[id].(origin := account, content := content, version := newVersion)];
      journal := journal + [Entry(id, Updated, None)];
    }

    /** `handleCreated`; without a payload it throws and changes nothing. */
    method HandleCreated(account: AccountId, originEvent: string, content: Option<Content>) returns (r: Option<EventId>)
      requires Valid()
      modifies this`events, this`journal
      ensures Valid()
      ensures r.None? <==> content.None?
      ensures r.None? ==> events == old(events) && journal == old(journal)
      ensures r.Some? ==> Upserted(old(events), old(journal), events, journal, edges, calendars,
                                   account, originEvent, content.value, r.value)
    {
      if content.None? {
        return None;
      }
      ghost var before, journalBefore := events, journal;
      var existing := FindByOrigin(account, originEvent);
      if existing.Some? {
        UpdateRow(existing.value, account, content.value);
        r := existing;
      } else {
        var legacy := FindLegacyRebindCandidate(account, originEvent);
        if legacy.Some? {
          UpdateRow(legacy.value, account, content.value);
          r := legacy;
        } else {
          var id := GenerateId();
          if id in events {
            TrackedIsMentioned(events, journal, stuck, id);
          }
          events := events[id := Row(account, originEvent, Provider, None, 1, content.value)];
          journal := journal + [Entry(id, Created, None)];
          r := Some(id);
        }
      }
      UpsertKeepsStore(before, journalBefore, events, journal, stuck, edges, calendars, account, originEvent, content.value, r.value);
    }

    /** `handleUpdated`; an unknown event is created. */
    method HandleUpdated(account: AccountId, originEvent: string, content: Option<Content>) returns (r: Option<EventId>)
      requires Valid()
      modifies this`events, this`journal
      ensures Valid()
      ensures r.None? <==> content.None?
      ensures r.None? ==> events == old(events) && journal == old(journal)
      ensures r.Some? ==> Upserted(old(events), old(journal), events, journal, edges, calendars,
                                   account, originEvent, content.value, r.value)
    {
      if content.None? {
        return None;
      }
      ghost var before, journalBefore := events, journal;
      r := FindByOrigin(account, originEvent);
      if r.None? {
        r := FindLegacyRebindCandidate(account, originEvent);
        if r.None? {
          r := HandleCreated(account, originEvent, content);
          return;
        }
      }
      UpdateRow(r.value, account, content.value);
      UpsertKeepsStore(before, journalBefore, events, journal, stuck, edges, calendars, account, originEvent, content.value, r.value);
    }

    /** Enqueues a DELETE_MIRROR for every mirror of an event, one send at a time. */
    method SendMirrorDeletes(id: EventId) returns (ok: bool, sent: seq<Key>)
      modifies this`queue
      ensures forall k :: k in sent ==> k in mirrors && k.event == id
      ensures forall i, j :: 0 <= i < j < |sent| ==> sent[i] != sent[j]
      ensures ok ==> forall k :: k in KeysOf(mirrors, id) ==> k in sent
      ensures queue == old(queue) + DeleteMessages(mirrors, sent)
    {
      var rows := Enumerate(KeysOf(mirrors, id));
      sent := [];
      var i := 0;
      while i < |rows|
        invariant 0 <= i <= |rows| && sent == rows[..i]
        invariant forall k :: k in rows ==> k in mirrors && k.event == id
        invariant queue == old(queue) + DeleteMessages(mirrors, sent)
      {
        assert rows[i] in rows;
        var accepted := Send(DeleteMessage(mirrors, rows[i]));
        if !accepted {
          return false, sent;
        }
        assert rows[..i + 1] == rows[..i] + [rows[i]];
        assert DeleteMessages(mirrors, sent + [rows[i]]) == DeleteMessages(mirrors, sent) + [DeleteMessage(mirrors, rows[i])];
        sent := sent + [rows[i]];
        i := i + 1;
      }
      assert rows[..i] == rows;
      ok := true;
    }

    /** DELETE of an event's mirrors, then of the event, which the database refuses
        while an allocation references it, then the journal entry. */
    method EraseEvent(id: EventId) returns (ok: bool)
      requires Valid() && id in events
      modifies this`events, this`mirrors, this`journal
      ensures Valid()
      ensures ok <==> id !in allocations
      ensures mirrors == old(mirrors) - KeysOf(old(mirrors), id)
      ensures events == if ok then old(events) - {id} else old(events)
      ensures journal == if ok then old(journal) + [Entry(id, Deleted, None)] else old(journal)
    {
      mirrors := mirrors - KeysOf(mirrors, id);
      if id in allocations {
        return false;
      }
      DeleteTracked(events, journal, stuck, id, None);
      events := events - {id};
      journal := journal + [Entry(id, Deleted, None)];
      ok := true;
    }

    /** Asking for every mirror of an event to be deleted, then deleting its rows. */
    method RemoveEvent(id: EventId) returns (r: Removal, sent: seq<Key>)
      requires Valid() && id in events
      modifies this`events, this`mirrors, this`journal, this`queue
      ensures Valid() && old(journal) <= journal && !r.NotFound?
      ensures Removes(Snapshot(old(events), old(mirrors), old(journal)), Snapshot(events, mirrors, journal), allocations, id, sent, r)
      ensures (forall k :: k in sent ==> k in old(mirrors)) && queue == old(queue) + DeleteMessages(old(mirrors), sent)
    {
      var ok;
      ok, sent := SendMirrorDeletes(id);
      if !ok {
        return SendFailed, sent;
      }
      var n := |KeysOf(mirrors, id)|;
      ok := EraseEvent(id);
      r := if ok then Removed(n) else Referenced;
    }

    /** `handleDeleted`: a failed send leaves the event, its mirrors and the journal
        alone; an allocated event stays but loses its mirrors. */
    method HandleDeleted(account: AccountId, originEvent: string) returns (r: Removal, ghost id: EventId, ghost sent: seq<Key>)
      requires Valid()
      modifies this`events, this`mirrors, this`journal, this`queue
      ensures Valid() && old(journal) <= journal
      ensures RemoveEffect(Snapshot(old(events), old(mirrors), old(journal)), Snapshot(events, mirrors, journal),
                           edges, calendars, allocations, account, originEvent, id, sent, r)
      ensures (forall k :: k in sent ==> k in old(mirrors)) && queue == old(queue) + DeleteMessages(old(mirrors), sent)
    {
      id, sent := 0, [];
      var target := FindByOrigin(account, originEvent);
      if target.None? {
        target := FindLegacyRebindCandidate(account, originEvent);
        if target.None? {
          return NotFound, 0, [];
        }
      }
      id := target.value;
      assert Addressed(old(events), edges, calendars, account, originEvent, id);
      r, sent := RemoveEvent(target.value);
    }

    /** One edge of `projectAndEnqueue`: skip, converge locally, or write and send. */
    method ProjectEdge(id: EventId, row: Row, e: Edge, opts: Options, now: int) returns (ok: bool, sent: bool)
      modifies this`mirrors, this`queue
      ensures EdgeWritten(old(mirrors), mirrors, Key(id, e.to), HashUnder(project, id, row.content, e), opts.replayPending, ok, sent)
      ensures queue == old(queue) + (if sent then [MessageFor(mirrors, Key(id, e.to))] else [])
      ensures var k, h := Key(id, e.to), HashUnder(project, id, row.content, e);
              if k !in old(mirrors) then mirrors[k] == Mirror(e.to, None, h, Pending) && sent == ok
              else
                var was := old(mirrors)[k];
                && mirrors[k].calendar == was.calendar && mirrors[k].provider == was.provider
                && (if was.hash == h && !Replays(was.state, opts) then ok && !sent && mirrors == old(mirrors)
                    else if SettledOutside(was, row.content, now) then ok && !sent && mirrors[k].state == Active
                    else mirrors[k].state == Pending && sent == ok)
    {
      var k := Key(id, e.to);
      var h := HashUnder(project, id, row.content, e);
      if k in mirrors {
        var existing := mirrors[k];
        if existing.hash == h {
          if existing.state == Active
             || (existing.state == Pending && !opts.replayPending)
             || (existing.state != Pending && !opts.forceNonActive) {
            return true, false;
          }
        }
        if existing.provider.Some? && existing.provider.value != "" && OutOfWindow(row.content.endMs, now) {
          mirrors := mirrors[k := existing.(hash := h, state := Active)];
          return true, false;
        }
        mirrors := mirrors[k := existing.(hash := h, state := Pending)];
      } else {
        mirrors := mirrors[k := Mirror(e.to, None, h, Pending)];
      }
      ok := Send(UpsertMirror(k, mirrors[k].calendar, h));
      sent := ok;
    }

    /** One iteration of the loop of `projectAndEnqueue`. */
    method VisitEdge(id: EventId, row: Row, origin: AccountId, opts: Options, now: int, i: nat, ghost before: Mirrors, ghost sent: seq<Message>)
      returns (ok: bool, more: seq<Message>)
      requires i < |edges|
      requires Stage(project, id, row.content, edges, i, origin, before, mirrors, sent, opts.replayPending)
      modifies this`mirrors, this`queue
      ensures queue == old(queue) + more
      ensures Stage(project, id, row.content, edges, i + 1, origin, before, mirrors, sent + more, ok && opts.replayPending)
      ensures Converged(project, id, row.content, edges, origin, before) ==> ok
      ensures ok && more == [] && Settled(id, row.content, edges, origin, before, now)
              && Silent(project, id, row.content, edges, i, origin, before, old(mirrors)) ==>
                Silent(project, id, row.content, edges, i + 1, origin, before, mirrors)
    {
      ok, more := true, [];
      ghost var quiet := Settled(id, row.content, edges, origin, before, now)
                         && Silent(project, id, row.content, edges, i, origin, before, mirrors);
      if edges[i].from == origin {
        ghost var were := mirrors;
        var accepted;
        ok, accepted := ProjectEdge(id, row, edges[i], opts, now);
        if accepted {
          more := [MessageFor(mirrors, Key(id, edges[i].to))];
        }
        StageStep(project, id, row.content, edges, i, origin, before, were, mirrors, sent, opts.replayPending, ok, accepted);
      } else {
        StageSkip(project, id, row.content, edges, i, origin, before, mirrors, sent, opts.replayPending);
      }
      if quiet && ok && more == [] {
        assert edges[i] in edges;
        SilentEdge(project, id, row.content, edges, i, origin, before, mirrors);
      }
      assert sent + [] == sent;
    }

    /** The loop of `projectAndEnqueue` over the edges of one origin account. */
    method ProjectEdges(id: EventId, row: Row, origin: AccountId, opts: Options, now: int)
      returns (ok: bool, sent: seq<Message>, ghost done: nat)
      modifies this`mirrors, this`queue
      ensures queue == old(queue) + sent
      ensures done <= |edges| && (ok ==> done == |edges|)
      ensures Stage(project, id, row.content, edges, done, origin, old(mirrors), mirrors, sent, ok && opts.replayPending)
      ensures Converged(project, id, row.content, edges, origin, old(mirrors)) ==> ok
      ensures Settled(id, row.content, edges, origin, old(mirrors), now) && ok && sent == [] ==>
                Silent(project, id, row.content, edges, |edges|, origin, old(mirrors), mirrors)
    {
      sent := [];
      ok := true;
      var i := 0;
      while i < |edges|
        invariant 0 <= i <= |edges| && ok
        invariant queue == old(queue) + sent
        invariant Stage(project, id, row.content, edges, i, origin, old(mirrors), mirrors, sent, opts.replayPending)
        invariant Settled(id, row.content, edges, origin, old(mirrors), now) && sent == [] ==>
                    Silent(project, id, row.content, edges, i, origin, old(mirrors), mirrors)
      {
        var more;
        ok, more := VisitEdge(id, row, origin, opts, now, i, old(mirrors), sent);
        Assoc(old(queue), sent, more);
        sent := sent + more;
        i := i + 1;
        if !ok {
          done := i;
          return;
        }
      }
      done := i;
    }

    /** `projectAndEnqueue`.  When the edges agree, every message sent carries the
        hash its row stores, and no PENDING row is left without a message. */
    method ProjectAndEnqueue(id: EventId, origin: AccountId, opts: Options, now: int) returns (ok: bool, sent: seq<Message>)
      modifies this`mirrors, this`queue
      ensures OthersKept(old(mirrors), mirrors, id)
      ensures queue == old(queue) + sent
      ensures id !in events ==> ok && mirrors == old(mirrors) && sent == []
      ensures id in events && ok ==> mirrors.Keys == old(mirrors).Keys + Targets(edges, id, origin)
      ensures mirrors.Keys <= old(mirrors).Keys + Targets(edges, id, origin)
      ensures id in events && Agree(project, id, events[id].content, edges, origin) ==> Carries(sent, id, mirrors)
      ensures id in events && Agree(project, id, events[id].content, edges, origin) && ok ==>
                && Projected(project, id, events[id].content, edges, origin, mirrors)
                && (opts.replayPending ==> PendingSent(sent, Targets(edges, id, origin), mirrors))
      ensures id in events && Converged(project, id, events[id].content, edges, origin, old(mirrors)) ==>
                ok && mirrors == old(mirrors) && sent == []
      ensures id in events && Settled(id, events[id].content, edges, origin, old(mirrors), now) && ok && sent == [] ==>
                mirrors == old(mirrors) && Converged(project, id, events[id].content, edges, origin, old(mirrors))
    {
      if id !in events {
        return true, [];
      }
      ghost var done;
      ok, sent, done := ProjectEdges(id, events[id], origin, opts, now);
      assert edges[..|edges|] == edges;
      assert forall e :: e in edges[..done] ==> e in edges;
    }

    // ----- Provider deltas -----

    /** The mutation an upsert delta makes before its projections are sent. */
    method HandleUpsert(account: AccountId, d: Delta) returns (target: Option<EventId>)
      requires Valid() && d.Upsert?
      modifies this`events, this`journal
      ensures Valid()
      ensures target.Some? <==> d.content.Some?
      ensures target.None? ==> events == old(events) && journal == old(journal)
      ensures target.Some? ==> Upserted(old(events), old(journal), events, journal, edges, calendars,
                                        account, d.originEvent, d.content.value, target.value)
    {
      if d.created {
        target := HandleCreated(account, d.originEvent, d.content);
      } else {
        target := HandleUpdated(account, d.originEvent, d.content);
      }
    }

    /** The projections a created or updated delta triggers. */
    method ProjectDelta(account: AccountId, d: Delta, id: EventId, now: int, ghost was: Snapshot,
                        ghost first: Events, ghost firstMirrors: Mirrors, ghost named: set<string>)
      returns (ok: bool, enqueued: nat, ghost sent: seq<Message>)
      requires Valid() && d.Upsert? && d.content.Some? && mirrors == was.mirrors
      requires Upserted(was.events, was.journal, events, journal, edges, calendars, account, d.originEvent, d.content.value, id)
      requires BatchSoFar(first, firstMirrors, was.events, was.mirrors, was.journal, account, named, edges, calendars)
      modifies this`mirrors, this`queue
      ensures BatchSoFar(first, firstMirrors, events, mirrors, journal, account, named + {d.originEvent}, edges, calendars)
      ensures DeltaEffect(project, was, Snapshot(events, mirrors, journal), edges, calendars, allocations, account, d,
                          DeltaOutcome(true, ok, enqueued, sent))
      ensures queue == old(queue) + sent
    {
      var projections;
      ok, projections := ProjectAndEnqueue(id, account, DEFAULTS, now);
      enqueued := if ok then |projections| else 0;
      sent := projections;
      BatchUpsert(first, firstMirrors, was.events, was.mirrors, was.journal, events, mirrors, journal, account,
                  named, edges, calendars, d.originEvent, d.content.value, id);
      UpsertIsEffect(project, was, Snapshot(events, mirrors, journal), edges, calendars, allocations, account, d, id,
                     DeltaOutcome(true, ok, enqueued, sent));
    }

    /** A delete of the batch. */
    method ApplyRemove(account: AccountId, originEvent: string, ghost first: Events, ghost firstMirrors: Mirrors, ghost named: set<string>)
      returns (counted: bool, enqueued: nat, ok: bool, ghost sent: seq<Message>)
      requires Valid() && BatchSoFar(first, firstMirrors, events, mirrors, journal, account, named, edges, calendars)
      modifies this`events, this`mirrors, this`journal, this`queue
      ensures Valid() && old(journal) <= journal
      ensures BatchSoFar(first, firstMirrors, events, mirrors, journal, account, named + {originEvent}, edges, calendars)
      ensures Removing(Snapshot(old(events), old(mirrors), old(journal)), Snapshot(events, mirrors, journal), edges, calendars, allocations,
                       account, originEvent, DeltaOutcome(counted, ok, enqueued, sent))
      ensures queue == old(queue) + sent
    {
      ghost var was := Snapshot(events, mirrors, journal);
      var removal, id, keys := HandleDeleted(account, originEvent);
      counted, ok := removal.Removed?, removal.Removed? || removal.NotFound?;
      enqueued := if removal.Removed? then removal.mirrors else 0;
      sent := DeleteMessages(was.mirrors, keys);
      BatchRemove(first, firstMirrors, was, Snapshot(events, mirrors, journal), allocations, account, named, edges, calendars,
                  originEvent, id, keys, removal);
      assert RemoveOutcome(was.mirrors, keys, removal, DeltaOutcome(counted, ok, enqueued, sent));
    }

    /** One delta of a batch, with the projections it triggers; `counted` says
        whether it counts as applied, `ok` whether it raised no error. */
    method ApplyDelta(account: AccountId, d: Delta, now: int,
                      ghost first: Events, ghost firstMirrors: Mirrors, ghost named: set<string>)
      returns (counted: bool, enqueued: nat, ok: bool, ghost sent: seq<Message>)
      requires Valid() && BatchSoFar(first, firstMirrors, events, mirrors, journal, account, named, edges, calendars)
      modifies this`events, this`mirrors, this`journal, this`queue
      ensures Valid() && old(journal) <= journal
      ensures BatchSoFar(first, firstMirrors, events, mirrors, journal, account, named + {d.originEvent}, edges, calendars)
      ensures DeltaEffect(project, Snapshot(old(events), old(mirrors), old(journal)), Snapshot(events, mirrors, journal), edges, calendars,
                          allocations, account, d, DeltaOutcome(counted, ok, enqueued, sent))
      ensures queue == old(queue) + sent
    {
      if d.Remove? {
        counted, enqueued, ok, sent := ApplyRemove(account, d.originEvent, first, firstMirrors, named);
        return;
      }
      ghost var was := Snapshot(events, mirrors, journal);
      var target := HandleUpsert(account, d);
      counted, enqueued, ok, sent := target.Some?, 0, false, [];
      if target.Some? {
        ok, enqueued, sent := ProjectDelta(account, d, target.value, now, was, first, firstMirrors, named);
      } else {
        BatchNone(first, firstMirrors, events, mirrors, journal, account, named, edges, calendars, d.originEvent);
      }
    }

    method CountOne(d: Delta, created: nat, updated: nat, deleted: nat) returns (c: nat, u: nat, r: nat)
      ensures (c, u, r) == Bump(d, (created, updated, deleted))
    {
      c, u, r := created, updated, deleted;
      if d.Remove? {
        r := r + 1;
      } else if d.created {
        c := c + 1;
      } else {
        u := u + 1;
      }
    }

    /** One iteration of the loop of `applyProviderDelta`. */
    method NextDelta(account: AccountId, deltas: seq<Delta>, now: int,
                     ghost first: Snapshot, ghost trace: seq<Snapshot>, ghost outcomes: seq<DeltaOutcome>, i: nat)
      returns (counted: bool, enqueued: nat, ok: bool, ghost sent: seq<Message>)
      requires Valid() && i == |outcomes| < |deltas|
      requires BatchState(project, first, Snapshot(events, mirrors, journal), edges, calendars, allocations, account, deltas, trace, outcomes)
      modifies this`events, this`mirrors, this`journal, this`queue
      ensures Valid() && old(journal) <= journal
      ensures queue == old(queue) + sent
      ensures BatchOneMore(project, first, Snapshot(events, mirrors, journal), edges, calendars, allocations, account, deltas, trace, outcomes,
                           DeltaOutcome(counted, ok, enqueued, sent))
    {
      ghost var was := Snapshot(events, mirrors, journal);
      counted, enqueued, ok, sent := ApplyDelta(account, deltas[i], now, first.events, first.mirrors, Named(deltas[..i]));
      BatchNext(project, first, was, Snapshot(events, mirrors, journal), edges, calendars, allocations, account, deltas, trace, outcomes,
                DeltaOutcome(counted, ok, enqueued, sent));
    }

    /** `applyProviderDelta`.  Whatever sends fail, the journal stays in step and
        origins stay unique; an event of another account changes only if it is a
        provider event named by the batch whose account is an orphan.  `trace`
        holds the tables before the first delta and after each one. */
    method ApplyProviderDelta(account: AccountId, deltas: seq<Delta>, now: int)
      returns (created: nat, updated: nat, deleted: nat, mirrorsEnqueued: nat, errors: seq<string>,
               ghost trace: seq<Snapshot>, ghost outcomes: seq<DeltaOutcome>)
      requires Valid()
      modifies this`events, this`mirrors, this`journal, this`queue
      ensures Valid() && old(journal) <= journal
      ensures Isolated(old(events), events, account, Named(deltas), edges, calendars)
      ensures MirrorsIsolated(old(mirrors), mirrors, old(events), account, Named(deltas), edges, calendars)
      ensures Traced(project, trace, edges, calendars, allocations, account, deltas, outcomes) && |outcomes| == |deltas|
      ensures trace[0] == Snapshot(old(events), old(mirrors), old(journal)) && trace[|deltas|] == Snapshot(events, mirrors, journal)
      ensures (created, updated, deleted) == Tally(deltas, outcomes) && errors == Failures(deltas, outcomes)
      ensures mirrorsEnqueued == Enqueued(outcomes) && queue == old(queue) + SentBy(outcomes)
    {
      created, updated, deleted, mirrorsEnqueued, errors := 0, 0, 0, 0, [];
      ghost var first := Snapshot(events, mirrors, journal);
      trace, outcomes := [first], [];
      AllMentioned(events, journal, stuck);
      var i := 0;
      while i < |deltas|
        invariant 0 <= i <= |deltas| && |outcomes| == i
        invariant Valid() && old(journal) <= journal
        invariant BatchState(project, first, Snapshot(events, mirrors, journal), edges, calendars, allocations, account, deltas, trace, outcomes)
        invariant (created, updated, deleted) == Tally(deltas, outcomes) && errors == Failures(deltas, outcomes)
        invariant mirrorsEnqueued == Enqueued(outcomes) && queue == old(queue) + SentBy(outcomes)
      {
        var counted, enqueued, ok, sent := NextDelta(account, deltas, now, first, trace, outcomes, i);
        ghost var outcome, next := DeltaOutcome(counted, ok, enqueued, sent), Snapshot(events, mirrors, journal);
        OutcomeSnoc(outcomes, outcome, old(queue));
        if counted {
          created, updated, deleted := CountOne(deltas[i], created, updated, deleted);
        }
        mirrorsEnqueued := mirrorsEnqueued + enqueued;
        if !ok {
          errors := errors + [deltas[i].originEvent];
        }
        trace, outcomes := trace + [next], outcomes + [outcome];
        i := i + 1;
      }
      assert deltas[..i] == deltas;
    }

    // ----- User edits -----

    /** INSERT under the UNIQUE constraint: throws when the origin pair is taken. */
    method TryInsert(id: EventId, r: Row) returns (ok: bool)
      requires Valid() && id !in events && r.version == 1
      modifies this`events, this`journal
      ensures Valid()
      ensures ok <==> !OriginTaken(old(events), r.origin, r.originEvent)
      ensures events == if ok then old(events)[id := r] else old(events)
      ensures journal == if ok then old(journal) + [Entry(id, Created, None)] else old(journal)
    {
      var taken := FindByOrigin(r.origin, r.originEvent);
      if taken.Some? {
        return false;
      }
      TryInsertKeepsStore(events, journal, stuck, id, r);
      events := events[id := r];
      journal := journal + [Entry(id, Created, None)];
      ok := true;
    }

    method FreshEventId() returns (id: EventId)
      requires Valid()
      ensures id !in events && !Mentions(journal, id)
    {
      id := GenerateId();
      if id in events {
        TrackedIsMentioned(events, journal, stuck, id);
      }
    }

    /** Write the row and its journal entry. */
    method StoreEvent(id: EventId, origin: AccountId, originEvent: string, source: Source, content: Content) returns (ok: bool)
      requires Valid()
      modifies this`events, this`journal
      ensures Valid() && old(journal) <= journal && (ok <==> id in events)
      ensures EventStored(old(events), old(journal), events, journal, id, origin, originEvent, source, content)
    {
      if id in events {
        UpdateTracked(events, journal, stuck, id, events[id].(content := content, version := events[id].version + 1));
        events := events[id := events[id].(content := content, version := events[id].version + 1)];
        journal := journal + [Entry(id, Updated, None)];
        ok := true;
      } else {
        ok := TryInsert(id, Row(origin, originEvent, source, None, 1, content));
      }
    }

    /** `upsertCanonicalEvent`; without a given id an unused one is taken. */
    method UpsertCanonicalEvent(given: Option<EventId>, origin: AccountId, originEvent: string, source: Source,
                                content: Content, now: int)
      returns (ok: bool, id: EventId, sent: seq<Message>)
      requires Valid()
      modifies this`events, this`mirrors, this`journal, this`queue
      ensures Valid() && old(journal) <= journal
      ensures if given.Some? then id == given.value else id !in old(events) && !Mentions(old(journal), id)
      ensures EventStored(old(events), old(journal), events, journal, id, origin, originEvent, source, content)
      ensures id !in events ==> !ok && mirrors == old(mirrors) && sent == []
      ensures OthersKept(old(mirrors), mirrors, id) && queue == old(queue) + sent
      ensures ok ==> mirrors.Keys == old(mirrors).Keys + Targets(edges, id, origin)
      ensures id in events && Agree(project, id, content, edges, origin) ==>
                Carries(sent, id, mirrors)
                && (ok ==> Projected(project, id, content, edges, origin, mirrors)
                           && PendingSent(sent, Targets(edges, id, origin), mirrors))
    {
      sent := [];
      if given.Some? {
        id := given.value;
      } else {
        id := FreshEventId();
      }
      ok := StoreEvent(id, origin, originEvent, source, content);
      if !ok {
        return;
      }
      ok, sent := ProjectAndEnqueue(id, origin, DEFAULTS, now);
    }

    /** `deleteCanonicalEvent`: mirror deletes, then the origin's own delete, then
        the rows; a refused send leaves the tables alone. */
    method DeleteCanonicalEvent(id: EventId) returns (r: Removal, sent: seq<Key>)
      requires Valid()
      modifies this`events, this`mirrors, this`journal, this`queue
      ensures Valid() && old(journal) <= journal
      ensures r.NotFound? <==> id !in old(events)
      ensures Removes(Snapshot(old(events), old(mirrors), old(journal)), Snapshot(events, mirrors, journal), allocations, id, sent, r)
      ensures forall k :: k in sent ==> k in old(mirrors)
      ensures queue == old(queue) + DeleteMessages(old(mirrors), sent)
                       + if r.Removed? || r.Referenced? then OriginDelete(id, old(events)[id]) else []
    {
      sent := [];
      if id !in events {
        return NotFound, [];
      }
      var ok;
      ok, sent := SendMirrorDeletes(id);
      if !ok {
        return SendFailed, sent;
      }
      var own := OriginDelete(id, events[id]);
      if own != [] {
        ok := Send(own[0]);
        if !ok {
          return SendFailed, sent;
        }
      }
      var n := |KeysOf(mirrors, id)|;
      ok := EraseEvent(id);
      r := if ok then Removed(n) else Referenced;
    }

    // ----- Recompute -----

    /** One event of the sweep. */
    method SweepOne(rows: seq<EventId>, i: nat, opts: Options, now: int, ghost start: Mirrors, ghost sent: seq<Message>)
      returns (ok: bool, more: seq<Message>)
      requires i < |rows| && rows[i] in events
      requires forall j, k :: 0 <= j < k < |rows| ==> rows[j] != rows[k]
      requires Sweeping(project, events, edges, rows, i, start, mirrors, sent, opts.replayPending)
      requires QuietSoFar(project, events, edges, rows, i, start, mirrors, sent, now)
      modifies this`mirrors, this`queue
      ensures queue == old(queue) + more
      ensures ok ==> Sweeping(project, events, edges, rows, i + 1, start, mirrors, sent + more, opts.replayPending)
      ensures AllAgree(project, events, edges) ==> HashesStored(sent + more, mirrors)
      ensures AllConverged(project, events, edges, start) && start.Keys == Join(events, edges) ==> ok
      ensures ok ==> QuietSoFar(project, events, edges, rows, i + 1, start, mirrors, sent + more, now)
    {
      ghost var were := mirrors;
      ok, more := ProjectAndEnqueue(rows[i], events[rows[i]].origin, opts, now);
      if ok {
        QuietStep(project, events, edges, rows, i, start, were, mirrors, sent, more, now);
      }
      SweepStep(project, events, edges, rows, i, start, were, mirrors, sent, more, ok, opts.replayPending);
    }

    method SweepEvents(rows: seq<EventId>, opts: Options, now: int, ghost start: Mirrors)
      returns (ok: bool, sent: seq<Message>)
      requires forall id :: id in rows ==> id in events
      requires forall j, k :: 0 <= j < k < |rows| ==> rows[j] != rows[k]
      requires Sweeping(project, events, edges, rows, 0, start, mirrors, [], opts.replayPending)
      requires QuietSoFar(project, events, edges, rows, 0, start, mirrors, [], now)
      modifies this`mirrors, this`queue
      ensures queue == old(queue) + sent
      ensures ok ==> Sweeping(project, events, edges, rows, |rows|, start, mirrors, sent, opts.replayPending)
      ensures AllAgree(project, events, edges) ==> HashesStored(sent, mirrors)
      ensures AllConverged(project, events, edges, start) && start.Keys == Join(events, edges) ==> ok
      ensures ok ==> QuietSoFar(project, events, edges, rows, |rows|, start, mirrors, sent, now)
    {
      sent, ok := [], true;
      var i := 0;
      while i < |rows|
        invariant 0 <= i <= |rows| && ok
        invariant queue == old(queue) + sent
        invariant Sweeping(project, events, edges, rows, i, start, mirrors, sent, opts.replayPending)
        invariant AllAgree(project, events, edges) ==> HashesStored(sent, mirrors)
        invariant QuietSoFar(project, events, edges, rows, i, start, mirrors, sent, now)
      {
        var more;
        ok, more := SweepOne(rows, i, opts, now, start, sent);
        Assoc(old(queue), sent, more);
        sent := sent + more;
        if !ok {
          return;
        }
        i := i + 1;
      }
    }

    /** `recomputeProjections` over every event.  When edges agree and every send
        is accepted, the mirror table is exactly the join of events and edges,
        every row carries its event's hash, and so does every message sent. */
    method RecomputeProjections(opts: Options, now: int) returns (ok: bool, sent: seq<Message>)
      modifies this`mirrors, this`queue
      ensures queue == old(queue) + sent
      ensures ok ==> mirrors.Keys == Join(events, edges)
      ensures AllAgree(project, events, edges) ==>
                HashesStored(sent, mirrors) && (ok ==> AllProjected(project, events, edges, mirrors))
      ensures AllAgree(project, events, edges) && ok && opts.replayPending ==> PendingSent(sent, mirrors.Keys, mirrors)
      ensures AllConverged(project, events, edges, old(mirrors)) && old(mirrors).Keys == Join(events, edges) ==>
                ok && mirrors == old(mirrors) && sent == []
      ensures ok && sent == [] && AllSettled(events, edges, old(mirrors), now) && old(mirrors).Keys == Join(events, edges) ==>
                AllConverged(project, events, edges, old(mirrors))
    {
      mirrors := Prune(mirrors, events, edges);
      PruneToJoin(old(mirrors), events, edges);
      var rows := Enumerate(events.Keys);
      ok, sent := SweepEvents(rows, opts, now, old(mirrors));
      if ok {
        SweepDone(project, events, edges, rows, old(mirrors), mirrors, sent, opts.replayPending);
        if sent == [] && AllSettled(events, edges, old(mirrors), now) && old(mirrors).Keys == Join(events, edges) {
          SilentConverged(project, events, edges, rows, old(mirrors));
        }
      }
    }

    /** A recompute, every row written, and a recompute again: with all events in
        the window the second is silent exactly when the edges between any two
        accounts agree.  Edges that disagree send for ever. */
    method RecomputeAgain(opts: Options, now: int) returns (first: bool, second: bool, sent: seq<Message>)
      modifies this`mirrors, this`queue
      ensures first && AllInWindow(events, now) ==> (second && sent == [] <==> AllAgree(project, events, edges))
    {
      first, sent := RecomputeProjections(opts, now);
      second := false;
      if first {
        ghost var rows := mirrors;
        mirrors := AllActive(mirrors);
        ghost var written := mirrors;
        second, sent := RecomputeProjections(opts, now);
        if AllInWindow(events, now) {
          ActiveSettled(events, edges, rows, now);
          if AllAgree(project, events, edges) {
            ActiveConverged(project, events, edges, rows);
          } else if second && sent == [] {
            ConvergedAgree(project, events, edges, written);
          }
        }
      }
    }

    // ----- Unlink -----

    method SendBatch(chunk: seq<Message>) returns (ok: bool)
      modifies this`queue
      ensures queue == if ok then old(queue) + chunk else old(queue)
    {
      ok := *;
      if ok {
        queue := queue + chunk;
      }
    }

    /** `enqueueDeleteBatch`: chunks of at most 100, in order, stopping at the
        first one the queue refuses. */
    method EnqueueDeleteBatch(messages: seq<Message>) returns (ok: bool, batches: seq<seq<Message>>)
      modifies this`queue
      ensures queue == old(queue) + Flatten(batches)
      ensures Flatten(batches) <= messages && (ok <==> Flatten(batches) == messages)
      ensures forall i :: 0 <= i < |batches| ==> 0 < |batches[i]| <= BATCH_SIZE
      ensures forall i :: 0 <= i < |batches| - 1 ==> |batches[i]| == BATCH_SIZE
    {
      batches := [];
      var i := 0;
      while i < |messages|
        invariant 0 <= i && queue == old(queue) + Flatten(batches)
        invariant Chunked(messages, i, batches)
      {
        var end := if i + BATCH_SIZE < |messages| then i + BATCH_SIZE else |messages|;
        var chunk := messages[i..end];
        ok := SendBatch(chunk);
        if !ok {
          return;
        }
        ChunkedStep(messages, i, end, batches);
        Assoc(old(queue), Flatten(batches), chunk);
        batches := batches + [chunk];
        i := i + BATCH_SIZE;
      }
      ok := true;
    }

    /** Step 1 of an unlink: the DELETE_MIRROR messages of the account's own events. */
    method SendOutbound(account: AccountId) returns (ok: bool, rows: seq<Key>, batches: seq<seq<Message>>)
      modifies this`queue
      ensures queue == old(queue) + Flatten(batches)
      ensures forall k :: k in rows ==> k in mirrors
      ensures (forall k :: k in rows <==> k in Outbound(mirrors, events, account)) && Distinct(rows)
      ensures Flatten(batches) <= DeleteMessages(mirrors, rows) && (ok <==> Flatten(batches) == DeleteMessages(mirrors, rows))
      ensures forall i :: 0 <= i < |batches| ==> 0 < |batches[i]| <= BATCH_SIZE
    {
      rows := Enumerate(Outbound(mirrors, events, account));
      ok, batches := EnqueueDeleteBatch(DeleteMessages(mirrors, rows));
    }

    /** Steps 1 and 2: outbound rows first, then the inbound rows that are left. */
    method DropMirrors(account: AccountId) returns (dropped: nat)
      modifies this`mirrors
      ensures mirrors == old(mirrors) - Outbound(old(mirrors), events, account) - Inbound(old(mirrors), account)
      ensures dropped == |Outbound(old(mirrors), events, account) + Inbound(old(mirrors), account)|
    {
      var outbound := Outbound(mirrors, events, account);
      mirrors := mirrors - outbound;
      var inbound := Inbound(mirrors, account);
      mirrors := mirrors - inbound;
      UnionSize(outbound, inbound);
      assert outbound + inbound == outbound + Inbound(old(mirrors), account);
      dropped := |outbound| + |inbound|;
    }

    /** Steps 4 to 7: edges, non-projectable mirrors, calendars, summary. */
    method DropLinks(account: AccountId, eventsDeleted: nat, mirrorsDeleted: nat) returns (r: Unlinked)
      requires Valid()
      modifies this`edges, this`calendars, this`mirrors, this`journal
      ensures Valid()
      ensures edges == EdgesWithout(old(edges), account) && calendars == CalendarsWithout(old(calendars), account)
      ensures mirrors == Prune(old(mirrors), events, edges)
      ensures r.Done? && r.events == eventsDeleted && r.mirrors == mirrorsDeleted
      ensures r.edges == |old(edges)| - |edges| && r.calendars == |old(calendars)| - |calendars|
      ensures journal == old(journal) + [Summary(account, r.events, r.mirrors, r.edges, r.calendars)]
    {
      var kept, left := EdgesWithout(edges, account), CalendarsWithout(calendars, account);
      EdgesShrink(edges, account);
      UnionSize(left, calendars - left);
      assert left + (calendars - left) == calendars;
      r := Done(eventsDeleted, mirrorsDeleted, |edges| - |kept|, |calendars| - |left|);
      edges := kept;
      mirrors := Prune(mirrors, events, edges);
      calendars := left;
      SummaryTracked(events, journal, stuck, Summary(account, r.events, r.mirrors, r.edges, r.calendars));
      journal := journal + [Summary(account, r.events, r.mirrors, r.edges, r.calendars)];
    }

    /** The bulk INSERT of 'deleted' rows, then the DELETE of the events, which the
        database refuses as a whole while an allocation references one of them. */
    method EraseAll(own: set<EventId>, from: Option<AccountId>) returns (ok: bool, ids: seq<EventId>)
      requires Valid() && own <= events.Keys
      modifies this`events, this`journal, this`stuck
      ensures Valid()
      ensures ok <==> own !! allocations
      ensures (forall id :: id in ids <==> id in own) && Distinct(ids)
      ensures journal == old(journal) + Deletions(ids, from)
      ensures events == if ok then old(events) - own else old(events)
      ensures stuck == if ok then old(stuck) else old(stuck) + multiset(own)
    {
      ids := Enumerate(own);
      BulkErased(events, journal, stuck, ids, from);
      BulkStuck(events, journal, stuck, ids, from);
      DistinctMultiset(ids, own);
      MinusAll(events, ids, own);
      journal := journal + Deletions(ids, from);
      ok := own !! allocations;
      if ok {
        events := events - own;
      } else {
        stuck := stuck + multiset(own);
      }
    }

    /** Steps 3 to 7, once the account's mirrors are gone. */
    method UnlinkRows(account: AccountId, mirrorsDeleted: nat, ghost mirrorsWere: Mirrors) returns (r: Unlinked, ids: seq<EventId>)
      requires Valid()
      requires mirrors == mirrorsWere - Outbound(mirrorsWere, events, account) - Inbound(mirrorsWere, account)
      modifies this`events, this`journal, this`stuck, this`edges, this`calendars, this`mirrors
      ensures Valid() && old(journal) <= journal && !r.SendRefused?
      ensures r.DuplicateKey? <==> UnlinkCollides(old(events), old(journal), account)
      ensures r.StillReferenced? <==> !r.DuplicateKey? && !(OwnEvents(old(events), account) !! allocations)
      ensures r.Done? ==>
                && Forgotten(events, mirrors, edges, calendars, account)
                && events == old(events) - OwnEvents(old(events), account)
                && mirrors == Prune(mirrorsWere, events, edges)
                && edges == EdgesWithout(old(edges), account)
                && calendars == CalendarsWithout(old(calendars), account)
                && r.events == |OwnEvents(old(events), account)| && r.mirrors == mirrorsDeleted
                && r.edges == |old(edges)| - |edges| && r.calendars == |old(calendars)| - |calendars|
      ensures !r.Done? ==>
                events == old(events) && mirrors == old(mirrors) && edges == old(edges) && calendars == old(calendars)
      ensures !r.DuplicateKey? ==> (forall id :: id in ids <==> id in OwnEvents(old(events), account)) && Distinct(ids)
      ensures journal == match r
                         case Done(e, m, p, c) => old(journal) + Deletions(ids, Some(account)) + [Summary(account, e, m, p, c)]
                         case StillReferenced => old(journal) + Deletions(ids, Some(account))
                         case _ => old(journal)
      ensures r.StillReferenced? ==> UnlinkCollides(events, journal, account)
      ensures stuck == if r.StillReferenced? then old(stuck) + multiset(OwnEvents(old(events), account)) else old(stuck)
    {
      ids := [];
      var own := OwnEvents(events, account);
      if e :| e in journal && e.Entry? && e.unlinkedFrom == Some(account) && e.event in own {
        return DuplicateKey, ids;
      }
      var ok;
      ok, ids := EraseAll(own, Some(account));
      if !ok {
        NowCollides(events, old(journal), account, ids);
        return StillReferenced, ids;
      }
      PruneForgets(mirrorsWere, old(events), edges, calendars, account);
      r := DropLinks(account, |own|, mirrorsDeleted);
    }

    /** `unlinkAccount`.  It completes exactly when every batch is accepted, no
        earlier unlink of the account journaled an id the account owns, and no
        event of the account is allocated.  In that last case the removals are
        journaled, the events stay, and the journal will refuse the next unlink. */
    method UnlinkAccount(account: AccountId)
      returns (r: Unlinked, rows: seq<Key>, batches: seq<seq<Message>>, ids: seq<EventId>)
      requires Valid()
      modifies this
      ensures Valid() && allocations == old(allocations) && old(journal) <= journal
      ensures queue == old(queue) + Flatten(batches)
      ensures forall k :: k in rows ==> k in old(mirrors)
      ensures (forall k :: k in rows <==> k in Outbound(old(mirrors), old(events), account)) && Distinct(rows)
      ensures Flatten(batches) <= DeleteMessages(old(mirrors), rows)
      ensures forall i :: 0 <= i < |batches| ==> 0 < |batches[i]| <= BATCH_SIZE
      ensures r.SendRefused? <==> Flatten(batches) != DeleteMessages(old(mirrors), rows)
      ensures r.DuplicateKey? <==> !r.SendRefused? && UnlinkCollides(old(events), old(journal), account)
      ensures r.StillReferenced? <==> !r.SendRefused? && !r.DuplicateKey? && !(OwnEvents(old(events), account) !! allocations)
      ensures r.Done? ==>
                && Forgotten(events, mirrors, edges, calendars, account)
                && events == old(events) - OwnEvents(old(events), account)
                && mirrors == Prune(old(mirrors), events, edges)
                && edges == EdgesWithout(old(edges), account)
                && calendars == CalendarsWithout(old(calendars), account)
      ensures r.Done? || r.StillReferenced? ==> (forall id :: id in ids <==> id in OwnEvents(old(events), account)) && Distinct(ids)
      ensures r.Done? ==>
                && journal == old(journal) + Deletions(ids, Some(account))
                              + [Summary(account, r.events, r.mirrors, r.edges, r.calendars)]
                && r.events == |OwnEvents(old(events), account)|
                && r.mirrors == |Outbound(old(mirrors), old(events), account) + Inbound(old(mirrors), account)|
                && r.edges == |old(edges)| - |edges| && r.calendars == |old(calendars)| - |calendars|
      ensures !r.Done? ==> events == old(events) && edges == old(edges) && calendars == old(calendars)
      ensures r.SendRefused? || r.DuplicateKey? ==> journal == old(journal)
      ensures r.SendRefused? ==> mirrors == old(mirrors)
      ensures r.DuplicateKey? || r.StillReferenced? ==>
                mirrors == old(mirrors) - Outbound(old(mirrors), old(events), account) - Inbound(old(mirrors), account)
      ensures r.StillReferenced? ==>
                journal == old(journal) + Deletions(ids, Some(account)) && UnlinkCollides(events, journal, account)
      ensures stuck == if r.StillReferenced? then old(stuck) + multiset(OwnEvents(old(events), account)) else old(stuck)
    {
      ids := [];
      var accepted;
      accepted, rows, batches := SendOutbound(account);
      if !accepted {
        return SendRefused, rows, batches, ids;
      }
      var mirrorsDeleted := DropMirrors(account);
      r, ids := UnlinkRows(account, mirrorsDeleted, old(mirrors));
    }

    /** An account that is unlinked, comes to own one of its former event ids again
        and is unlinked once more: the second unlink never completes.  Once its
        sends are accepted it drops the mirrors and stops at the duplicate key. */
    method UnlinkAgain(account: AccountId, id: EventId, originEvent: string, source: Source, content: Content, now: int)
      returns (first: Unlinked, second: Unlinked)
      requires Valid() && id in events && events[id].origin == account
      modifies this
      ensures Valid()
      ensures first.Done? ==> second.SendRefused? || second.DuplicateKey?
      ensures first.Done? ==> id in events && events[id].origin == account && UnlinkCollides(events, journal, account)
    {
      var rows, batches, ids;
      first, rows, batches, ids := UnlinkAccount(account);
      second := first;
      if first.Done? {
        ghost var entry := Entry(id, Deleted, Some(account));
        assert entry in journal by {
          assert id in OwnEvents(old(events), account);
          var i :| 0 <= i < |ids| && ids[i] == id;
          assert Deletions(ids, Some(account))[i] == entry;
          assert journal[|old(journal)| + i] == entry;
        }
        var ok, stored, sent := UpsertCanonicalEvent(Some(id), account, originEvent, source, content, now);
        assert entry in journal && id in OwnEvents(events, account);
        second, rows, batches, ids := UnlinkAccount(account);
        assert entry in journal && id in OwnEvents(events, account);
      }
    }

    /** An account unlinked while one of its events is allocated: once its sends are
        accepted the events stay, and it cannot be unlinked after the allocation is
        gone either. */
    method UnlinkAllocated(account: AccountId, id: EventId) returns (first: Unlinked, second: Unlinked)
      requires Valid() && id in events && events[id].origin == account
      modifies this
      ensures Valid() && id !in allocations && !first.Done?
      ensures !first.SendRefused? ==> (second.SendRefused? || second.DuplicateKey?) && events == old(events)
      ensures first.StillReferenced? ==> !InStep(events, journal)
    {
      var created := CreateAllocation(id);
      assert id in OwnEvents(events, account) && id in allocations;
      var rows, batches, ids;
      first, rows, batches, ids := UnlinkAccount(account);
      var existed := DeleteAllocation(id);
      ghost var stuckThen := stuck;
      assert first.StillReferenced? ==> stuckThen[id] > 0;
      second, rows, batches, ids := UnlinkAccount(account);
      InStepIffNoneStuck(events, journal, stuck);
    }

    // ----- Constraints with derived events, and the ICS upgrade -----

    /** The removals one at a time, up to the first that fails; `asked` are the
        events whose mirrors are gone. */
    method RemoveEach(ids: seq<EventId>) returns (ok: bool, done: nat, ghost asked: set<EventId>)
      requires Valid() && Distinct(ids)
      requires forall id :: id in ids ==> id in events
      modifies this`events, this`mirrors, this`journal, this`queue
      ensures Valid() && old(journal) <= journal
      ensures done <= |ids| && (ok <==> done == |ids|)
      ensures events == Minus(old(events), ids[..done]) && forall id :: id in ids[..done] ==> id !in allocations
      ensures AskedToDelete(queue, old(mirrors), mirrors, asked)
      ensures asked == IdSet(ids[..done]) || (done < |ids| && ids[done] in allocations && asked == IdSet(ids[..done]) + {ids[done]})
    {
      done, asked := 0, {};
      while done < |ids|
        invariant 0 <= done <= |ids|
        invariant Valid() && old(journal) <= journal
        invariant events == Minus(old(events), ids[..done]) && forall id :: id in ids[..done] ==> id !in allocations
        invariant asked == IdSet(ids[..done]) && AskedToDelete(queue, old(mirrors), mirrors, asked)
      {
        MinusSnoc(old(events), ids, done);
        ghost var queueWas, mirrorsWere := queue, mirrors;
        var r, sent := RemoveEvent(ids[done]);
        if r.SendFailed? {
          ok := false;
          return;
        }
        AskStep(queueWas, queue, old(mirrors), mirrorsWere, mirrors, asked, ids[done], sent);
        asked := asked + {ids[done]};
        if r.Referenced? {
          ok := false;
          return;
        }
        done := done + 1;
      }
      ok := true;
    }

    /** Deletes the events a constraint derived, one at a time, enqueueing their
        mirror deletes; it stops at a refused send or an allocated event. */
    method RemoveDerived(constraint: ConstraintId) returns (ok: bool, ghost asked: set<EventId>)
      requires Valid()
      modifies this`events, this`mirrors, this`journal, this`queue
      ensures Valid() && old(journal) <= journal
      ensures forall id :: id in events ==> id in old(events) && events[id] == old(events)[id]
      ensures forall id :: id in old(events) && (old(events)[id].constraint != Some(constraint) || id in allocations) ==> id in events
      ensures asked <= DerivedFrom(old(events), constraint) && AskedToDelete(queue, old(mirrors), mirrors, asked)
      ensures ok ==> asked == DerivedFrom(old(events), constraint) && asked !! allocations && DerivedFrom(events, constraint) == {}
    {
      var derived := Enumerate(DerivedFrom(events, constraint));
      var done;
      ok, done, asked := RemoveEach(derived);
      assert forall id :: id in derived[..done] ==> id in derived;
      if ok {
        assert derived[..done] == derived;
        assert IdSet(derived) == DerivedFrom(old(events), constraint);
      }
    }

    /** `createTripDerivedEvents`: one busy event owned by 'internal'. */
    method CreateTripEvent(constraint: ConstraintId, tripOrigin: string, content: Content) returns (ok: bool, id: EventId)
      requires Valid()
      modifies this`events, this`journal
      ensures Valid() && old(journal) <= journal
      ensures ok ==> id !in old(events) && events == old(events)[id := TripRow(constraint, tripOrigin, content)]
      ensures !ok ==> events == old(events) && OriginTaken(events, "internal", tripOrigin)
    {
      id := FreshEventId();
      ok := TryInsert(id, TripRow(constraint, tripOrigin, content));
    }

    /** `updateConstraint` for a trip: delete the derived events, then derive anew. */
    method UpdateTrip(constraint: ConstraintId, tripOrigin: string, content: Content) returns (ok: bool)
      requires Valid()
      modifies this`events, this`mirrors, this`journal, this`queue
      ensures Valid() && old(journal) <= journal
      ensures forall id :: id in old(events) && (old(events)[id].constraint != Some(constraint) || id in allocations) ==>
                             id in events && events[id] == old(events)[id]
      ensures ok ==> exists id :: DerivedFrom(events, constraint) == {id} && events[id] == TripRow(constraint, tripOrigin, content)
      ensures ok ==> AskedToDelete(queue, old(mirrors), mirrors, DerivedFrom(old(events), constraint))
      ensures ok ==> DerivedFrom(old(events), constraint) !! allocations
    {
      ghost var asked;
      ok, asked := RemoveDerived(constraint);
      if ok {
        var id;
        ok, id := CreateTripEvent(constraint, tripOrigin, content);
        assert ok ==> DerivedFrom(events, constraint) == {id};
      }
    }

    method DropEach(ids: seq<EventId>)
      modifies this`mirrors, this`journal
      ensures mirrors == MirrorsWithout(old(mirrors), IdSet(ids))
      ensures journal == old(journal) + Deletions(ids, None)
    {
      var i := 0;
      while i < |ids|
        invariant 0 <= i <= |ids|
        invariant mirrors == MirrorsWithout(old(mirrors), IdSet(ids[..i]))
        invariant journal == old(journal) + Deletions(ids[..i], None)
      {
        DeletionsSnoc(ids[..i], ids[i], None);
        assert ids[..i + 1] == ids[..i] + [ids[i]];
        Assoc(old(journal), Deletions(ids[..i], None), [Entry(ids[i], Deleted, None)]);
        mirrors := mirrors - KeysOf(mirrors, ids[i]);
        journal := journal + [Entry(ids[i], Deleted, None)];
        i := i + 1;
      }
      assert ids[..i] == ids;
    }

    /** Each feed event loses its mirrors and gets its 'deleted' entry; then one
        DELETE takes the events, unless an allocation references one of them. */
    method EraseFeed(feed: AccountId) returns (ok: bool, ids: seq<EventId>)
      requires Valid()
      modifies this`events, this`mirrors, this`journal, this`stuck
      ensures Valid()
      ensures ok <==> OwnEvents(old(events), feed) !! allocations
      ensures (forall id :: id in ids <==> id in OwnEvents(old(events), feed)) && Distinct(ids)
      ensures mirrors == MirrorsWithout(old(mirrors), OwnEvents(old(events), feed))
      ensures journal == old(journal) + Deletions(ids, None)
      ensures events == if ok then old(events) - OwnEvents(old(events), feed) else old(events)
      ensures stuck == if ok then old(stuck) else old(stuck) + multiset(OwnEvents(old(events), feed))
    {
      var own := OwnEvents(events, feed);
      ids := Enumerate(own);
      BulkErased(events, journal, stuck, ids, None);
      BulkStuck(events, journal, stuck, ids, None);
      DistinctMultiset(ids, own);
      MinusAll(events, ids, own);
      DropEach(ids);
      assert IdSet(ids) == own;
      ok := own !! allocations;
      if ok {
        events := events - own;
      } else {
        stuck := stuck + multiset(own);
      }
    }

    method InsertPlan(plan: seq<Row>) returns (ok: bool, ids: seq<EventId>)
      requires Valid() && forall r :: r in plan ==> r.version == 1
      modifies this`events, this`journal
      ensures Valid() && old(journal) <= journal
      ensures PlanStored(old(events), events, plan, ids)
      ensures forall id :: id in ids ==> !Mentions(old(journal), id)
      ensures if ok then |ids| == |plan|
              else |ids| < |plan| && OriginTaken(events, plan[|ids|].origin, plan[|ids|].originEvent)
    {
      ids := [];
      var i := 0;
      while i < |plan|
        invariant 0 <= i <= |plan| && |ids| == i
        invariant Valid() && old(journal) <= journal
        invariant PlanStored(old(events), events, plan, ids)
        invariant forall id :: id in ids ==> !Mentions(old(journal), id)
      {
        var id := FreshEventId();
        ghost var were, journalWas := events, journal;
        assert plan[i] in plan;
        ok := TryInsert(id, plan[i]);
        if !ok {
          return;
        }
        MentionsPrefix(old(journal), journalWas, id);
        PlanStep(old(events), were, plan, ids, id);
        ids := ids + [id];
        i := i + 1;
      }
      ok := true;
    }

    /** `executeUpgradePlan`: the feed account's events are replaced by the plan's
        rows under unused ids; a row whose origin pair is taken stops the plan
        there, the rows before it stored.  If an allocation references a feed event
        the removals are journaled, the events stay and no row is stored. */
    method ExecuteUpgradePlan(feed: AccountId, plan: seq<Row>) returns (r: Upgraded, ids: seq<EventId>, gone: seq<EventId>)
      requires Valid() && forall row :: row in plan ==> row.version == 1
      modifies this`events, this`mirrors, this`journal, this`stuck
      ensures Valid() && old(journal) <= journal
      ensures r.FeedReferenced? <==> !(OwnEvents(old(events), feed) !! allocations)
      ensures mirrors == MirrorsWithout(old(mirrors), OwnEvents(old(events), feed))
      ensures (forall id :: id in gone <==> id in OwnEvents(old(events), feed)) && Distinct(gone)
      ensures old(journal) + Deletions(gone, None) <= journal
      ensures r.FeedReferenced? ==> events == old(events) && journal == old(journal) + Deletions(gone, None) && ids == []
      ensures !r.FeedReferenced? ==> PlanStored(old(events) - OwnEvents(old(events), feed), events, plan, ids)
      ensures forall id :: id in ids ==> id !in old(events) && !Mentions(old(journal), id)
      ensures r.Replaced? ==> |ids| == |plan|
      ensures r.PairTaken? ==> |ids| < |plan| && OriginTaken(events, plan[|ids|].origin, plan[|ids|].originEvent)
      ensures stuck == if r.FeedReferenced? then old(stuck) + multiset(OwnEvents(old(events), feed)) else old(stuck)
    {
      AllMentioned(events, journal, stuck);
      ids := [];
      var ok;
      ok, gone := EraseFeed(feed);
      if !ok {
        return FeedReferenced, ids, gone;
      }
      ghost var erased := journal;
      ok, ids := InsertPlan(plan);
      forall id | id in ids ensures id !in old(events) && !Mentions(old(journal), id) {
        assert !Mentions(erased, id);
        MentionsPrefix(old(journal), erased, id);
      }
      r := if ok then Replaced else PairTaken;
    }

    // ----- Every run -----

    ghost function Account(): Store
      reads this
    {
      Store(events, allocations, journal, stuck)
    }

    /** The requests that insert, update or remove events one at a time. */
    method EditEvents(op: Op)
      requires Valid() && (op.ApplyDeltas? || op.UserUpsert? || op.UserDelete? || op.AddTrip? || op.ChangeTrip? || op.DeleteConstraint?)
      modifies this`events, this`mirrors, this`journal, this`queue
      ensures Valid() && old(journal) <= journal
    {
      match op
      case ApplyDeltas(account, deltas, now) =>
        var c, u, d, m, e, trace, outcomes := ApplyProviderDelta(account, deltas, now);
      case UserUpsert(given, origin, originEvent, source, content, now) =>
        var ok, id, sent := UpsertCanonicalEvent(given, origin, originEvent, source, content, now);
      case UserDelete(id) =>
        var r, sent := DeleteCanonicalEvent(id);
      case AddTrip(constraint, tripOrigin, content) =>
        var ok, id := CreateTripEvent(constraint, tripOrigin, content);
      case ChangeTrip(constraint, tripOrigin, content) =>
        var ok := UpdateTrip(constraint, tripOrigin, content);
      case DeleteConstraint(constraint) =>
        ghost var asked;
        var ok;
        ok, asked := RemoveDerived(constraint);
    }

    /** An unlink or an upgrade. */
    method RemoveInBulk(op: Op) returns (ghost met: set<EventId>)
      requires Valid() && (op.Unlink? || op.Upgrade?) && (op.Upgrade? ==> forall r :: r in op.plan ==> r.version == 1)
      modifies this
      ensures Valid() && old(journal) <= journal && allocations == old(allocations)
      ensures stuck == old(stuck) + multiset(met)
      ensures met != {} ==> MeetsAllocation(op, old(Account())) && met == BulkRemoved(op, old(events))
      ensures MeetsAllocation(op, old(Account())) && met == {} ==> op.Unlink? && events == old(events) && journal == old(journal)
    {
      ghost var own := BulkRemoved(op, events);
      if op.Unlink? {
        var r, rows, batches, ids := UnlinkAccount(op.account);
        met := if r.StillReferenced? then own else {};
      } else {
        var r, ids, gone := ExecuteUpgradePlan(op.feed, op.plan);
        met := if r.FeedReferenced? then own else {};
      }
      assert multiset(met) == if met == {} then multiset{} else multiset(own);
    }

    /** Any other request. */
    method Handle(op: Op)
      requires Valid() && !op.Unlink? && !op.Upgrade?
      modifies this
      ensures Valid() && old(journal) <= journal && stuck == old(stuck)
      ensures allocations == AllocationsAfter(op, old(events), old(allocations))
    {
      if op.Allocate? {
        var ok := CreateAllocation(op.id);
      } else if op.Deallocate? {
        var existed := DeleteAllocation(op.id);
      } else if op.SetEdges? {
        edges := op.edges;
        var ok, sent := RecomputeProjections(Options(true, true), op.now);
      } else if op.StoreCalendars? {
        calendars := calendars + op.calendars;
      } else if op.Recompute? {
        var ok, sent := RecomputeProjections(op.opts, op.now);
      } else {
        EditEvents(op);
      }
    }

    /** One request, whatever its sends and inserts do. */
    method Step(op: Op) returns (ghost met: set<EventId>)
      requires Valid() && (op.Upgrade? ==> forall r :: r in op.plan ==> r.version == 1)
      modifies this
      ensures Valid()
      ensures Stepped(old(Account()), op, Account(), met)
    {
      met := {};
      if op.Unlink? || op.Upgrade? {
        met := RemoveInBulk(op);
      } else {
        Handle(op);
        assert stuck == old(stuck) + multiset(met);
      }
    }

    /** Over every run of requests origins stay unique, no allocation dangles, and
        the journal accounts for every event: one 'deleted' entry too many for
        each removal a request journaled and could not carry out, none otherwise.
        So the journal alone tells which events are live, and at which version,
        exactly when no unlink or upgrade journaled one it could not carry out. */
    method Run(ops: seq<Op>) returns (ghost trace: seq<Store>, ghost met: seq<set<EventId>>)
      requires Valid() && forall op :: op in ops && op.Upgrade? ==> forall r :: r in op.plan ==> r.version == 1
      modifies this
      ensures Valid()
      ensures Ran(ops, trace, met) && |met| == |ops| && trace[0] == old(Account()) && trace[|ops|] == Account()
      ensures forall id: EventId :: stuck[id] == old(stuck)[id] + TimesMet(met, id) && Counted(events, journal, stuck, id)
      ensures old(stuck) == multiset{} ==> (InStep(events, journal) <==> forall i :: 0 <= i < |met| ==> met[i] == {})
    {
      trace, met := [Account()], [];
      var i := 0;
      while i < |ops|
        invariant 0 <= i <= |ops|
        invariant Valid()
        invariant Ran(ops, trace, met) && |met| == i && trace[0] == old(Account()) && trace[i] == Account()
      {
        assert ops[i] in ops;
        ghost var m := Step(ops[i]);
        RanOn(ops, trace, met, Account(), m);
        trace, met := trace + [Account()], met + [m];
        i := i + 1;
      }
      forall id: EventId ensures stuck[id] == old(stuck)[id] + TimesMet(met, id) {
        StuckIsMet(ops, trace, met, id);
      }
      if old(stuck) == multiset{} {
        RunInStepIff(ops, trace, met);
      }
    }
  }
}
