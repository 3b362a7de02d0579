/** Committing a group session: one event and one commitment per participant,
    each through a remote call that may fail before or after taking effect. */
module GroupCommit {
  import opened SchedulingSessions
  import opened CommitFates
  import opened Optional
  import opened Sequences

  datatype Slot = Slot(start: int, end: int)

  /** One participant's graph: the session tables, and the event this group
      session has put there (its origin pair admits one at a time). */
  datatype UserGraph = UserGraph(tables: Tables, groupEvent: Option<EventId>)

  datatype Delivery = Delivery(user: UserId, event: EventId, slot: Slot)

  datatype Outcome = Done(eventIds: map<UserId, EventId>) | Refused | FailedCreating | FailedCommitting | FailedAfterCommit

  ghost predicate CommittedTo(users: map<UserId, UserGraph>, id: SessionId, u: UserId, c: CandidateId) {
    && u in users && id in users[u].tables.sessions
    && users[u].tables.sessions[id].status == Committed
    && users[u].tables.sessions[id].commitment.Some?
    && users[u].tables.sessions[id].commitment.value.candidate == c
  }

  /** The session of the user is committed, to this candidate and event. */
  ghost predicate CommittedAs(users: map<UserId, UserGraph>, id: SessionId, u: UserId, commitment: Commitment) {
    && u in users && id in users[u].tables.sessions
    && users[u].tables.sessions[id].status == Committed
    && users[u].tables.sessions[id].commitment == Some(commitment)
  }

  /** Each participant's session is committed to the candidate and to the event
      created for that participant. */
  ghost predicate AllCommittedAs(users: map<UserId, UserGraph>, id: SessionId, participants: seq<UserId>, c: CandidateId,
                                 eventIds: map<UserId, EventId>) {
    forall u :: u in participants ==> u in eventIds && CommittedAs(users, id, u, Commitment(c, eventIds[u]))
  }

  /** The ids name, for exactly these users, the events delivered to them. */
  ghost predicate EventsOf(eventIds: map<UserId, EventId>, users: seq<UserId>, served: seq<Delivery>) {
    && (forall u :: u in eventIds <==> u in users)
    && forall d :: d in served ==> d.user in eventIds && eventIds[d.user] == d.event
  }

  /** One event each, at one slot, for a prefix of the participants in order:
      all of them after a commit, and what a failed commit leaves behind. */
  ghost predicate PrefixServed(ds: seq<Delivery>, users: seq<UserId>, slot: Slot) {
    |ds| <= |users| && forall i :: 0 <= i < |ds| ==> ds[i].user == users[i] && ds[i].slot == slot
  }

  /** The participants no event can be created for: the group event is there already. */
  function Blocked(users: map<UserId, UserGraph>, participants: seq<UserId>): set<UserId> {
    set u | u in participants && (u !in users || users[u].groupEvent.Some?)
  }

  function UsersOf(ds: seq<Delivery>): (r: seq<UserId>)
    ensures |r| == |ds| && forall i :: 0 <= i < |ds| ==> r[i] == ds[i].user
  {
    seq(|ds|, i requires 0 <= i < |ds| => ds[i].user)
  }

  /** The deliveries are what some fate of the calls leaves behind, and whoever
      got one holds the group event now. */
  ghost predicate LeftBy(fates: seq<Fate>, first: map<UserId, UserGraph>, users: map<UserId, UserGraph>,
                         participants: seq<UserId>, served: seq<Delivery>) {
    && |fates| == |participants|
    && UsersOf(served) == Served(Blocked(first, participants), participants, fates)
    && forall d :: d in served ==> d.user in users && users[d.user].groupEvent.Some?
  }

  ghost predicate SameEvents(before: map<UserId, UserGraph>, after: map<UserId, UserGraph>) {
    after.Keys == before.Keys && forall u :: u in after ==> after[u].groupEvent == before[u].groupEvent
  }

  /** Calls that store no event change neither what was left behind nor by what. */
  lemma {:induction false} LeftByAfter(fates: seq<Fate>, before: map<UserId, UserGraph>, first: map<UserId, UserGraph>,
      users: map<UserId, UserGraph>, after: map<UserId, UserGraph>, participants: seq<UserId>, served: seq<Delivery>)
    requires LeftBy(fates, first, users, participants, served) && SameEvents(before, first) && SameEvents(users, after)
    ensures LeftBy(fates, before, after, participants, served)
  {
    assert Blocked(before, participants) == Blocked(first, participants);
  }

  /** Whoever was served is blocked from now on; and all are served only if none
      was blocked at the start. */
  lemma {:induction false} LeftBlocked(fates: seq<Fate>, first: map<UserId, UserGraph>, users: map<UserId, UserGraph>,
                                       participants: seq<UserId>, served: seq<Delivery>)
    requires LeftBy(fates, first, users, participants, served)
    ensures served != [] ==> Blocked(users, participants) != {}
    ensures |served| == |participants| ==> Blocked(first, participants) == {}
  {
    var s := UsersOf(served);
    ServedIsReachable(Blocked(first, participants), participants, fates);
    if served != [] {
      assert served[0] in served && s[0] in s && s[0] == participants[0];
      assert s[0] in Blocked(users, participants);
    }
    if |served| == |participants| {
      assert s == participants;
    }
  }

  /** The participants served so far are distinct and were not blocked. */
  ghost predicate NewlyServed(first: map<UserId, UserGraph>, participants: seq<UserId>, served: seq<Delivery>) {
    |served| <= |participants| && Reachable(Blocked(first, participants), participants, UsersOf(served))
  }

  lemma {:induction false} ServeOne(first: map<UserId, UserGraph>, were: map<UserId, UserGraph>, participants: seq<UserId>,
                                    served: seq<Delivery>, d: Delivery)
    requires NewlyServed(first, participants, served) && |served| < |participants| && d.user == participants[|served|]
    requires were.Keys == first.Keys && forall x :: x in were && first[x].groupEvent.Some? ==> were[x].groupEvent.Some?
    requires forall e :: e in served ==> e.user in were && were[e.user].groupEvent.Some?
    requires d.user in were && were[d.user].groupEvent.None?
    ensures NewlyServed(first, participants, served + [d])
  {
    var before, after := UsersOf(served), UsersOf(served + [d]);
    assert after == before + [d.user];
    forall i | 0 <= i < |before| ensures before[i] != d.user {
      assert served[i] in served;
    }
    assert participants[..|served| + 1] == participants[..|served|] + [participants[|served|]];
  }

  lemma {:induction false} LeftBySome(first: map<UserId, UserGraph>, users: map<UserId, UserGraph>, participants: seq<UserId>,
                                      served: seq<Delivery>) returns (fates: seq<Fate>)
    requires NewlyServed(first, participants, served)
    requires forall d :: d in served ==> d.user in users && users[d.user].groupEvent.Some?
    ensures LeftBy(fates, first, users, participants, served)
  {
    fates := LostAfterAll(|served|, |participants|);
    ReachableIsServed(Blocked(first, participants), participants, UsersOf(served));
  }

  /** The first i participants, all distinct, have been served. */
  ghost predicate Creating(users: map<UserId, UserGraph>, participants: seq<UserId>, i: nat, slot: Slot,
                           eventIds: map<UserId, EventId>, served: seq<Delivery>)
    requires i <= |participants|
  {
    && |served| == i && PrefixServed(served, participants, slot)
    && (forall d :: d in served ==> d.user in users && users[d.user].groupEvent.Some?)
    && Distinct(participants[..i]) && EventsOf(eventIds, participants[..i], served)
  }

  lemma {:induction false} CreatingStep(were: map<UserId, UserGraph>, users: map<UserId, UserGraph>, participants: seq<UserId>, i: nat,
      slot: Slot, eventIds: map<UserId, EventId>, served: seq<Delivery>, d: Delivery)
    requires i < |participants| && Creating(were, participants, i, slot, eventIds, served)
    requires d.user == participants[i] && d.slot == slot && users.Keys == were.Keys
    requires forall x :: x in users && were[x].groupEvent.Some? ==> users[x].groupEvent.Some?
    requires d.user in users && were[d.user].groupEvent.None? && users[d.user].groupEvent.Some?
    ensures Creating(users, participants, i + 1, slot, eventIds[d.user := d.event], served + [d])
  {
    assert participants[..i + 1] == participants[..i] + [participants[i]];
    forall j | 0 <= j < i ensures participants[j] != d.user {
      assert served[j] in served;
    }
  }

  /** Requests that only store events or leave the session alone. */
  ghost predicate OnlyEventsAdded(before: map<UserId, UserGraph>, after: map<UserId, UserGraph>, id: SessionId) {
    && after.Keys == before.Keys
    && (forall u :: u in after ==> Calm(before[u].tables, after[u].tables, id))
    && (forall u :: u in after && before[u].groupEvent.Some? ==> after[u].groupEvent.Some?)
  }

  lemma {:induction false} OnlyEventsAddedMore(first: map<UserId, UserGraph>, were: map<UserId, UserGraph>,
                                               users: map<UserId, UserGraph>, id: SessionId)
    requires OnlyEventsAdded(first, were, id) && OnlyEventsAdded(were, users, id)
    ensures OnlyEventsAdded(first, users, id)
  {
  }

  /** The state of the creation loop after i participants. */
  ghost predicate CreatedSo(first: map<UserId, UserGraph>, users: map<UserId, UserGraph>, participants: seq<UserId>, i: nat,
                            id: SessionId, slot: Slot, eventIds: map<UserId, EventId>, served: seq<Delivery>)
    requires i <= |participants|
  {
    && OnlyEventsAdded(first, users, id)
    && Creating(users, participants, i, slot, eventIds, served) && NewlyServed(first, participants, served)
  }

  lemma {:induction false} CreatedNext(first: map<UserId, UserGraph>, were: map<UserId, UserGraph>, users: map<UserId, UserGraph>,
      participants: seq<UserId>, i: nat, id: SessionId, slot: Slot, eventIds: map<UserId, EventId>, served: seq<Delivery>, d: Delivery)
    requires i < |participants| && CreatedSo(first, were, participants, i, id, slot, eventIds, served)
    requires OnlyEventsAdded(were, users, id) && d.user == participants[i] && d.slot == slot
    requires d.user in users && were[d.user].groupEvent.None? && users[d.user].groupEvent.Some?
    ensures CreatedSo(first, users, participants, i + 1, id, slot, eventIds[d.user := d.event], served + [d])
  {
    OnlyEventsAddedMore(first, were, users, id);
    ServeOne(first, were, participants, served, d);
    CreatingStep(were, users, participants, i, slot, eventIds, served, d);
  }

  /** The loop stops after i participants, the next one possibly served unnoticed. */
  lemma {:induction false} CreatedPartly(first: map<UserId, UserGraph>, were: map<UserId, UserGraph>, users: map<UserId, UserGraph>,
      participants: seq<UserId>, i: nat, id: SessionId, slot: Slot, eventIds: map<UserId, EventId>, served: seq<Delivery>, sent: seq<Delivery>)
    returns (fates: seq<Fate>)
    requires i < |participants| && CreatedSo(first, were, participants, i, id, slot, eventIds, served)
    requires OnlyEventsAdded(were, users, id) && |sent| <= 1
    requires sent != [] ==>
               && sent[0].user == participants[i] && sent[0].slot == slot
               && sent[0].user in users && were[sent[0].user].groupEvent.None? && users[sent[0].user].groupEvent.Some?
    ensures OnlyEventsAdded(first, users, id) && PrefixServed(served + sent, participants, slot)
    ensures LeftBy(fates, first, users, participants, served + sent)
  {
    OnlyEventsAddedMore(first, were, users, id);
    if sent == [] {
      assert served + sent == served;
    } else {
      ServeOne(first, were, participants, served, sent[0]);
      assert served + sent == served + [sent[0]];
    }
    fates := LeftBySome(first, users, participants, served + sent);
  }

  ghost predicate AllCommittedTo(users: map<UserId, UserGraph>, id: SessionId, participants: seq<UserId>, c: CandidateId) {
    forall u :: u in participants ==> CommittedTo(users, id, u, c)
  }

  lemma {:induction false} AsIsTo(users: map<UserId, UserGraph>, id: SessionId, participants: seq<UserId>, c: CandidateId,
                                  eventIds: map<UserId, EventId>)
    requires AllCommittedAs(users, id, participants, c, eventIds)
    ensures AllCommittedTo(users, id, participants, c)
  {
    forall u | u in participants ensures CommittedTo(users, id, u, c) {
      assert CommittedAs(users, id, u, Commitment(c, eventIds[u]));
    }
  }

  lemma {:induction false} EventCommitmentsKept(before: map<UserId, UserGraph>, after: map<UserId, UserGraph>,
      id: SessionId, participants: seq<UserId>, c: CandidateId, eventIds: map<UserId, EventId>)
    requires after.Keys == before.Keys && forall u :: u in after ==> Calm(before[u].tables, after[u].tables, id)
    requires AllCommittedAs(before, id, participants, c, eventIds)
    ensures AllCommittedAs(after, id, participants, c, eventIds)
  {
    forall u | u in participants ensures u in eventIds && CommittedAs(after, id, u, Commitment(c, eventIds[u])) {
      assert CommittedAs(before, id, u, Commitment(c, eventIds[u]));
    }
  }

  lemma {:induction false} CommitmentsKept(before: map<UserId, UserGraph>, after: map<UserId, UserGraph>,
                                           id: SessionId, participants: seq<UserId>)
    requires after.Keys == before.Keys && forall u :: u in after ==> Calm(before[u].tables, after[u].tables, id)
    ensures forall c :: AllCommittedTo(before, id, participants, c) ==> AllCommittedTo(after, id, participants, c)
  {
    forall c | AllCommittedTo(before, id, participants, c) ensures AllCommittedTo(after, id, participants, c) {
      forall u | u in participants ensures CommittedTo(after, id, u, c) {
        assert CommittedTo(before, id, u, c);
      }
    }
  }

  class GroupSchedule {
    const id: SessionId
    const creator: UserId
    const participants: seq<UserId>
    const slots: map<CandidateId, Slot>

    /** The participants' graphs, the registry row, and every event delivered. */
    var users: map<UserId, UserGraph>
    var registry: Status
    var deliveries: seq<Delivery>

    constructor (id: SessionId, creator: UserId, participants: seq<UserId>, slots: map<CandidateId, Slot>,
                 users: map<UserId, UserGraph>, registry: Status)
      requires creator in participants && registry != Committed
      ensures Valid()
    {
      this.id, this.creator, this.participants, this.slots := id, creator, participants, slots;
      this.users, this.registry, this.deliveries := users, registry, [];
    }

    ghost predicate SomeCandidate(users: map<UserId, UserGraph>) {
      exists c :: AllCommittedTo(users, id, participants, c)
    }

    /** The registry says 'committed' only if every participant's session is
        committed to one and the same candidate. */
    ghost predicate Valid()
      reads this
    {
      creator in participants && (registry == Committed ==> SomeCandidate(users))
    }

    // ----- What others may do meanwhile -----

    /** Any number of session and hold requests of any users, commits of this
        session excepted: cancels, expiries, hold updates, other sessions. */
    method Interleave()
      modifies this`users
      ensures users.Keys == old(users).Keys
      ensures forall u :: u in users ==> Calm(old(users)[u].tables, users[u].tables, id)
                                         && users[u].groupEvent == old(users)[u].groupEvent
    {
      var n: nat := *;
      while n > 0
        invariant users.Keys == old(users).Keys
        invariant forall u :: u in users ==> Calm(old(users)[u].tables, users[u].tables, id)
                                             && users[u].groupEvent == old(users)[u].groupEvent
      {
        var u: UserId := *;
        var op: Op := *;
        if u in users && !(op.CommitOp? && op.id == id) {
          CalmStep(users[u].tables, op, id);
          users := users[u := users[u].(tables := Apply(users[u].tables, op))];
        }
        n := n - 1;
      }
    }

    /** Between commit calls, users act and may delete the event they received. */
    method Meanwhile(deleters: set<UserId>)
      requires Valid()
      modifies this`users
      ensures Valid()
    {
      ghost var before := users;
      Interleave();
      users := map u | u in users :: if u in deleters then users[u].(groupEvent := None) else users[u];
      if registry == Committed {
        CommitmentsKept(before, users, id, participants);
        ghost var c :| AllCommittedTo(before, id, participants, c);
        assert AllCommittedTo(users, id, participants, c);
      }
    }

    // ----- Remote calls -----

    /** `upsertCanonicalEvent` of a fresh event: refused when the group event is
        already there; otherwise it may fail with or without having been stored. */
    method UpsertEvent(u: UserId, e: EventId, slot: Slot) returns (ok: bool)
      modifies this`users, this`deliveries
      ensures users.Keys == old(users).Keys
      ensures forall x :: x in users ==> users[x].tables == old(users)[x].tables
      ensures forall x :: x in users && old(users)[x].groupEvent.Some? ==> users[x].groupEvent == old(users)[x].groupEvent
      ensures ok ==> u in users && old(users)[u].groupEvent.None? && users[u].groupEvent.Some?
      ensures ok ==> deliveries == old(deliveries) + [Delivery(u, e, slot)]
      ensures !ok ==> deliveries == old(deliveries) || deliveries == old(deliveries) + [Delivery(u, e, slot)]
      ensures deliveries != old(deliveries) ==> u in users && old(users)[u].groupEvent.None? && users[u].groupEvent.Some?
    {
      var applied: bool := *;
      ok := false;
      if applied && u in users && users[u].groupEvent.None? {
        users := users[u := users[u].(groupEvent := Some(e))];
        deliveries := deliveries + [Delivery(u, e, slot)];
        ok := *;
      }
    }

    method CommitSession(u: UserId, c: CandidateId, e: EventId) returns (ok: bool)
      modifies this`users
      ensures users.Keys == old(users).Keys
      ensures ok ==> CommittedAs(users, id, u, Commitment(c, e))
      ensures forall x :: x in users && x != u ==> users[x] == old(users)[x]
      ensures u in users ==> users[u] == old(users)[u]
                             || users[u] == old(users)[u].(tables := Commit(old(users)[u].tables, id, Commitment(c, e)))
    {
      var applied: bool := *;
      ok := false;
      if applied && u in users && id in users[u].tables.sessions {
        users := users[u := users[u].(tables := Commit(users[u].tables, id, Commitment(c, e)))];
        ok := *;
      }
    }

    /** Best effort: whether the cancel took effect is not known to the caller. */
    method CancelSession(u: UserId)
      modifies this`users
      ensures users.Keys == old(users).Keys
      ensures forall x :: x in users ==> users[x] == old(users)[x] || users[x] == old(users)[x].(tables := Cancel(old(users)[x].tables, id))
    {
      var applied: bool := *;
      if applied && u in users {
        users := users[u := users[u].(tables := Cancel(users[u].tables, id))];
      }
    }

    method UpdateRegistry(status: Status) returns (ok: bool)
      modifies this`registry
      ensures registry == status || (!ok && registry == old(registry))
    {
      var applied: bool := *;
      ok := false;
      if applied {
        registry := status;
        ok := *;
      }
    }

    /** The creator's session, lazily expired by being read. */
    method FetchSession(now: int) returns (r: Option<Session>)
      modifies this`users
      ensures users.Keys == old(users).Keys
      ensures forall u :: u in users ==> Calm(old(users)[u].tables, users[u].tables, id)
                                         && users[u].groupEvent == old(users)[u].groupEvent
      ensures r.Some? ==> creator in users && id in users[creator].tables.sessions && r.value == users[creator].tables.sessions[id]
    {
      var applied: bool := *;
      r := None;
      if applied && creator in users && id in users[creator].tables.sessions {
        CalmStep(users[creator].tables, GetSessionOp(id, now), id);
        users := users[creator := users[creator].(tables := LazyExpire(users[creator].tables, id, now))];
        var delivered: bool := *;
        if delivered {
          r := Some(users[creator].tables.sessions[id]);
        }
      }
    }

    // ----- The commit -----

    /** The event of one participant, with anything else going on before it. */
    method CreateFor(u: UserId, e: EventId, slot: Slot) returns (ok: bool, sent: seq<Delivery>)
      modifies this`users, this`deliveries
      ensures OnlyEventsAdded(old(users), users, id)
      ensures deliveries == old(deliveries) + sent && (sent == [] || sent == [Delivery(u, e, slot)])
      ensures ok ==> sent != []
      ensures sent != [] ==> u in users && old(users)[u].groupEvent.None? && users[u].groupEvent.Some?
    {
      Interleave();
      var were := |deliveries|;
      ok := UpsertEvent(u, e, slot);
      sent := if |deliveries| > were then [Delivery(u, e, slot)] else [];
    }

    /** Creating the events, one participant at a time; `served` is what was
        delivered, the last one possibly without its caller learning of it. */
    method CreateEvents(slot: Slot, ids: seq<EventId>)
      returns (ok: bool, created: seq<UserId>, eventIds: map<UserId, EventId>, served: seq<Delivery>, ghost fates: seq<Fate>)
      requires |ids| == |participants|
      modifies this`users, this`deliveries
      ensures users.Keys == old(users).Keys
      ensures LeftBy(fates, old(users), users, participants, served)
      ensures forall u :: u in users ==> Calm(old(users)[u].tables, users[u].tables, id)
      ensures deliveries == old(deliveries) + served
      ensures PrefixServed(served, participants, slot)
      ensures ok ==> created == participants && |served| == |participants| && Distinct(participants)
      ensures ok ==> EventsOf(eventIds, participants, served)
    {
      created, eventIds, served := [], map[], [];
      fates := LostAfterAll(0, |participants|);
      ghost var first := users;
      var i := 0;
      while i < |participants|
        invariant 0 <= i <= |participants| && created == participants[..i]
        invariant deliveries == old(deliveries) + served
        invariant CreatedSo(first, users, participants, i, id, slot, eventIds, served)
      {
        ghost var were := users;
        var sent;
        ok, sent := CreateFor(participants[i], ids[i], slot);
        Assoc(old(deliveries), served, sent);
        if !ok {
          fates := CreatedPartly(first, were, users, participants, i, id, slot, eventIds, served, sent);
          served := served + sent;
          return;
        }
        CreatedNext(first, were, users, participants, i, id, slot, eventIds, served, sent[0]);
        served := served + sent;
        assert participants[..i + 1] == participants[..i] + [participants[i]];
        eventIds := eventIds[participants[i] := ids[i]];
        created := created + [participants[i]];
        i := i + 1;
      }
      assert participants[..i] == participants;
      fates := LeftBySome(first, users, participants, served);
      ok := true;
    }

    method CommitSessions(c: CandidateId, eventIds: map<UserId, EventId>) returns (ok: bool)
      requires forall u :: u in participants ==> u in eventIds
      modifies this`users
      ensures SameEvents(old(users), users)
      ensures ok ==> AllCommittedAs(users, id, participants, c, eventIds) && AllCommittedTo(users, id, participants, c)
    {
      var i := 0;
      while i < |participants|
        invariant 0 <= i <= |participants|
        invariant SameEvents(old(users), users)
        invariant forall j :: 0 <= j < i ==> CommittedAs(users, id, participants[j], Commitment(c, eventIds[participants[j]]))
      {
        Interleave();
        ok := CommitSession(participants[i], c, eventIds[participants[i]]);
        if !ok {
          return;
        }
        i := i + 1;
      }
      Interleave();
      AsIsTo(users, id, participants, c, eventIds);
      ok := true;
    }

    /** One cancel of the rollback, with anything else going on before it. */
    method CancelNext(u: UserId)
      modifies this`users
      ensures SameEvents(old(users), users)
      ensures forall x :: x in users ==> Calm(old(users)[x].tables, users[x].tables, id)
    {
      Interleave();
      ghost var were := users;
      CancelSession(u);
      forall x | x in users ensures Calm(were[x].tables, users[x].tables, id) {
        CalmStep(were[x].tables, CancelOp(id), id);
      }
    }

    /** The rollback: best-effort cancels, then the registry. */
    method RollBack(created: seq<UserId>)
      requires registry != Committed || SomeCandidate(users)
      modifies this`users, this`registry
      ensures SameEvents(old(users), users)
      ensures forall u :: u in users ==> Calm(old(users)[u].tables, users[u].tables, id)
      ensures registry == Committed ==> old(registry) == Committed && SomeCandidate(users)
    {
      ghost var before := users;
      for i := 0 to |created|
        invariant SameEvents(before, users) && registry == old(registry)
        invariant forall u :: u in users ==> Calm(before[u].tables, users[u].tables, id)
      {
        CancelNext(created[i]);
      }
      if registry == Committed {
        CommitmentsKept(before, users, id, participants);
        ghost var c :| AllCommittedTo(before, id, participants, c);
        assert AllCommittedTo(users, id, participants, c);
      }
      var ok := UpdateRegistry(Cancelled);
    }

    /** Reading the session breaks no commitment. */
    method ReadSession(now: int) returns (r: Option<Session>)
      requires Valid()
      modifies this`users
      ensures Valid() && SameEvents(old(users), users)
      ensures forall u :: u in users ==> Calm(old(users)[u].tables, users[u].tables, id)
      ensures old(registry) == Committed && r.Some? ==> r.value.status == Committed
    {
      ghost var first := users;
      r := FetchSession(now);
      if registry == Committed {
        CommitmentsKept(first, users, id, participants);
        ghost var d :| AllCommittedTo(first, id, participants, d);
        assert AllCommittedTo(users, id, participants, d) && creator in participants;
        assert CommittedTo(users, id, creator, d);
      }
    }

    method ReadCommitted(c: CandidateId, ghost eventIds: map<UserId, EventId>, now: int) returns (r: Option<Session>)
      requires AllCommittedAs(users, id, participants, c, eventIds)
      modifies this`users
      ensures SameEvents(old(users), users)
      ensures AllCommittedAs(users, id, participants, c, eventIds) && AllCommittedTo(users, id, participants, c)
    {
      ghost var first := users;
      r := FetchSession(now);
      EventCommitmentsKept(first, users, id, participants, c, eventIds);
      AsIsTo(users, id, participants, c, eventIds);
    }

    /** What follows the creation of the events: the commitments and the registry,
        or the rollback. */
    method FinishCommit(c: CandidateId, allCreated: bool, created: seq<UserId>, eventIds: map<UserId, EventId>, now: int)
      returns (r: Outcome, session: Option<Session>)
      requires registry != Committed && creator in participants
      requires allCreated ==> forall u :: u in participants ==> u in eventIds
      modifies this`users, this`registry
      ensures Valid() && SameEvents(old(users), users) && r != Refused
      ensures r == FailedCreating <==> !allCreated
      ensures r == FailedCreating ==> registry != Committed && forall u :: u in users ==> Calm(old(users)[u].tables, users[u].tables, id)
      ensures r.Done? || r.FailedAfterCommit? ==>
                && registry == Committed && AllCommittedTo(users, id, participants, c)
                && AllCommittedAs(users, id, participants, c, eventIds)
      ensures r.Done? ==> r.eventIds == eventIds
    {
      session := None;
      if !allCreated {
        RollBack(created);
        return FailedCreating, session;
      }
      var ok := CommitSessions(c, eventIds);
      if ok {
        ok := UpdateRegistry(Committed);
      }
      if !ok {
        RollBack(created);
        return FailedCommitting, session;
      }
      session := ReadCommitted(c, eventIds, now);
      r := if session.Some? then Done(eventIds) else FailedAfterCommit;
    }

    /** `commitGroupSession`; `fetched` is the creator's session as first read, and
        `fates` what became of the calls that create the events. */
    method CommitGroupSession(c: CandidateId, requester: UserId, ids: seq<EventId>, now: int)
      returns (r: Outcome, served: seq<Delivery>, ghost fetched: Option<Session>, ghost fates: seq<Fate>)
      requires Valid() && |ids| == |participants|
      modifies this`users, this`registry, this`deliveries
      ensures Valid()
      ensures deliveries == old(deliveries) + served
      ensures old(registry) == Committed ==> r == Refused && registry == Committed
      ensures r == Refused <==> requester !in participants || fetched.None? || fetched.value.status in {Committed, Cancelled, Expired}
                                || c !in fetched.value.candidates || c !in slots
      ensures r == Refused ==> registry == old(registry) && served == []
      ensures r != Refused ==> c in slots && PrefixServed(served, participants, slots[c])
      ensures r != Refused ==> LeftBy(fates, old(users), users, participants, served)
      ensures (r.Done? || r.FailedAfterCommit?) ==>
                && registry == Committed && AllCommittedTo(users, id, participants, c)
                && |served| == |participants| && Distinct(participants)
      ensures r.Done? ==> EventsOf(r.eventIds, participants, served) && AllCommittedAs(users, id, participants, c, r.eventIds)
      ensures r == FailedCommitting ==> |served| == |participants| && Distinct(participants)
      ensures r != Refused && r != FailedCreating ==> Blocked(old(users), participants) == {}
      ensures (r == Refused || r == FailedCreating) ==>
                users.Keys == old(users).Keys && forall u :: u in users ==> Calm(old(users)[u].tables, users[u].tables, id)
      ensures r == Refused ==> SameEvents(old(users), users)
      ensures r == FailedCreating ==> registry != Committed
      ensures served != [] ==> Blocked(users, participants) != {}
    {
      served, fates := [], LostAfterAll(0, |participants|);
      var session := ReadSession(now);
      fetched := session;
      if requester !in participants || session.None? || session.value.status in {Committed, Cancelled, Expired}
         || c !in session.value.candidates || c !in slots {
        r := Refused;
        return;
      }
      ghost var first := users;
      var ok, created, eventIds;
      ok, created, eventIds, served, fates := CreateEvents(slots[c], ids);
      ghost var atCreation := users;
      r, session := FinishCommit(c, ok, created, eventIds, now);
      LeftByAfter(fates, old(users), first, atCreation, users, participants, served);
      LeftBlocked(fates, old(users), users, participants, served);
    }

    /** An event a commit left behind blocks the next one: unless its holder deletes
        it in between, no later commit succeeds. */
    method CommitAgain(c: CandidateId, requester: UserId, ids: seq<EventId>, now: int, d: CandidateId, more: seq<EventId>, later: int)
      returns (first: Outcome, orphans: seq<Delivery>, second: Outcome)
      requires Valid() && |ids| == |participants| && |more| == |participants|
      modifies this`users, this`registry, this`deliveries
      ensures Valid()
      ensures orphans != [] ==> second == Refused || second == FailedCreating
    {
      var served;
      ghost var fetched, fates;
      first, orphans, fetched, fates := CommitGroupSession(c, requester, ids, now);
      second, served, fetched, fates := CommitGroupSession(d, requester, more, later);
    }
  }
}
