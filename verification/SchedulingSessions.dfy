/** Scheduling sessions and tentative holds of one user's graph. */
module SchedulingSessions {
  import opened Optional

  type SessionId = string

  type HoldId = string

  type CandidateId = string

  type EventId = nat

  datatype Status = Open | CandidatesReady | Committed | Cancelled | Expired | Gathering

  datatype HoldStatus = Held | HoldCommitted | Released | HoldExpired

  datatype Commitment = Commitment(candidate: CandidateId, event: EventId)

  datatype Session = Session(status: Status, candidates: set<CandidateId>, commitment: Option<Commitment>, createdAt: int)

  datatype Hold = Hold(session: SessionId, account: string, provider: Option<string>, expiresAt: int, status: HoldStatus)

  type Sessions = map<SessionId, Session>

  type Holds = map<HoldId, Hold>

  datatype Tables = Tables(sessions: Sessions, holds: Holds)

  datatype NewHold = NewHold(id: HoldId, hold: Hold)

  datatype Extension = Extension(id: HoldId, expiresAt: int)

  const HOUR_MS := 3600000

  const MAX_AGE_HOURS := 24

  // ----- The effect of each statement on the tables -----

  /** UPDATE schedule_holds SET status = 'released' for the held holds of these sessions. */
  function ReleaseHeld(holds: Holds, sessions: set<SessionId>): Holds {
    map h | h in holds ::
      if holds[h].session in sessions && holds[h].status == Held then holds[h].(status := Released) else holds[h]
  }

  function HoldsOf(holds: Holds, session: SessionId): set<HoldId> {
    set h | h in holds && holds[h].session == session
  }

  function HeldAmong(holds: Holds, ids: set<HoldId>): set<HoldId> {
    set h | h in ids && h in holds && holds[h].status == Held
  }

  /** Those of the holds that are held become released. */
  function AfterRelease(holds: Holds, ids: set<HoldId>): Holds {
    map h | h in holds :: if h in ids && holds[h].status == Held then holds[h].(status := Released) else holds[h]
  }

  lemma {:induction false} ReleasedMore(holds: Holds, ids: set<HoldId>, h: HoldId)
    requires h in holds && h !in ids
    ensures AfterRelease(holds, ids)[h] == holds[h]
    ensures if holds[h].status == Held then
              AfterRelease(holds, ids + {h}) == AfterRelease(holds, ids)[h := holds[h].(status := Released)]
              && HeldAmong(holds, ids + {h}) == HeldAmong(holds, ids) + {h}
            else AfterRelease(holds, ids + {h}) == AfterRelease(holds, ids) && HeldAmong(holds, ids + {h}) == HeldAmong(holds, ids)
  {
  }

  lemma {:induction false} ReleasedAll(holds: Holds, session: SessionId)
    ensures AfterRelease(holds, HoldsOf(holds, session)) == ReleaseHeld(holds, {session})
  {
  }

  function Expire(t: Tables, stale: set<SessionId>): Tables {
    Tables(map s | s in t.sessions :: if s in stale then t.sessions[s].(status := Expired) else t.sessions[s],
           ReleaseHeld(t.holds, stale))
  }

  predicate Expirable(s: Session) {
    s.status == Open || s.status == CandidatesReady
  }

  /** The lazy expiry of `getSchedulingSession`. */
  function LazyExpire(t: Tables, id: SessionId, now: int): Tables {
    if id in t.sessions && Expirable(t.sessions[id]) && now - t.sessions[id].createdAt > MAX_AGE_HOURS * HOUR_MS
    then Expire(t, {id}) else t
  }

  function Stale(t: Tables, maxAgeHours: int, now: int): set<SessionId> {
    set s | s in t.sessions && Expirable(t.sessions[s]) && t.sessions[s].createdAt + maxAgeHours * HOUR_MS < now
  }

  function Cancel(t: Tables, id: SessionId): Tables {
    if id !in t.sessions || t.sessions[id].status in {Committed, Cancelled, Expired} then t
    else Tables(t.sessions[id := t.sessions[id].(status := Cancelled)], ReleaseHeld(t.holds, {id}))
  }

  /** A cancel takes effect in one more status than documented, 'gathering'. */
  lemma {:induction false} CancelChangesIff(t: Tables, id: SessionId)
    requires id in t.sessions
    ensures Cancel(t, id).sessions[id] != t.sessions[id] <==> Expirable(t.sessions[id]) || t.sessions[id].status == Gathering
    ensures (Cancel(t, id) != t <==> Expirable(t.sessions[id])) <==> t.sessions[id].status != Gathering
    ensures Cancel(t, id) != t ==> Cancel(t, id).sessions[id].status == Cancelled && Cancel(t, id).holds == ReleaseHeld(t.holds, {id})
  {
    if !(t.sessions[id].status in {Committed, Cancelled, Expired}) {
      assert Cancel(t, id).sessions[id].status == Cancelled;
    }
  }

  /** A session that is still gathering availability is cancelled, held holds and all. */
  lemma {:induction false} GatheringIsCancelled(t: Tables, id: SessionId, h: HoldId)
    requires id in t.sessions && t.sessions[id].status == Gathering
    requires h in t.holds && t.holds[h].session == id && t.holds[h].status == Held
    ensures Cancel(t, id).sessions[id].status == Cancelled && Cancel(t, id).holds[h].status == Released
  {
    CancelChangesIff(t, id);
  }

  /** `commitSchedulingSession`: the current status is not looked at. */
  function Commit(t: Tables, id: SessionId, c: Commitment): Tables {
    if id !in t.sessions then t
    else t.(sessions := t.sessions[id := t.sessions[id].(status := Committed, commitment := Some(c))])
  }

  function StoreSession(t: Tables, id: SessionId, s: Session): Tables {
    if id in t.sessions then t else t.(sessions := t.sessions[id := s])
  }

  /** Inserts stop at the first primary-key or foreign-key violation. */
  function StoreHolds(t: Tables, hs: seq<NewHold>): Tables
    decreases |hs|
  {
    if hs == [] || hs[0].id in t.holds || hs[0].hold.session !in t.sessions then t
    else StoreHolds(t.(holds := t.holds[hs[0].id := hs[0].hold]), hs[1..])
  }

  /** No insert of the list violates a key. */
  predicate Storable(t: Tables, hs: seq<NewHold>)
    decreases |hs|
  {
    hs == [] || (hs[0].id !in t.holds && hs[0].hold.session in t.sessions
                 && Storable(t.(holds := t.holds[hs[0].id := hs[0].hold]), hs[1..]))
  }

  function UpdateHold(t: Tables, id: HoldId, status: HoldStatus, provider: Option<string>): Tables {
    if id !in t.holds || t.holds[id].status != Held || status == Held then t
    else
      var h := t.holds[id].(status := status);
      t.(holds := t.holds[id := if provider.Some? then h.(provider := provider) else h])
  }

  function Extend(t: Tables, session: SessionId, es: seq<Extension>): Tables
    decreases |es|
  {
    if es == [] then t
    else
      var e := es[0];
      var next := if e.id in t.holds && t.holds[e.id].session == session && t.holds[e.id].status == Held
                  then t.(holds := t.holds[e.id := t.holds[e.id].(expiresAt := e.expiresAt)]) else t;
      Extend(next, session, es[1..])
  }

  /** How many of the requested extensions name a held hold of the session. */
  function Extendable(holds: Holds, session: SessionId, es: seq<Extension>): nat {
    if es == [] then 0
    else (if es[0].id in holds && holds[es[0].id].session == session && holds[es[0].id].status == Held then 1 else 0)
         + Extendable(holds, session, es[1..])
  }

  predicate AnyHeld(holds: Holds, session: SessionId) {
    exists h :: h in holds && holds[h].session == session && holds[h].status == Held
  }

  function ExpireIfAllTerminal(t: Tables, id: SessionId): Tables {
    if AnyHeld(t.holds, id) || id !in t.sessions || t.sessions[id].status != CandidatesReady then t
    else t.(sessions := t.sessions[id := t.sessions[id].(status := Expired)])
  }

  datatype Op =
    | StoreSessionOp(id: SessionId, session: Session)
    | GetSessionOp(id: SessionId, now: int)
    | CommitOp(id: SessionId, commitment: Commitment)
    | CancelOp(id: SessionId)
    | ExpireStaleOp(maxAgeHours: int, now: int)
    | StoreHoldsOp(newHolds: seq<NewHold>)
    | UpdateHoldOp(hold: HoldId, status: HoldStatus, provider: Option<string>)
    | ReleaseHoldsOp(id: SessionId)
    | ExtendHoldsOp(id: SessionId, extensions: seq<Extension>)
    | ExpireIfTerminalOp(id: SessionId)

  function Apply(t: Tables, op: Op): Tables {
    match op
    case StoreSessionOp(id, s) => StoreSession(t, id, s)
    case GetSessionOp(id, now) => LazyExpire(t, id, now)
    case CommitOp(id, c) => Commit(t, id, c)
    case CancelOp(id) => Cancel(t, id)
    case ExpireStaleOp(maxAge, now) => Expire(t, Stale(t, maxAge, now))
    case StoreHoldsOp(hs) => StoreHolds(t, hs)
    case UpdateHoldOp(h, status, provider) => UpdateHold(t, h, status, provider)
    case ReleaseHoldsOp(id) => t.(holds := ReleaseHeld(t.holds, {id}))
    case ExtendHoldsOp(id, es) => Extend(t, id, es)
    case ExpireIfTerminalOp(id) => ExpireIfAllTerminal(t, id)
  }

  function After(t: Tables, ops: seq<Op>): Tables
    decreases |ops|
  {
    if ops == [] then t else After(Apply(t, ops[0]), ops[1..])
  }

  // ----- The statements as they run -----

  lemma {:induction false} ExpireNone(t: Tables)
    ensures Expire(t, {}) == t
  {
  }

  lemma {:induction false} ExpireMore(t: Tables, done: set<SessionId>, id: SessionId)
    requires id in t.sessions
    ensures Expire(Expire(t, done), {id}) == Expire(t, done + {id})
  {
  }

  class Scheduling {
    var sessions: Sessions
    var holds: Holds

    constructor ()
      ensures View() == Tables(map[], map[])
    {
      sessions, holds := map[], map[];
    }

    function View(): Tables
      reads this
    {
      Tables(sessions, holds)
    }

    method ExpireOne(id: SessionId)
      requires id in sessions
      modifies this
      ensures View() == Expire(old(View()), {id})
    {
      sessions := sessions[id := sessions[id].(status := Expired)];
      holds := ReleaseHeld(holds, {id});
    }

    /** `expireStaleSchedulingSessions`: stale sessions one by one. */
    method ExpireStale(maxAgeHours: int, now: int) returns (count: nat)
      modifies this
      ensures View() == Expire(old(View()), Stale(old(View()), maxAgeHours, now))
      ensures count == |Stale(old(View()), maxAgeHours, now)|
    {
      var stale := Stale(View(), maxAgeHours, now);
      var left := stale;
      count := 0;
      ExpireNone(View());
      assert stale - left == {};
      while left != {}
        invariant left <= stale && count + |left| == |stale|
        invariant View() == Expire(old(View()), stale - left)
        decreases left
      {
        var id :| id in left;
        ExpireMore(old(View()), stale - left, id);
        ExpireOne(id);
        assert stale - (left - {id}) == (stale - left) + {id};
        left := left - {id};
        count := count + 1;
      }
      assert stale - left == stale;
    }

    /** `storeHolds`; an exception leaves the holds inserted before it. */
    method StoreHoldsRows(hs: seq<NewHold>) returns (ok: bool)
      modifies this`holds
      ensures View() == StoreHolds(old(View()), hs)
      ensures ok <==> Storable(old(View()), hs)
    {
      var i := 0;
      while i < |hs|
        invariant 0 <= i <= |hs|
        invariant Storable(View(), hs[i..]) <==> Storable(old(View()), hs)
        invariant StoreHolds(View(), hs[i..]) == StoreHolds(old(View()), hs)
      {
        assert hs[i..][1..] == hs[i + 1..];
        if hs[i].id in holds || hs[i].hold.session !in sessions {
          return false;
        }
        holds := holds[hs[i].id := hs[i].hold];
        i := i + 1;
      }
      ok := true;
    }

    /** `commitSessionHolds`: in the end every held hold of the session is released. */
    method CommitSessionHolds(session: SessionId) returns (released: set<HoldId>)
      modifies this`holds
      ensures View() == Apply(old(View()), ReleaseHoldsOp(session))
      ensures released == HeldAmong(old(holds), HoldsOf(old(holds), session))
    {
      var rows := HoldsOf(holds, session);
      var left := rows;
      released := {};
      while left != {}
        invariant left <= rows
        invariant holds == AfterRelease(old(holds), rows - left) && released == HeldAmong(old(holds), rows - left)
        decreases left
      {
        var h :| h in left;
        ReleasedMore(old(holds), rows - left, h);
        assert rows - (left - {h}) == rows - left + {h};
        left := left - {h};
        if holds[h].status == Held {
          holds := holds[h := holds[h].(status := Released)];
          released := released + {h};
        }
      }
      assert rows - left == rows;
      ReleasedAll(old(holds), session);
    }

    /** `extendHolds`: counts the holds that took the new expiry. */
    method ExtendHolds(session: SessionId, es: seq<Extension>) returns (extended: nat)
      modifies this`holds
      ensures View() == Extend(old(View()), session, es)
      ensures extended == Extendable(old(holds), session, es)
    {
      extended := 0;
      var i := 0;
      while i < |es|
        invariant 0 <= i <= |es| && holds.Keys == old(holds).Keys
        invariant forall h :: h in holds ==> holds[h] == old(holds)[h].(expiresAt := holds[h].expiresAt)
        invariant extended + Extendable(old(holds), session, es[i..]) == Extendable(old(holds), session, es)
        invariant Extend(View(), session, es[i..]) == Extend(old(View()), session, es)
      {
        assert es[i..][1..] == es[i + 1..];
        var e := es[i];
        if e.id in holds && holds[e.id].session == session && holds[e.id].status == Held {
          holds := holds[e.id := holds[e.id].(expiresAt := e.expiresAt)];
        }
        if e.id in holds && holds[e.id].session == session && holds[e.id].status == Held && holds[e.id].expiresAt == e.expiresAt {
          extended := extended + 1;
        }
        i := i + 1;
      }
    }

    /** Any request on the session tables. */
    method Step(op: Op)
      modifies this
      ensures View() == Apply(old(View()), op)
    {
      match op
      case StoreSessionOp(id, s) =>
        if id !in sessions {
          sessions := sessions[id := s];
        }
      case GetSessionOp(id, now) =>
        if id in sessions && Expirable(sessions[id]) && now - sessions[id].createdAt > MAX_AGE_HOURS * HOUR_MS {
          ExpireOne(id);
        }
      case CommitOp(id, c) =>
        if id in sessions {
          sessions := sessions[id := sessions[id].(status := Committed, commitment := Some(c))];
        }
      case CancelOp(id) =>
        if id in sessions && sessions[id].status !in {Committed, Cancelled, Expired} {
          sessions := sessions[id := sessions[id].(status := Cancelled)];
          holds := ReleaseHeld(holds, {id});
        }
      case ExpireStaleOp(maxAge, now) =>
        var count := ExpireStale(maxAge, now);
      case StoreHoldsOp(hs) =>
        var ok := StoreHoldsRows(hs);
      case UpdateHoldOp(h, status, provider) =>
        if h in holds && holds[h].status == Held && status != Held {
          holds := holds[h := holds[h].(status := status)];
          if provider.Some? {
            holds := holds[h := holds[h].(provider := provider)];
          }
        }
      case ReleaseHoldsOp(id) =>
        holds := ReleaseHeld(holds, {id});
      case ExtendHoldsOp(id, es) =>
        var extended := ExtendHolds(id, es);
      case ExpireIfTerminalOp(id) =>
        if !AnyHeld(holds, id) && id in sessions && sessions[id].status == CandidatesReady {
          sessions := sessions[id := sessions[id].(status := Expired)];
        }
    }
  }

  // ----- A hold that has left 'held' is final -----

  ghost predicate HoldFinal(before: Holds, after: Holds) {
    forall h :: h in before ==> h in after && (before[h].status != Held ==> after[h] == before[h])
  }

  lemma {:induction false} StoreHoldsKeeps(t: Tables, hs: seq<NewHold>)
    ensures StoreHolds(t, hs).sessions == t.sessions
    ensures forall h :: h in t.holds ==> h in StoreHolds(t, hs).holds && StoreHolds(t, hs).holds[h] == t.holds[h]
    decreases |hs|
  {
    if !(hs == [] || hs[0].id in t.holds || hs[0].hold.session !in t.sessions) {
      StoreHoldsKeeps(t.(holds := t.holds[hs[0].id := hs[0].hold]), hs[1..]);
    }
  }

  lemma {:induction false} ExtendKeeps(t: Tables, session: SessionId, es: seq<Extension>)
    ensures Extend(t, session, es).sessions == t.sessions
    ensures Extend(t, session, es).holds.Keys == t.holds.Keys
    ensures forall h :: h in t.holds ==> Extend(t, session, es).holds[h] == t.holds[h].(expiresAt := Extend(t, session, es).holds[h].expiresAt)
    ensures HoldFinal(t.holds, Extend(t, session, es).holds)
    decreases |es|
  {
    if es != [] {
      var e := es[0];
      var next := if e.id in t.holds && t.holds[e.id].session == session && t.holds[e.id].status == Held
                  then t.(holds := t.holds[e.id := t.holds[e.id].(expiresAt := e.expiresAt)]) else t;
      ExtendKeeps(next, session, es[1..]);
    }
  }

  lemma {:induction false} HoldFinalStep(t: Tables, op: Op)
    ensures HoldFinal(t.holds, Apply(t, op).holds)
  {
    match op
    case StoreHoldsOp(hs) => StoreHoldsKeeps(t, hs);
    case ExtendHoldsOp(id, es) => ExtendKeeps(t, id, es);
    case _ =>
  }

  /** Over every run, a hold that has left 'held' keeps its status, expiry and
      provider event for good. */
  lemma {:induction false} HoldFinalRun(t: Tables, ops: seq<Op>)
    ensures HoldFinal(t.holds, After(t, ops).holds)
    decreases |ops|
  {
    if ops != [] {
      HoldFinalStep(t, ops[0]);
      HoldFinalRun(Apply(t, ops[0]), ops[1..]);
    }
  }

  // ----- No held hold on a dead session -----

  predicate Dead(s: Session) {
    s.status == Cancelled || s.status == Expired
  }

  ghost predicate NoneHeldOnDead(t: Tables) {
    forall h :: h in t.holds && t.holds[h].status == Held && t.holds[h].session in t.sessions ==>
      !Dead(t.sessions[t.holds[h].session])
  }

  /** Foreign key of the holds table. */
  ghost predicate HoldsLinked(t: Tables) {
    forall h :: h in t.holds ==> t.holds[h].session in t.sessions
  }

  /** Each hold insert of the run targets a session that is then alive. */
  predicate StoresOnLive(t: Tables, ops: seq<Op>)
    decreases |ops|
  {
    ops == [] ||
    (&& (ops[0].StoreHoldsOp? ==> forall n :: n in ops[0].newHolds && n.hold.session in t.sessions ==> !Dead(t.sessions[n.hold.session]))
     && StoresOnLive(Apply(t, ops[0]), ops[1..]))
  }

  lemma {:induction false} StoreHoldsOnLive(t: Tables, hs: seq<NewHold>)
    requires NoneHeldOnDead(t) && HoldsLinked(t)
    requires forall n :: n in hs && n.hold.session in t.sessions ==> !Dead(t.sessions[n.hold.session])
    ensures NoneHeldOnDead(StoreHolds(t, hs)) && HoldsLinked(StoreHolds(t, hs))
    decreases |hs|
  {
    if !(hs == [] || hs[0].id in t.holds || hs[0].hold.session !in t.sessions) {
      StoreHoldsOnLive(t.(holds := t.holds[hs[0].id := hs[0].hold]), hs[1..]);
    }
  }

  lemma {:induction false} NoneHeldStep(t: Tables, op: Op)
    requires NoneHeldOnDead(t) && HoldsLinked(t)
    requires StoresOnLive(t, [op])
    ensures NoneHeldOnDead(Apply(t, op)) && HoldsLinked(Apply(t, op))
  {
    match op
    case StoreHoldsOp(hs) => StoreHoldsOnLive(t, hs);
    case ExtendHoldsOp(id, es) => ExtendKeeps(t, id, es);
    case ExpireIfTerminalOp(id) =>
      var after := Apply(t, op);
      forall h | h in after.holds && after.holds[h].status == Held ensures !Dead(after.sessions[after.holds[h].session]) {
        assert t.holds[h].session == id ==> AnyHeld(t.holds, id);
      }
    case _ =>
  }

  /** If holds are only stored on sessions that are neither cancelled nor expired,
      then over every run such a session never has a held hold. */
  lemma {:induction false} NoneHeldRun(t: Tables, ops: seq<Op>)
    requires NoneHeldOnDead(t) && HoldsLinked(t) && StoresOnLive(t, ops)
    ensures NoneHeldOnDead(After(t, ops))
    decreases |ops|
  {
    if ops != [] {
      assert StoresOnLive(t, [ops[0]]);
      NoneHeldStep(t, ops[0]);
      NoneHeldRun(Apply(t, ops[0]), ops[1..]);
    }
  }

  // ----- Which statuses are final -----

  /** Cancelled and expired are not final: a commit revives the session, and
      nothing else does.  Only a commit changes a committed session. */
  lemma {:induction false} OnlyCommitLeavesFinalStatus(t: Tables, op: Op, id: SessionId)
    requires id in t.sessions && t.sessions[id].status in {Committed, Cancelled, Expired}
    ensures id in Apply(t, op).sessions
    ensures Apply(t, op).sessions[id] == t.sessions[id] <==>
              !(op.CommitOp? && op.id == id
                && (t.sessions[id].status != Committed || t.sessions[id].commitment != Some(op.commitment)))
  {
    match op
    case StoreHoldsOp(hs) => StoreHoldsKeeps(t, hs);
    case ExtendHoldsOp(s, es) => ExtendKeeps(t, s, es);
    case _ =>
  }

  /** What steps other than a commit of the session can do to it: its candidates
      stay, a commitment stays as it is, and none appears. */
  ghost predicate Calm(before: Tables, after: Tables, id: SessionId) {
    id in before.sessions ==>
      && id in after.sessions
      && after.sessions[id].candidates == before.sessions[id].candidates
      && (before.sessions[id].status == Committed ==> after.sessions[id] == before.sessions[id])
      && (after.sessions[id].status == Committed ==> before.sessions[id].status == Committed)
  }

  lemma {:induction false} CalmStep(t: Tables, op: Op, id: SessionId)
    requires !(op.CommitOp? && op.id == id)
    ensures Calm(t, Apply(t, op), id)
  {
    match op
    case StoreHoldsOp(hs) => StoreHoldsKeeps(t, hs);
    case ExtendHoldsOp(s, es) => ExtendKeeps(t, s, es);
    case _ =>
  }
}
