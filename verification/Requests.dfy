/** The requests of the user graph, and what a run of them does to the journal's
    account of the events. */
module Requests {
  import opened Optional
  import opened Journal
  import opened CanonicalStore
  import opened Projection
  import opened Batches

  datatype Op =
    | ApplyDeltas(account: AccountId, deltas: seq<Delta>, now: int)
    | UserUpsert(given: Option<EventId>, origin: AccountId, originEvent: string, source: Source, content: Content, now: int)
    | UserDelete(id: EventId)
    | Unlink(account: AccountId)
    | AddTrip(constraint: ConstraintId, tripOrigin: string, content: Content)
    | ChangeTrip(constraint: ConstraintId, tripOrigin: string, content: Content)
    | DeleteConstraint(constraint: ConstraintId)
    | Upgrade(feed: AccountId, plan: seq<Row>)
    | SetEdges(edges: seq<Edge>, now: int)
    | StoreCalendars(calendars: set<Calendar>)
    | Allocate(id: EventId)
    | Deallocate(id: EventId)
    | Recompute(opts: Options, now: int)

  /** The state the journal accounts for. */
  datatype Store = Store(events: Events, allocations: set<EventId>, journal: seq<Entry>, stuck: multiset<EventId>)

  /** The account whose events a request journals as removed before deleting them. */
  function BulkRemoved(op: Op, events: Events): set<EventId> {
    match op
    case Unlink(account) => OwnEvents(events, account)
    case Upgrade(feed, _) => OwnEvents(events, feed)
    case _ => {}
  }

  function AllocationsAfter(op: Op, events: Events, allocations: set<EventId>): set<EventId> {
    match op
    case Allocate(id) => if id in events then allocations + {id} else allocations
    case Deallocate(id) => allocations - {id}
    case _ => allocations
  }

  /** The request met an allocation of an event it removes in bulk. */
  ghost predicate MeetsAllocation(op: Op, a: Store) {
    !(BulkRemoved(op, a.events) !! a.allocations)
  }

  /** What a request does to the account.  `met` are the events whose removal it
      journaled and could not carry out: none unless it is an unlink or an upgrade
      that meets an allocation, and then all it removes; an unlink that meets one
      and leaves none stuck was stopped before it journaled anything. */
  ghost predicate Stepped(a: Store, op: Op, b: Store, met: set<EventId>) {
    && a.journal <= b.journal && b.stuck == a.stuck + multiset(met)
    && b.allocations == AllocationsAfter(op, a.events, a.allocations)
    && (met != {} ==> MeetsAllocation(op, a) && met == BulkRemoved(op, a.events))
    && (MeetsAllocation(op, a) && met == {} ==> op.Unlink? && b.events == a.events && b.journal == a.journal)
  }

  /** The states before, between and after the requests of a run. */
  ghost predicate Ran(ops: seq<Op>, trace: seq<Store>, met: seq<set<EventId>>) {
    && |met| <= |ops| && |trace| == |met| + 1
    && forall i :: 0 <= i < |met| ==> Stepped(trace[i], ops[i], trace[i + 1], met[i])
  }

  lemma {:induction false} RanOn(ops: seq<Op>, trace: seq<Store>, met: seq<set<EventId>>, next: Store, m: set<EventId>)
    requires Ran(ops, trace, met) && |met| < |ops| && Stepped(trace[|met|], ops[|met|], next, m)
    ensures Ran(ops, trace + [next], met + [m])
  {
    var states, all := trace + [next], met + [m];
    forall i | 0 <= i < |all| ensures Stepped(states[i], ops[i], states[i + 1], all[i]) {
      if i < |met| {
        assert states[i] == trace[i] && states[i + 1] == trace[i + 1];
      }
    }
  }

  /** How often a run journaled the removal of an event it could not remove. */
  function TimesMet(met: seq<set<EventId>>, id: EventId): nat {
    if met == [] then 0 else TimesMet(met[..|met| - 1], id) + (if id in met[|met| - 1] then 1 else 0)
  }

  lemma {:induction false} StuckIsMet(ops: seq<Op>, trace: seq<Store>, met: seq<set<EventId>>, id: EventId)
    requires Ran(ops, trace, met)
    ensures trace[|met|].stuck[id] == trace[0].stuck[id] + TimesMet(met, id)
  {
    if met != [] {
      var n := |met| - 1;
      assert Ran(ops, trace[..n + 1], met[..n]);
      StuckIsMet(ops, trace[..n + 1], met[..n], id);
      assert Stepped(trace[n], ops[n], trace[n + 1], met[n]);
    }
  }

  lemma {:induction false} MetOnce(met: seq<set<EventId>>, i: nat, id: EventId)
    requires i < |met| && id in met[i]
    ensures TimesMet(met, id) > 0
  {
    if i < |met| - 1 {
      MetOnce(met[..|met| - 1], i, id);
    }
  }

  lemma {:induction false} NeverMet(met: seq<set<EventId>>, id: EventId)
    requires forall i :: 0 <= i < |met| ==> met[i] == {}
    ensures TimesMet(met, id) == 0
  {
    if met != [] {
      NeverMet(met[..|met| - 1], id);
    }
  }

  /** A run from a store in step ends in step exactly when none of its requests
      journaled a removal it could not carry out. */
  lemma {:induction false} RunInStepIff(ops: seq<Op>, trace: seq<Store>, met: seq<set<EventId>>)
    requires Ran(ops, trace, met) && trace[0].stuck == multiset{}
    requires Tracked(trace[|met|].events, trace[|met|].journal, trace[|met|].stuck)
    ensures InStep(trace[|met|].events, trace[|met|].journal) <==> forall i :: 0 <= i < |met| ==> met[i] == {}
  {
    var last := trace[|met|];
    InStepIffNoneStuck(last.events, last.journal, last.stuck);
    if last.stuck == multiset{} {
      forall i | 0 <= i < |met| ensures met[i] == {} {
        if id :| id in met[i] {
          MetOnce(met, i, id);
          StuckIsMet(ops, trace, met, id);
          assert false;
        }
      }
    } else if forall i :: 0 <= i < |met| ==> met[i] == {} {
      var id :| id in last.stuck;
      NeverMet(met, id);
      StuckIsMet(ops, trace, met, id);
      assert false;
    }
  }
}
