/** What `recomputeProjections` has established after some of its events. */
module Recomputation {
  import opened Journal
  import opened CanonicalStore
  import opened Projection

  ghost predicate AllAgree(project: Project, events: Events, edges: seq<Edge>) {
    forall id :: id in events ==> Agree(project, id, events[id].content, edges, events[id].origin)
  }

  ghost predicate AllProjected(project: Project, events: Events, edges: seq<Edge>, mirrors: Mirrors) {
    forall id :: id in events ==> Projected(project, id, events[id].content, edges, events[id].origin, mirrors)
  }

  ghost predicate AllConverged(project: Project, events: Events, edges: seq<Edge>, mirrors: Mirrors) {
    forall id :: id in events ==> Converged(project, id, events[id].content, edges, events[id].origin, mirrors)
  }

  ghost predicate HashesStored(sent: seq<Message>, mirrors: Mirrors) {
    forall m :: m in sent ==> m.UpsertMirror? && m.key in mirrors && m.hash == mirrors[m.key].hash
  }

  /** What the sweep over the events has established for the first i of them. */
  ghost predicate Swept(project: Project, events: Events, edges: seq<Edge>, rows: seq<EventId>, i: nat,
                        mirrors: Mirrors, sent: seq<Message>, replay: bool)
    requires i <= |rows|
  {
    && (forall m :: m in sent ==> m.UpsertMirror? && m.key in mirrors && m.hash == mirrors[m.key].hash
                                  && m.key.event in rows[..i])
    && (forall j | 0 <= j < i ::
          && rows[j] in events
          && Projected(project, rows[j], events[rows[j]].content, edges, events[rows[j]].origin, mirrors)
          && (replay ==> PendingSent(sent, Targets(edges, rows[j], events[rows[j]].origin), mirrors)))
  }

  /** The state of the sweep: the rows stay inside the join, and a converged
      table is not touched. */
  ghost predicate Sweeping(project: Project, events: Events, edges: seq<Edge>, rows: seq<EventId>, i: nat,
                           start: Mirrors, mirrors: Mirrors, sent: seq<Message>, replay: bool)
    requires i <= |rows|
  {
    && mirrors.Keys <= Join(events, edges)
    && (forall j :: 0 <= j < i ==> rows[j] in events && Targets(edges, rows[j], events[rows[j]].origin) <= mirrors.Keys)
    && (AllAgree(project, events, edges) ==> Swept(project, events, edges, rows, i, mirrors, sent, replay))
    && (AllConverged(project, events, edges, start) && start.Keys == Join(events, edges) ==> mirrors == start && sent == [])
  }

  /** Every event is in the window and every row it is projected to is ACTIVE. */
  ghost predicate AllSettled(events: Events, edges: seq<Edge>, mirrors: Mirrors, now: int) {
    forall id :: id in events ==> Settled(id, events[id].content, edges, events[id].origin, mirrors, now)
  }

  /** Nothing was sent for the first i events, because each finds its hashes stored. */
  ghost predicate SilentSweep(project: Project, events: Events, edges: seq<Edge>, rows: seq<EventId>, i: nat,
                              start: Mirrors, mirrors: Mirrors)
    requires i <= |rows|
  {
    && mirrors == start
    && forall j :: 0 <= j < i ==>
         rows[j] in events && Converged(project, rows[j], events[rows[j]].content, edges, events[rows[j]].origin, start)
  }

  /** While nothing is sent over a settled table of the right rows, all hashes match. */
  ghost predicate QuietSoFar(project: Project, events: Events, edges: seq<Edge>, rows: seq<EventId>, i: nat,
                             start: Mirrors, mirrors: Mirrors, sent: seq<Message>, now: int)
    requires i <= |rows|
  {
    sent == [] && AllSettled(events, edges, start, now) && start.Keys == Join(events, edges) ==>
      SilentSweep(project, events, edges, rows, i, start, mirrors)
  }

  lemma {:induction false} QuietStep(project: Project, events: Events, edges: seq<Edge>, rows: seq<EventId>, i: nat,
      start: Mirrors, were: Mirrors, mirrors: Mirrors, sent: seq<Message>, more: seq<Message>, now: int)
    requires i < |rows| && rows[i] in events
    requires QuietSoFar(project, events, edges, rows, i, start, were, sent, now)
    requires more == [] && Settled(rows[i], events[rows[i]].content, edges, events[rows[i]].origin, were, now) ==>
               mirrors == were && Converged(project, rows[i], events[rows[i]].content, edges, events[rows[i]].origin, were)
    ensures QuietSoFar(project, events, edges, rows, i + 1, start, mirrors, sent + more, now)
  {
  }

  lemma {:induction false} SilentConverged(project: Project, events: Events, edges: seq<Edge>, rows: seq<EventId>, start: Mirrors)
    requires SilentSweep(project, events, edges, rows, |rows|, start, start) && forall id :: id in events ==> id in rows
    ensures AllConverged(project, events, edges, start)
  {
    forall id | id in events ensures Converged(project, id, events[id].content, edges, events[id].origin, start) {
      var j :| 0 <= j < |rows| && rows[j] == id;
      assert rows[j] in events;
    }
  }

  /** One row stores one hash: if all rows match all edges, the edges agree. */
  lemma {:induction false} ConvergedAgree(project: Project, events: Events, edges: seq<Edge>, mirrors: Mirrors)
    requires AllConverged(project, events, edges, mirrors)
    ensures AllAgree(project, events, edges)
  {
    forall id | id in events ensures Agree(project, id, events[id].content, edges, events[id].origin) {
      assert Converged(project, id, events[id].content, edges, events[id].origin, mirrors);
    }
  }

  /** The consumers report every row as written. */
  function AllActive(mirrors: Mirrors): Mirrors {
    map k | k in mirrors :: mirrors[k].(state := Active)
  }

  lemma {:induction false} ActiveConverged(project: Project, events: Events, edges: seq<Edge>, mirrors: Mirrors)
    requires AllProjected(project, events, edges, mirrors)
    ensures AllConverged(project, events, edges, AllActive(mirrors))
  {
    forall id | id in events ensures Converged(project, id, events[id].content, edges, events[id].origin, AllActive(mirrors)) {
      assert Projected(project, id, events[id].content, edges, events[id].origin, mirrors);
    }
  }

  ghost predicate AllInWindow(events: Events, now: int) {
    forall id :: id in events ==> !OutOfWindow(events[id].content.endMs, now)
  }

  lemma {:induction false} ActiveSettled(events: Events, edges: seq<Edge>, mirrors: Mirrors, now: int)
    requires AllInWindow(events, now) && mirrors.Keys == Join(events, edges)
    ensures AllSettled(events, edges, AllActive(mirrors), now)
  {
    forall id | id in events ensures Settled(id, events[id].content, edges, events[id].origin, AllActive(mirrors), now) {
      forall e | e in edges && e.from == events[id].origin ensures Key(id, e.to) in mirrors {
        assert Key(id, e.to) in Join(events, edges);
      }
    }
  }

  lemma {:induction false} PendingGrows(more: seq<Message>, sent: seq<Message>, keys: set<Key>, mirrors: Mirrors)
    requires PendingSent(more, keys, mirrors)
    ensures PendingSent(sent + more, keys, mirrors)
  {
    forall k | k in keys && k in mirrors && mirrors[k].state == Pending
      ensures exists m :: m in sent + more && m == UpsertMirror(k, mirrors[k].calendar, mirrors[k].hash)
    {
      var m :| m in more && m == UpsertMirror(k, mirrors[k].calendar, mirrors[k].hash);
      assert m in sent + more;
    }
  }

  lemma {:induction false} PendingKept(were: Mirrors, mirrors: Mirrors, sent: seq<Message>, more: seq<Message>,
                                       keys: set<Key>, id: EventId, replay: bool)
    requires replay ==> PendingSent(sent, keys, were)
    requires OthersKept(were, mirrors, id) && forall k :: k in keys ==> k.event != id
    ensures replay ==> PendingSent(sent + more, keys, mirrors)
  {
    if replay {
      forall k | k in keys && k in mirrors && mirrors[k].state == Pending
        ensures exists m :: m in sent + more && m == UpsertMirror(k, mirrors[k].calendar, mirrors[k].hash)
      {
        var m :| m in sent && m == UpsertMirror(k, were[k].calendar, were[k].hash);
        assert m in sent + more;
      }
    }
  }

  lemma {:induction false} SweptStep(project: Project, events: Events, edges: seq<Edge>, rows: seq<EventId>, i: nat,
                                     were: Mirrors, mirrors: Mirrors, sent: seq<Message>, more: seq<Message>, ok: bool, replay: bool)
    requires i < |rows| && rows[i] in events
    requires forall j, k :: 0 <= j < k < |rows| ==> rows[j] != rows[k]
    requires Swept(project, events, edges, rows, i, were, sent, replay)
    requires OthersKept(were, mirrors, rows[i]) && Carries(more, rows[i], mirrors)
    requires ok ==> Projected(project, rows[i], events[rows[i]].content, edges, events[rows[i]].origin, mirrors)
    requires ok && replay ==> PendingSent(more, Targets(edges, rows[i], events[rows[i]].origin), mirrors)
    ensures HashesStored(sent + more, mirrors)
    ensures ok ==> Swept(project, events, edges, rows, i + 1, mirrors, sent + more, replay)
  {
    assert rows[..i + 1] == rows[..i] + [rows[i]];
    forall m | m in sent ensures m.key in mirrors && m.hash == mirrors[m.key].hash {
      var j :| 0 <= j < i && rows[j] == m.key.event;
    }
    if ok {
      forall j | 0 <= j < i + 1
        ensures rows[j] in events
        ensures Projected(project, rows[j], events[rows[j]].content, edges, events[rows[j]].origin, mirrors)
        ensures replay ==> PendingSent(sent + more, Targets(edges, rows[j], events[rows[j]].origin), mirrors)
      {
        if j < i {
          assert rows[j] != rows[i];
          PendingKept(were, mirrors, sent, more, Targets(edges, rows[j], events[rows[j]].origin), rows[i], replay);
        } else if replay {
          PendingGrows(more, sent, Targets(edges, rows[i], events[rows[i]].origin), mirrors);
        }
      }
    }
  }

  lemma {:induction false} JoinHas(events: Events, edges: seq<Edge>, id: EventId)
    requires id in events
    ensures Targets(edges, id, events[id].origin) <= Join(events, edges)
  {
  }

  lemma {:induction false} SweepTable(events: Events, edges: seq<Edge>, rows: seq<EventId>, i: nat, were: Mirrors, mirrors: Mirrors)
    requires i < |rows| && rows[i] in events && were.Keys <= mirrors.Keys
    requires were.Keys <= Join(events, edges)
    requires mirrors.Keys <= were.Keys + Targets(edges, rows[i], events[rows[i]].origin)
    ensures mirrors.Keys <= Join(events, edges)
  {
    JoinHas(events, edges, rows[i]);
  }

  lemma {:induction false} SweepStep(project: Project, events: Events, edges: seq<Edge>, rows: seq<EventId>, i: nat,
      start: Mirrors, were: Mirrors, mirrors: Mirrors, sent: seq<Message>, more: seq<Message>, ok: bool, replay: bool)
    requires i < |rows| && rows[i] in events
    requires forall j, k :: 0 <= j < k < |rows| ==> rows[j] != rows[k]
    requires Sweeping(project, events, edges, rows, i, start, were, sent, replay)
    requires OthersKept(were, mirrors, rows[i])
    requires mirrors.Keys <= were.Keys + Targets(edges, rows[i], events[rows[i]].origin)
    requires ok ==> mirrors.Keys == were.Keys + Targets(edges, rows[i], events[rows[i]].origin)
    requires Agree(project, rows[i], events[rows[i]].content, edges, events[rows[i]].origin) ==>
               Carries(more, rows[i], mirrors)
               && (ok ==> Projected(project, rows[i], events[rows[i]].content, edges, events[rows[i]].origin, mirrors))
               && (ok && replay ==> PendingSent(more, Targets(edges, rows[i], events[rows[i]].origin), mirrors))
    requires Converged(project, rows[i], events[rows[i]].content, edges, events[rows[i]].origin, were) ==>
               ok && mirrors == were && more == []
    ensures ok ==> Sweeping(project, events, edges, rows, i + 1, start, mirrors, sent + more, replay)
    ensures AllAgree(project, events, edges) ==> HashesStored(sent + more, mirrors)
    ensures AllConverged(project, events, edges, start) && start.Keys == Join(events, edges) ==> ok
  {
    SweepTable(events, edges, rows, i, were, mirrors);
    if AllAgree(project, events, edges) {
      SweptStep(project, events, edges, rows, i, were, mirrors, sent, more, ok, replay);
    }
  }

  lemma {:induction false} SweepDone(project: Project, events: Events, edges: seq<Edge>, rows: seq<EventId>,
                                     start: Mirrors, mirrors: Mirrors, sent: seq<Message>, replay: bool)
    requires forall id :: id in events ==> id in rows
    requires Sweeping(project, events, edges, rows, |rows|, start, mirrors, sent, replay)
    ensures mirrors.Keys == Join(events, edges)
    ensures AllAgree(project, events, edges) ==>
              AllProjected(project, events, edges, mirrors) && (replay ==> PendingSent(sent, mirrors.Keys, mirrors))
  {
    if AllAgree(project, events, edges) {
      forall id | id in events ensures Projected(project, id, events[id].content, edges, events[id].origin, mirrors) {
        var j :| 0 <= j < |rows| && rows[j] == id;
      }
      if replay {
        forall k | k in mirrors && mirrors[k].state == Pending
          ensures exists m :: m in sent && m == UpsertMirror(k, mirrors[k].calendar, mirrors[k].hash)
        {
          var id, e :| id in events && e in edges && e.from == events[id].origin && k == Key(id, e.to);
          var j :| 0 <= j < |rows| && rows[j] == id;
          assert k in Targets(edges, rows[j], events[rows[j]].origin);
          assert PendingSent(sent, Targets(edges, rows[j], events[rows[j]].origin), mirrors);
        }
      }
    }
  }

  lemma {:induction false} PruneToJoin(mirrors: Mirrors, events: Events, edges: seq<Edge>)
    ensures Prune(mirrors, events, edges).Keys <= Join(events, edges)
    ensures mirrors.Keys == Join(events, edges) ==> Prune(mirrors, events, edges) == mirrors
  {
    forall k | k in Prune(mirrors, events, edges) ensures k in Join(events, edges) {
      var e :| e in edges && e.from == events[k.event].origin && e.to == k.target;
      assert k == Key(k.event, e.to);
    }
  }
}
