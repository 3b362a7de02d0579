/** What `projectAndEnqueue` has established after some of its edges. */
module Projection {
  import opened Journal
  import opened CanonicalStore
  import opened MirrorMessages

  datatype Options = Options(forceNonActive: bool, replayPending: bool)

  const DEFAULTS := Options(false, true)

  /** The event is outside the window and the provider already has the mirror. */
  predicate SettledOutside(m: Mirror, content: Content, now: int) {
    m.provider.Some? && m.provider.value != "" && OutOfWindow(content.endMs, now)
  }

  /** A row that already stores the hash is written again only when asked to. */
  predicate Replays(state: MirrorState, opts: Options) {
    if state == Pending then opts.replayPending else state != Active && opts.forceNonActive
  }

  /** The rows of the event's edges are all there and ACTIVE, and it is in the window. */
  ghost predicate Settled(id: EventId, content: Content, edges: seq<Edge>, origin: AccountId, mirrors: Mirrors, now: int) {
    !OutOfWindow(content.endMs, now)
    && forall e :: e in edges && e.from == origin ==> Key(id, e.to) in mirrors && mirrors[Key(id, e.to)].state == Active
  }

  /** Nothing was sent for the first i edges, because each finds its hash stored. */
  ghost predicate Silent(project: Project, id: EventId, content: Content, edges: seq<Edge>, i: nat, origin: AccountId,
                         before: Mirrors, mirrors: Mirrors)
    requires i <= |edges|
  {
    mirrors == before && Converged(project, id, content, edges[..i], origin, before)
  }

  /** The effect of one edge on the mirror table. */
  ghost predicate EdgeWritten(before: Mirrors, after: Mirrors, k: Key, h: Hash, replay: bool, ok: bool, sent: bool) {
    && after.Keys == before.Keys + {k}
    && (forall x :: x in after && x != k ==> after[x] == before[x])
    && after[k].hash == h
    && (k in before && before[k].hash == h && before[k].state == Active ==> ok && !sent && after == before)
    && (sent ==> ok)
    && (!ok || sent ==> after[k].state == Pending)
    && (ok && replay && after[k].state == Pending ==> sent)
  }

  /** What the projection loop has established after i edges that agree. */
  ghost predicate Progress(project: Project, id: EventId, content: Content, edges: seq<Edge>, i: nat, origin: AccountId,
                           mirrors: Mirrors, sent: seq<Message>, replay: bool)
    requires i <= |edges|
  {
    && Carries(sent, id, mirrors)
    && (forall m :: m in sent ==> m.key in Targets(edges[..i], id, origin))
    && Projected(project, id, content, edges[..i], origin, mirrors)
    && (replay ==> PendingSent(sent, Targets(edges[..i], id, origin), mirrors))
  }

  /** The state of the projection loop after i edges. */
  ghost predicate Stage(project: Project, id: EventId, content: Content, edges: seq<Edge>, i: nat, origin: AccountId,
                        before: Mirrors, mirrors: Mirrors, sent: seq<Message>, replay: bool)
    requires i <= |edges|
  {
    && OthersKept(before, mirrors, id)
    && mirrors.Keys == before.Keys + Targets(edges[..i], id, origin)
    && (Agree(project, id, content, edges, origin) ==> Progress(project, id, content, edges, i, origin, mirrors, sent, replay))
    && (Converged(project, id, content, edges, origin, before) ==> mirrors == before && sent == [])
  }

  lemma {:induction false} SilentEdge(project: Project, id: EventId, content: Content, edges: seq<Edge>, i: nat, origin: AccountId,
                                      before: Mirrors, mirrors: Mirrors)
    requires i < |edges| && Silent(project, id, content, edges, i, origin, before, mirrors)
    requires edges[i].from == origin ==>
               Key(id, edges[i].to) in before
               && before[Key(id, edges[i].to)].hash == HashUnder(project, id, content, edges[i])
               && before[Key(id, edges[i].to)].state == Active
    ensures Silent(project, id, content, edges, i + 1, origin, before, mirrors)
  {
    assert edges[..i + 1] == edges[..i] + [edges[i]];
  }

  lemma {:induction false} TargetsSnoc(edges: seq<Edge>, i: nat, id: EventId, origin: AccountId)
    requires i < |edges|
    ensures Targets(edges[..i + 1], id, origin) ==
              Targets(edges[..i], id, origin) + (if edges[i].from == origin then {Key(id, edges[i].to)} else {})
  {
    assert edges[..i + 1] == edges[..i] + [edges[i]];
  }

  lemma {:induction false} ProgressSkip(project: Project, id: EventId, content: Content, edges: seq<Edge>, i: nat, origin: AccountId,
                                        mirrors: Mirrors, sent: seq<Message>, replay: bool)
    requires i < |edges| && edges[i].from != origin
    requires Progress(project, id, content, edges, i, origin, mirrors, sent, replay)
    ensures Progress(project, id, content, edges, i + 1, origin, mirrors, sent, replay)
  {
    TargetsSnoc(edges, i, id, origin);
    assert edges[..i + 1] == edges[..i] + [edges[i]];
  }

  lemma {:induction false} StageSkip(project: Project, id: EventId, content: Content, edges: seq<Edge>, i: nat, origin: AccountId,
                                     before: Mirrors, mirrors: Mirrors, sent: seq<Message>, replay: bool)
    requires i < |edges| && edges[i].from != origin
    requires Stage(project, id, content, edges, i, origin, before, mirrors, sent, replay)
    ensures Stage(project, id, content, edges, i + 1, origin, before, mirrors, sent, replay)
  {
    TargetsSnoc(edges, i, id, origin);
    if Agree(project, id, content, edges, origin) {
      ProgressSkip(project, id, content, edges, i, origin, mirrors, sent, replay);
    }
  }

  /** A message for the row just written, and the older ones for the older rows. */
  lemma {:induction false} PendingStep(keys: set<Key>, k: Key, before: Mirrors, after: Mirrors, sentSoFar: seq<Message>, m: Message, sent: bool)
    requires PendingSent(sentSoFar, keys, before)
    requires k in after && after.Keys == before.Keys + {k} && forall x :: x in after && x != k ==> after[x] == before[x]
    requires m == UpsertMirror(k, after[k].calendar, after[k].hash) && (after[k].state == Pending ==> sent)
    ensures PendingSent(if sent then sentSoFar + [m] else sentSoFar, keys + {k}, after)
  {
    var all := if sent then sentSoFar + [m] else sentSoFar;
    forall x | x in keys + {k} && x in after && after[x].state == Pending
      ensures exists y :: y in all && y == UpsertMirror(x, after[x].calendar, after[x].hash)
    {
      if x == k {
        assert m in all;
      } else {
        var y :| y in sentSoFar && y == UpsertMirror(x, before[x].calendar, before[x].hash);
        assert y in all;
      }
    }
  }

  lemma {:induction false} ProgressStep(project: Project, id: EventId, content: Content, edges: seq<Edge>, i: nat, origin: AccountId,
                                        before: Mirrors, after: Mirrors, sentSoFar: seq<Message>, m: Message, sent: bool, replay: bool)
    requires i < |edges| && edges[i].from == origin && Agree(project, id, content, edges, origin)
    requires Progress(project, id, content, edges, i, origin, before, sentSoFar, replay)
    requires var k := Key(id, edges[i].to);
             && after.Keys == before.Keys + {k}
             && (forall x :: x in after && x != k ==> after[x] == before[x])
             && after[k].hash == HashUnder(project, id, content, edges[i])
             && m == UpsertMirror(k, after[k].calendar, after[k].hash)
             && (replay && after[k].state == Pending ==> sent)
    ensures Progress(project, id, content, edges, i + 1, origin, after, if sent then sentSoFar + [m] else sentSoFar, replay)
  {
    var k := Key(id, edges[i].to);
    var all := if sent then sentSoFar + [m] else sentSoFar;
    TargetsSnoc(edges, i, id, origin);
    assert edges[..i + 1] == edges[..i] + [edges[i]];
    forall x | x in sentSoFar && x.key == k ensures x.hash == after[k].hash {
      var d :| d in edges[..i] && d.from == origin && Key(id, d.to) == k;
      assert d in edges && edges[i] in edges;
    }
    assert Carries(all, id, after);
    assert Projected(project, id, content, edges[..i + 1], origin, after) by {
      forall d | d in edges[..i + 1] && d.from == origin
        ensures Key(id, d.to) in after && after[Key(id, d.to)].hash == HashUnder(project, id, content, d)
      {
        assert d in edges && edges[i] in edges;
      }
    }
    if replay {
      PendingStep(Targets(edges[..i], id, origin), k, before, after, sentSoFar, m, sent);
    }
  }

  lemma {:induction false} StageTable(edges: seq<Edge>, i: nat, id: EventId, origin: AccountId, before: Mirrors, were: Mirrors, mirrors: Mirrors)
    requires i < |edges| && edges[i].from == origin
    requires OthersKept(before, were, id) && were.Keys == before.Keys + Targets(edges[..i], id, origin)
    requires mirrors.Keys == were.Keys + {Key(id, edges[i].to)}
    requires forall x :: x in mirrors && x != Key(id, edges[i].to) ==> mirrors[x] == were[x]
    ensures OthersKept(before, mirrors, id) && mirrors.Keys == before.Keys + Targets(edges[..i + 1], id, origin)
  {
    TargetsSnoc(edges, i, id, origin);
  }

  lemma {:induction false} StageStep(project: Project, id: EventId, content: Content, edges: seq<Edge>, i: nat, origin: AccountId,
                                     before: Mirrors, were: Mirrors, mirrors: Mirrors, sent: seq<Message>, replay: bool,
                                     ok: bool, accepted: bool)
    requires i < |edges| && edges[i].from == origin
    requires Stage(project, id, content, edges, i, origin, before, were, sent, replay)
    requires EdgeWritten(were, mirrors, Key(id, edges[i].to), HashUnder(project, id, content, edges[i]), replay, ok, accepted)
    ensures Converged(project, id, content, edges, origin, before) ==> ok
    ensures var nowSent := if accepted then sent + [MessageFor(mirrors, Key(id, edges[i].to))] else sent;
            Stage(project, id, content, edges, i + 1, origin, before, mirrors, nowSent, ok && replay)
  {
    var k := Key(id, edges[i].to);
    StageTable(edges, i, id, origin, before, were, mirrors);
    if Agree(project, id, content, edges, origin) {
      ProgressStep(project, id, content, edges, i, origin, were, mirrors, sent, MessageFor(mirrors, k), accepted, ok && replay);
    }
    if Converged(project, id, content, edges, origin, before) {
      assert edges[i] in edges;
    }
  }
}
