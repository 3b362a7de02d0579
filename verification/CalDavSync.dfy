/** Polling a CalDAV calendar by ctag and etag: `incrementalSync`
    (the calendar object etags of RFC 4791, section 5.3.4). */
module CalDavSync {
  import opened Optional

  type Href = string

  type Tag = string

  datatype Item = Item(etag: Tag, body: string)

  /** A calendar as the server presents it during one sync; a server that reports
      no ctag reads as the empty tag. */
  datatype Snapshot = Snapshot(ctag: Tag, items: map<Href, Item>)

  /** `CalDavCalendarSyncState`. */
  datatype SyncState = SyncState(ctag: Tag, etags: map<Href, Tag>)

  datatype Outcome =
    | NotFound
    | Synced(events: map<Href, string>, deleted: seq<Href>, newState: SyncState)

  function Etags(s: Snapshot): map<Href, Tag> {
    map href | href in s.items :: s.items[href].etag
  }

  function Bodies(s: Snapshot): map<Href, string> {
    map href | href in s.items :: s.items[href].body
  }

  /** Equal etags of one resource imply equal bodies. */
  predicate EtagsFaithful(a: Snapshot, b: Snapshot) {
    forall href :: href in a.items && href in b.items && a.items[href].etag == b.items[href].etag ==>
      a.items[href].body == b.items[href].body
  }

  /** And equal ctags imply equal content. */
  predicate Faithful(a: Snapshot, b: Snapshot) {
    EtagsFaithful(a, b) && (a.ctag == b.ctag ==> a.items == b.items)
  }

  /** The stored state and the replica are those of an earlier snapshot. */
  predicate Mirrors(state: SyncState, replica: map<Href, string>, s: Snapshot) {
    state == SyncState(s.ctag, Etags(s)) && replica == Bodies(s)
  }

  /** The new or modified hrefs, and the vanished ones. */
  ghost predicate IsDelta(stored: map<Href, Tag>, s: Snapshot, changed: set<Href>, deleted: seq<Href>) {
    && (forall href :: href in changed <==> href in s.items && !(href in stored && stored[href] == s.items[href].etag))
    && (forall href :: href in deleted <==> href in stored && href !in s.items)
    && (forall i, j :: 0 <= i < j < |deleted| ==> deleted[i] != deleted[j])
  }

  method CompareEtags(stored: map<Href, Tag>, s: Snapshot) returns (changed: set<Href>, deleted: seq<Href>)
    ensures IsDelta(stored, s, changed, deleted)
  {
    changed, deleted := {}, [];
    var current := Etags(s);
    var left := current.Keys;
    while left != {}
      invariant left <= current.Keys
      invariant forall href :: href in changed <==> href in current && href !in left && !(href in stored && stored[href] == current[href])
      decreases |left|
    {
      var href :| href in left;
      if !(href in stored && stored[href] == current[href]) {
        changed := changed + {href};
      }
      left := left - {href};
    }
    left := stored.Keys;
    while left != {}
      invariant left <= stored.Keys
      invariant forall href :: href in deleted <==> href in stored && href !in left && href !in current
      invariant forall i, j :: 0 <= i < j < |deleted| ==> deleted[i] != deleted[j]
      decreases |left|
    {
      var href :| href in left;
      if href !in current {
        deleted := deleted + [href];
      }
      left := left - {href};
    }
  }

  /** `incrementalSync`.  The server shows its ctag, its etags and its bodies in
      three requests, between which it may change; `changed` are the hrefs asked
      for by the last. */
  method IncrementalSync(atCtag: Option<Snapshot>, atEtags: Snapshot, atBodies: Snapshot, stored: Option<SyncState>)
    returns (r: Outcome, ghost changed: set<Href>)
    ensures r.NotFound? <==> atCtag.None?
    ensures atCtag.Some? && stored.Some? && stored.value.ctag == atCtag.value.ctag ==> r == Synced(map[], [], stored.value)
    ensures atCtag.Some? && !(stored.Some? && stored.value.ctag == atCtag.value.ctag) ==>
              && r.newState == SyncState(atCtag.value.ctag, Etags(atEtags))
              && IsDelta(if stored.Some? then stored.value.etags else map[], atEtags, changed, r.deleted)
              && r.events.Keys == changed * atBodies.items.Keys && (forall h :: h in r.events ==> r.events[h] == atBodies.items[h].body)
  {
    changed := {};
    if atCtag.None? {
      return NotFound, changed;
    }
    if stored.Some? && stored.value.ctag == atCtag.value.ctag {
      return Synced(map[], [], stored.value), changed;
    }
    var asked, deleted := CompareEtags(if stored.Some? then stored.value.etags else map[], atEtags);
    changed := asked;
    var events := map href | href in asked && href in atBodies.items :: atBodies.items[href].body;
    r := Synced(events, deleted, SyncState(atCtag.value.ctag, Etags(atEtags)));
  }

  /** What a caller does with the result: store the events, drop the deleted. */
  function Applied(replica: map<Href, string>, events: map<Href, string>, deleted: seq<Href>): map<Href, string> {
    map href | href in replica.Keys + events.Keys && (href in events || href !in deleted) ::
      if href in events then events[href] else replica[href]
  }

  /** A delta computed from faithful etags turns one snapshot's bodies into the
      other's. */
  lemma {:induction false} DeltaReproduces(a: Snapshot, b: Snapshot, events: map<Href, string>, deleted: seq<Href>)
    requires EtagsFaithful(a, b) && IsDelta(Etags(a), b, events.Keys, deleted)
    requires forall h :: h in events ==> h in b.items && events[h] == b.items[h].body
    ensures Applied(Bodies(a), events, deleted) == Bodies(b)
  {
    var r := Applied(Bodies(a), events, deleted);
    forall href ensures href in r <==> href in Bodies(b) {
    }
    forall href | href in r ensures r[href] == Bodies(b)[href] {
    }
  }

  // ----- Polls that race with changes -----

  ghost predicate TagsKept(a: Snapshot, between: Snapshot, b: Snapshot) {
    && (a.ctag == b.ctag ==> between.items == a.items)
    && forall href :: href in a.items && href in b.items && a.items[href].etag == b.items[href].etag ==>
         href in between.items && between.items[href] == a.items[href]
  }

  /** The server never goes back to an earlier tag: between two moments with one
      ctag nothing changes, between two with one etag of a resource it does not. */
  ghost predicate TagsNeverReused(history: seq<Snapshot>) {
    forall i, k, j :: 0 <= i <= k <= j < |history| ==> TagsKept(history[i], history[k], history[j])
  }

  /** The moments at which one poll reads the ctag, the etags and the bodies. */
  datatype Moments = Moments(ctag: nat, etags: nat, bodies: nat)

  predicate InOrder(m: Moments, size: nat) {
    m.ctag <= m.etags <= m.bodies < size
  }

  /** What a poll leaves: the ctag and the etags it read, and the body of every
      resource that did not change before its body was read. */
  ghost predicate Raced(history: seq<Snapshot>, m: Moments, state: SyncState, replica: map<Href, string>) {
    && InOrder(m, |history|)
    && state == SyncState(history[m.ctag].ctag, Etags(history[m.etags]))
    && replica.Keys <= history[m.etags].items.Keys
    && forall href :: href in history[m.etags].items && href in history[m.bodies].items
                      && history[m.bodies].items[href] == history[m.etags].items[href] ==>
         href in replica && replica[href] == history[m.etags].items[href].body
  }

  /** Applying what a poll fetched to what an earlier one left. */
  lemma {:induction false} RacedStep(history: seq<Snapshot>, m: Moments, state: SyncState, replica: map<Href, string>, n: Moments,
                                     changed: set<Href>, events: map<Href, string>, deleted: seq<Href>)
    requires TagsNeverReused(history) && Raced(history, m, state, replica) && InOrder(n, |history|) && m.bodies <= n.ctag
    requires IsDelta(state.etags, history[n.etags], changed, deleted)
    requires events.Keys == changed * history[n.bodies].items.Keys
    requires forall h :: h in events ==> events[h] == history[n.bodies].items[h].body
    ensures Raced(history, n, SyncState(history[n.ctag].ctag, Etags(history[n.etags])), Applied(replica, events, deleted))
  {
    var was, now, later := history[m.etags], history[n.etags], history[n.bodies];
    assert TagsKept(was, history[m.bodies], now);
    var r := Applied(replica, events, deleted);
    forall href | href in now.items && href in later.items && later.items[href] == now.items[href]
      ensures href in r && r[href] == now.items[href].body
    {
      if href !in changed {
        assert href in was.items && was.items[href].etag == now.items[href].etag;
      }
    }
  }

  lemma {:induction false} FirstRaced(history: seq<Snapshot>, n: Moments, changed: set<Href>, events: map<Href, string>, deleted: seq<Href>)
    requires InOrder(n, |history|) && IsDelta(map[], history[n.etags], changed, deleted)
    requires events.Keys == changed * history[n.bodies].items.Keys
    requires forall h :: h in events ==> events[h] == history[n.bodies].items[h].body
    ensures Raced(history, n, SyncState(history[n.ctag].ctag, Etags(history[n.etags])), Applied(map[], events, deleted))
  {
  }

  /** After a poll that finds the ctag unmoved the earlier reads were of one content. */
  lemma {:induction false} QuietSince(history: seq<Snapshot>, m: Moments, state: SyncState, replica: map<Href, string>, d: nat)
    requires TagsNeverReused(history) && Raced(history, m, state, replica)
    requires m.bodies <= d < |history| && state.ctag == history[d].ctag
    ensures replica == Bodies(history[d])
  {
    assert TagsKept(history[m.ctag], history[m.etags], history[d]);
    assert TagsKept(history[m.ctag], history[m.bodies], history[d]);
    assert TagsKept(history[m.ctag], history[d], history[d]);
  }

  /** What the polls so far have left, if there was one. */
  ghost predicate RacedSoFar(history: seq<Snapshot>, m: Option<Moments>, state: Option<SyncState>, replica: map<Href, string>) {
    match m
    case None => state.None? && replica == map[]
    case Some(before) => state.Some? && Raced(history, before, state.value, replica)
  }

  predicate Unmoved(state: Option<SyncState>, ctag: Tag) {
    state.Some? && state.value.ctag == ctag
  }

  /** A poll that finds the ctag moved. */
  lemma {:induction false} MovedStep(history: seq<Snapshot>, m: Option<Moments>, state: Option<SyncState>, replica: map<Href, string>,
                                     n: Moments, changed: set<Href>, events: map<Href, string>, deleted: seq<Href>)
    requires TagsNeverReused(history) && RacedSoFar(history, m, state, replica)
    requires InOrder(n, |history|) && (m.Some? ==> m.value.bodies <= n.ctag)
    requires IsDelta(if state.Some? then state.value.etags else map[], history[n.etags], changed, deleted)
    requires events.Keys == changed * history[n.bodies].items.Keys
    requires forall h :: h in events ==> events[h] == history[n.bodies].items[h].body
    ensures Raced(history, n, SyncState(history[n.ctag].ctag, Etags(history[n.etags])), Applied(replica, events, deleted))
  {
    if m.Some? {
      RacedStep(history, m.value, state.value, replica, n, changed, events, deleted);
    } else {
      FirstRaced(history, n, changed, events, deleted);
    }
  }

  lemma {:induction false} UndisturbedIsExact(history: seq<Snapshot>, n: Moments, state: SyncState, replica: map<Href, string>)
    requires Raced(history, n, state, replica) && n.ctag == n.bodies
    ensures replica == Bodies(history[n.bodies])
  {
  }

  /** What one poll adds: nothing over an unmoved ctag, else what it fetched. */
  ghost predicate Fetched(history: seq<Snapshot>, n: Moments, state: Option<SyncState>, changed: set<Href>, r: Outcome)
    requires InOrder(n, |history|)
  {
    && r.Synced?
    && if Unmoved(state, history[n.ctag].ctag) then r == Synced(map[], [], state.value)
       else
         && r.newState == SyncState(history[n.ctag].ctag, Etags(history[n.etags]))
         && IsDelta(if state.Some? then state.value.etags else map[], history[n.etags], changed, r.deleted)
         && r.events.Keys == changed * history[n.bodies].items.Keys
         && forall h :: h in r.events ==> r.events[h] == history[n.bodies].items[h].body
  }

  lemma {:induction false} UnmovedStep(history: seq<Snapshot>, m: Moments, state: SyncState, replica: map<Href, string>, n: Moments)
    requires TagsNeverReused(history) && Raced(history, m, state, replica)
    requires InOrder(n, |history|) && m.bodies <= n.ctag && state.ctag == history[n.ctag].ctag
    ensures Applied(replica, map[], []) == replica
    ensures n.ctag == n.bodies ==> replica == Bodies(history[n.bodies])
  {
    QuietSince(history, m, state, replica, n.ctag);
  }

  lemma {:induction false} PollStep(history: seq<Snapshot>, m: Option<Moments>, state: Option<SyncState>, replica: map<Href, string>,
                                    n: Moments, changed: set<Href>, r: Outcome) returns (after: Moments)
    requires TagsNeverReused(history) && RacedSoFar(history, m, state, replica)
    requires InOrder(n, |history|) && (m.Some? ==> m.value.bodies <= n.ctag) && Fetched(history, n, state, changed, r)
    ensures Raced(history, after, r.newState, Applied(replica, r.events, r.deleted)) && after.bodies <= n.bodies
    ensures n.ctag == n.bodies ==> Applied(replica, r.events, r.deleted) == Bodies(history[n.bodies])
  {
    if Unmoved(state, history[n.ctag].ctag) {
      after := m.value;
      UnmovedStep(history, after, state.value, replica, n);
    } else {
      after := n;
      MovedStep(history, m, state, replica, n, changed, r.events, r.deleted);
      if n.ctag == n.bodies {
        UndisturbedIsExact(history, n, r.newState, Applied(replica, r.events, r.deleted));
      }
    }
  }

  class CalDavReplica {
    var state: Option<SyncState>
    var replica: map<Href, string>

    constructor ()
      ensures state == None && replica == map[]
    {
      state, replica := None, map[];
    }

    ghost predicate Follows(s: Option<Snapshot>)
      reads this
    {
      if s.Some? then state.Some? && Mirrors(state.value, replica, s.value) else state == None && replica == map[]
    }

    /** One poll.  With faithful etags the replica then equals the server exactly
        when the ctag moved or nothing changed; a server that reports no ctag never
        moves it, so after the first poll its changes stay unseen. */
    method Poll(server: Option<Snapshot>, ghost before: Option<Snapshot>) returns (found: bool)
      requires Follows(before)
      requires before.Some? && server.Some? ==> EtagsFaithful(before.value, server.value)
      modifies this
      ensures found == server.Some?
      ensures !found ==> state == old(state) && replica == old(replica)
      ensures found ==> (replica == Bodies(server.value) <==>
                           before.None? || before.value.ctag != server.value.ctag || Bodies(before.value) == Bodies(server.value))
      ensures found && (before.None? || Faithful(before.value, server.value)) ==> Follows(server)
    {
      var shown := if server.Some? then server.value else Snapshot("", map[]);
      var r, changed := IncrementalSync(server, shown, shown, state);
      match r {
        case NotFound =>
          found := false;
        case Synced(events, deleted, newState) =>
          found := true;
          ghost var was := if before.Some? then before.value else Snapshot("", map[]);
          if state.Some? && state.value.ctag == server.value.ctag {
            assert Applied(replica, map[], []) == replica;
          } else {
            assert Etags(was) == if state.Some? then state.value.etags else map[];
            assert Bodies(was) == replica;
            assert events.Keys == changed;
            DeltaReproduces(was, server.value, events, deleted);
          }
          replica := Applied(replica, events, deleted);
          state := Some(newState);
      }
    }

    /** Polling a sequence of snapshots of a faithful server: after every poll the
        replica is the server's map. */
    method Follow(servers: seq<Snapshot>) returns (ghost seen: seq<map<Href, string>>)
      requires Follows(None)
      requires forall i, j :: 0 <= i < j < |servers| ==> Faithful(servers[i], servers[j])
      modifies this
      ensures |seen| == |servers| && forall i :: 0 <= i < |servers| ==> seen[i] == Bodies(servers[i])
      ensures servers != [] ==> replica == Bodies(servers[|servers| - 1])
    {
      seen := [];
      ghost var before: Option<Snapshot> := None;
      for i := 0 to |servers|
        invariant |seen| == i && forall k :: 0 <= k < i ==> seen[k] == Bodies(servers[k])
        invariant before == (if i == 0 then None else Some(servers[i - 1])) && Follows(before)
      {
        var _ := Poll(Some(servers[i]), before);
        before := Some(servers[i]);
        seen := seen + [replica];
      }
    }

    /** One poll, reading the server at three moments of its history. */
    method PollAt(history: seq<Snapshot>, n: Moments, ghost m: Option<Moments>) returns (ghost after: Moments)
      requires TagsNeverReused(history) && RacedSoFar(history, m, state, replica)
      requires InOrder(n, |history|) && (m.Some? ==> m.value.bodies <= n.ctag)
      modifies this
      ensures RacedSoFar(history, Some(after), state, replica) && after.bodies <= n.bodies
      ensures n.ctag == n.bodies ==> replica == Bodies(history[n.bodies])
    {
      var r, changed := IncrementalSync(Some(history[n.ctag]), history[n.etags], history[n.bodies], state);
      after := PollStep(history, m, state, replica, n, changed, r);
      replica := Applied(replica, r.events, r.deleted);
      state := Some(r.newState);
    }

    /** Whatever the server does between the requests of the polls, the first poll it
        lets finish undisturbed makes the replica its map again, if tags never return. */
    method FollowRacing(history: seq<Snapshot>, polls: seq<Moments>) returns (ghost seen: seq<map<Href, string>>)
      requires state.None? && replica == map[] && TagsNeverReused(history)
      requires forall p :: p in polls ==> InOrder(p, |history|)
      requires forall i, j :: 0 <= i < j < |polls| ==> polls[i].bodies <= polls[j].ctag
      modifies this
      ensures |seen| == |polls|
      ensures forall i :: 0 <= i < |polls| && InOrder(polls[i], |history|) && polls[i].ctag == polls[i].bodies ==>
                seen[i] == Bodies(history[polls[i].bodies])
    {
      seen := [];
      ghost var m: Option<Moments> := None;
      for i := 0 to |polls|
        invariant |seen| == i
        invariant forall k :: 0 <= k < i && InOrder(polls[k], |history|) && polls[k].ctag == polls[k].bodies ==>
                    seen[k] == Bodies(history[polls[k].bodies])
        invariant RacedSoFar(history, m, state, replica)
        invariant m.Some? ==> i > 0 && m.value.bodies <= polls[i - 1].bodies
      {
        assert polls[i] in polls;
        ghost var after := PollAt(history, polls[i], m);
        m := Some(after);
        seen := seen + [replica];
      }
    }

    /** Tags that are faithful but return can deceive it for good: a poll reads the
        etag of one body and then another body, the server goes back to the first,
        and no later poll finds anything to fetch. */
    method ReturningTagDeceives(href: Href, x: Item, y: Item, tag: Tag, other: Tag)
      requires state.None? && replica == map[]
      requires x.body != y.body && x.etag != y.etag && tag != other
      modifies this
      ensures var a, b := Snapshot(tag, map[href := x]), Snapshot(other, map[href := y]);
              Faithful(a, b) && !TagsNeverReused([a, b, a]) && replica != Bodies(a)
    {
      var a, b := Snapshot(tag, map[href := x]), Snapshot(other, map[href := y]);
      var r, changed := IncrementalSync(Some(a), a, b, state);
      assert href in changed && href !in r.deleted;
      replica, state := Applied(replica, r.events, r.deleted), Some(r.newState);
      assert replica[href] == y.body;
      r, changed := IncrementalSync(Some(a), a, a, state);
      assert Applied(replica, map[], []) == replica;
      replica, state := Applied(replica, r.events, r.deleted), Some(r.newState);
      assert Bodies(a)[href] == x.body;
      ghost var history := [a, b, a];
      assert !TagsKept(history[0], history[1], history[2]);
    }
  }
}
