/** The append-only change journal and what replaying it reconstructs. */
module Journal {
  import opened Optional

  type EventId = nat
  type AccountId = string

  datatype Change = Created | Updated | Deleted

  /** A row of `event_journal`: a change of one event (`unlinkedFrom` is set on the
      rows an account unlink writes, whose primary key names account and event),
      or the summary of an unlink, which names no event. */
  datatype Entry =
    | Entry(event: EventId, change: Change, unlinkedFrom: Option<AccountId>)
    | Summary(account: AccountId, eventsDeleted: nat, mirrorsDeleted: nat, edgesRemoved: nat, calendarsRemoved: nat)

  function Apply(m: map<EventId, nat>, e: Entry): map<EventId, nat> {
    if e.Summary? then m
    else match e.change
         case Created => m[e.event := 1]
         case Updated => if e.event in m then m[e.event := m[e.event] + 1] else m
         case Deleted => m - {e.event}
  }

  /** The live events and their versions, rebuilt from the journal alone. */
  function Replay(j: seq<Entry>): map<EventId, nat> {
    if j == [] then map[] else Apply(Replay(j[..|j| - 1]), j[|j| - 1])
  }

  /** Only absent events are created and only live ones updated or deleted. */
  ghost predicate WellFormed(j: seq<Entry>) {
    j == [] ||
    (WellFormed(j[..|j| - 1]) &&
     var e := j[|j| - 1];
     e.Entry? ==> (e.change == Created <==> e.event !in Replay(j[..|j| - 1])))
  }

  lemma {:induction false} ReplaySnoc(j: seq<Entry>, e: Entry)
    ensures Replay(j + [e]) == Apply(Replay(j), e)
    ensures WellFormed(j + [e]) <==>
              WellFormed(j) && (e.Entry? ==> (e.change == Created <==> e.event !in Replay(j)))
  {
    assert (j + [e])[..|j|] == j;
  }

  function Count(j: seq<Entry>, id: EventId, c: Change): nat {
    if j == [] then 0
    else Count(j[..|j| - 1], id, c)
         + (if j[|j| - 1].Entry? && j[|j| - 1].event == id && j[|j| - 1].change == c then 1 else 0)
  }

  /** The 'updated' entries of an event since its last 'created' entry. */
  function UpdatesSinceCreated(j: seq<Entry>, id: EventId): nat {
    if j == [] then 0
    else
      var e, before := j[|j| - 1], UpdatesSinceCreated(j[..|j| - 1], id);
      if e.Entry? && e.event == id && e.change == Created then 0
      else if e.Entry? && e.event == id && e.change == Updated then before + 1
      else before
  }

  /** An id is live iff its 'created' entries exceed its 'deleted' entries, then
      by exactly one; a live event's version counts its updates since creation. */
  lemma {:induction false} JournalCounts(j: seq<Entry>, id: EventId)
    requires WellFormed(j)
    ensures Count(j, id, Created) == Count(j, id, Deleted) + (if id in Replay(j) then 1 else 0)
    ensures id in Replay(j) ==> Replay(j)[id] == 1 + UpdatesSinceCreated(j, id)
  {
    if j != [] {
      JournalCounts(j[..|j| - 1], id);
    }
  }

  predicate Mentions(j: seq<Entry>, id: EventId) {
    exists e :: e in j && e.Entry? && e.event == id
  }

  lemma {:induction false} ReplayMentions(j: seq<Entry>, id: EventId)
    requires id in Replay(j)
    ensures Mentions(j, id)
  {
    var e := j[|j| - 1];
    if !(e.Entry? && e.event == id) {
      ReplayMentions(j[..|j| - 1], id);
      var x :| x in j[..|j| - 1] && x.Entry? && x.event == id;
      assert x in j;
    } else {
      assert e in j;
    }
  }

  lemma {:induction false} CountSnoc(j: seq<Entry>, e: Entry, id: EventId, c: Change)
    ensures Count(j + [e], id, c) == Count(j, id, c) + (if e.Entry? && e.event == id && e.change == c then 1 else 0)
    ensures Mentions(j + [e], id) <==> Mentions(j, id) || (e.Entry? && e.event == id)
  {
    assert (j + [e])[..|j|] == j;
    assert e in j + [e];
    forall x | x in j ensures x in j + [e] {}
  }

  /** A fresh id always exists. */
  function Above(j: seq<Entry>): (n: EventId)
    ensures forall e :: e in j && e.Entry? ==> e.event < n
  {
    if j == [] then 0
    else
      var n := Above(j[1..]);
      if j[0].Entry? && j[0].event >= n then j[0].event + 1 else n
  }

  /** Journal rows of a bulk deletion, one per event. */
  function Deletions(ids: seq<EventId>, from: Option<AccountId>): (r: seq<Entry>)
    ensures |r| == |ids| && forall i :: 0 <= i < |ids| ==> r[i] == Entry(ids[i], Deleted, from)
  {
    seq(|ids|, i requires 0 <= i < |ids| => Entry(ids[i], Deleted, from))
  }

  lemma {:induction false} DeletionsSnoc(ids: seq<EventId>, last: EventId, from: Option<AccountId>)
    ensures Deletions(ids + [last], from) == Deletions(ids, from) + [Entry(last, Deleted, from)]
  {
  }
}
