/** Deletions that overlap at their awaits: a delete looks its event up, awaits
    the queue sends, and only then removes the row and journals the removal,
    without looking again.  Other requests run in between. */
module OverlappingDeletes {
  import opened Journal
  import opened Optional
  import opened CanonicalStore

  /** The store, and for each event the deletes that have found it and now wait. */
  datatype World = World(events: Events, journal: seq<Entry>, waiting: multiset<EventId>)

  datatype Step =
    | Create(id: EventId, row: Row)
    | Update(id: EventId, origin: AccountId, content: Content)
    | Find(id: EventId)
    | Finish(id: EventId)
    | Refuse(id: EventId)

  /** New events take generated ids, never used before; lookups succeed on live
      events only; a delete resumes only after its lookup.  One that ends as
      `Refuse` keeps its event: a send was refused, or a time allocation
      references the row. */
  ghost predicate Enabled(w: World, s: Step) {
    match s
    case Create(id, row) => !Mentions(w.journal, id) && row.version == 1
    case Update(id, _, _) => id in w.events
    case Find(id) => id in w.events
    case Finish(id) => id in w.waiting
    case Refuse(id) => id in w.waiting
  }

  function Take(w: World, s: Step): World {
    match s
    case Create(id, row) => w.(events := w.events[id := row], journal := w.journal + [Entry(id, Created, None)])
    case Update(id, origin, content) =>
      if id !in w.events then w
      else
        var row := w.events[id];
        w.(events := w.events[id := row.(origin := origin, content := content, version := row.version + 1)],
           journal := w.journal + [Entry(id, Updated, None)])
    case Find(id) => w.(waiting := w.waiting + multiset{id})
    case Finish(id) =>
      World(w.events - {id}, w.journal + [Entry(id, Deleted, None)], w.waiting - multiset{id})
    case Refuse(id) => w.(waiting := w.waiting - multiset{id})
  }

  function After(w: World, run: seq<Step>): World {
    if run == [] then w else Take(After(w, run[..|run| - 1]), run[|run| - 1])
  }

  ghost predicate Possible(w: World, run: seq<Step>) {
    run == [] || (Possible(w, run[..|run| - 1]) && Enabled(After(w, run[..|run| - 1]), run[|run| - 1]))
  }

  /** The deletes of an event that ran to their end. */
  function Finished(run: seq<Step>, id: EventId): nat {
    if run == [] then 0
    else Finished(run[..|run| - 1], id) + (if run[|run| - 1] == Finish(id) then 1 else 0)
  }

  ghost predicate Consistent(w: World) {
    InStep(w.events, w.journal)
  }

  /** In step, and no delete is under way. */
  ghost predicate Quiet(w: World) {
    Consistent(w) && w.waiting == multiset{}
  }

  /** No event has two deletes that both ran to their end. */
  ghost predicate OnceEach(run: seq<Step>) {
    forall id :: Finished(run, id) <= 1
  }

  // ----- One event -----

  function Surplus(finished: nat): nat {
    if finished > 1 then finished - 1 else 0
  }

  /** What `finished` completed deletes of an event leave of it: after the first
      it is gone for good, and every further one journals a removal too many. */
  ghost predicate Lives(w: World, id: EventId, finished: nat) {
    && (id in w.events || id in w.waiting || finished > 0 ==> Mentions(w.journal, id))
    && (id in w.waiting && finished == 0 ==> id in w.events)
    && (finished > 0 ==> id !in w.events)
    && Count(w.journal, id, Deleted) + (if id in w.events then 1 else 0)
       == Count(w.journal, id, Created) + Surplus(finished)
  }

  lemma {:induction false} LivesStep(w: World, s: Step, id: EventId, finished: nat)
    requires Lives(w, id, finished) && Enabled(w, s)
    ensures Lives(Take(w, s), id, if s == Finish(id) then finished + 1 else finished)
  {
    if s.Create? || s.Update? || s.Finish? {
      var change := if s.Create? then Created else if s.Update? then Updated else Deleted;
      CountSnoc(w.journal, Entry(s.id, change, None), id, Created);
      CountSnoc(w.journal, Entry(s.id, change, None), id, Deleted);
    }
  }

  lemma {:induction false} LivesAfter(w: World, run: seq<Step>, id: EventId)
    requires Quiet(w) && Possible(w, run)
    ensures Lives(After(w, run), id, Finished(run, id))
  {
    if run == [] {
      InStepCounts(w.events, w.journal);
      if id in w.events {
        LiveIsMentioned(w.events, w.journal, id);
      }
    } else {
      LivesAfter(w, run[..|run| - 1], id);
      LivesStep(After(w, run[..|run| - 1]), run[|run| - 1], id, Finished(run[..|run| - 1], id));
    }
  }

  /** Whatever overlaps, the journal holds exactly one removal too many for each
      completed delete of an event beyond its first. */
  lemma {:induction false} OverlapCounts(w: World, run: seq<Step>, id: EventId)
    requires Quiet(w) && Possible(w, run)
    ensures var v := After(w, run);
            Count(v.journal, id, Deleted) + (if id in v.events then 1 else 0)
            == Count(v.journal, id, Created) + Surplus(Finished(run, id))
  {
    LivesAfter(w, run, id);
  }

  // ----- The whole journal -----

  lemma {:induction false} StaysInStep(w: World, s: Step)
    requires Consistent(w) && Enabled(w, s) && (s.Finish? ==> s.id in w.events)
    ensures Consistent(Take(w, s))
  {
    match s
    case Create(id, row) =>
      if id in w.events {
        LiveIsMentioned(w.events, w.journal, id);
        assert false;
      }
      InsertInStep(w.events, w.journal, id, row);
    case Update(id, origin, content) =>
      UpdateInStep(w.events, w.journal, id, Take(w, s).events[id]);
    case Finish(id) =>
      DeleteInStep(w.events, w.journal, id, None);
    case _ =>
  }

  lemma {:induction false} OnceEachInStep(w: World, run: seq<Step>)
    requires Quiet(w) && Possible(w, run) && OnceEach(run)
    ensures Consistent(After(w, run))
  {
    if run != [] {
      var before, s := run[..|run| - 1], run[|run| - 1];
      forall id ensures Finished(before, id) <= 1 {
        assert Finished(run, id) >= Finished(before, id);
      }
      OnceEachInStep(w, before);
      if s.Finish? {
        assert Finished(run, s.id) == Finished(before, s.id) + 1;
        LivesAfter(w, before, s.id);
      }
      StaysInStep(After(w, before), s);
    }
  }

  lemma {:induction false} InStepOnceEach(w: World, run: seq<Step>, id: EventId)
    requires Quiet(w) && Possible(w, run) && Consistent(After(w, run))
    ensures Finished(run, id) <= 1
  {
    OverlapCounts(w, run, id);
    InStepCounts(After(w, run).events, After(w, run).journal);
  }

  /** The journal survives exactly the interleavings in which no event has two
      deletes that both ran to their end. */
  lemma {:induction false} OverlapInStepIff(w: World, run: seq<Step>)
    requires Quiet(w) && Possible(w, run)
    ensures Consistent(After(w, run)) <==> OnceEach(run)
  {
    if OnceEach(run) {
      OnceEachInStep(w, run);
    }
    if Consistent(After(w, run)) {
      forall id ensures Finished(run, id) <= 1 {
        InStepOnceEach(w, run, id);
      }
    }
  }

  lemma {:induction false} RunSnoc(w: World, run: seq<Step>, s: Step, id: EventId)
    ensures After(w, run + [s]) == Take(After(w, run), s)
    ensures Possible(w, run + [s]) <==> Possible(w, run) && Enabled(After(w, run), s)
    ensures Finished(run + [s], id) == Finished(run, id) + (if s == Finish(id) then 1 else 0)
  {
    assert (run + [s])[..|run|] == run;
  }

  /** Two deletes that both find a live event before either finishes, and both
      finish, put the journal out of step. */
  lemma {:induction false} BothFinish(w: World, id: EventId)
    requires Quiet(w) && id in w.events
    ensures var run := [] + [Find(id)] + [Find(id)] + [Finish(id)] + [Finish(id)];
            Possible(w, run) && !Consistent(After(w, run))
  {
    var one := [] + [Find(id)];
    var two := one + [Find(id)];
    var three := two + [Finish(id)];
    RunSnoc(w, [], Find(id), id);
    RunSnoc(w, one, Find(id), id);
    RunSnoc(w, two, Finish(id), id);
    RunSnoc(w, three, Finish(id), id);
    OverlapInStepIff(w, three + [Finish(id)]);
  }
}
