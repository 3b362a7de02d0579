/** `computeAvailability`: events, working hours, cutoffs, buffers and milestones
    combined into one free/busy answer for a query range. */
module Availability {
  import opened Intervals
  import opened BusyIntervals
  import opened WorkingHours

  const INTERNAL: AccountId := "internal"

  datatype EventRow = EventRow(start: int, end: int, origin: AccountId, isOpaque: bool, cancelled: bool)

  datatype BufferKind = Travel | Prep | Cooldown

  /** A validated buffer constraint: a positive number of minutes. */
  datatype Buffer = Buffer(kind: BufferKind, minutes: nat, externalOnly: bool)

  datatype Query = Query(start: int, end: int, accounts: set<AccountId>)

  datatype Constraints = Constraints(hours: seq<Hours>, cutoffs: seq<Cutoff>, buffers: seq<Buffer>, milestones: seq<Span>)

  predicate Selected(e: EventRow, q: Query) {
    && e.end > q.start && e.start < q.end
    && e.isOpaque && !e.cancelled
    && (q.accounts == {} || e.origin in q.accounts + {INTERNAL})
  }

  /** The rows the first query returns. */
  function Select(events: seq<EventRow>, q: Query): (r: seq<EventRow>)
    ensures forall e :: e in r <==> e in events && Selected(e, q)
  {
    if events == [] then []
    else (if Selected(events[0], q) then [events[0]] else []) + Select(events[1..], q)
  }

  predicate Applies(b: Buffer, e: EventRow) {
    !(b.externalOnly && e.origin == INTERNAL)
  }

  function BufferSpan(b: Buffer, e: EventRow): Span {
    if b.kind == Cooldown then Span(e.end, e.end + b.minutes * MINUTE)
    else Span(e.start - b.minutes * MINUTE, e.start)
  }

  /** The names constraints sign their busy time with. */
  const TAGS: set<AccountId> := {"working_hours", "no_meetings_after", "buffer", "milestones"}

  function Tag(ss: seq<Span>, a: AccountId): (r: seq<Busy>)
    ensures SpansOf(r) == ss
    ensures forall b :: b in r ==> b.accounts == [a]
  {
    if ss == [] then [] else [Busy(ss[0], [a])] + Tag(ss[1..], a)
  }

  ghost predicate EventBusy(b: Busy, rows: seq<EventRow>) {
    exists e :: e in rows && b == Busy(Span(e.start, e.end), [e.origin])
  }

  /** Some selected event of the account lies inside the span. */
  ghost predicate BusyFor(rows: seq<EventRow>, m: Span, a: AccountId) {
    exists e :: e in rows && e.origin == a && Inside(Span(e.start, e.end), m)
  }

  ghost predicate BufferCovers(bs: seq<Buffer>, events: seq<EventRow>, t: int) {
    exists b, e :: b in bs && e in events && Applies(b, e) && Covers(BufferSpan(b, e), t)
  }

  ghost predicate EventCovers(events: seq<EventRow>, t: int) {
    exists e :: e in events && e.start <= t < e.end
  }

  ghost predicate BufferOf(s: Span, bs: seq<Buffer>, events: seq<EventRow>) {
    exists b, e :: b in bs && e in events && Applies(b, e) && s == BufferSpan(b, e)
  }

  /** `expandBuffersToBusy`. */
  method ExpandBuffers(bs: seq<Buffer>, events: seq<EventRow>) returns (spans: seq<Span>)
    ensures forall s :: s in spans <==> BufferOf(s, bs, events)
  {
    spans := [];
    if bs == [] || events == [] {
      return;
    }
    var i := 0;
    while i < |bs|
      invariant 0 <= i <= |bs|
      invariant forall s :: s in spans <==> BufferOf(s, bs[..i], events)
    {
      ghost var before := spans;
      var j := 0;
      while j < |events|
        invariant 0 <= j <= |events|
        invariant forall s :: s in spans <==> s in before || BufferOf(s, [bs[i]], events[..j])
      {
        var e := events[j];
        assert events[..j + 1] == events[..j] + [e];
        if Applies(bs[i], e) {
          spans := spans + [BufferSpan(bs[i], e)];
        }
        j := j + 1;
      }
      assert events[..j] == events;
      assert bs[..i + 1] == bs[..i] + [bs[i]];
      i := i + 1;
    }
    assert bs[..i] == bs;
  }

  ghost predicate AllForward(events: seq<EventRow>) {
    forall e :: e in events ==> e.start <= e.end
  }

  ghost predicate OutsideHours(hs: seq<Hours>, q: Query, t: int) {
    hs != [] && q.start <= t < q.end && !WorkedBy(hs, t)
  }

  /** The free instants of the answer, stated on the raw inputs. */
  ghost predicate FreeAt(events: seq<EventRow>, c: Constraints, q: Query, t: int) {
    && q.start <= t < q.end
    && !EventCovers(Select(events, q), t)
    && !OutsideHours(c.hours, q, t)
    && !AfterCutoff(c.cutoffs, q.start, q.end, t)
    && !BufferCovers(c.buffers, Select(events, q), t)
    && !Covered(c.milestones, t)
  }

  method EventSpans(rows: seq<EventRow>) returns (busy: seq<Busy>)
    ensures |busy| == |rows|
    ensures forall i :: 0 <= i < |rows| ==> busy[i] == Busy(Span(rows[i].start, rows[i].end), [rows[i].origin])
  {
    busy := [];
    for i := 0 to |rows|
      invariant |busy| == i
      invariant forall j :: 0 <= j < i ==> busy[j] == Busy(Span(rows[j].start, rows[j].end), [rows[j].origin])
    {
      busy := busy + [Busy(Span(rows[i].start, rows[i].end), [rows[i].origin])];
    }
  }

  lemma {:induction false} SpansConcat(a: seq<Busy>, b: seq<Busy>)
    ensures SpansOf(a + b) == SpansOf(a) + SpansOf(b)
  {
  }

  /** Every raw busy interval starts before the range ends or touches one that does. */
  ghost predicate Anchored(raw: seq<Span>, rangeEnd: int) {
    forall s :: s in raw ==>
      s.start <= rangeEnd || exists e :: e in raw && e.start <= rangeEnd && e.end == s.start
  }

  lemma {:induction false} MergedApart(merged: seq<Span>, j: nat, i: nat)
    requires SortedByStart(merged) && i < |merged| && j < |merged|
    requires forall k :: 0 <= k < |merged| - 1 ==> merged[k].end < merged[k + 1].start
    ensures merged[j].start < merged[i].start ==> merged[j].end < merged[i].start
  {
    if j < i {
      assert merged[j].end < merged[j + 1].start;
    }
  }

  /** A merged interval does not start where a raw one that began earlier ends. */
  lemma {:induction false} NoMergedStartAtEnd(raw: seq<Span>, e: Span, m: Span)
    requires e in raw && e.start <= e.end && m in Merge(raw) && m.start == e.end
    ensures m.start <= e.start
  {
    var merged := Merge(raw);
    MergeShape(raw);
    MergeContains(raw, e);
    var k :| k in merged && k.start <= e.start && e.end <= k.end;
    var i :| 0 <= i < |merged| && merged[i] == m;
    var j :| 0 <= j < |merged| && merged[j] == k;
    MergedApart(merged, j, i);
  }

  /** Cooldown buffers may start after the range, but never on their own: no
      merged interval does. */
  lemma {:induction false} AnchoredMerge(raw: seq<Span>, rangeEnd: int)
    requires Anchored(raw, rangeEnd)
    ensures forall m :: m in Merge(raw) ==> m.start <= rangeEnd
  {
    MergeShape(raw);
    var merged := Merge(raw);
    forall m | m in merged ensures m.start <= rangeEnd {
      var s :| s in raw && s.start == m.start;
      if s.start > rangeEnd {
        var e :| e in raw && e.start <= rangeEnd && e.end == s.start;
        NoMergedStartAtEnd(raw, e, m);
      }
    }
  }

  /** For arbitrary raw spans the gaps are exactly the uncovered instants; when
      no raw span runs backwards they are also in order. */
  lemma {:induction false} FreeIsComplement(raw: seq<Span>, rangeStart: int, rangeEnd: int)
    requires Anchored(raw, rangeEnd)
    ensures var free := FreeFrom(rangeStart, Merge(raw), rangeEnd);
            && (forall t :: Covered(free, t) <==> rangeStart <= t < rangeEnd && !Covered(raw, t))
            && (forall f :: f in free ==> rangeStart <= f.start < f.end <= rangeEnd)
            && (Forward(raw) ==> forall i, j :: 0 <= i < j < |free| ==> free[i].end <= free[j].start)
  {
    var free := FreeFrom(rangeStart, Merge(raw), rangeEnd);
    MergeShape(raw);
    MergePoints(raw);
    AnchoredMerge(raw, rangeEnd);
    if Forward(raw) {
      FreeShape(rangeStart, Merge(raw), rangeEnd);
    }
    FreeNonEmpty(rangeStart, Merge(raw), rangeEnd);
    forall t ensures Covered(free, t) <==> rangeStart <= t < rangeEnd && !Covered(raw, t) {
      FreePoints(rangeStart, Merge(raw), rangeEnd, t);
    }
    forall f | f in free ensures rangeStart <= f.start < f.end <= rangeEnd {
      assert Covers(f, f.start) && Covers(f, f.end - 1);
      assert Covered(free, f.start) && Covered(free, f.end - 1);
    }
  }

  /** What the raw busy intervals are, before merging. */
  ghost predicate RawBusy(rows: seq<EventRow>, c: Constraints, q: Query, raw: seq<Busy>) {
    && Anchored(SpansOf(raw), q.end)
    && (AllForward(rows) ==> Forward(SpansOf(raw)))
    && (forall t :: Covered(SpansOf(raw), t) <==>
          EventCovers(rows, t) || OutsideHours(c.hours, q, t) || AfterCutoff(c.cutoffs, q.start, q.end, t)
          || BufferCovers(c.buffers, rows, t) || Covered(c.milestones, t))
    && (forall b :: EventBusy(b, rows) ==> b in raw)
    && (forall b :: b in raw ==> EventBusy(b, rows) || (|b.accounts| == 1 && b.accounts[0] in TAGS))
  }

  function AllRaw(fromEvents: seq<Busy>, outside: seq<Span>, evenings: seq<Span>, buffers: seq<Span>, milestones: seq<Span>): seq<Busy> {
    fromEvents + Tag(outside, "working_hours") + Tag(evenings, "no_meetings_after")
    + Tag(buffers, "buffer") + Tag(milestones, "milestones")
  }

  lemma {:induction false} RawMembers(rows: seq<EventRow>, fromEvents: seq<Busy>,
                                      outside: seq<Span>, evenings: seq<Span>, buffers: seq<Span>, milestones: seq<Span>)
    requires forall b :: b in fromEvents <==> EventBusy(b, rows)
    ensures forall b :: EventBusy(b, rows) ==> b in AllRaw(fromEvents, outside, evenings, buffers, milestones)
    ensures forall b :: b in AllRaw(fromEvents, outside, evenings, buffers, milestones) ==>
              EventBusy(b, rows) || (|b.accounts| == 1 && b.accounts[0] in TAGS)
  {
  }

  lemma {:induction false} EventBusyMembers(rows: seq<EventRow>, busy: seq<Busy>)
    requires |busy| == |rows|
    requires forall i :: 0 <= i < |rows| ==> busy[i] == Busy(Span(rows[i].start, rows[i].end), [rows[i].origin])
    ensures forall b :: b in busy <==> EventBusy(b, rows)
  {
    forall b ensures b in busy <==> EventBusy(b, rows) {
      if b in busy {
        var i :| 0 <= i < |busy| && busy[i] == b;
        assert rows[i] in rows;
      }
      if e :| e in rows && b == Busy(Span(e.start, e.end), [e.origin]) {
        var i :| 0 <= i < |rows| && rows[i] == e;
        assert busy[i] == b;
      }
    }
  }

  ghost predicate FromEvent(s: Span, rows: seq<EventRow>) {
    exists e :: e in rows && s == Span(e.start, e.end)
  }

  lemma {:induction false} EventSpanMembers(rows: seq<EventRow>, busy: seq<Busy>)
    requires |busy| == |rows|
    requires forall i :: 0 <= i < |rows| ==> busy[i] == Busy(Span(rows[i].start, rows[i].end), [rows[i].origin])
    ensures forall s :: s in SpansOf(busy) <==> FromEvent(s, rows)
  {
    forall s ensures s in SpansOf(busy) <==> FromEvent(s, rows) {
      if s in SpansOf(busy) {
        var i :| 0 <= i < |busy| && SpansOf(busy)[i] == s;
        assert rows[i] in rows;
      }
      if e :| e in rows && s == Span(e.start, e.end) {
        var i :| 0 <= i < |rows| && rows[i] == e;
        assert SpansOf(busy)[i] == s;
      }
    }
  }

  lemma {:induction false} RawSpans(fromEvents: seq<Busy>, outside: seq<Span>, evenings: seq<Span>, buffers: seq<Span>, milestones: seq<Span>)
    ensures SpansOf(AllRaw(fromEvents, outside, evenings, buffers, milestones))
            == SpansOf(fromEvents) + outside + evenings + buffers + milestones
  {
    var a := fromEvents + Tag(outside, "working_hours");
    SpansConcat(fromEvents, Tag(outside, "working_hours"));
    var b := a + Tag(evenings, "no_meetings_after");
    SpansConcat(a, Tag(evenings, "no_meetings_after"));
    var d := b + Tag(buffers, "buffer");
    SpansConcat(b, Tag(buffers, "buffer"));
    SpansConcat(d, Tag(milestones, "milestones"));
  }

  lemma {:induction false} RawAnchored(rows: seq<EventRow>, c: Constraints, q: Query, fromEvents: seq<Span>,
                    outside: seq<Span>, evenings: seq<Span>, buffers: seq<Span>, spans: seq<Span>)
    requires spans == fromEvents + outside + evenings + buffers + c.milestones
    requires forall s :: s in fromEvents <==> FromEvent(s, rows)
    requires forall s :: s in buffers <==> BufferOf(s, c.buffers, rows)
    requires forall e :: e in rows ==> e.start < q.end
    requires forall s :: s in outside || s in evenings ==> q.start <= s.start < s.end <= q.end
    requires forall s :: s in c.milestones ==> q.start <= s.start <= s.end <= q.end
    ensures Anchored(spans, q.end)
    ensures AllForward(rows) ==> Forward(spans)
  {
    forall s | s in spans
      ensures AllForward(rows) ==> s.start <= s.end
      ensures s.start <= q.end || exists e :: e in spans && e.start <= q.end && e.end == s.start
    {
      if s in fromEvents {
      } else if s in buffers {
        var b, e :| b in c.buffers && e in rows && Applies(b, e) && s == BufferSpan(b, e);
        assert FromEvent(Span(e.start, e.end), rows);
        assert Span(e.start, e.end) in spans;
        assert b.minutes * MINUTE >= 0;
      }
    }
  }

  lemma {:induction false} RawPoints(rows: seq<EventRow>, c: Constraints, fromEvents: seq<Span>,
                  outside: seq<Span>, evenings: seq<Span>, buffers: seq<Span>, spans: seq<Span>, t: int)
    requires spans == fromEvents + outside + evenings + buffers + c.milestones
    requires forall s :: s in fromEvents <==> FromEvent(s, rows)
    requires forall s :: s in buffers <==> BufferOf(s, c.buffers, rows)
    ensures Covered(spans, t) <==> EventCovers(rows, t) || Covered(outside, t) || Covered(evenings, t)
                                   || BufferCovers(c.buffers, rows, t) || Covered(c.milestones, t)
  {
    CoveredConcat(fromEvents, outside, t);
    CoveredConcat(fromEvents + outside, evenings, t);
    CoveredConcat(fromEvents + outside + evenings, buffers, t);
    CoveredConcat(fromEvents + outside + evenings + buffers, c.milestones, t);
    if EventCovers(rows, t) {
      var e :| e in rows && e.start <= t < e.end;
      assert FromEvent(Span(e.start, e.end), rows);
      assert Covers(Span(e.start, e.end), t);
    }
    if BufferCovers(c.buffers, rows, t) {
      var b, e :| b in c.buffers && e in rows && Applies(b, e) && Covers(BufferSpan(b, e), t);
      assert BufferOf(BufferSpan(b, e), c.buffers, rows);
    }
  }

  method CollectRaw(rows: seq<EventRow>, c: Constraints, q: Query) returns (raw: seq<Busy>)
    requires forall e :: e in rows ==> e.start < q.end
    requires forall s :: s in c.milestones ==> q.start <= s.start <= s.end <= q.end
    ensures RawBusy(rows, c, q, raw)
  {
    var fromEvents := EventSpans(rows);
    var outside := ExpandWorkingHours(c.hours, q.start, q.end);
    var evenings := ExpandNoMeetingsAfter(c.cutoffs, q.start, q.end);
    var buffers := ExpandBuffers(c.buffers, rows);
    raw := AllRaw(fromEvents, outside, evenings, buffers, c.milestones);
    RawSpans(fromEvents, outside, evenings, buffers, c.milestones);
    EventSpanMembers(rows, fromEvents);
    RawAnchored(rows, c, q, SpansOf(fromEvents), outside, evenings, buffers, SpansOf(raw));
    forall t ensures Covered(SpansOf(raw), t) <==>
                EventCovers(rows, t) || OutsideHours(c.hours, q, t) || AfterCutoff(c.cutoffs, q.start, q.end, t)
                || BufferCovers(c.buffers, rows, t) || Covered(c.milestones, t) {
      RawPoints(rows, c, SpansOf(fromEvents), outside, evenings, buffers, SpansOf(raw), t);
    }
    EventBusyMembers(rows, fromEvents);
    RawMembers(rows, fromEvents, outside, evenings, buffers, c.milestones);
  }

  lemma {:induction false} RawOwners(rows: seq<EventRow>, raw: seq<Busy>, m: Span, a: AccountId)
    requires forall b :: EventBusy(b, rows) ==> b in raw
    requires forall b :: b in raw ==> EventBusy(b, rows) || (|b.accounts| == 1 && b.accounts[0] in TAGS)
    requires a !in TAGS
    ensures OwnedWithin(raw, m, a) <==> BusyFor(rows, m, a)
  {
    if OwnedWithin(raw, m, a) {
      var b :| b in raw && Owns(b, m, a);
      var e :| e in rows && b == Busy(Span(e.start, e.end), [e.origin]);
      assert e.origin == a;
    }
    if BusyFor(rows, m, a) {
      var e :| e in rows && e.origin == a && Inside(Span(e.start, e.end), m);
      var b := Busy(Span(e.start, e.end), [e.origin]);
      assert EventBusy(b, rows);
      assert b.accounts[0] == a;
    }
  }

  lemma {:induction false} BusyOwners(rows: seq<EventRow>, c: Constraints, q: Query, raw: seq<Busy>)
    requires AllForward(rows) && RawBusy(rows, c, q, raw)
    ensures forall k, a :: 0 <= k < |MergeBusy(raw)| && a !in TAGS ==>
              (a in MergeBusy(raw)[k].accounts <==> BusyFor(rows, MergeBusy(raw)[k].span, a))
  {
    forall b | b in raw ensures b.span.start <= b.span.end {
      assert b.span in SpansOf(raw);
    }
    forall k, a | 0 <= k < |MergeBusy(raw)| && a !in TAGS
      ensures a in MergeBusy(raw)[k].accounts <==> BusyFor(rows, MergeBusy(raw)[k].span, a)
    {
      MergeAccounts(raw, k, a);
      RawOwners(rows, raw, MergeBusy(raw)[k].span, a);
    }
  }

  /** The gaps of what was collected, stated on the query's inputs. */
  lemma {:induction false} FreeOfRaw(events: seq<EventRow>, c: Constraints, q: Query, raw: seq<Busy>)
    requires RawBusy(Select(events, q), c, q, raw)
    ensures var free := FreeFrom(q.start, Merge(SpansOf(raw)), q.end);
            && (forall t :: Covered(free, t) <==> FreeAt(events, c, q, t))
            && (forall t :: q.start <= t < q.end ==> (Covered(free, t) <==> !Covered(Merge(SpansOf(raw)), t)))
            && (forall f :: f in free ==> q.start <= f.start < f.end <= q.end)
            && (AllForward(events) ==> forall i, j :: 0 <= i < j < |free| ==> free[i].end <= free[j].start)
  {
    FreeIsComplement(SpansOf(raw), q.start, q.end);
    MergePoints(SpansOf(raw));
  }

  /** The free intervals are non-empty, in order, inside the range, and contain
      exactly the instants no event, constraint or buffer takes; each busy
      interval carries the accounts of the raw intervals inside it. */
  method ComputeAvailability(events: seq<EventRow>, c: Constraints, q: Query)
    returns (busy: seq<Busy>, free: seq<Span>)
    requires forall s :: s in c.milestones ==> q.start <= s.start <= s.end <= q.end
    ensures forall t :: Covered(free, t) <==> FreeAt(events, c, q, t)
    ensures forall t :: q.start <= t < q.end ==> (Covered(free, t) <==> !Covered(SpansOf(busy), t))
    ensures forall f :: f in free ==> q.start <= f.start < f.end <= q.end
    ensures AllForward(events) ==> forall i, j :: 0 <= i < j < |free| ==> free[i].end <= free[j].start
    ensures AllForward(events) ==> forall k, a :: 0 <= k < |busy| && a !in TAGS ==>
              (a in busy[k].accounts <==> BusyFor(Select(events, q), busy[k].span, a))
  {
    var rows := Select(events, q);
    var raw := CollectRaw(rows, c, q);
    busy := MergeIntervals(raw);
    free := ComputeFreeIntervals(SpansOf(busy), q.start, q.end);
    MergeBusySpans(raw);
    FreeOfRaw(events, c, q, raw);
    if AllForward(events) {
      BusyOwners(rows, c, q, raw);
    }
  }
}
