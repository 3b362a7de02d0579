/** Deep-work detection for one day, the incremental evaluation of a new event,
    and the cognitive-load metrics computed from the same gaps. */
module DeepWork {
  import opened Intervals
  import opened Optional
  import opened Sequences

  const MS_PER_HOUR := 3600000

  const DEEP_WORK_THRESHOLD_MINUTES := 120

  datatype Event = Event(
    allDay: bool, cancelled: bool, transparent: bool,
    start: Option<int>, end: Option<int>)

  datatype Block = Block(start: int, end: int, minutes: real)

  datatype Impact = Impact(
    breaksBlock: bool, affected: seq<Block>, lostMinutes: real, remaining: seq<Block>)

  predicate Active(e: Event) {
    !e.allDay && !e.cancelled && !e.transparent && e.start.Some? && e.end.Some?
  }

  function Minutes(s: Span): real {
    (s.end - s.start) as real / 60000.0
  }

  function ToBlock(s: Span): Block {
    Block(s.start, s.end, Minutes(s))
  }

  function WindowStart(midnight: int, hour: int): int {
    midnight + hour * MS_PER_HOUR
  }

  // ----- Specification -----

  function Clip(e: Event, from: int, to: int): seq<Span> {
    if Active(e) && Max(e.start.value, from) < Min(e.end.value, to)
    then [Span(Max(e.start.value, from), Min(e.end.value, to))]
    else []
  }

  /** The non-empty parts of the active events inside the window, in event order. */
  function Clipped(events: seq<Event>, from: int, to: int): seq<Span> {
    if events == [] then [] else Clip(events[0], from, to) + Clipped(events[1..], from, to)
  }

  /** The gaps of the day: the window minus the active events. */
  function Gaps(events: seq<Event>, from: int, to: int): seq<Span> {
    FreeFrom(from, Merge(Clipped(events, from, to)), to)
  }

  /** The block for one gap, when it is long enough. */
  function Kept(s: Span, minMinutes: real): seq<Block> {
    if Minutes(s) >= minMinutes then [ToBlock(s)] else []
  }

  function Qualifying(ss: seq<Span>, minMinutes: real): seq<Block> {
    if ss == [] then [] else Kept(ss[0], minMinutes) + Qualifying(ss[1..], minMinutes)
  }

  /** The deep-work blocks of a day, as a function of its events. */
  function DayBlocks(events: seq<Event>, midnight: int, startHour: int, endHour: int, minMinutes: real): seq<Block> {
    Qualifying(Gaps(events, WindowStart(midnight, startHour), WindowStart(midnight, endHour)), minMinutes)
  }

  function TotalMinutes(bs: seq<Block>): real {
    if bs == [] then 0.0 else bs[0].minutes + TotalMinutes(bs[1..])
  }

  function TotalLength(ss: seq<Span>): int {
    if ss == [] then 0 else (ss[0].end - ss[0].start) + TotalLength(ss[1..])
  }

  lemma {:induction false} ClippedInside(events: seq<Event>, from: int, to: int)
    ensures forall s :: s in Clipped(events, from, to) ==> from <= s.start < s.end <= to
  {
    if events != [] {
      ClippedInside(events[1..], from, to);
    }
  }

  // ----- The loops of the source -----

  lemma {:induction false} LastGap(cursor: int, to: int, minMinutes: real)
    requires minMinutes > 0.0
    ensures Qualifying(FreeFrom(cursor, [], to), minMinutes) == Kept(Span(cursor, to), minMinutes)
  { }

  method CollectClipped(events: seq<Event>, from: int, to: int) returns (clipped: seq<Span>)
    ensures clipped == Clipped(events, from, to)
  {
    clipped := [];
    var i := 0;
    while i < |events|
      invariant 0 <= i <= |events|
      invariant clipped + Clipped(events[i..], from, to) == Clipped(events, from, to)
    {
      assert events[i..][1..] == events[i + 1..];
      Assoc(clipped, Clip(events[i], from, to), Clipped(events[i + 1..], from, to));
      if Active(events[i]) {
        var start, end := Max(events[i].start.value, from), Min(events[i].end.value, to);
        if start < end {
          clipped := clipped + [Span(start, end)];
        }
      }
      i := i + 1;
    }
  }

  lemma {:induction false} FirstGap(cursor: int, merged: seq<Span>, to: int, minMinutes: real)
    requires minMinutes > 0.0 && merged != [] && cursor <= merged[0].start <= merged[0].end
    ensures Qualifying(FreeFrom(cursor, merged, to), minMinutes)
            == Kept(Span(cursor, merged[0].start), minMinutes)
               + Qualifying(FreeFrom(merged[0].end, merged[1..], to), minMinutes)
  {
    var rest := FreeFrom(merged[0].end, merged[1..], to);
    if merged[0].start > cursor {
      assert ([Span(cursor, merged[0].start)] + rest)[1..] == rest;
    } else {
      assert [] + rest == rest;
    }
  }

  method FindGaps(merged: seq<Span>, from: int, to: int, minMinutes: real) returns (blocks: seq<Block>)
    requires minMinutes > 0.0 && Normal(merged)
    requires forall s :: s in merged ==> from <= s.start
    ensures blocks == Qualifying(FreeFrom(from, merged, to), minMinutes)
  {
    blocks := [];
    var cursor := from;
    var i := 0;
    while i < |merged|
      invariant 0 <= i <= |merged|
      invariant i < |merged| ==> cursor <= merged[i].start
      invariant blocks + Qualifying(FreeFrom(cursor, merged[i..], to), minMinutes)
                == Qualifying(FreeFrom(from, merged, to), minMinutes)
    {
      assert merged[i..][1..] == merged[i + 1..];
      var gap := Span(cursor, merged[i].start);
      FirstGap(cursor, merged[i..], to, minMinutes);
      Assoc(blocks, Kept(gap, minMinutes), Qualifying(FreeFrom(merged[i].end, merged[i + 1..], to), minMinutes));
      if Minutes(gap) >= minMinutes {
        blocks := blocks + [ToBlock(gap)];
      }
      cursor := merged[i].end;
      i := i + 1;
    }
    assert merged[i..] == [];
    var trailing := Span(cursor, to);
    LastGap(cursor, to, minMinutes);
    if Minutes(trailing) >= minMinutes {
      blocks := blocks + [ToBlock(trailing)];
    }
  }

  lemma {:induction false} MergeInside(ss: seq<Span>, from: int, to: int)
    requires forall s :: s in ss ==> from <= s.start < s.end <= to
    ensures forall m :: m in Merge(ss) ==> from <= m.start < m.end <= to
  {
    MergeNormal(ss);
    MergePoints(ss);
    forall m | m in Merge(ss) ensures from <= m.start < m.end <= to {
      assert Covers(m, m.start) && Covers(m, m.end - 1);
      assert Covered(ss, m.start) && Covered(ss, m.end - 1);
    }
  }

  /** `detectDeepWorkBlocksForDay`. */
  method DetectDeepWorkBlocksForDay(
      events: seq<Event>, midnight: int, startHour: int, endHour: int, minMinutes: real)
    returns (blocks: seq<Block>)
    requires minMinutes > 0.0
    ensures blocks == DayBlocks(events, midnight, startHour, endHour, minMinutes)
  {
    var from, to := WindowStart(midnight, startHour), WindowStart(midnight, endHour);
    var clipped := CollectClipped(events, from, to);
    var merged := MergeTimeIntervals(clipped);
    ClippedInside(events, from, to);
    MergeNormal(clipped);
    MergeInside(clipped, from, to);
    blocks := FindGaps(merged, from, to, minMinutes);
  }

  predicate Overlaps(start: int, end: int, b: Block) {
    start < b.end && end > b.start
  }

  function Affected(start: int, end: int, bs: seq<Block>): seq<Block> {
    if bs == [] then []
    else (if Overlaps(start, end, bs[0]) then [bs[0]] else []) + Affected(start, end, bs[1..])
  }

  /** What is left of one block once [start, end) is taken out of it. */
  function Fragments(start: int, end: int, b: Block, minMinutes: real): seq<Block> {
    Kept(Span(b.start, Min(start, b.end)), minMinutes) + Kept(Span(Max(end, b.start), b.end), minMinutes)
  }

  function Remaining(start: int, end: int, bs: seq<Block>, minMinutes: real): seq<Block> {
    if bs == [] then []
    else (if Overlaps(start, end, bs[0]) then Fragments(start, end, bs[0], minMinutes) else [])
         + Remaining(start, end, bs[1..], minMinutes)
  }

  /** The state of the evaluation after i blocks. */
  ghost predicate Evaluated(start: int, end: int, existing: seq<Block>, minMinutes: real, i: nat,
                            affected: seq<Block>, remaining: seq<Block>, totalOriginal: real, totalRemaining: real)
    requires i <= |existing|
  {
    && affected + Affected(start, end, existing[i..]) == Affected(start, end, existing)
    && remaining + Remaining(start, end, existing[i..], minMinutes) == Remaining(start, end, existing, minMinutes)
    && totalOriginal == TotalMinutes(affected) && totalRemaining == TotalMinutes(remaining)
  }

  lemma {:induction false} TotalConcat(a: seq<Block>, b: seq<Block>)
    ensures TotalMinutes(a + b) == TotalMinutes(a) + TotalMinutes(b)
  {
    if a == [] {
      assert a + b == b;
    } else {
      TotalConcat(a[1..], b);
      assert (a + b)[1..] == a[1..] + b;
    }
  }

  lemma {:induction false} EvaluatedOn(start: int, end: int, existing: seq<Block>, minMinutes: real, i: nat,
      affected: seq<Block>, remaining: seq<Block>, totalOriginal: real, totalRemaining: real)
    requires i < |existing| && Evaluated(start, end, existing, minMinutes, i, affected, remaining, totalOriginal, totalRemaining)
    ensures var fragments := Fragments(start, end, existing[i], minMinutes);
            if Overlaps(start, end, existing[i]) then
              Evaluated(start, end, existing, minMinutes, i + 1, affected + [existing[i]], remaining + fragments,
                        totalOriginal + existing[i].minutes, totalRemaining + TotalMinutes(fragments))
            else
              Evaluated(start, end, existing, minMinutes, i + 1, affected, remaining, totalOriginal, totalRemaining)
  {
    assert existing[i..][1..] == existing[i + 1..];
    if Overlaps(start, end, existing[i]) {
      var fragments := Fragments(start, end, existing[i], minMinutes);
      TotalConcat(affected, [existing[i]]);
      TotalConcat(remaining, fragments);
      Assoc(affected, [existing[i]], Affected(start, end, existing[i + 1..]));
      Assoc(remaining, fragments, Remaining(start, end, existing[i + 1..], minMinutes));
    }
  }

  lemma {:induction false} EvaluatedAll(start: int, end: int, existing: seq<Block>, minMinutes: real,
      affected: seq<Block>, remaining: seq<Block>, totalOriginal: real, totalRemaining: real)
    requires Evaluated(start, end, existing, minMinutes, |existing|, affected, remaining, totalOriginal, totalRemaining)
    ensures affected == Affected(start, end, existing) && remaining == Remaining(start, end, existing, minMinutes)
    ensures totalOriginal == TotalMinutes(affected) && totalRemaining == TotalMinutes(remaining)
  {
    assert existing[|existing|..] == [];
  }

  method CarveBlock(start: int, end: int, b: Block, minMinutes: real) returns (fragments: seq<Block>, minutes: real)
    ensures fragments == Fragments(start, end, b, minMinutes) && minutes == TotalMinutes(fragments)
  {
    fragments, minutes := [], 0.0;
    var before := Span(b.start, Min(start, b.end));
    if Minutes(before) >= minMinutes {
      fragments, minutes := [ToBlock(before)], Minutes(before);
    }
    var after := Span(Max(end, b.start), b.end);
    if Minutes(after) >= minMinutes {
      TotalConcat(fragments, [ToBlock(after)]);
      fragments, minutes := fragments + [ToBlock(after)], minutes + Minutes(after);
    }
  }

  function ImpactOf(start: int, end: int, bs: seq<Block>, minMinutes: real): Impact {
    var lost := TotalMinutes(Affected(start, end, bs)) - TotalMinutes(Remaining(start, end, bs, minMinutes));
    Impact(Affected(start, end, bs) != [], Affected(start, end, bs),
           if lost > 0.0 then lost else 0.0,
           Remaining(start, end, bs, minMinutes))
  }

  /** `evaluateDeepWorkImpact`. */
  method EvaluateDeepWorkImpact(start: int, end: int, existing: seq<Block>, minMinutes: real)
    returns (impact: Impact)
    ensures impact == ImpactOf(start, end, existing, minMinutes)
  {
    if existing == [] {
      return Impact(false, [], 0.0, []);
    }
    var affected, remaining := [], [];
    var totalOriginal, totalRemaining := 0.0, 0.0;
    var i := 0;
    while i < |existing|
      invariant 0 <= i <= |existing|
      invariant Evaluated(start, end, existing, minMinutes, i, affected, remaining, totalOriginal, totalRemaining)
    {
      var b := existing[i];
      EvaluatedOn(start, end, existing, minMinutes, i, affected, remaining, totalOriginal, totalRemaining);
      if start < b.end && end > b.start {
        var fragments, minutes := CarveBlock(start, end, b, minMinutes);
        affected := affected + [b];
        totalOriginal := totalOriginal + b.minutes;
        remaining := remaining + fragments;
        totalRemaining := totalRemaining + minutes;
      }
      i := i + 1;
    }
    EvaluatedAll(start, end, existing, minMinutes, affected, remaining, totalOriginal, totalRemaining);
    var lost := totalOriginal - totalRemaining;
    impact := Impact(affected != [], affected, if lost > 0.0 then lost else 0.0, remaining);
  }

  function Unaffected(start: int, end: int, bs: seq<Block>): seq<Block> {
    if bs == [] then []
    else (if Overlaps(start, end, bs[0]) then [] else [bs[0]]) + Unaffected(start, end, bs[1..])
  }

  // ----- Incremental evaluation equals recomputation -----

  function Timed(start: int, end: int): Event {
    Event(false, false, false, Some(start), Some(end))
  }

  lemma {:induction false} ClippedCons(first: Event, rest: seq<Event>, from: int, to: int)
    ensures Clipped([first] + rest, from, to) == Clip(first, from, to) + Clipped(rest, from, to)
  {
    assert ([first] + rest)[1..] == rest;
  }

  lemma {:induction false} ClippedAppend(events: seq<Event>, e: Event, from: int, to: int)
    ensures Clipped(events + [e], from, to) == Clipped(events, from, to) + Clip(e, from, to)
  {
    if events == [] {
      assert events + [e] == [e] + events;
      ClippedCons(e, events, from, to);
    } else {
      ClippedAppend(events[1..], e, from, to);
      assert events + [e] == [events[0]] + (events[1..] + [e]);
      ClippedCons(events[0], events[1..] + [e], from, to);
      Assoc(Clip(events[0], from, to), Clipped(events[1..], from, to), Clip(e, from, to));
    }
  }

  lemma {:induction false} GapsPoints(events: seq<Event>, from: int, to: int)
    ensures forall t :: Covered(Gaps(events, from, to), t) <==>
                          from <= t < to && !Covered(Clipped(events, from, to), t)
    ensures Normal(Gaps(events, from, to))
  {
    var clipped := Clipped(events, from, to);
    ClippedInside(events, from, to);
    MergeInside(clipped, from, to);
    MergeNormal(clipped);
    MergePoints(clipped);
    MergeShape(clipped);
    FreeShape(from, Merge(clipped), to);
    forall t ensures Covered(Gaps(events, from, to), t) <==> from <= t < to && !Covered(clipped, t) {
      FreePoints(from, Merge(clipped), to, t);
    }
  }

  /** What [start, end) leaves of a gap. */
  function Cut(start: int, end: int, b: Span): seq<Span> {
    if start < b.end && end > b.start then
      (if b.start < Min(start, b.end) then [Span(b.start, Min(start, b.end))] else [])
      + (if Max(end, b.start) < b.end then [Span(Max(end, b.start), b.end)] else [])
    else [b]
  }

  function CutAll(start: int, end: int, ss: seq<Span>): seq<Span> {
    if ss == [] then [] else Cut(start, end, ss[0]) + CutAll(start, end, ss[1..])
  }

  lemma {:induction false} CutPoints(start: int, end: int, b: Span, t: int)
    requires start < end
    ensures Covered(Cut(start, end, b), t) <==> Covers(b, t) && !(start <= t < end)
  {
    var before, after := Span(b.start, Min(start, b.end)), Span(Max(end, b.start), b.end);
    var r := Cut(start, end, b);
    if start < b.end && end > b.start {
      assert forall x :: x in r <==> (x == before && before.start < before.end) || (x == after && after.start < after.end);
      assert Covered(r, t) <==> Covers(before, t) || Covers(after, t);
    } else {
      assert forall x :: x in r <==> x == b;
    }
  }

  lemma {:induction false} CutAllPoints(start: int, end: int, ss: seq<Span>, t: int)
    requires start < end
    ensures Covered(CutAll(start, end, ss), t) <==> Covered(ss, t) && !(start <= t < end)
  {
    if ss != [] {
      CutPoints(start, end, ss[0], t);
      CutAllPoints(start, end, ss[1..], t);
      CoveredCons(ss, t);
      CoveredConcat(Cut(start, end, ss[0]), CutAll(start, end, ss[1..]), t);
    }
  }

  lemma {:induction false} CutNormal(start: int, end: int, b: Span)
    requires start < end && b.start < b.end
    ensures Normal(Cut(start, end, b))
    ensures forall x :: x in Cut(start, end, b) ==> b.start <= x.start && x.end <= b.end
  {
  }

  lemma {:induction false} CutAllNormal(start: int, end: int, ss: seq<Span>)
    requires start < end && Normal(ss)
    ensures Normal(CutAll(start, end, ss))
    ensures forall x :: x in CutAll(start, end, ss) ==> ss != [] && ss[0].start <= x.start
  {
    if ss != [] {
      NormalTail(ss, 0);
      CutNormal(start, end, ss[0]);
      CutAllNormal(start, end, ss[1..]);
      assert ss[1..] != [] ==> ss[0].end < ss[1..][0].start;
    }
  }

  lemma {:induction false} ClipPoints(start: int, end: int, from: int, to: int, t: int)
    requires start < end && from <= t < to
    ensures Covered(Clip(Timed(start, end), from, to), t) <==> start <= t < end
  {
    var c := Clip(Timed(start, end), from, to);
    if c != [] {
      CoveredCons(c, t);
    }
  }

  /** The gaps after adding an event are the old gaps with the event cut out. */
  lemma {:induction false} GapsAfterEvent(events: seq<Event>, start: int, end: int, from: int, to: int)
    requires start < end
    ensures Gaps(events + [Timed(start, end)], from, to) == CutAll(start, end, Gaps(events, from, to))
  {
    var e := Timed(start, end);
    var gaps, cut, newGaps := Gaps(events, from, to), CutAll(start, end, Gaps(events, from, to)), Gaps(events + [e], from, to);
    GapsPoints(events, from, to);
    GapsPoints(events + [e], from, to);
    ClippedAppend(events, e, from, to);
    CutAllNormal(start, end, gaps);
    forall t ensures Covered(newGaps, t) <==> Covered(cut, t) {
      CutAllPoints(start, end, gaps, t);
      CoveredConcat(Clipped(events, from, to), Clip(e, from, to), t);
      if from <= t < to {
        ClipPoints(start, end, from, to, t);
      }
    }
    NormalUnique(newGaps, cut);
  }

  /** Every block replaced by what the event leaves of it. */
  function Replaced(start: int, end: int, bs: seq<Block>, minMinutes: real): seq<Block> {
    if bs == [] then []
    else (if Overlaps(start, end, bs[0]) then Fragments(start, end, bs[0], minMinutes) else [bs[0]])
         + Replaced(start, end, bs[1..], minMinutes)
  }

  lemma {:induction false} QualifyingConcat(a: seq<Span>, b: seq<Span>, minMinutes: real)
    ensures Qualifying(a + b, minMinutes) == Qualifying(a, minMinutes) + Qualifying(b, minMinutes)
  {
    if a == [] {
      assert a + b == b;
    } else {
      QualifyingConcat(a[1..], b, minMinutes);
      assert (a + b)[1..] == a[1..] + b;
      Assoc(Kept(a[0], minMinutes), Qualifying(a[1..], minMinutes), Qualifying(b, minMinutes));
    }
  }

  lemma {:induction false} QualifyingCut(start: int, end: int, b: Span, minMinutes: real)
    requires start < end && minMinutes > 0.0
    ensures Qualifying(Cut(start, end, b), minMinutes) ==
            if Minutes(b) < minMinutes then []
            else if Overlaps(start, end, ToBlock(b)) then Fragments(start, end, ToBlock(b), minMinutes)
            else [ToBlock(b)]
  {
    var before, after := Span(b.start, Min(start, b.end)), Span(Max(end, b.start), b.end);
    var first := if before.start < before.end then [before] else [];
    var second := if after.start < after.end then [after] else [];
    if start < b.end && end > b.start {
      QualifyingConcat(first, second, minMinutes);
      assert Qualifying(first, minMinutes) == Kept(before, minMinutes);
      assert Qualifying(second, minMinutes) == Kept(after, minMinutes);
    }
  }

  lemma {:induction false} QualifyingCutAll(start: int, end: int, ss: seq<Span>, minMinutes: real)
    requires start < end && minMinutes > 0.0
    ensures Qualifying(CutAll(start, end, ss), minMinutes)
            == Replaced(start, end, Qualifying(ss, minMinutes), minMinutes)
  {
    if ss != [] {
      QualifyingConcat(Cut(start, end, ss[0]), CutAll(start, end, ss[1..]), minMinutes);
      QualifyingCut(start, end, ss[0], minMinutes);
      QualifyingCutAll(start, end, ss[1..], minMinutes);
      var rest := Qualifying(ss[1..], minMinutes);
      if Minutes(ss[0]) >= minMinutes {
        assert ([ToBlock(ss[0])] + rest)[1..] == rest;
      } else {
        assert [] + rest == rest;
      }
    }
  }

  /** A block whose stated duration is the length of its span. */
  predicate Measured(bs: seq<Block>) {
    forall b :: b in bs ==> b == ToBlock(Span(b.start, b.end)) && b.start < b.end
  }

  lemma {:induction false} ReplacedSplits(start: int, end: int, bs: seq<Block>, minMinutes: real)
    ensures multiset(Replaced(start, end, bs, minMinutes))
            == multiset(Unaffected(start, end, bs)) + multiset(Remaining(start, end, bs, minMinutes))
  {
    if bs != [] {
      ReplacedSplits(start, end, bs[1..], minMinutes);
    }
  }

  lemma {:induction false} FragmentsTotal(start: int, end: int, b: Block, minMinutes: real)
    requires start < end && Measured([b])
    ensures TotalMinutes(Fragments(start, end, b, minMinutes)) <= b.minutes || !Overlaps(start, end, b)
  {
    assert b in [b];
    var before, after := Span(b.start, Min(start, b.end)), Span(Max(end, b.start), b.end);
    TotalConcat(Kept(before, minMinutes), Kept(after, minMinutes));
    assert Minutes(before) + Minutes(after) <= b.minutes || !Overlaps(start, end, b);
  }

  lemma {:induction false} ReplacedTotal(start: int, end: int, bs: seq<Block>, minMinutes: real)
    requires start < end && minMinutes > 0.0 && Measured(bs)
    ensures TotalMinutes(Replaced(start, end, bs, minMinutes)) == TotalMinutes(bs)
            - (TotalMinutes(Affected(start, end, bs)) - TotalMinutes(Remaining(start, end, bs, minMinutes)))
    ensures TotalMinutes(Remaining(start, end, bs, minMinutes)) <= TotalMinutes(Affected(start, end, bs))
  {
    if bs != [] {
      var b, rest := bs[0], bs[1..];
      assert b in bs;
      ReplacedTotal(start, end, rest, minMinutes);
      var fs := Fragments(start, end, b, minMinutes);
      FragmentsTotal(start, end, b, minMinutes);
      if Overlaps(start, end, b) {
        TotalConcat(fs, Replaced(start, end, rest, minMinutes));
        TotalConcat([b], Affected(start, end, rest));
        TotalConcat(fs, Remaining(start, end, rest, minMinutes));
      } else {
        TotalConcat([b], Replaced(start, end, rest, minMinutes));
        assert [] + Affected(start, end, rest) == Affected(start, end, rest);
        assert [] + Remaining(start, end, rest, minMinutes) == Remaining(start, end, rest, minMinutes);
      }
    }
  }

  lemma {:induction false} QualifyingMeasured(ss: seq<Span>, minMinutes: real)
    requires NonEmpty(ss)
    ensures Measured(Qualifying(ss, minMinutes))
  {
    if ss != [] {
      assert ss[0] in ss;
      QualifyingMeasured(ss[1..], minMinutes);
    }
  }

  lemma {:induction false} AffectedMembers(start: int, end: int, bs: seq<Block>)
    ensures forall b :: b in Affected(start, end, bs) <==> b in bs && Overlaps(start, end, b)
    ensures Affected(start, end, bs) != [] <==> exists b :: b in bs && Overlaps(start, end, b)
  {
    if bs != [] {
      AffectedMembers(start, end, bs[1..]);
      assert forall b :: b in bs <==> b == bs[0] || b in bs[1..];
      if Affected(start, end, bs) != [] {
        assert Affected(start, end, bs)[0] in Affected(start, end, bs);
      }
    }
  }

  /** Evaluating a new event against the blocks of a day gives what detection
      finds once the event is added: the untouched blocks and `remaining`
      together are the new blocks, and `lostMinutes` is the exact difference. */
  lemma {:induction false} IncrementalEqualsRecomputed(
      events: seq<Event>, midnight: int, startHour: int, endHour: int, start: int, end: int, minMinutes: real)
    requires start < end && minMinutes > 0.0
    ensures var before := DayBlocks(events, midnight, startHour, endHour, minMinutes);
            var after := DayBlocks(events + [Timed(start, end)], midnight, startHour, endHour, minMinutes);
            var impact := ImpactOf(start, end, before, minMinutes);
            && multiset(after) == multiset(Unaffected(start, end, before)) + multiset(impact.remaining)
            && after == Replaced(start, end, before, minMinutes)
            && impact.lostMinutes == TotalMinutes(before) - TotalMinutes(after)
            && (impact.breaksBlock <==> exists b :: b in before && Overlaps(start, end, b))
  {
    var from, to := WindowStart(midnight, startHour), WindowStart(midnight, endHour);
    var gaps := Gaps(events, from, to);
    var before := DayBlocks(events, midnight, startHour, endHour, minMinutes);
    GapsAfterEvent(events, start, end, from, to);
    QualifyingCutAll(start, end, gaps, minMinutes);
    GapsPoints(events, from, to);
    QualifyingMeasured(gaps, minMinutes);
    ReplacedSplits(start, end, before, minMinutes);
    ReplacedTotal(start, end, before, minMinutes);
    AffectedMembers(start, end, before);
  }

  // ----- Cognitive load over the same gaps -----

  method CountLongGaps(merged: seq<Span>, from: int, to: int) returns (blocks: nat)
    requires Normal(merged) && forall s :: s in merged ==> from <= s.start
    ensures blocks == |Qualifying(FreeFrom(from, merged, to), DEEP_WORK_THRESHOLD_MINUTES as real)|
  {
    blocks := 0;
    var cursor := from;
    var i := 0;
    while i < |merged|
      invariant 0 <= i <= |merged|
      invariant i < |merged| ==> cursor <= merged[i].start
      invariant blocks + |Qualifying(FreeFrom(cursor, merged[i..], to), DEEP_WORK_THRESHOLD_MINUTES as real)|
                == |Qualifying(FreeFrom(from, merged, to), DEEP_WORK_THRESHOLD_MINUTES as real)|
    {
      assert merged[i..][1..] == merged[i + 1..];
      FirstGap(cursor, merged[i..], to, DEEP_WORK_THRESHOLD_MINUTES as real);
      if merged[i].start - cursor >= DEEP_WORK_THRESHOLD_MINUTES * 60000 {
        blocks := blocks + 1;
      }
      cursor := merged[i].end;
      i := i + 1;
    }
    assert merged[i..] == [];
    LastGap(cursor, to, DEEP_WORK_THRESHOLD_MINUTES as real);
    if to - cursor >= DEEP_WORK_THRESHOLD_MINUTES * 60000 {
      blocks := blocks + 1;
    }
  }

  /** `computeDeepWorkBlocks`. */
  method ComputeDeepWorkBlocks(events: seq<Event>, midnight: int, startHour: int, endHour: int) returns (blocks: nat)
    ensures blocks == |DayBlocks(events, midnight, startHour, endHour, DEEP_WORK_THRESHOLD_MINUTES as real)|
  {
    var from, to := WindowStart(midnight, startHour), WindowStart(midnight, endHour);
    var clipped := CollectClipped(events, from, to);
    var merged := MergeTimeIntervals(clipped);
    ClippedInside(events, from, to);
    MergeNormal(clipped);
    MergeInside(clipped, from, to);
    blocks := CountLongGaps(merged, from, to);
  }

  lemma {:induction false} TotalCons(first: Span, rest: seq<Span>)
    ensures TotalLength([first] + rest) == first.end - first.start + TotalLength(rest)
  {
    assert ([first] + rest)[1..] == rest;
  }

  /** The first gap and what follows it. */
  lemma {:induction false} LengthNext(cursor: int, busy: seq<Span>, to: int)
    requires busy != [] && cursor <= busy[0].start <= busy[0].end
    ensures TotalLength(FreeFrom(cursor, busy, to)) == busy[0].start - cursor + TotalLength(FreeFrom(busy[0].end, busy[1..], to))
  {
    FreeNext(cursor, busy, 0, to);
    assert busy[0..] == busy;
    var tail := FreeFrom(busy[0].end, busy[1..], to);
    TotalCons(Span(cursor, busy[0].start), tail);
    assert [] + tail == tail;
  }

  lemma {:induction false} LengthsFill(cursor: int, busy: seq<Span>, to: int)
    requires Normal(busy) && cursor <= to
    requires forall s :: s in busy ==> cursor <= s.start && s.end <= to
    ensures TotalLength(busy) + TotalLength(FreeFrom(cursor, busy, to)) == to - cursor
    decreases |busy|
  {
    if busy == [] {
      TotalCons(Span(cursor, to), []);
    } else {
      assert busy[0] in busy;
      LengthsFill(busy[0].end, busy[1..], to);
      LengthNext(cursor, busy, to);
    }
  }

  /** Merged meeting time and the gaps add up to the working window. */
  lemma {:induction false} MeetingsAndGapsFillTheDay(events: seq<Event>, from: int, to: int)
    requires from <= to
    ensures TotalLength(Merge(Clipped(events, from, to))) + TotalLength(Gaps(events, from, to)) == to - from
  {
    var clipped := Clipped(events, from, to);
    ClippedInside(events, from, to);
    MergeNormal(clipped);
    MergeInside(clipped, from, to);
    LengthsFill(from, Merge(clipped), to);
  }

  method SumLengths(merged: seq<Span>) returns (total: int)
    ensures total == TotalLength(merged)
  {
    total := 0;
    var i := 0;
    while i < |merged|
      invariant 0 <= i <= |merged|
      invariant total + TotalLength(merged[i..]) == TotalLength(merged)
    {
      assert merged[i..][1..] == merged[i + 1..];
      total := total + (merged[i].end - merged[i].start);
      i := i + 1;
    }
  }

  lemma {:induction false} TotalNonNegative(ss: seq<Span>)
    requires NonEmpty(ss)
    ensures TotalLength(ss) >= 0
  {
    if ss != [] {
      assert ss[0] in ss;
      TotalNonNegative(ss[1..]);
    }
  }

  lemma {:induction false} NothingClipped(events: seq<Event>, from: int, to: int)
    requires from > to
    ensures Clipped(events, from, to) == []
  {
    if events != [] {
      NothingClipped(events[1..], from, to);
    }
  }

  /** Merged meeting time within the window; a reversed window has none. */
  method MeetingTime(events: seq<Event>, from: int, to: int) returns (total: int)
    ensures total == if from <= to then to - from - TotalLength(Gaps(events, from, to)) else 0
    ensures from <= to ==> total <= to - from
  {
    var clipped := CollectClipped(events, from, to);
    var merged := MergeTimeIntervals(clipped);
    total := SumLengths(merged);
    if from <= to {
      MeetingsAndGapsFillTheDay(events, from, to);
      FreeNonEmpty(from, Merge(Clipped(events, from, to)), to);
      TotalNonNegative(Gaps(events, from, to));
    } else {
      NothingClipped(events, from, to);
    }
  }

  /** A percentage capped at 100. */
  function Percent(part: int, whole: int): real
    requires whole != 0
  {
    var p := part as real / whole as real * 100.0;
    if p > 100.0 then 100.0 else p
  }

  /** The cap never changes the share of a part that fits in the whole. */
  lemma {:induction false} PercentIsShare(part: int, whole: int)
    requires part <= whole && whole > 0
    ensures Percent(part, whole) * whole as real == 100.0 * part as real
  {
    var q, w := part as real / whole as real, whole as real;
    assert q * w == part as real;
    assert (q - 1.0) * w <= 0.0;
    assert q <= 1.0;
    assert q * 100.0 * w == 100.0 * (q * w);
  }

  /** The density is the percentage that `part` is of `whole`. */
  predicate IsPercentage(density: real, part: int, whole: int) {
    density * whole as real == 100.0 * part as real
  }

  method Density(part: int, whole: int) returns (density: real)
    ensures whole == 0 || part == 0 ==> density == 0.0
    ensures 0 < whole && part <= whole ==> IsPercentage(density, part, whole)
  {
    if whole == 0 {
      return 0.0;
    }
    density := Percent(part, whole);
    if 0 < whole && part <= whole {
      PercentIsShare(part, whole);
    }
  }

  method DensityBetween(events: seq<Event>, from: int, to: int) returns (density: real)
    ensures if from < to then IsPercentage(density, to - from - TotalLength(Gaps(events, from, to)), to - from) else density == 0.0
  {
    var totalMeeting := MeetingTime(events, from, to);
    density := Density(totalMeeting, to - from);
  }

  /** `computeMeetingDensity`: the percentage of the window that is not a gap; a
      reversed or empty window has density 0. */
  method ComputeMeetingDensity(events: seq<Event>, midnight: int, startHour: int, endHour: int) returns (density: real)
    ensures var from, to := WindowStart(midnight, startHour), WindowStart(midnight, endHour);
            if from < to then IsPercentage(density, to - from - TotalLength(Gaps(events, from, to)), to - from) else density == 0.0
  {
    density := DensityBetween(events, WindowStart(midnight, startHour), WindowStart(midnight, endHour));
  }
}
