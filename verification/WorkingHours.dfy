/** Fixed-offset time zones, and the working-hours and no-meetings-after
    constraints expanded into busy spans of a query range. */
module WorkingHours {
  import opened Intervals
  import opened Optional

  const DAY := 86400000

  const MINUTE := 60000

  /** Minutes east of UTC, less than a day either way. */
  type Zone = m: int | -1440 < m < 1440

  /** A validated HH:MM, as minutes after midnight. */
  type ClockTime = m: int | 0 <= m < 1440

  const LAST_MINUTE: ClockTime := 1439

  /** A validated working-hours constraint: the end is after the start. */
  datatype HoursRaw = Hours(days: set<int>, start: ClockTime, end: ClockTime, zone: Zone)

  type Hours = h: HoursRaw | h.start < h.end witness Hours({}, 540, 1020, 0)

  datatype Cutoff = Cutoff(time: ClockTime, zone: Zone)

  function Local(t: int, z: Zone): int { t + z * MINUTE }

  function LocalDay(t: int, z: Zone): int { Local(t, z) / DAY }

  function LocalMs(t: int, z: Zone): int { Local(t, z) % DAY }

  /** 0 is Sunday; the epoch day was a Thursday. */
  function Weekday(t: int, z: Zone): int { (LocalDay(t, z) + 4) % 7 }

  predicate InHours(h: Hours, t: int) {
    Weekday(t, h.zone) in h.days && h.start * MINUTE <= LocalMs(t, h.zone) < h.end * MINUTE
  }

  predicate PastCutoff(c: Cutoff, t: int) {
    LocalMs(t, c.zone) >= c.time * MINUTE
  }

  lemma {:induction false} DayParts(x: int)
    ensures x == x / DAY * DAY + x % DAY && 0 <= x % DAY < DAY
  {
  }

  lemma {:induction false} DayOf(x: int, d: int, r: int)
    requires x == d * DAY + r && 0 <= r < DAY
    ensures x / DAY == d && x % DAY == r
  {
    DayParts(x);
    assert (x / DAY - d) * DAY == r - x % DAY;
  }

  /** `getTimestampForTimeInTimezone`: naive guess, then corrected by the local
      clock and date the guess shows.  The instant found has the local date of
      `base` and exactly the wall-clock time asked for. */
  function TimestampForTime(base: int, time: ClockTime, z: Zone): (r: int)
    ensures LocalDay(r, z) == LocalDay(base, z) && LocalMs(r, z) == time * MINUTE
    ensures Local(r, z) == LocalDay(base, z) * DAY + time * MINUTE
  {
    var date := LocalDay(base, z);
    var guess := date * DAY + time * MINUTE;
    var shownMinutes := LocalMs(guess, z) / MINUTE;
    var diff := (time - shownMinutes) * MINUTE;
    DayOf(date * DAY + time * MINUTE, date, time * MINUTE);
    if LocalDay(guess, z) != date then guess + diff + (date * DAY - LocalDay(guess, z) * DAY) else guess + diff
  }

  // ----- Working hours -----

  /** The part of one scanned local day's hours that falls in the range. */
  function HoursOfDay(h: Hours, scan: int, rangeStart: int, rangeEnd: int): seq<Span> {
    if Weekday(scan, h.zone) in h.days then
      var from := TimestampForTime(scan, h.start, h.zone);
      var to := TimestampForTime(scan, h.end, h.zone);
      if to > rangeStart && from < rangeEnd then [Span(Max(from, rangeStart), Min(to, rangeEnd))] else []
    else []
  }

  lemma {:induction false} HoursOfDayPoints(h: Hours, scan: int, rangeStart: int, rangeEnd: int, t: int)
    requires rangeStart < rangeEnd
    ensures Covered(HoursOfDay(h, scan, rangeStart, rangeEnd), t) <==>
              rangeStart <= t < rangeEnd && LocalDay(t, h.zone) == LocalDay(scan, h.zone) && InHours(h, t)
    ensures NonEmpty(HoursOfDay(h, scan, rangeStart, rangeEnd))
    ensures forall s :: s in HoursOfDay(h, scan, rangeStart, rangeEnd) ==> rangeStart <= s.start && s.end <= rangeEnd
  {
    var from, to := TimestampForTime(scan, h.start, h.zone), TimestampForTime(scan, h.end, h.zone);
    var ss := HoursOfDay(h, scan, rangeStart, rangeEnd);
    if ss != [] {
      CoveredCons(ss, t);
    }
  }

  /** The scan starts a day before the range and ends a day after it, so every
      local day that meets the range has a scanned instant. */
  lemma {:induction false} ScanMissesNoDay(rangeStart: int, rangeEnd: int, z: Zone, k: nat, t: int)
    requires rangeStart <= t < rangeEnd
    requires rangeStart - DAY + k * DAY >= rangeEnd + DAY
    ensures LocalDay(rangeStart - DAY, z) <= LocalDay(t, z) < LocalDay(rangeStart - DAY, z) + k
  {
    DayParts(Local(t, z));
    DayParts(Local(rangeStart - DAY, z));
  }

  lemma {:induction false} ScanDay(scanStart: int, z: Zone, k: int)
    ensures LocalDay(scanStart + k * DAY, z) == LocalDay(scanStart, z) + k
  {
    DayParts(Local(scanStart, z));
    DayOf(Local(scanStart + k * DAY, z), LocalDay(scanStart, z) + k, LocalMs(scanStart, z));
  }

  ghost predicate WorkedBy(hs: seq<Hours>, t: int) {
    exists h :: h in hs && InHours(h, t)
  }

  /** One constraint's pass over the scanned days. */
  method ScanHours(h: Hours, rangeStart: int, rangeEnd: int) returns (working: seq<Span>)
    requires rangeStart < rangeEnd
    ensures forall t :: Covered(working, t) <==> rangeStart <= t < rangeEnd && InHours(h, t)
    ensures NonEmpty(working)
    ensures forall s :: s in working ==> rangeStart <= s.start && s.end <= rangeEnd
  {
    working := [];
    var scanStart := rangeStart - DAY;
    var dayStart := scanStart;
    ghost var first := LocalDay(scanStart, h.zone);
    ghost var k := 0;
    while dayStart < rangeEnd + DAY
      invariant k >= 0 && dayStart == scanStart + k * DAY
      invariant NonEmpty(working)
      invariant forall s :: s in working ==> rangeStart <= s.start && s.end <= rangeEnd
      invariant forall t :: Covered(working, t) <==>
                  rangeStart <= t < rangeEnd && first <= LocalDay(t, h.zone) < first + k && InHours(h, t)
      decreases rangeEnd + DAY - dayStart
    {
      var today := HoursOfDay(h, dayStart, rangeStart, rangeEnd);
      ScanDay(scanStart, h.zone, k);
      ghost var before := working;
      working := working + today;
      forall t ensures Covered(working, t) <==> Covered(before, t) || Covered(today, t) {
        CoveredConcat(before, today, t);
      }
      forall t ensures Covered(today, t) <==>
                         rangeStart <= t < rangeEnd && LocalDay(t, h.zone) == first + k && InHours(h, t) {
        HoursOfDayPoints(h, dayStart, rangeStart, rangeEnd, t);
      }
      HoursOfDayPoints(h, dayStart, rangeStart, rangeEnd, 0);
      dayStart := dayStart + DAY;
      k := k + 1;
    }
    forall t | rangeStart <= t < rangeEnd ensures first <= LocalDay(t, h.zone) < first + k {
      ScanMissesNoDay(rangeStart, rangeEnd, h.zone, k, t);
    }
  }

  lemma {:induction false} OutsideOf(working: seq<Span>, rangeStart: int, rangeEnd: int)
    requires NonEmpty(working)
    requires forall s :: s in working ==> rangeStart <= s.start && s.end <= rangeEnd
    ensures var outside := FreeFrom(rangeStart, Merge(working), rangeEnd);
            && (forall t :: Covered(outside, t) <==> rangeStart <= t < rangeEnd && !Covered(working, t))
            && NonEmpty(outside)
            && (forall s :: s in outside ==> rangeStart <= s.start && s.end <= rangeEnd)
  {
    MergeNormal(working);
    MergeShape(working);
    MergePoints(working);
    forall m | m in Merge(working) ensures m.start <= rangeEnd {
      var s :| s in working && s.start == m.start;
    }
    FreeShape(rangeStart, Merge(working), rangeEnd);
    forall t ensures Covered(FreeFrom(rangeStart, Merge(working), rangeEnd), t) <==>
                       rangeStart <= t < rangeEnd && !Covered(working, t) {
      FreePoints(rangeStart, Merge(working), rangeEnd, t);
    }
  }

  /** `expandWorkingHoursToOutsideBusy`: an instant of the range is outside
      working hours exactly when no constraint's local window contains it. */
  method ExpandWorkingHours(hs: seq<Hours>, rangeStart: int, rangeEnd: int) returns (outside: seq<Span>)
    ensures forall t :: Covered(outside, t) <==> hs != [] && rangeStart <= t < rangeEnd && !WorkedBy(hs, t)
    ensures NonEmpty(outside)
    ensures forall s :: s in outside ==> rangeStart <= s.start && s.end <= rangeEnd
  {
    if hs == [] || rangeStart >= rangeEnd {
      return [];
    }
    var working := [];
    var i := 0;
    while i < |hs|
      invariant 0 <= i <= |hs|
      invariant NonEmpty(working)
      invariant forall s :: s in working ==> rangeStart <= s.start && s.end <= rangeEnd
      invariant forall t :: Covered(working, t) <==> rangeStart <= t < rangeEnd && WorkedBy(hs[..i], t)
    {
      var more := ScanHours(hs[i], rangeStart, rangeEnd);
      forall t ensures Covered(working + more, t) <==> Covered(working, t) || Covered(more, t) {
        CoveredConcat(working, more, t);
      }
      working := working + more;
      assert hs[..i + 1] == hs[..i] + [hs[i]];
      i := i + 1;
    }
    assert hs[..i] == hs;
    if working == [] {
      outside := [Span(rangeStart, rangeEnd)];
      forall t ensures Covered(outside, t) <==> rangeStart <= t < rangeEnd {
        CoveredCons(outside, t);
      }
      return;
    }
    var merged := MergeOverlapping(working);
    outside := ComputeFreeIntervals(merged, rangeStart, rangeEnd);
    OutsideOf(working, rangeStart, rangeEnd);
  }

  // ----- No meetings after -----

  function CutoffAt(c: Cutoff, scan: int): int { TimestampForTime(scan, c.time, c.zone) }

  /** Midnight at the end of the local day: 23:59 plus a minute. */
  function EndOfDay(z: Zone, scan: int): int { TimestampForTime(scan, LAST_MINUTE, z) + MINUTE }

  predicate Meets(c: Cutoff, scan: int, rangeStart: int, rangeEnd: int) {
    EndOfDay(c.zone, scan) > rangeStart && CutoffAt(c, scan) < rangeEnd
  }

  lemma {:induction false} PastCutoffWindow(c: Cutoff, scan: int, t: int)
    ensures CutoffAt(c, scan) <= t < EndOfDay(c.zone, scan) <==>
              LocalDay(t, c.zone) == LocalDay(scan, c.zone) && PastCutoff(c, t)
  {
    var x, d := Local(t, c.zone), LocalDay(scan, c.zone);
    DayParts(x);
    if d * DAY + c.time * MINUTE <= x < (d + 1) * DAY {
      DayOf(x, d, x - d * DAY);
    }
  }

  /** On the local days of `base` the cutoff of i comes before that of j, or with
      it and i is listed first. */
  predicate Leads(cs: seq<Cutoff>, i: nat, j: nat, base: int)
    requires i < |cs| && j < |cs|
  {
    CutoffAt(cs[i], base) < CutoffAt(cs[j], base) || (CutoffAt(cs[i], base) == CutoffAt(cs[j], base) && i <= j)
  }

  /** Constraint i leads those whose evening, on the scanned local days, meets
      the range. */
  ghost predicate Earliest(cs: seq<Cutoff>, i: nat, scan: int, rangeStart: int, rangeEnd: int) {
    && i < |cs| && Meets(cs[i], scan, rangeStart, rangeEnd)
    && (forall j: nat :: j < |cs| && Meets(cs[j], scan, rangeStart, rangeEnd) ==> Leads(cs, i, j, scan))
  }

  /** The instants one scan marks: the evening of the earliest constraint only. */
  ghost predicate MarkedBy(cs: seq<Cutoff>, scan: int, rangeStart: int, rangeEnd: int, t: int) {
    && rangeStart <= t < rangeEnd
    && exists i: nat :: Earliest(cs, i, scan, rangeStart, rangeEnd)
                        && CutoffAt(cs[i], scan) <= t < EndOfDay(cs[i].zone, scan)
  }

  function ScanAt(rangeStart: int, k: int): int { rangeStart - DAY + k * DAY }

  ghost predicate MarkedInScans(cs: seq<Cutoff>, rangeStart: int, rangeEnd: int, scans: int, t: int) {
    exists k :: 0 <= k < scans && MarkedBy(cs, ScanAt(rangeStart, k), rangeStart, rangeEnd, t)
  }

  ghost predicate Marked(cs: seq<Cutoff>, rangeStart: int, rangeEnd: int, t: int) {
    exists k :: 0 <= k && ScanAt(rangeStart, k) < rangeEnd + DAY
                && MarkedBy(cs, ScanAt(rangeStart, k), rangeStart, rangeEnd, t)
  }

  method EarliestCutoff(cs: seq<Cutoff>, scan: int, rangeStart: int, rangeEnd: int) returns (best: Option<nat>)
    ensures best.None? ==> forall c :: c in cs ==> !Meets(c, scan, rangeStart, rangeEnd)
    ensures best.Some? ==> Earliest(cs, best.value, scan, rangeStart, rangeEnd)
  {
    best := None;
    var i := 0;
    while i < |cs|
      invariant 0 <= i <= |cs|
      invariant best.None? ==> forall j :: 0 <= j < i ==> !Meets(cs[j], scan, rangeStart, rangeEnd)
      invariant best.Some? ==> best.value < i && Meets(cs[best.value], scan, rangeStart, rangeEnd)
      invariant best.Some? ==> forall j: nat :: j < i && Meets(cs[j], scan, rangeStart, rangeEnd) ==> Leads(cs, best.value, j, scan)
    {
      if Meets(cs[i], scan, rangeStart, rangeEnd) {
        if best.None? || CutoffAt(cs[i], scan) < CutoffAt(cs[best.value], scan) {
          best := Some(i);
        }
      }
      i := i + 1;
    }
  }

  /** What one scanned day adds. */
  method CutoffOfDay(cs: seq<Cutoff>, scan: int, rangeStart: int, rangeEnd: int) returns (evening: seq<Span>)
    ensures NonEmpty(evening) && forall s :: s in evening ==> rangeStart <= s.start && s.end <= rangeEnd
    ensures forall t :: Covered(evening, t) <==> MarkedBy(cs, scan, rangeStart, rangeEnd, t)
  {
    var best := EarliestCutoff(cs, scan, rangeStart, rangeEnd);
    evening := [];
    if best.Some? {
      var c := cs[best.value];
      var start := Max(CutoffAt(c, scan), rangeStart);
      var end := Min(EndOfDay(c.zone, scan), rangeEnd);
      if start < end {
        evening := [Span(start, end)];
      }
      forall t ensures Covered(evening, t) <==> MarkedBy(cs, scan, rangeStart, rangeEnd, t) {
        if evening != [] {
          CoveredCons(evening, t);
        }
        forall i: nat | Earliest(cs, i, scan, rangeStart, rangeEnd) ensures i == best.value {
        }
      }
    }
  }

  lemma {:induction false} ScansStep(cs: seq<Cutoff>, rangeStart: int, rangeEnd: int, k: nat, t: int)
    ensures MarkedInScans(cs, rangeStart, rangeEnd, k + 1, t) <==>
              MarkedInScans(cs, rangeStart, rangeEnd, k, t)
              || MarkedBy(cs, ScanAt(rangeStart, k), rangeStart, rangeEnd, t)
  {
    if MarkedInScans(cs, rangeStart, rangeEnd, k + 1, t) {
      var j :| 0 <= j < k + 1 && MarkedBy(cs, ScanAt(rangeStart, j), rangeStart, rangeEnd, t);
      if j < k {
        assert MarkedInScans(cs, rangeStart, rangeEnd, k, t);
      }
    }
    if MarkedInScans(cs, rangeStart, rangeEnd, k, t) {
      var j :| 0 <= j < k && MarkedBy(cs, ScanAt(rangeStart, j), rangeStart, rangeEnd, t);
      assert 0 <= j < k + 1;
    }
  }

  /** The day-by-day scan. */
  method ScanCutoffs(cs: seq<Cutoff>, rangeStart: int, rangeEnd: int) returns (busy: seq<Span>)
    ensures NonEmpty(busy) && forall s :: s in busy ==> rangeStart <= s.start && s.end <= rangeEnd
    ensures forall t :: Covered(busy, t) <==> Marked(cs, rangeStart, rangeEnd, t)
  {
    busy := [];
    if cs == [] || rangeStart >= rangeEnd {
      return;
    }
    var dayStart := rangeStart - DAY;
    ghost var k := 0;
    while dayStart < rangeEnd + DAY
      invariant k >= 0 && dayStart == ScanAt(rangeStart, k)
      invariant k > 0 ==> ScanAt(rangeStart, k - 1) < rangeEnd + DAY
      invariant NonEmpty(busy) && forall s :: s in busy ==> rangeStart <= s.start && s.end <= rangeEnd
      invariant forall t :: Covered(busy, t) <==> MarkedInScans(cs, rangeStart, rangeEnd, k, t)
      decreases rangeEnd + DAY - dayStart
    {
      var evening := CutoffOfDay(cs, dayStart, rangeStart, rangeEnd);
      forall t ensures Covered(busy + evening, t) <==> MarkedInScans(cs, rangeStart, rangeEnd, k + 1, t) {
        CoveredConcat(busy, evening, t);
        ScansStep(cs, rangeStart, rangeEnd, k, t);
      }
      busy := busy + evening;
      dayStart := dayStart + DAY;
      k := k + 1;
    }
    forall t ensures Covered(busy, t) <==> Marked(cs, rangeStart, rangeEnd, t) {
      if j :| 0 <= j < k && MarkedBy(cs, ScanAt(rangeStart, j), rangeStart, rangeEnd, t) {
        assert ScanAt(rangeStart, j) < rangeEnd + DAY;
      }
    }
  }

  // ----- Which instants that marks -----

  /** Every scan shows the same evenings, whole days apart. */
  lemma {:induction false} EveningShift(c: Cutoff, base: int, n: int)
    ensures CutoffAt(c, base + n * DAY) == CutoffAt(c, base) + n * DAY
    ensures EndOfDay(c.zone, base + n * DAY) == EndOfDay(c.zone, base) + n * DAY
  {
    ScanDay(base, c.zone, n);
  }

  lemma {:induction false} EveningOf(c: Cutoff, base: int)
    ensures base < EndOfDay(c.zone, base) <= base + DAY
    ensures EndOfDay(c.zone, base) - DAY <= CutoffAt(c, base) < EndOfDay(c.zone, base)
  {
    DayParts(Local(base, c.zone));
  }

  /** The constraint whose cutoff on the local day of `base` comes first. */
  function Leader(cs: seq<Cutoff>, base: int): (i: nat)
    requires cs != []
    ensures i < |cs| && forall j: nat :: j < |cs| ==> Leads(cs, i, j, base)
  {
    if |cs| == 1 then 0
    else
      var n := |cs| - 1;
      var i := Leader(cs[..n], base);
      assert forall j: nat :: j < n ==> Leads(cs[..n], i, j, base) && cs[..n][j] == cs[j];
      if CutoffAt(cs[n], base) < CutoffAt(cs[i], base) then n else i
  }

  /** The scan before the range meets nothing; on a later one a constraint meets
      the range exactly when its cutoff is before the end. */
  lemma {:induction false} MeetsFromStart(c: Cutoff, rangeStart: int, rangeEnd: int, k: nat)
    ensures Meets(c, ScanAt(rangeStart, k), rangeStart, rangeEnd) <==> k >= 1 && CutoffAt(c, ScanAt(rangeStart, k)) < rangeEnd
  {
    assert ScanAt(rangeStart, k) == rangeStart + (k - 1) * DAY;
    EveningShift(c, rangeStart, k - 1);
    EveningOf(c, rangeStart);
  }

  lemma {:induction false} LeadsShift(cs: seq<Cutoff>, i: nat, j: nat, base: int, n: int)
    requires i < |cs| && j < |cs| && Leads(cs, i, j, base)
    ensures Leads(cs, i, j, base + n * DAY)
  {
    EveningShift(cs[i], base, n);
    EveningShift(cs[j], base, n);
  }

  lemma {:induction false} LeaderMeets(cs: seq<Cutoff>, i: nat, j: nat, rangeStart: int, rangeEnd: int, k: nat)
    requires i < |cs| && j < |cs| && Meets(cs[j], ScanAt(rangeStart, k), rangeStart, rangeEnd)
    requires CutoffAt(cs[i], ScanAt(rangeStart, k)) <= CutoffAt(cs[j], ScanAt(rangeStart, k))
    ensures Meets(cs[i], ScanAt(rangeStart, k), rangeStart, rangeEnd)
  {
    MeetsFromStart(cs[j], rangeStart, rangeEnd, k);
    MeetsFromStart(cs[i], rangeStart, rangeEnd, k);
  }

  lemma {:induction false} ScanShift(rangeStart: int, k: int)
    ensures ScanAt(rangeStart, k) == rangeStart + (k - 1) * DAY
  {
  }

  lemma {:induction false} LeaderLeads(cs: seq<Cutoff>, rangeStart: int, k: nat, j: nat)
    requires j < |cs|
    ensures Leads(cs, Leader(cs, rangeStart), j, ScanAt(rangeStart, k))
  {
    var i := Leader(cs, rangeStart);
    ScanShift(rangeStart, k);
    assert Leads(cs, i, j, rangeStart);
    LeadsShift(cs, i, j, rangeStart, k - 1);
  }

  /** Whatever the scan, the leader at the range start is the earliest. */
  lemma {:induction false} LeaderIsEarliest(cs: seq<Cutoff>, rangeStart: int, rangeEnd: int, k: nat, j: nat)
    requires j < |cs| && Meets(cs[j], ScanAt(rangeStart, k), rangeStart, rangeEnd)
    ensures Earliest(cs, Leader(cs, rangeStart), ScanAt(rangeStart, k), rangeStart, rangeEnd)
  {
    LeaderLeads(cs, rangeStart, k, j);
    LeaderMeets(cs, Leader(cs, rangeStart), j, rangeStart, rangeEnd, k);
    forall m: nat | m < |cs| ensures Leads(cs, Leader(cs, rangeStart), m, ScanAt(rangeStart, k)) {
      LeaderLeads(cs, rangeStart, k, m);
    }
  }

  lemma {:induction false} EarliestUnique(cs: seq<Cutoff>, i: nat, j: nat, scan: int, rangeStart: int, rangeEnd: int)
    requires Earliest(cs, i, scan, rangeStart, rangeEnd) && Earliest(cs, j, scan, rangeStart, rangeEnd)
    ensures i == j
  {
  }

  /** Past the cutoff that comes first on the local day of the range start. */
  predicate AfterCutoff(cs: seq<Cutoff>, rangeStart: int, rangeEnd: int, t: int) {
    cs != [] && rangeStart <= t < rangeEnd && PastCutoff(cs[Leader(cs, rangeStart)], t)
  }

  lemma {:induction false} LeaderMarks(cs: seq<Cutoff>, rangeStart: int, rangeEnd: int, t: int)
    requires AfterCutoff(cs, rangeStart, rangeEnd, t)
    ensures Marked(cs, rangeStart, rangeEnd, t)
  {
    var i := Leader(cs, rangeStart);
    var c := cs[i];
    var k := LocalDay(t, c.zone) - LocalDay(rangeStart - DAY, c.zone);
    var scan := ScanAt(rangeStart, k);
    ScanDay(rangeStart - DAY, c.zone, k);
    DayParts(Local(t, c.zone));
    DayParts(Local(rangeStart - DAY, c.zone));
    PastCutoffWindow(c, scan, t);
    LeaderIsEarliest(cs, rangeStart, rangeEnd, k, i);
    assert MarkedBy(cs, scan, rangeStart, rangeEnd, t);
  }

  /** The scans mark exactly the instants past the leader's cutoff. */
  lemma {:induction false} MarkedIsAfterCutoff(cs: seq<Cutoff>, rangeStart: int, rangeEnd: int, t: int)
    ensures Marked(cs, rangeStart, rangeEnd, t) <==> AfterCutoff(cs, rangeStart, rangeEnd, t)
  {
    if cs == [] {
      return;
    }
    var i := Leader(cs, rangeStart);
    if Marked(cs, rangeStart, rangeEnd, t) {
      var k :| 0 <= k && ScanAt(rangeStart, k) < rangeEnd + DAY
               && MarkedBy(cs, ScanAt(rangeStart, k), rangeStart, rangeEnd, t);
      var scan := ScanAt(rangeStart, k);
      var j: nat :| Earliest(cs, j, scan, rangeStart, rangeEnd) && CutoffAt(cs[j], scan) <= t < EndOfDay(cs[j].zone, scan);
      LeaderIsEarliest(cs, rangeStart, rangeEnd, k, j);
      EarliestUnique(cs, i, j, scan, rangeStart, rangeEnd);
      PastCutoffWindow(cs[i], scan, t);
    } else if rangeStart <= t < rangeEnd && PastCutoff(cs[i], t) {
      LeaderMarks(cs, rangeStart, rangeEnd, t);
    }
  }

  ghost predicate PastSome(cs: seq<Cutoff>, t: int) {
    exists c :: c in cs && PastCutoff(c, t)
  }

  // ----- When that is every cutoff -----

  /** What the leader's evenings leave of the first evening of `c` in the range:
      from the end of the leader's day to its next cutoff. */
  function MissedFrom(lead: Cutoff, c: Cutoff, base: int): int {
    Max(CutoffAt(c, base), EndOfDay(lead.zone, base))
  }

  function MissedTo(lead: Cutoff, c: Cutoff, base: int): int {
    Min(EndOfDay(c.zone, base), CutoffAt(lead, base) + DAY)
  }

  predicate Misses(lead: Cutoff, c: Cutoff, rangeStart: int, rangeEnd: int) {
    MissedFrom(lead, c, rangeStart) < MissedTo(lead, c, rangeStart) && MissedFrom(lead, c, rangeStart) < rangeEnd
  }

  /** The expansion covers every instant of the range past some cutoff. */
  ghost predicate CoversAllCutoffs(cs: seq<Cutoff>, rangeStart: int, rangeEnd: int) {
    forall t :: rangeStart <= t < rangeEnd ==> (AfterCutoff(cs, rangeStart, rangeEnd, t) <==> PastSome(cs, t))
  }

  /** Between the end of a local day and the next day's cutoff. */
  lemma {:induction false} NotPast(c: Cutoff, base: int, t: int)
    requires EndOfDay(c.zone, base) <= t < CutoffAt(c, base) + DAY
    ensures !PastCutoff(c, t)
  {
    DayOf(Local(t, c.zone), LocalDay(base, c.zone) + 1, Local(t, c.zone) - (LocalDay(base, c.zone) + 1) * DAY);
  }

  /** Where a cutoff's evenings run on past the leader's, the first such instant
      is past a cutoff and unmarked. */
  lemma {:induction false} MissedInstant(cs: seq<Cutoff>, c: Cutoff, rangeStart: int, rangeEnd: int)
    requires cs != [] && c in cs && Misses(cs[Leader(cs, rangeStart)], c, rangeStart, rangeEnd)
    ensures var t := MissedFrom(cs[Leader(cs, rangeStart)], c, rangeStart);
            rangeStart <= t < rangeEnd && PastCutoff(c, t) && !AfterCutoff(cs, rangeStart, rangeEnd, t)
  {
    var lead := cs[Leader(cs, rangeStart)];
    var t := MissedFrom(lead, c, rangeStart);
    EveningOf(lead, rangeStart);
    PastCutoffWindow(c, rangeStart, t);
    NotPast(lead, rangeStart, t);
  }

  /** The local day of an instant past its cutoff, counted from the base. */
  lemma {:induction false} EveningIndex(c: Cutoff, base: int, t: int) returns (n: int)
    requires base <= t && PastCutoff(c, t)
    ensures n >= 0 && CutoffAt(c, base) + n * DAY <= t < EndOfDay(c.zone, base) + n * DAY
  {
    n := LocalDay(t, c.zone) - LocalDay(base, c.zone);
    DayParts(Local(t, c.zone));
    DayParts(Local(base, c.zone));
    ScanDay(base, c.zone, n);
    PastCutoffWindow(c, base + n * DAY, t);
    EveningShift(c, base, n);
  }

  lemma {:induction false} NotInEvening(c: Cutoff, base: int, n: int, t: int)
    requires !PastCutoff(c, t)
    ensures !(CutoffAt(c, base) + n * DAY <= t < EndOfDay(c.zone, base) + n * DAY)
  {
    EveningShift(c, base, n);
    PastCutoffWindow(c, base + n * DAY, t);
  }

  /** Conversely an instant past `c` but not past the leader lies in such a gap,
      some whole days later. */
  lemma {:induction false} UnmarkedIsMissed(cs: seq<Cutoff>, c: Cutoff, rangeStart: int, rangeEnd: int, t: int)
    requires cs != [] && c in cs && rangeStart <= t < rangeEnd && PastCutoff(c, t)
    requires !PastCutoff(cs[Leader(cs, rangeStart)], t)
    ensures Misses(cs[Leader(cs, rangeStart)], c, rangeStart, rangeEnd)
  {
    var i := Leader(cs, rangeStart);
    var lead := cs[i];
    var j :| 0 <= j < |cs| && cs[j] == c;
    assert Leads(cs, i, j, rangeStart);
    var n := EveningIndex(c, rangeStart, t);
    NotInEvening(lead, rangeStart, n, t);
    NotInEvening(lead, rangeStart, n + 1, t);
    EveningOf(c, rangeStart);
    EveningOf(lead, rangeStart);
  }

  /** Every instant past some cutoff is covered exactly when no constraint's
      evening runs past the end of the leader's day, before the leader's next
      cutoff and within the range. */
  lemma {:induction false} CoversAllIff(cs: seq<Cutoff>, rangeStart: int, rangeEnd: int)
    requires cs != []
    ensures CoversAllCutoffs(cs, rangeStart, rangeEnd) <==>
              rangeStart >= rangeEnd || forall c :: c in cs ==> !Misses(cs[Leader(cs, rangeStart)], c, rangeStart, rangeEnd)
  {
    var i := Leader(cs, rangeStart);
    if rangeStart < rangeEnd {
      if c :| c in cs && Misses(cs[i], c, rangeStart, rangeEnd) {
        MissedInstant(cs, c, rangeStart, rangeEnd);
        assert PastSome(cs, MissedFrom(cs[i], c, rangeStart));
      } else {
        forall t | rangeStart <= t < rangeEnd ensures AfterCutoff(cs, rangeStart, rangeEnd, t) <==> PastSome(cs, t) {
          assert cs[i] in cs;
          if c :| c in cs && PastCutoff(c, t) && !PastCutoff(cs[i], t) {
            UnmarkedIsMissed(cs, c, rangeStart, rangeEnd, t);
            assert false;
          }
        }
      }
    }
  }

  /** With one shared zone nothing is missed. */
  lemma {:induction false} SharedZoneCoversAll(cs: seq<Cutoff>, rangeStart: int, rangeEnd: int)
    requires cs != [] && forall c, d :: c in cs && d in cs ==> c.zone == d.zone
    ensures CoversAllCutoffs(cs, rangeStart, rangeEnd)
  {
    assert cs[Leader(cs, rangeStart)] in cs;
    CoversAllIff(cs, rangeStart, rangeEnd);
  }

  /** With two zones an evening can be cut short: 18:00 an hour east of UTC and
      20:00 in UTC leave 23:00 UTC free, although it is past the second cutoff. */
  lemma {:induction false} TwoZonesCutAnEveningShort()
    ensures !CoversAllCutoffs([Cutoff(1080, 60), Cutoff(1200, 0)], 0, DAY)
  {
    var cs := [Cutoff(1080, 60), Cutoff(1200, 0)];
    DayOf(Local(0, 60), 0, 60 * MINUTE);
    DayOf(Local(0, 0), 0, 0);
    assert CutoffAt(cs[0], 0) == 1020 * MINUTE && CutoffAt(cs[1], 0) == 1200 * MINUTE;
    assert EndOfDay(60, 0) == 1380 * MINUTE && EndOfDay(0, 0) == DAY;
    assert Leads(cs, Leader(cs, 0), 0, 0);
    assert cs[1] in cs && Misses(cs[0], cs[1], 0, DAY);
    CoversAllIff(cs, 0, DAY);
  }

  /** `expandNoMeetingsAfterToBusy`: the instants of the range past the cutoff of
      the constraint whose cutoff comes first on the local day of the range start;
      so past any cutoff exactly when no other evening runs on beyond its. */
  method ExpandNoMeetingsAfter(cs: seq<Cutoff>, rangeStart: int, rangeEnd: int) returns (busy: seq<Span>)
    ensures NonEmpty(busy) && forall s :: s in busy ==> rangeStart <= s.start && s.end <= rangeEnd
    ensures forall t :: Covered(busy, t) <==> AfterCutoff(cs, rangeStart, rangeEnd, t)
  {
    busy := ScanCutoffs(cs, rangeStart, rangeEnd);
    forall t ensures Covered(busy, t) <==> AfterCutoff(cs, rangeStart, rangeEnd, t) {
      MarkedIsAfterCutoff(cs, rangeStart, rangeEnd, t);
    }
  }
}
