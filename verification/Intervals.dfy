/** Half-open time spans, the four interval merges of the repository, and the
    gaps between merged spans.  Times are integer milliseconds. */
module Intervals {
  import opened Sequences

  datatype Span = Span(start: int, end: int)

  ghost predicate Covers(s: Span, t: int) {
    s.start <= t < s.end
  }

  ghost predicate Covered(ss: seq<Span>, t: int) {
    exists s :: s in ss && Covers(s, t)
  }

  ghost predicate SamePoints(a: seq<Span>, b: seq<Span>) {
    forall t :: Covered(a, t) <==> Covered(b, t)
  }

  ghost predicate SortedByStart(ss: seq<Span>) {
    forall i, j :: 0 <= i < j < |ss| ==> ss[i].start <= ss[j].start
  }

  /** Non-empty spans in order, with a positive gap between neighbours. */
  ghost predicate Normal(ss: seq<Span>) {
    && (forall i :: 0 <= i < |ss| ==> ss[i].start < ss[i].end)
    && (forall i, j :: 0 <= i < j < |ss| ==> ss[i].end < ss[j].start)
  }

  ghost predicate Forward(ss: seq<Span>) {
    forall s :: s in ss ==> s.start <= s.end
  }

  ghost predicate NonEmpty(ss: seq<Span>) {
    forall s :: s in ss ==> s.start < s.end
  }

  function Max(a: int, b: int): int { if a < b then b else a }

  function Min(a: int, b: int): int { if a < b then a else b }

  lemma {:induction false} CoveredConcat(a: seq<Span>, b: seq<Span>, t: int)
    ensures Covered(a + b, t) <==> Covered(a, t) || Covered(b, t)
  {
  }

  lemma {:induction false} CoveredCons(ss: seq<Span>, t: int)
    requires ss != []
    ensures Covered(ss, t) <==> Covers(ss[0], t) || Covered(ss[1..], t)
  {
    assert ss == [ss[0]] + ss[1..];
  }

  // ----- Sorting (the language's stable built-in sort) -----

  function Insert(s: Span, ss: seq<Span>): (r: seq<Span>)
    ensures multiset(r) == multiset{s} + multiset(ss)
  {
    if ss == [] then [s]
    else if s.start <= ss[0].start then [s] + ss
    else
      assert ss == [ss[0]] + ss[1..];
      [ss[0]] + Insert(s, ss[1..])
  }

  function SortByStart(ss: seq<Span>): (r: seq<Span>)
    ensures multiset(r) == multiset(ss)
    ensures |r| == |ss|
  {
    if ss == [] then []
    else
      assert ss == [ss[0]] + ss[1..];
      var r := Insert(ss[0], SortByStart(ss[1..]));
      assert |multiset(r)| == |r| && |multiset(ss)| == |ss|;
      r
  }

  lemma {:induction false} InsertSorted(s: Span, ss: seq<Span>)
    requires SortedByStart(ss)
    ensures SortedByStart(Insert(s, ss))
  {
    if ss != [] && s.start > ss[0].start {
      InsertSorted(s, ss[1..]);
      var r := Insert(s, ss[1..]);
      forall x | x in r ensures ss[0].start <= x.start {
        assert x in multiset(r);
        assert x == s || x in ss[1..];
      }
    }
  }

  lemma {:induction false} SortSorts(ss: seq<Span>)
    ensures SortedByStart(SortByStart(ss))
  {
    if ss != [] {
      SortSorts(ss[1..]);
      InsertSorted(ss[0], SortByStart(ss[1..]));
    }
  }

  lemma {:induction false} SortMembers(ss: seq<Span>)
    ensures forall x :: x in SortByStart(ss) <==> x in ss
  {
    forall x ensures x in SortByStart(ss) <==> x in ss {
      assert x in SortByStart(ss) <==> x in multiset(SortByStart(ss));
      assert x in ss <==> x in multiset(ss);
    }
  }

  // ----- Merging -----

  /** What a left-to-right sweep leaves when `cur` is the span being extended. */
  function Sweep(cur: Span, rest: seq<Span>): (r: seq<Span>)
    ensures r != [] && r[0].start == cur.start
    decreases |rest|
  {
    if rest == [] then [cur]
    else if rest[0].start <= cur.end then
      Sweep(Span(cur.start, Max(cur.end, rest[0].end)), rest[1..])
    else [cur] + Sweep(rest[0], rest[1..])
  }

  function Merge(ss: seq<Span>): seq<Span> {
    if ss == [] then []
    else
      var sorted := SortByStart(ss);
      Sweep(sorted[0], sorted[1..])
  }

  ghost predicate Chain(cur: Span, rest: seq<Span>) {
    SortedByStart(rest) && (rest != [] ==> cur.start <= rest[0].start)
  }

  lemma {:induction false} SweepPoints(cur: Span, rest: seq<Span>, t: int)
    requires Chain(cur, rest)
    ensures Covered(Sweep(cur, rest), t) <==> Covers(cur, t) || Covered(rest, t)
    decreases |rest|
  {
    if rest == [] {
      CoveredCons([cur], t);
    } else {
      CoveredCons(rest, t);
      if rest[0].start <= cur.end {
        SweepPoints(Span(cur.start, Max(cur.end, rest[0].end)), rest[1..], t);
      } else {
        SweepPoints(rest[0], rest[1..], t);
        CoveredConcat([cur], Sweep(rest[0], rest[1..]), t);
        CoveredCons([cur], t);
      }
    }
  }

  /** The sweep's starts come from the input, in order, and each span ends
      strictly before the next one starts. */
  lemma {:induction false} SweepShape(cur: Span, rest: seq<Span>)
    requires Chain(cur, rest)
    ensures SortedByStart(Sweep(cur, rest))
    ensures forall i :: 0 <= i < |Sweep(cur, rest)| - 1 ==>
              Sweep(cur, rest)[i].end < Sweep(cur, rest)[i + 1].start
    ensures forall m :: m in Sweep(cur, rest) ==>
              m.start == cur.start || exists r :: r in rest && r.start == m.start
    decreases |rest|
  {
    if rest != [] {
      if rest[0].start <= cur.end {
        SweepShape(Span(cur.start, Max(cur.end, rest[0].end)), rest[1..]);
      } else {
        SweepShape(rest[0], rest[1..]);
      }
    }
  }

  lemma {:induction false} SweepForward(cur: Span, rest: seq<Span>)
    requires Forward([cur] + rest)
    ensures Forward(Sweep(cur, rest))
    ensures NonEmpty([cur] + rest) ==> NonEmpty(Sweep(cur, rest))
    decreases |rest|
  {
    assert cur in [cur] + rest;
    if rest != [] {
      assert rest[0] in [cur] + rest;
      var wider := Span(cur.start, Max(cur.end, rest[0].end));
      assert forall x :: x in [wider] + rest[1..] ==> x == wider || x in [cur] + rest;
      assert forall x :: x in [rest[0]] + rest[1..] ==> x in [cur] + rest;
      if rest[0].start <= cur.end {
        SweepForward(wider, rest[1..]);
      } else {
        SweepForward(rest[0], rest[1..]);
      }
    }
  }

  lemma {:induction false} SweepContains(cur: Span, rest: seq<Span>, x: Span)
    requires x in [cur] + rest
    ensures exists m :: m in Sweep(cur, rest) && m.start <= x.start && x.end <= m.end
    requires Chain(cur, rest)
    decreases |rest|
  {
    if rest == [] {
      assert Sweep(cur, rest)[0] == cur;
    } else if rest[0].start <= cur.end {
      var wider := Span(cur.start, Max(cur.end, rest[0].end));
      if x in rest[1..] {
        SweepContains(wider, rest[1..], x);
      } else {
        assert x == cur || x == rest[0];
        SweepContains(wider, rest[1..], wider);
      }
    } else {
      if x == cur {
        assert Sweep(cur, rest)[0] == cur;
      } else {
        SweepContains(rest[0], rest[1..], x);
        var m :| m in Sweep(rest[0], rest[1..]) && m.start <= x.start && x.end <= m.end;
        assert m in Sweep(cur, rest);
      }
    }
  }

  /** Separation of neighbours is separation of all pairs once spans run forward. */
  lemma {:induction false} SeparatedPairs(ss: seq<Span>, i: nat, j: nat)
    requires Forward(ss) && i < j < |ss|
    requires forall k :: 0 <= k < |ss| - 1 ==> ss[k].end < ss[k + 1].start
    ensures ss[i].end < ss[j].start
    decreases j
  {
    assert ss[j - 1].end < ss[j - 1 + 1].start;
    if i < j - 1 {
      SeparatedPairs(ss, i, j - 1);
      assert ss[j - 1] in ss;
    }
  }

  // ----- Facts about Merge -----

  lemma {:induction false} SortedChain(ss: seq<Span>)
    requires ss != []
    ensures var s := SortByStart(ss);
            Chain(s[0], s[1..]) && [s[0]] + s[1..] == s && forall x :: x in s <==> x in ss
  {
    SortSorts(ss);
    SortMembers(ss);
  }

  lemma {:induction false} MergePoints(ss: seq<Span>)
    ensures SamePoints(Merge(ss), ss)
  {
    if ss != [] {
      SortedChain(ss);
      var s := SortByStart(ss);
      forall t ensures Covered(Merge(ss), t) <==> Covered(ss, t) {
        SweepPoints(s[0], s[1..], t);
        CoveredCons(s, t);
        assert Covered(s, t) <==> Covered(ss, t);
      }
    }
  }

  /** Neighbours in the merge are in order and separated. */
  lemma {:induction false} MergeSorted(ss: seq<Span>)
    ensures SortedByStart(Merge(ss))
    ensures forall i :: 0 <= i < |Merge(ss)| - 1 ==> Merge(ss)[i].end < Merge(ss)[i + 1].start
  {
    if ss != [] {
      SortedChain(ss);
      SweepShape(SortByStart(ss)[0], SortByStart(ss)[1..]);
    }
  }

  /** Every merged span starts where some span starts. */
  lemma {:induction false} MergeStarts(ss: seq<Span>)
    ensures forall m :: m in Merge(ss) ==> exists s :: s in ss && s.start == m.start
  {
    if ss != [] {
      SortedChain(ss);
      var s := SortByStart(ss);
      SweepShape(s[0], s[1..]);
      forall x | x in Merge(ss) ensures exists y :: y in ss && y.start == x.start {
        if x.start == s[0].start {
          assert s[0] in ss;
        }
      }
    }
  }

  lemma {:induction false} MergeForward(ss: seq<Span>)
    requires Forward(ss)
    ensures Forward(Merge(ss))
  {
    if ss != [] {
      SortedChain(ss);
      SweepForward(SortByStart(ss)[0], SortByStart(ss)[1..]);
    }
  }

  lemma {:induction false} ApartEverywhere(ss: seq<Span>)
    requires Forward(ss) && forall k :: 0 <= k < |ss| - 1 ==> ss[k].end < ss[k + 1].start
    ensures forall i, j :: 0 <= i < j < |ss| ==> ss[i].end < ss[j].start
  {
    forall i, j | 0 <= i < j < |ss| ensures ss[i].end < ss[j].start {
      SeparatedPairs(ss, i, j);
    }
  }

  lemma {:induction false} MergeShape(ss: seq<Span>)
    ensures SortedByStart(Merge(ss))
    ensures forall i :: 0 <= i < |Merge(ss)| - 1 ==> Merge(ss)[i].end < Merge(ss)[i + 1].start
    ensures Forward(ss) ==> Forward(Merge(ss))
    ensures Forward(ss) ==> forall i, j :: 0 <= i < j < |Merge(ss)| ==> Merge(ss)[i].end < Merge(ss)[j].start
    ensures forall m :: m in Merge(ss) ==> exists s :: s in ss && s.start == m.start
  {
    MergeSorted(ss);
    MergeStarts(ss);
    if Forward(ss) {
      MergeForward(ss);
      ApartEverywhere(Merge(ss));
    }
  }

  lemma {:induction false} MergeContains(ss: seq<Span>, x: Span)
    requires x in ss
    ensures exists m :: m in Merge(ss) && m.start <= x.start && x.end <= m.end
  {
    SortedChain(ss);
    var s := SortByStart(ss);
    SweepContains(s[0], s[1..], x);
  }

  lemma {:induction false} MergeNormal(ss: seq<Span>)
    requires NonEmpty(ss)
    ensures Normal(Merge(ss))
  {
    MergeShape(ss);
    if ss != [] {
      SortedChain(ss);
      var s := SortByStart(ss);
      SweepForward(s[0], s[1..]);
    }
  }

  // ----- The normal form is unique -----

  lemma {:induction false} NormalTail(ss: seq<Span>, t: int)
    requires Normal(ss) && ss != []
    ensures Normal(ss[1..])
    ensures Covered(ss[1..], t) <==> Covered(ss, t) && ss[0].end < t
    ensures Covered(ss, t) ==> ss[0].start <= t
  {
    CoveredCons(ss, t);
    forall s | s in ss[1..] ensures ss[0].end < s.start {
      var i :| 0 <= i < |ss[1..]| && ss[1..][i] == s;
      assert ss[i + 1] == s;
    }
  }

  /** Where the first span of a normal list starts and ends, read off its points. */
  lemma {:induction false} NormalHead(ss: seq<Span>)
    requires Normal(ss) && ss != []
    ensures Covered(ss, ss[0].start) && !Covered(ss, ss[0].end)
    ensures forall t :: ss[0].start <= t < ss[0].end ==> Covered(ss, t)
  {
    assert Covers(ss[0], ss[0].start);
    forall s | s in ss ensures !Covers(s, ss[0].end) {
      var i :| 0 <= i < |ss| && ss[i] == s;
    }
    forall t | ss[0].start <= t < ss[0].end ensures Covered(ss, t) {
      assert Covers(ss[0], t);
    }
  }

  /** Two normal lists with the same points are the same list. */
  lemma {:induction false} NormalUnique(a: seq<Span>, b: seq<Span>)
    requires Normal(a) && Normal(b) && SamePoints(a, b)
    ensures a == b
  {
    if a == [] || b == [] {
      if a != [] { NormalHead(a); }
      if b != [] { NormalHead(b); }
    } else {
      NormalHead(a);
      NormalHead(b);
      NormalTail(a, b[0].start);
      NormalTail(b, a[0].start);
      assert a[0].start == b[0].start;
      assert a[0].end == b[0].end;
      forall t ensures Covered(a[1..], t) <==> Covered(b[1..], t) {
        NormalTail(a, t);
        NormalTail(b, t);
      }
      NormalTail(a, 0);
      NormalTail(b, 0);
      NormalUnique(a[1..], b[1..]);
      assert a == [a[0]] + a[1..] && b == [b[0]] + b[1..];
    }
  }

  /** The merge of non-empty spans depends only on the points they cover: it is
      idempotent and blind to the order, duplication and splitting of its input. */
  lemma {:induction false} MergeCanonical(a: seq<Span>, b: seq<Span>)
    requires NonEmpty(a) && NonEmpty(b)
    ensures Merge(a) == Merge(b) <==> SamePoints(a, b)
    ensures Normal(b) && SamePoints(a, b) ==> Merge(a) == b
  {
    MergePoints(a);
    MergePoints(b);
    MergeNormal(a);
    MergeNormal(b);
    if SamePoints(a, b) {
      NormalUnique(Merge(a), Merge(b));
      if Normal(b) {
        NormalUnique(Merge(a), b);
      }
    }
    if Merge(a) == Merge(b) {
      forall t ensures Covered(a, t) <==> Covered(b, t) {
        assert Covered(Merge(a), t) <==> Covered(a, t);
        assert Covered(Merge(b), t) <==> Covered(b, t);
      }
    }
  }

  // ----- The loops of the source -----

  /** One span of the sweep: it extends the current one or closes it. */
  lemma {:induction false} SweepNext(current: Span, sorted: seq<Span>, i: nat)
    requires i < |sorted|
    ensures Sweep(current, sorted[i..])
            == if sorted[i].start <= current.end then Sweep(Span(current.start, Max(current.end, sorted[i].end)), sorted[i + 1..])
               else [current] + Sweep(sorted[i], sorted[i + 1..])
  {
    assert sorted[i..][1..] == sorted[i + 1..];
  }

  /** The merge when the last span of `merged` is the one being extended. */
  function InPlace(merged: seq<Span>, rest: seq<Span>): seq<Span>
    requires merged != []
  {
    merged[..|merged| - 1] + Sweep(merged[|merged| - 1], rest)
  }

  lemma {:induction false} InPlaceNext(merged: seq<Span>, sorted: seq<Span>, i: nat)
    requires merged != [] && i < |sorted|
    ensures var n := |merged| - 1;
            InPlace(merged, sorted[i..])
            == if sorted[i].start <= merged[n].end
               then InPlace(merged[n := Span(merged[n].start, Max(merged[n].end, sorted[i].end))], sorted[i + 1..])
               else InPlace(merged + [sorted[i]], sorted[i + 1..])
  {
    var n := |merged| - 1;
    SweepNext(merged[n], sorted, i);
    assert (merged + [sorted[i]])[..|merged|] == merged == merged[..n] + [merged[n]];
    Assoc(merged[..n], [merged[n]], Sweep(sorted[i], sorted[i + 1..]));
  }

  lemma {:induction false} InPlaceEnds(merged: seq<Span>)
    requires merged != []
    ensures InPlace(merged, []) == merged
  {
  }

  /** `mergeTimeIntervals`: extends the last merged span in place. */
  method MergeTimeIntervals(intervals: seq<Span>) returns (merged: seq<Span>)
    ensures merged == Merge(intervals)
  {
    if intervals == [] {
      return [];
    }
    var sorted := SortByStart(intervals);
    merged := [sorted[0]];
    var i := 1;
    while i < |sorted|
      invariant 1 <= i <= |sorted| && merged != []
      invariant InPlace(merged, sorted[i..]) == Merge(intervals)
    {
      var last, current := merged[|merged| - 1], sorted[i];
      InPlaceNext(merged, sorted, i);
      if current.start <= last.end {
        merged := merged[|merged| - 1 := Span(last.start, Max(last.end, current.end))];
      } else {
        merged := merged + [current];
      }
      i := i + 1;
    }
    InPlaceEnds(merged);
  }

  /** `mergeOverlapping`: keeps the span being extended in a variable of its own. */
  method MergeOverlapping(intervals: seq<Span>) returns (result: seq<Span>)
    ensures result == Merge(intervals)
  {
    if intervals == [] {
      return [];
    }
    var sorted := SortByStart(intervals);
    result := [];
    var current := sorted[0];
    var i := 1;
    while i < |sorted|
      invariant 1 <= i <= |sorted|
      invariant result + Sweep(current, sorted[i..]) == Merge(intervals)
    {
      var next := sorted[i];
      SweepNext(current, sorted, i);
      if next.start <= current.end {
        if next.end > current.end {
          current := Span(current.start, next.end);
        }
      } else {
        Assoc(result, [current], Sweep(next, sorted[i + 1..]));
        result := result + [current];
        current := next;
      }
      i := i + 1;
    }
    result := result + [current];
  }

  // ----- Gaps between merged spans -----

  /** The gaps a cursor leaves behind as it passes `busy`, up to `rangeEnd`. */
  function FreeFrom(cursor: int, busy: seq<Span>, rangeEnd: int): seq<Span>
    decreases |busy|
  {
    if busy == [] then
      if cursor < rangeEnd then [Span(cursor, rangeEnd)] else []
    else
      (if busy[0].start > cursor then [Span(cursor, busy[0].start)] else [])
      + FreeFrom(Max(cursor, busy[0].end), busy[1..], rangeEnd)
  }

  lemma {:induction false} FreeNext(cursor: int, busy: seq<Span>, i: nat, rangeEnd: int)
    requires i < |busy|
    ensures FreeFrom(cursor, busy[i..], rangeEnd)
            == (if busy[i].start > cursor then [Span(cursor, busy[i].start)] else [])
               + FreeFrom(Max(cursor, busy[i].end), busy[i + 1..], rangeEnd)
  {
    assert busy[i..][1..] == busy[i + 1..];
  }

  /** `computeFreeIntervals`. */
  method ComputeFreeIntervals(busy: seq<Span>, rangeStart: int, rangeEnd: int) returns (free: seq<Span>)
    ensures free == FreeFrom(rangeStart, busy, rangeEnd)
  {
    free := [];
    var cursor := rangeStart;
    var i := 0;
    while i < |busy|
      invariant 0 <= i <= |busy|
      invariant free + FreeFrom(cursor, busy[i..], rangeEnd) == FreeFrom(rangeStart, busy, rangeEnd)
    {
      FreeNext(cursor, busy, i, rangeEnd);
      ghost var rest := FreeFrom(Max(cursor, busy[i].end), busy[i + 1..], rangeEnd);
      if busy[i].start > cursor {
        Assoc(free, [Span(cursor, busy[i].start)], rest);
        free := free + [Span(cursor, busy[i].start)];
      } else {
        assert [] + rest == rest;
      }
      if busy[i].end > cursor {
        cursor := busy[i].end;
      }
      i := i + 1;
    }
    assert busy[i..] == [];
    if cursor < rangeEnd {
      free := free + [Span(cursor, rangeEnd)];
    }
  }

  /** Exactly which instants the gaps contain, for any spans in start order. */
  lemma {:induction false} FreePoints(cursor: int, busy: seq<Span>, rangeEnd: int, t: int)
    requires SortedByStart(busy)
    ensures Covered(FreeFrom(cursor, busy, rangeEnd), t) <==>
              cursor <= t && !Covered(busy, t) && (t < rangeEnd || exists b :: b in busy && t < b.start)
    decreases |busy|
  {
    if busy == [] {
      if cursor < rangeEnd {
        CoveredCons([Span(cursor, rangeEnd)], t);
      }
    } else {
      var b, rest := busy[0], busy[1..];
      FreePoints(Max(cursor, b.end), rest, rangeEnd, t);
      CoveredCons(busy, t);
      var first := if b.start > cursor then [Span(cursor, b.start)] else [];
      CoveredConcat(first, FreeFrom(Max(cursor, b.end), rest, rangeEnd), t);
      if first != [] {
        CoveredCons(first, t);
      }
      assert forall x :: x in busy <==> x == b || x in rest;
      if t < b.start {
        assert b in busy;
        forall x | x in busy ensures !Covers(x, t) {
          var i :| 0 <= i < |busy| && busy[i] == x;
        }
      }
    }
  }

  /** `computeFreeIntervals` returns exactly the uncovered instants of the range
      if and only if no busy span starts after the range (it never clips one). */
  lemma {:induction false} FreeExactIff(busy: seq<Span>, rangeStart: int, rangeEnd: int)
    requires Forward(busy)
    requires forall i, j :: 0 <= i < j < |busy| ==> busy[i].end < busy[j].start
    ensures (forall t :: Covered(FreeFrom(rangeStart, busy, rangeEnd), t) <==>
                           rangeStart <= t < rangeEnd && !Covered(busy, t))
            <==> (forall b :: b in busy ==> b.start <= Max(rangeStart, rangeEnd))
  {
    var free := FreeFrom(rangeStart, busy, rangeEnd);
    var limit := Max(rangeStart, rangeEnd);
    forall i, j | 0 <= i < j < |busy| ensures busy[i].start <= busy[j].start {
      assert busy[i] in busy;
    }
    if forall b :: b in busy ==> b.start <= limit {
      forall t ensures Covered(free, t) <==> rangeStart <= t < rangeEnd && !Covered(busy, t) {
        FreePoints(rangeStart, busy, rangeEnd, t);
      }
    } else {
      var b :| b in busy && b.start > limit;
      var k :| 0 <= k < |busy| && busy[k] == b;
      var t := b.start - 1;
      forall x | x in busy ensures !Covers(x, t) {
        var i :| 0 <= i < |busy| && busy[i] == x;
      }
      FreePoints(rangeStart, busy, rangeEnd, t);
      assert Covered(free, t) && rangeEnd <= t;
    }
  }

  /** Gaps are non-empty and inside the range. */
  lemma {:induction false} FreeInside(cursor: int, busy: seq<Span>, rangeEnd: int)
    requires forall b :: b in busy ==> b.start <= Max(cursor, rangeEnd)
    ensures forall f :: f in FreeFrom(cursor, busy, rangeEnd) ==> cursor <= f.start < f.end <= rangeEnd
    decreases |busy|
  {
    if busy != [] {
      assert busy[0] in busy && forall x :: x in busy[1..] ==> x in busy;
      FreeInside(Max(cursor, busy[0].end), busy[1..], rangeEnd);
    }
  }

  predicate Apart(ss: seq<Span>) {
    forall i, j :: 0 <= i < j < |ss| ==> ss[i].end < ss[j].start
  }

  predicate InOrder(ss: seq<Span>) {
    forall i, j :: 0 <= i < j < |ss| ==> ss[i].end <= ss[j].start
  }

  /** Gaps start no earlier than the cursor. */
  lemma {:induction false} FreeAfter(cursor: int, busy: seq<Span>, rangeEnd: int)
    ensures forall f :: f in FreeFrom(cursor, busy, rangeEnd) ==> cursor <= f.start
    decreases |busy|
  {
    if busy != [] {
      FreeAfter(Max(cursor, busy[0].end), busy[1..], rangeEnd);
    }
  }

  lemma {:induction false} ConsOrdered(first: Span, rest: seq<Span>)
    requires forall r :: r in rest ==> first.end <= r.start
    ensures InOrder(rest) ==> InOrder([first] + rest)
    ensures Normal(rest) && first.start < first.end && (forall r :: r in rest ==> first.end < r.start) ==> Normal([first] + rest)
  {
    assert forall i :: 0 <= i < |rest| ==> rest[i] in rest;
  }

  /** Gaps are in order, and separated when the spans are not empty. */
  lemma {:induction false} FreeOrdered(cursor: int, busy: seq<Span>, rangeEnd: int)
    requires Forward(busy) && Apart(busy)
    ensures InOrder(FreeFrom(cursor, busy, rangeEnd))
    ensures NonEmpty(busy) ==> Normal(FreeFrom(cursor, busy, rangeEnd))
    decreases |busy|
  {
    if busy != [] {
      var b, next := busy[0], Max(cursor, busy[0].end);
      assert b in busy && forall x :: x in busy[1..] ==> x in busy;
      FreeOrdered(next, busy[1..], rangeEnd);
      FreeAfter(next, busy[1..], rangeEnd);
      var tail := FreeFrom(next, busy[1..], rangeEnd);
      ConsOrdered(Span(cursor, b.start), tail);
      assert [] + tail == tail;
    }
  }

  /** Shape of the gaps between separated spans that start no later than the range end. */
  lemma {:induction false} FreeShape(cursor: int, busy: seq<Span>, rangeEnd: int)
    requires Forward(busy) && Apart(busy)
    requires forall b :: b in busy ==> b.start <= Max(cursor, rangeEnd)
    ensures var free := FreeFrom(cursor, busy, rangeEnd);
            && (forall i :: 0 <= i < |free| ==> cursor <= free[i].start < free[i].end <= rangeEnd)
            && InOrder(free)
            && (NonEmpty(busy) ==> Normal(free))
  {
    FreeInside(cursor, busy, rangeEnd);
    FreeOrdered(cursor, busy, rangeEnd);
    assert forall i :: 0 <= i < |FreeFrom(cursor, busy, rangeEnd)| ==> FreeFrom(cursor, busy, rangeEnd)[i] in FreeFrom(cursor, busy, rangeEnd);
  }

  lemma {:induction false} FreeNonEmpty(cursor: int, busy: seq<Span>, rangeEnd: int)
    ensures NonEmpty(FreeFrom(cursor, busy, rangeEnd))
    decreases |busy|
  {
    if busy != [] {
      FreeNonEmpty(Max(cursor, busy[0].end), busy[1..], rangeEnd);
    }
  }
}
