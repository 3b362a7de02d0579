/** `mergeIntervals`: merging busy intervals together with the accounts that own them. */
module BusyIntervals {
  import opened Intervals
  import opened Sequences

  type AccountId = string

  datatype Busy = Busy(span: Span, accounts: seq<AccountId>)

  function SpansOf(bs: seq<Busy>): (r: seq<Span>)
    ensures |r| == |bs| && forall i :: 0 <= i < |bs| ==> r[i] == bs[i].span
  {
    if bs == [] then [] else [bs[0].span] + SpansOf(bs[1..])
  }

  function InsertBusy(b: Busy, bs: seq<Busy>): (r: seq<Busy>)
    ensures multiset(r) == multiset{b} + multiset(bs)
  {
    if bs == [] then [b]
    else if b.span.start <= bs[0].span.start then [b] + bs
    else
      assert bs == [bs[0]] + bs[1..];
      [bs[0]] + InsertBusy(b, bs[1..])
  }

  function SortBusy(bs: seq<Busy>): (r: seq<Busy>)
    ensures multiset(r) == multiset(bs)
  {
    if bs == [] then []
    else
      assert bs == [bs[0]] + bs[1..];
      InsertBusy(bs[0], SortBusy(bs[1..]))
  }

  function AddMissing(accounts: seq<AccountId>, more: seq<AccountId>): seq<AccountId>
    decreases |more|
  {
    if more == [] then accounts
    else AddMissing(if more[0] in accounts then accounts else accounts + [more[0]], more[1..])
  }

  lemma {:induction false} AddMissingMembers(accounts: seq<AccountId>, more: seq<AccountId>, a: AccountId)
    ensures a in AddMissing(accounts, more) <==> a in accounts || a in more
    decreases |more|
  {
    if more != [] {
      AddMissingMembers(if more[0] in accounts then accounts else accounts + [more[0]], more[1..], a);
    }
  }

  function Absorb(cur: Busy, next: Busy): Busy {
    Busy(Span(cur.span.start, Max(cur.span.end, next.span.end)), AddMissing(cur.accounts, next.accounts))
  }

  function SweepBusy(cur: Busy, rest: seq<Busy>): (r: seq<Busy>)
    ensures r != []
    decreases |rest|
  {
    if rest == [] then [cur]
    else if rest[0].span.start <= cur.span.end then SweepBusy(Absorb(cur, rest[0]), rest[1..])
    else [cur] + SweepBusy(rest[0], rest[1..])
  }

  function MergeBusy(bs: seq<Busy>): seq<Busy> {
    if bs == [] then []
    else
      var sorted := SortBusy(bs);
      assert multiset(sorted) == multiset(bs) && bs[0] in multiset(bs);
      SweepBusy(sorted[0], sorted[1..])
  }

  // ----- The spans are those of the plain merge -----

  lemma {:induction false} InsertSpans(b: Busy, bs: seq<Busy>)
    ensures SpansOf(InsertBusy(b, bs)) == Insert(b.span, SpansOf(bs))
  {
    if bs != [] && b.span.start > bs[0].span.start {
      InsertSpans(b, bs[1..]);
      assert SpansOf(bs)[1..] == SpansOf(bs[1..]);
    }
  }

  lemma {:induction false} SortSpans(bs: seq<Busy>)
    ensures SpansOf(SortBusy(bs)) == SortByStart(SpansOf(bs))
  {
    if bs != [] {
      SortSpans(bs[1..]);
      InsertSpans(bs[0], SortBusy(bs[1..]));
      assert SpansOf(bs)[1..] == SpansOf(bs[1..]);
    }
  }

  lemma {:induction false} SweepSpans(cur: Busy, rest: seq<Busy>)
    ensures SpansOf(SweepBusy(cur, rest)) == Sweep(cur.span, SpansOf(rest))
    decreases |rest|
  {
    if rest != [] {
      assert SpansOf(rest)[1..] == SpansOf(rest[1..]);
      if rest[0].span.start <= cur.span.end {
        SweepSpans(Absorb(cur, rest[0]), rest[1..]);
      } else {
        SweepSpans(rest[0], rest[1..]);
      }
    }
  }

  lemma {:induction false} MergeBusySpans(bs: seq<Busy>)
    ensures SpansOf(MergeBusy(bs)) == Merge(SpansOf(bs))
  {
    if bs != [] {
      var sorted := SortBusy(bs);
      assert multiset(sorted) == multiset(bs) && bs[0] in multiset(bs);
      SortSpans(bs);
      SweepSpans(sorted[0], sorted[1..]);
      assert SpansOf(sorted)[1..] == SpansOf(sorted[1..]);
    }
  }

  // ----- Accounts -----

  ghost predicate Inside(s: Span, m: Span) {
    m.start <= s.start && s.end <= m.end
  }

  ghost predicate Owns(b: Busy, m: Span, a: AccountId) {
    Inside(b.span, m) && a in b.accounts
  }

  ghost predicate OwnedWithin(bs: seq<Busy>, m: Span, a: AccountId) {
    exists b :: b in bs && Owns(b, m, a)
  }

  ghost predicate BusyChain(cur: Busy, rest: seq<Busy>) {
    && Chain(cur.span, SpansOf(rest))
    && cur.span.start <= cur.span.end
    && forall b :: b in rest ==> b.span.start <= b.span.end
  }

  lemma {:induction false} ChainTail(cur: Busy, rest: seq<Busy>)
    requires BusyChain(cur, rest) && rest != []
    ensures rest[0].span.start <= cur.span.end ==> BusyChain(Absorb(cur, rest[0]), rest[1..])
    ensures BusyChain(rest[0], rest[1..])
  {
    assert SpansOf(rest)[1..] == SpansOf(rest[1..]);
    assert rest[0] in rest;
  }

  lemma {:induction false} SweepAt(cur: Busy, rest: seq<Busy>, k: nat)
    requires BusyChain(cur, rest)
    requires k < |SweepBusy(cur, rest)|
    ensures var m := SweepBusy(cur, rest)[k].span;
            if k == 0 then m.start == cur.span.start && cur.span.end <= m.end else cur.span.end < m.start
    decreases |rest|
  {
    if rest != [] {
      ChainTail(cur, rest);
      if rest[0].span.start <= cur.span.end {
        SweepAt(Absorb(cur, rest[0]), rest[1..], k);
      } else if k > 0 {
        SweepAt(rest[0], rest[1..], k - 1);
      }
    }
  }

  lemma {:induction false} OwnedCons(bs: seq<Busy>, m: Span, a: AccountId)
    requires bs != []
    ensures OwnedWithin(bs, m, a) <==> Owns(bs[0], m, a) || OwnedWithin(bs[1..], m, a)
  {
    if OwnedWithin(bs, m, a) {
      var x :| x in bs && Owns(x, m, a);
      assert x == bs[0] || x in bs[1..];
    }
  }

  lemma {:induction false} NoneInside(cur: Busy, rest: seq<Busy>, a: AccountId)
    requires BusyChain(cur, rest) && rest != [] && rest[0].span.start > cur.span.end
    ensures !OwnedWithin(rest, cur.span, a)
  {
    forall b | b in rest ensures !Inside(b.span, cur.span) {
      var i :| 0 <= i < |rest| && rest[i] == b;
      assert SpansOf(rest)[0].start <= SpansOf(rest)[i].start;
    }
  }

  lemma {:induction false} AbsorbOwned(cur: Busy, next: Busy, m: Span, a: AccountId)
    requires cur.span.start <= cur.span.end && next.span.start <= next.span.end
    requires cur.span.start <= next.span.start <= cur.span.end
    requires (m.start == cur.span.start && Absorb(cur, next).span.end <= m.end) || Absorb(cur, next).span.end < m.start
    ensures Owns(Absorb(cur, next), m, a) <==> Owns(cur, m, a) || Owns(next, m, a)
  {
    AddMissingMembers(cur.accounts, next.accounts, a);
  }

  lemma {:induction false} SweepAccounts(cur: Busy, rest: seq<Busy>, k: nat, a: AccountId)
    requires BusyChain(cur, rest)
    requires k < |SweepBusy(cur, rest)|
    ensures var m := SweepBusy(cur, rest)[k];
            a in m.accounts <==> Owns(cur, m.span, a) || OwnedWithin(rest, m.span, a)
    decreases |rest|
  {
    var m := SweepBusy(cur, rest)[k];
    if rest != [] {
      var next, tail := rest[0], rest[1..];
      ChainTail(cur, rest);
      OwnedCons(rest, m.span, a);
      if next.span.start <= cur.span.end {
        var wider := Absorb(cur, next);
        SweepAccounts(wider, tail, k, a);
        SweepAt(wider, tail, k);
        AbsorbOwned(cur, next, m.span, a);
      } else if k == 0 {
        NoneInside(cur, rest, a);
      } else {
        SweepAt(cur, rest, k);
        SweepAccounts(next, tail, k - 1, a);
      }
    }
  }

  lemma {:induction false} SortedMembers(bs: seq<Busy>)
    ensures bs != [] ==> SortBusy(bs) != []
    ensures forall b :: b in SortBusy(bs) <==> b in bs
  {
    assert multiset(SortBusy(bs)) == multiset(bs);
    assert bs != [] ==> bs[0] in multiset(bs);
    forall b ensures b in SortBusy(bs) <==> b in bs {
      assert b in SortBusy(bs) <==> b in multiset(SortBusy(bs));
      assert b in bs <==> b in multiset(bs);
    }
  }

  lemma {:induction false} ChainOfSorted(sorted: seq<Busy>)
    requires sorted != [] && SortedByStart(SpansOf(sorted))
    requires forall b :: b in sorted ==> b.span.start <= b.span.end
    ensures BusyChain(sorted[0], sorted[1..])
  {
    var spans, rest := SpansOf(sorted), SpansOf(sorted[1..]);
    assert rest == spans[1..];
    assert rest != [] ==> rest[0] == spans[1];
    forall b | b in sorted[1..] ensures b in sorted {}
  }

  lemma {:induction false} SortedBusyChain(bs: seq<Busy>)
    requires bs != [] && forall b :: b in bs ==> b.span.start <= b.span.end
    ensures SortBusy(bs) != [] && BusyChain(SortBusy(bs)[0], SortBusy(bs)[1..])
  {
    SortedMembers(bs);
    SortSpans(bs);
    SortSorts(SpansOf(bs));
    ChainOfSorted(SortBusy(bs));
  }

  /** A merged interval carries exactly the accounts of the raw intervals inside it. */
  lemma {:induction false} MergeAccounts(bs: seq<Busy>, k: nat, a: AccountId)
    requires forall b :: b in bs ==> b.span.start <= b.span.end
    requires k < |MergeBusy(bs)|
    ensures a in MergeBusy(bs)[k].accounts <==> OwnedWithin(bs, MergeBusy(bs)[k].span, a)
  {
    var sorted := SortBusy(bs);
    SortedBusyChain(bs);
    SweepAccounts(sorted[0], sorted[1..], k, a);
    OwnedCons(sorted, MergeBusy(bs)[k].span, a);
    SortedMembers(bs);
  }

  lemma {:induction false} SweepNext(current: Busy, sorted: seq<Busy>, i: nat)
    requires i < |sorted|
    ensures SweepBusy(current, sorted[i..])
            == if sorted[i].span.start <= current.span.end then SweepBusy(Absorb(current, sorted[i]), sorted[i + 1..])
               else [current] + SweepBusy(sorted[i], sorted[i + 1..])
  {
    assert sorted[i..][1..] == sorted[i + 1..];
  }

  /** The inner loop: accounts not seen yet are pushed. */
  method AddAccounts(given: seq<AccountId>, more: seq<AccountId>) returns (accounts: seq<AccountId>)
    ensures accounts == AddMissing(given, more)
  {
    accounts := given;
    var j := 0;
    while j < |more|
      invariant 0 <= j <= |more|
      invariant AddMissing(accounts, more[j..]) == AddMissing(given, more)
    {
      assert more[j..][1..] == more[j + 1..];
      if more[j] !in accounts {
        accounts := accounts + [more[j]];
      }
      j := j + 1;
    }
  }

  method AbsorbNext(current: Busy, next: Busy) returns (r: Busy)
    ensures r == Absorb(current, next)
  {
    r := current;
    if next.span.end > r.span.end {
      r := r.(span := Span(r.span.start, next.span.end));
    }
    var accounts := AddAccounts(r.accounts, next.accounts);
    r := r.(accounts := accounts);
  }

  /** `mergeIntervals`. */
  method MergeIntervals(intervals: seq<Busy>) returns (merged: seq<Busy>)
    ensures merged == MergeBusy(intervals)
  {
    if intervals == [] {
      return [];
    }
    var sorted := SortBusy(intervals);
    assert multiset(sorted) == multiset(intervals) && intervals[0] in multiset(intervals);
    merged := [];
    var current := sorted[0];
    var i := 1;
    while i < |sorted|
      invariant 1 <= i <= |sorted|
      invariant merged + SweepBusy(current, sorted[i..]) == MergeBusy(intervals)
    {
      var next := sorted[i];
      SweepNext(current, sorted, i);
      if next.span.start <= current.span.end {
        current := AbsorbNext(current, next);
      } else {
        Assoc(merged, [current], SweepBusy(next, sorted[i + 1..]));
        merged := merged + [current];
        current := next;
      }
      i := i + 1;
    }
    merged := merged + [current];
  }

  // ----- Busy time of a group -----

  type UserId = string

  datatype UserAvailability = UserAvailability(userId: UserId, busy: seq<Span>)

  function GroupAccount(u: UserId): AccountId { "group_" + u }

  /** The busy time of a user, across all the entries that name the user. */
  ghost predicate UserBusy(uas: seq<UserAvailability>, u: UserId, t: int) {
    exists ua :: ua in uas && ua.userId == u && Covered(ua.busy, t)
  }

  ghost predicate TaggedAt(bs: seq<Busy>, a: AccountId, t: int) {
    exists b :: b in bs && b.accounts == [a] && Covers(b.span, t)
  }

  function Tagged(ss: seq<Span>, a: AccountId): (r: seq<Busy>)
    ensures |r| == |ss| && forall i :: 0 <= i < |ss| ==> r[i] == Busy(ss[i], [a])
  {
    seq(|ss|, i requires 0 <= i < |ss| => Busy(ss[i], [a]))
  }

  lemma {:induction false} TaggedPoints(ss: seq<Span>, a: AccountId, b: AccountId, t: int)
    ensures TaggedAt(Tagged(ss, a), b, t) <==> a == b && Covered(ss, t)
  {
    var r := Tagged(ss, a);
    if TaggedAt(r, b, t) {
      var x :| x in r && x.accounts == [b] && Covers(x.span, t);
      var i :| 0 <= i < |r| && r[i] == x;
      assert ss[i] in ss && [a][0] == [b][0];
    }
    if a == b && Covered(ss, t) {
      var s :| s in ss && Covers(s, t);
      var i :| 0 <= i < |ss| && ss[i] == s;
      assert r[i] in r && r[i].accounts == [b];
    }
  }

  lemma {:induction false} GroupAccountsDiffer(u: UserId, v: UserId)
    ensures GroupAccount(u) == GroupAccount(v) ==> u == v
  {
    assert GroupAccount(u)[6..] == u && GroupAccount(v)[6..] == v;
  }

  /** The busy time so far, user by user and instant by instant. */
  ghost predicate GroupPoints(bs: seq<Busy>, uas: seq<UserAvailability>) {
    forall u, t :: TaggedAt(bs, GroupAccount(u), t) <==> UserBusy(uas, u, t)
  }

  lemma {:induction false} TaggedConcat(a: seq<Busy>, b: seq<Busy>, account: AccountId, t: int)
    ensures TaggedAt(a + b, account, t) <==> TaggedAt(a, account, t) || TaggedAt(b, account, t)
  {
    assert forall x :: x in a + b <==> x in a || x in b;
  }

  lemma {:induction false} UserBusySnoc(uas: seq<UserAvailability>, ua: UserAvailability, u: UserId, t: int)
    ensures UserBusy(uas + [ua], u, t) <==> UserBusy(uas, u, t) || (ua.userId == u && Covered(ua.busy, t))
  {
    assert forall x :: x in uas + [ua] <==> x in uas || x == ua;
  }

  lemma {:induction false} GroupStep(bs: seq<Busy>, uas: seq<UserAvailability>, i: nat)
    requires i < |uas| && GroupPoints(bs, uas[..i])
    ensures GroupPoints(bs + Tagged(Merge(uas[i].busy), GroupAccount(uas[i].userId)), uas[..i + 1])
  {
    var more := Tagged(Merge(uas[i].busy), GroupAccount(uas[i].userId));
    assert uas[..i + 1] == uas[..i] + [uas[i]];
    MergePoints(uas[i].busy);
    forall u, t ensures TaggedAt(bs + more, GroupAccount(u), t) <==> UserBusy(uas[..i + 1], u, t) {
      TaggedConcat(bs, more, GroupAccount(u), t);
      TaggedPoints(Merge(uas[i].busy), GroupAccount(uas[i].userId), GroupAccount(u), t);
      GroupAccountsDiffer(u, uas[i].userId);
      UserBusySnoc(uas[..i], uas[i], u, t);
      assert TaggedAt(bs, GroupAccount(u), t) <==> UserBusy(uas[..i], u, t);
    }
  }

  /** The merged spans of one user, appended under the user's account. */
  method AppendTagged(allBusy: seq<Busy>, merged: seq<Span>, account: AccountId) returns (r: seq<Busy>)
    ensures r == allBusy + Tagged(merged, account)
  {
    r := allBusy;
    var j := 0;
    while j < |merged|
      invariant 0 <= j <= |merged|
      invariant r == allBusy + Tagged(merged, account)[..j]
    {
      assert Tagged(merged, account)[..j + 1] == Tagged(merged, account)[..j] + [Busy(merged[j], [account])];
      r := r + [Busy(merged[j], [account])];
      j := j + 1;
    }
    assert Tagged(merged, account)[..j] == Tagged(merged, account);
  }

  /** `mergeBusyIntervals`: each user is busy exactly when before, and only
      synthetic group accounts are named. */
  method MergeBusyIntervals(uas: seq<UserAvailability>) returns (allBusy: seq<Busy>)
    ensures GroupPoints(allBusy, uas)
    ensures forall b :: b in allBusy ==> exists u :: b.accounts == [GroupAccount(u)]
  {
    allBusy := [];
    for i := 0 to |uas|
      invariant GroupPoints(allBusy, uas[..i])
      invariant forall b :: b in allBusy ==> exists u :: b.accounts == [GroupAccount(u)]
    {
      var merged := MergeOverlapping(uas[i].busy);
      var account := GroupAccount(uas[i].userId);
      GroupStep(allBusy, uas, i);
      allBusy := AppendTagged(allBusy, merged, account);
      assert forall b :: b in Tagged(merged, account) ==> b.accounts == [GroupAccount(uas[i].userId)];
    }
    assert uas[..|uas|] == uas;
  }
}
