/** The hash-chained compliance audit log. */
module AuditLog {
  import opened Optional

  type Hash = string

  type OrgId = string

  /** GENESIS_HASH. */
  const GENESIS: Hash := "0000000000000000000000000000000000000000000000000000000000000000"

  const HOUR := 3600000

  const VALID_ACTIONS: set<string> := {
    "delegation_created", "delegation_rotated", "user_discovered", "user_suspended", "user_removed", "config_updated",
    "token_issued", "admin_action"

  }

  datatype Outcome = Success | Failure | Error

  datatype Input = Input(
    entryId: string,
    orgId: OrgId,
    timestamp: int,
    actor: string,
    action: string,
    target: string,
    outcome: Outcome,
    ipAddress: string,
    userAgent: string,
    details: Option<string>)

  datatype Entry = Entry(input: Input, previousHash: Hash, entryHash: Hash)

  /** SHA-256 of the canonical JSON of an entry and its previous hash. */
  type Digest = (Input, Hash) -> Hash

  /** What is assumed of SHA-256: no collisions, and never the genesis value. */
  ghost predicate Ideal(h: Digest) {
    && (forall x, p, y, q :: h(x, p) == h(y, q) ==> x == y && p == q)
    && (forall x, p :: h(x, p) != GENESIS)
  }

  // ----- Chains -----

  function HashBefore(log: seq<Entry>, i: nat): Hash
    requires i <= |log|
  {
    if i == 0 then GENESIS else log[i - 1].entryHash
  }

  predicate Linked(h: Digest, log: seq<Entry>, i: nat)
    requires i < |log|
  {
    log[i].previousHash == HashBefore(log, i) && log[i].entryHash == h(log[i].input, log[i].previousHash)
  }

  predicate Verifies(h: Digest, log: seq<Entry>) {
    forall i :: 0 <= i < |log| ==> Linked(h, log, i)
  }

  function LastHash(log: seq<Entry>): Hash {
    HashBefore(log, |log|)
  }

  lemma {:induction false} EmptyIffGenesis(h: Digest, log: seq<Entry>)
    requires Ideal(h) && Verifies(h, log)
    ensures LastHash(log) == GENESIS <==> log == []
  {
    if log != [] {
      assert Linked(h, log, |log| - 1);
    }
  }

  /** A verification limited to the oldest entries accepts every prefix. */
  lemma {:induction false} PrefixVerifies(h: Digest, log: seq<Entry>, n: nat)
    requires n <= |log| && Verifies(h, log)
    ensures Verifies(h, log[..n])
    ensures LastHash(log[..n]) == HashBefore(log, n)
  {
    forall i | 0 <= i < n ensures Linked(h, log[..n], i) {
      assert Linked(h, log, i);
    }
  }

  /** Two verifying logs with the same last hash are the same log. */
  lemma {:induction false} SameLastHashSameLog(h: Digest, a: seq<Entry>, b: seq<Entry>)
    requires Ideal(h) && Verifies(h, a) && Verifies(h, b) && LastHash(a) == LastHash(b)
    ensures a == b
    decreases |a| + |b|
  {
    if a == [] || b == [] {
      EmptyIffGenesis(h, a);
      EmptyIffGenesis(h, b);
    } else {
      var m, n := |a| - 1, |b| - 1;
      assert Linked(h, a, m) && Linked(h, b, n);
      PrefixVerifies(h, a, m);
      PrefixVerifies(h, b, n);
      SameLastHashSameLog(h, a[..m], b[..n]);
      assert a == a[..m] + [a[m]] && b == b[..n] + [b[n]];
    }
  }

  /** In a verifying log no two positions carry the same hash. */
  lemma {:induction false} HashesDiffer(h: Digest, log: seq<Entry>, i: nat, j: nat)
    requires Ideal(h) && Verifies(h, log) && i < j <= |log|
    ensures HashBefore(log, i) != HashBefore(log, j)
  {
    PrefixVerifies(h, log, i);
    PrefixVerifies(h, log, j);
    if HashBefore(log, i) == HashBefore(log, j) {
      SameLastHashSameLog(h, log[..i], log[..j]);
      assert false;
    }
  }

  // ----- Rows in timestamp order -----

  predicate Ordered(log: seq<Entry>) {
    forall i, j :: 0 <= i < j < |log| ==> log[i].input.timestamp <= log[j].input.timestamp
  }

  /** Where a new row with this timestamp is returned: after every row not later.
      The index on (org_id, timestamp) lists equal timestamps by row id, and read
      backwards it yields the last of them first. */
  function Place(log: seq<Entry>, timestamp: int): (p: nat)
    ensures p <= |log|
    ensures p > 0 ==> log[p - 1].input.timestamp <= timestamp
    ensures forall i :: p <= i < |log| ==> timestamp < log[i].input.timestamp
  {
    if log == [] || log[|log| - 1].input.timestamp <= timestamp then |log|
    else Place(log[..|log| - 1], timestamp)
  }

  function Inserted(log: seq<Entry>, e: Entry): seq<Entry> {
    var p := Place(log, e.input.timestamp);
    log[..p] + [e] + log[p..]
  }

  function NewEntry(h: Digest, log: seq<Entry>, input: Input): Entry {
    Entry(input, LastHash(log), h(input, LastHash(log)))
  }

  /** No row is later than this timestamp. */
  predicate Latest(log: seq<Entry>, timestamp: int) {
    forall e :: e in log ==> e.input.timestamp <= timestamp
  }

  lemma {:induction false} InsertedOrdered(log: seq<Entry>, e: Entry)
    requires Ordered(log)
    ensures Ordered(Inserted(log, e))
  {
  }

  lemma {:induction false} AppendAtEnd(h: Digest, log: seq<Entry>, input: Input)
    requires Verifies(h, log) && Place(log, input.timestamp) == |log|
    ensures Inserted(log, NewEntry(h, log, input)) == log + [NewEntry(h, log, input)]
    ensures Verifies(h, Inserted(log, NewEntry(h, log, input)))
  {
    var e := NewEntry(h, log, input);
    var r := Inserted(log, e);
    assert r == log + [e];
    forall i | 0 <= i < |r| ensures Linked(h, r, i) {
      if i < |log| {
        assert Linked(h, log, i);
      }
    }
  }

  /** Rows are read in timestamp order, so an append keeps a log verifying exactly
      when no row is later than the new one. */
  lemma {:induction false} AppendVerifiesIff(h: Digest, log: seq<Entry>, input: Input)
    requires Ideal(h) && Ordered(log) && Verifies(h, log)
    ensures Verifies(h, Inserted(log, NewEntry(h, log, input))) <==> Latest(log, input.timestamp)
  {
    var e := NewEntry(h, log, input);
    var p := Place(log, input.timestamp);
    if p == |log| {
      AppendAtEnd(h, log, input);
      forall x | x in log ensures x.input.timestamp <= input.timestamp {
        var i :| 0 <= i < |log| && log[i] == x;
        assert log[|log| - 1] in log;
      }
    } else {
      assert log[p] in log;
      var r := Inserted(log, e);
      HashesDiffer(h, log, p, |log|);
      assert r[p] == e && HashBefore(r, p) == HashBefore(log, p);
      assert !Linked(h, r, p);
    }
  }

  /** One organization's log after serialized appends. */
  function Grown(h: Digest, inputs: seq<Input>): seq<Entry> {
    if inputs == [] then []
    else
      var log := Grown(h, inputs[..|inputs| - 1]);
      Inserted(log, NewEntry(h, log, inputs[|inputs| - 1]))
  }

  /** Serialized appends whose timestamps never go back record exactly the inputs, in
      order, in a log that verifies. */
  lemma {:induction false} SerializedAppendsVerify(h: Digest, inputs: seq<Input>)
    requires forall i, j :: 0 <= i < j < |inputs| ==> inputs[i].timestamp <= inputs[j].timestamp
    ensures Verifies(h, Grown(h, inputs)) && |Grown(h, inputs)| == |inputs|
    ensures forall i :: 0 <= i < |inputs| ==> Grown(h, inputs)[i].input == inputs[i]
  {
    if inputs != [] {
      var front := inputs[..|inputs| - 1];
      SerializedAppendsVerify(h, front);
      var log := Grown(h, front);
      if log != [] {
        assert log[|log| - 1].input == inputs[|inputs| - 2];
      }
      AppendAtEnd(h, log, inputs[|inputs| - 1]);
    }
  }

  // ----- The store -----

  class ComplianceAuditStore {
    const h: Digest
    /** Each organization's rows, in timestamp order. */
    var logs: map<OrgId, seq<Entry>>

    constructor (h: Digest)
      ensures this.h == h && logs == map[]
    {
      this.h := h;
      logs := map[];
    }

    function Log(org: OrgId): seq<Entry>
      reads this
    {
      if org in logs then logs[org] else []
    }

    ghost predicate AllOrdered()
      reads this
    {
      forall org :: org in logs ==> Ordered(logs[org])
    }

    /** `appendAuditEntry`; None stands for the thrown error. */
    method AppendAuditEntry(input: Input) returns (r: Option<Entry>)
      requires AllOrdered()
      modifies this
      ensures AllOrdered()
      ensures r.None? <==> input.action !in VALID_ACTIONS
      ensures r.None? ==> logs == old(logs)
      ensures r.Some? ==> r.value == NewEntry(h, old(Log(input.orgId)), input)
      ensures r.Some? ==> logs == old(logs)[input.orgId := Inserted(old(Log(input.orgId)), r.value)]
      ensures r.Some? && Verifies(h, old(Log(input.orgId))) && Latest(old(Log(input.orgId)), input.timestamp) ==> Verifies(h, Log(input.orgId))
      ensures r.Some? && Verifies(h, old(Log(input.orgId))) && Ideal(h) ==>
                (Verifies(h, Log(input.orgId)) <==> Latest(old(Log(input.orgId)), input.timestamp))
    {
      if input.action !in VALID_ACTIONS {
        return None;
      }
      var previousHash := LastHash(Log(input.orgId));
      var entry := Entry(input, previousHash, h(input, previousHash));
      ghost var log := Log(input.orgId);
      InsertedOrdered(log, entry);
      if Verifies(h, log) {
        if Latest(log, input.timestamp) {
          AppendAtEnd(h, log, input);
        }
        if Ideal(h) {
          AppendVerifiesIff(h, log, input);
        }
      }
      logs := logs[input.orgId := Inserted(Log(input.orgId), entry)];
      r := Some(entry);
    }

    /** The oldest `limit` entries, or all of them without a limit. */
    function ForVerification(org: OrgId, limit: nat): seq<Entry>
      reads this
    {
      if limit == 0 || |Log(org)| <= limit then Log(org) else Log(org)[..limit]
    }

    /** `verifyHashChain`: valid exactly when every examined entry is linked;
        otherwise the least unlinked index is named. */
    method VerifyHashChain(org: OrgId, limit: nat) returns (valid: bool, entriesChecked: nat, firstInvalidIndex: int)
      ensures valid <==> Verifies(h, ForVerification(org, limit))
      ensures valid ==> entriesChecked == |ForVerification(org, limit)| && firstInvalidIndex == -1
      ensures !valid ==> 0 <= firstInvalidIndex < |ForVerification(org, limit)| && entriesChecked == firstInvalidIndex + 1
      ensures !valid ==> !Linked(h, ForVerification(org, limit), firstInvalidIndex)
      ensures !valid ==> forall i :: 0 <= i < firstInvalidIndex ==> Linked(h, ForVerification(org, limit), i)
    {
      var entries := ForVerification(org, limit);
      if |entries| == 0 {
        return true, 0, -1;
      }
      if entries[0].previousHash != GENESIS {
        assert !Linked(h, entries, 0);
        return false, 1, 0;
      }
      for i := 0 to |entries|
        invariant forall j :: 0 <= j < i ==> Linked(h, entries, j)
      {
        var entry := entries[i];
        var expected := if i == 0 then GENESIS else entries[i - 1].entryHash;
        if entry.previousHash != expected {
          assert !Linked(h, entries, i);
          return false, i + 1, i;
        }
        if h(entry.input, entry.previousHash) != entry.entryHash {
          assert !Linked(h, entries, i);
          return false, i + 1, i;
        }
      }
      return true, |entries|, -1;
    }
  }

  /** Any change to a verified log that keeps its last hash is detected. */
  lemma {:induction false} TamperingDetected(h: Digest, log: seq<Entry>, altered: seq<Entry>)
    requires Ideal(h) && Verifies(h, log) && altered != log && LastHash(altered) == LastHash(log)
    ensures exists i :: 0 <= i < |altered| && !Linked(h, altered, i)
  {
    if Verifies(h, altered) {
      SameLastHashSameLog(h, log, altered);
      assert false;
    }
  }

  // ----- Token rate -----

  function Below(ts: seq<int>, x: int): nat {
    if ts == [] then 0 else (if ts[0] < x then 1 else 0) + Below(ts[1..], x)
  }

  /** How many of the timestamps lie in the hour starting at `lo`. */
  function InHour(ts: seq<int>, lo: int): nat {
    if ts == [] then 0 else (if lo <= ts[0] < lo + HOUR then 1 else 0) + InHour(ts[1..], lo)
  }

  predicate Ascending(ts: seq<int>) {
    forall i, j :: 0 <= i < j < |ts| ==> ts[i] <= ts[j]
  }

  function InsertTime(ts: seq<int>, t: int): seq<int> {
    if ts == [] || t <= ts[0] then [t] + ts else [ts[0]] + InsertTime(ts[1..], t)
  }

  function SortTimes(ts: seq<int>): seq<int> {
    if ts == [] then [] else InsertTime(SortTimes(ts[1..]), ts[0])
  }

  lemma {:induction false} ConsAscending(first: int, r: seq<int>)
    requires Ascending(r) && forall u :: u in r ==> first <= u
    ensures Ascending([first] + r) && ([first] + r)[1..] == r
    ensures forall u :: u in [first] + r <==> u == first || u in r
  {
    assert forall i :: 0 <= i < |r| ==> r[i] in r;
  }

  lemma {:induction false} InsertTimeSound(ts: seq<int>, t: int, x: int)
    requires Ascending(ts)
    ensures Ascending(InsertTime(ts, t)) && |InsertTime(ts, t)| == |ts| + 1
    ensures Below(InsertTime(ts, t), x) == Below(ts, x) + if t < x then 1 else 0
    ensures forall u :: u in InsertTime(ts, t) <==> u == t || u in ts
  {
    if ts == [] || t <= ts[0] {
      assert ([t] + ts)[1..] == ts;
    } else {
      InsertTimeSound(ts[1..], t, x);
      ConsAscending(ts[0], InsertTime(ts[1..], t));
      assert forall u :: u in ts <==> u == ts[0] || u in ts[1..];
    }
  }

  lemma {:induction false} SortTimesSound(ts: seq<int>, x: int)
    ensures Ascending(SortTimes(ts)) && |SortTimes(ts)| == |ts| && Below(SortTimes(ts), x) == Below(ts, x)
  {
    if ts != [] {
      SortTimesSound(ts[1..], x);
      InsertTimeSound(SortTimes(ts[1..]), ts[0], x);
    }
  }

  lemma {:induction false} NoneBelow(ts: seq<int>, x: int)
    requires forall i :: 0 <= i < |ts| ==> ts[i] >= x
    ensures Below(ts, x) == 0
  {
    if ts != [] {
      NoneBelow(ts[1..], x);
    }
  }

  lemma {:induction false} BelowIsRank(ts: seq<int>, x: int, j: nat)
    requires Ascending(ts) && j < |ts|
    ensures ts[j] < x <==> j < Below(ts, x)
  {
    if ts[0] >= x {
      NoneBelow(ts, x);
      assert ts[0] <= ts[j];
    } else if j > 0 {
      BelowIsRank(ts[1..], x, j - 1);
    }
  }

  lemma {:induction false} BelowAtMost(ts: seq<int>, x: int)
    ensures Below(ts, x) <= |ts|
  {
    if ts != [] {
      BelowAtMost(ts[1..], x);
    }
  }

  lemma {:induction false} HourIsDifference(ts: seq<int>, lo: int)
    ensures InHour(ts, lo) == Below(ts, lo + HOUR) - Below(ts, lo)
  {
    if ts != [] {
      HourIsDifference(ts[1..], lo);
    }
  }

  lemma {:induction false} HourOfSorted(ts: seq<int>, lo: int)
    ensures Ascending(SortTimes(ts)) && |SortTimes(ts)| == |ts|
    ensures Below(SortTimes(ts), lo + HOUR) == Below(SortTimes(ts), lo) + InHour(ts, lo)
  {
    SortTimesSound(ts, lo);
    SortTimesSound(ts, lo + HOUR);
    HourIsDifference(ts, lo);
  }

  /** In sorted order, a hundred timestamps share an hour exactly when some
      hundred consecutive ones do. */
  lemma {:induction false} BusyHourIsConsecutive(ts: seq<int>, lo: int) returns (i: nat)
    requires InHour(ts, lo) >= 100
    ensures |SortTimes(ts)| == |ts|
    ensures i + 99 < |ts| && SortTimes(ts)[i + 99] - SortTimes(ts)[i] < HOUR
  {
    var s := SortTimes(ts);
    HourOfSorted(ts, lo);
    i := Below(s, lo);
    BelowAtMost(s, lo + HOUR);
    BelowIsRank(s, lo, i);
    BelowIsRank(s, lo + HOUR, i + 99);
  }

  lemma {:induction false} ConsecutiveIsBusyHour(ts: seq<int>, i: nat)
    requires |SortTimes(ts)| == |ts| && i + 99 < |ts| && SortTimes(ts)[i + 99] - SortTimes(ts)[i] < HOUR
    ensures InHour(ts, SortTimes(ts)[i]) >= 100
  {
    var s := SortTimes(ts);
    var lo := s[i];
    SortTimesSound(ts, lo);
    SortTimesSound(ts, lo + HOUR);
    HourIsDifference(ts, lo);
    BelowIsRank(s, lo, i);
    BelowIsRank(s, lo + HOUR, i + 99);
  }

  /** What the anomaly is described as: more than a hundred issuances in an hour. */
  ghost predicate OverRate(ts: seq<int>) {
    exists lo :: InHour(ts, lo) > 100
  }

  /** What the scan looks for. */
  ghost predicate Flagged(ts: seq<int>) {
    |ts| > 100 && exists lo :: InHour(ts, lo) >= 100
  }

  /** No hour holds more than n, and one does hold n. */
  ghost predicate BusiestHourHolds(ts: seq<int>, n: nat) {
    (exists lo :: InHour(ts, lo) == n) && forall lo :: InHour(ts, lo) <= n
  }

  lemma {:induction false} InHourAtMost(ts: seq<int>, lo: int)
    ensures InHour(ts, lo) <= |ts|
  {
    if ts != [] {
      InHourAtMost(ts[1..], lo);
    }
  }

  /** The scan agrees with its description except when there are more than a
      hundred issuances and the busiest hour holds exactly a hundred. */
  lemma {:induction false} FlaggedAsDescribedIff(ts: seq<int>)
    ensures (Flagged(ts) <==> OverRate(ts)) <==> !(|ts| > 100 && BusiestHourHolds(ts, 100))
  {
    if OverRate(ts) {
      var lo :| InHour(ts, lo) > 100;
      InHourAtMost(ts, lo);
      assert !BusiestHourHolds(ts, 100);
    } else if Flagged(ts) {
      var lo :| InHour(ts, lo) >= 100;
      assert InHour(ts, lo) == 100;
    }
  }

  function Burst(at: int, n: nat): (r: seq<int>)
    ensures |r| == n
  {
    if n == 0 then [] else [at] + Burst(at, n - 1)
  }

  lemma {:induction false} BurstInHour(at: int, n: nat, rest: seq<int>, lo: int)
    ensures InHour(Burst(at, n) + rest, lo) == (if lo <= at < lo + HOUR then n else 0) + InHour(rest, lo)
  {
    if n == 0 {
      assert Burst(at, n) + rest == rest;
    } else {
      BurstInHour(at, n - 1, rest, lo);
      assert (Burst(at, n) + rest)[1..] == Burst(at, n - 1) + rest;
    }
  }

  /** A hundred issuances at once and one more an hour or longer after are flagged,
      although no hour holds more than a hundred. */
  lemma {:induction false} HundredAndOneFlagged(at: int, after: int)
    requires after >= at + HOUR
    ensures Flagged(Burst(at, 100) + [after]) && !OverRate(Burst(at, 100) + [after])
  {
    var ts := Burst(at, 100) + [after];
    forall lo ensures InHour(ts, lo) <= 100 {
      BurstInHour(at, 100, [after], lo);
      assert [after][1..] == [];
    }
    BurstInHour(at, 100, [after], at);
    assert InHour(ts, at) >= 100;
  }

  /** The token-rate scan of `generateComplianceReport`. */
  method HighTokenRate(timestamps: seq<int>) returns (anomaly: bool)
    ensures anomaly <==> Flagged(timestamps)
  {
    anomaly := false;
    if |timestamps| > 100 {
      var sorted := SortTimes(timestamps);
      SortTimesSound(timestamps, 0);
      var i := 0;
      while i <= |sorted| - 100 && !anomaly
        invariant 0 <= i <= |sorted| - 99
        invariant anomaly ==> exists lo :: InHour(timestamps, lo) >= 100
        invariant !anomaly ==> forall k :: 0 <= k < i ==> sorted[k + 99] - sorted[k] >= HOUR
        decreases |sorted| - i, if anomaly then 0 else 1
      {
        if sorted[i + 99] - sorted[i] < HOUR {
          ConsecutiveIsBusyHour(timestamps, i);
          anomaly := true;
        } else {
          i := i + 1;
        }
      }
      if !anomaly {
        forall lo ensures InHour(timestamps, lo) < 100 {
          if InHour(timestamps, lo) >= 100 {
            var k := BusyHourIsConsecutive(timestamps, lo);
            assert false;
          }
        }
      }
    }
  }
}
