/** Appends of one organization that overlap: each reads the last hash, and only
    later stores its entry. */
module InterleavedAppends {
  import opened AuditLog

  type AppendId = nat

  /** An append that has read the last hash; `read` rows were stored by then. */
  datatype Waiting = Waiting(input: Input, previousHash: Hash, read: nat)

  datatype State = State(log: seq<Entry>, waiting: map<AppendId, Waiting>)

  datatype Step = Begin(id: AppendId, input: Input) | Store(id: AppendId)

  predicate Enabled(s: State, step: Step) {
    if step.Begin? then step.id !in s.waiting else step.id in s.waiting
  }

  function Take(h: Digest, s: State, step: Step): State {
    if step.Begin? then s.(waiting := s.waiting[step.id := Waiting(step.input, LastHash(s.log), |s.log|)])
    else if step.id !in s.waiting then s
    else
      var w := s.waiting[step.id];
      State(Inserted(s.log, Entry(w.input, w.previousHash, h(w.input, w.previousHash))), s.waiting - {step.id})
  }

  function After(h: Digest, s: State, run: seq<Step>): State {
    if run == [] then s else Take(h, After(h, s, run[..|run| - 1]), run[|run| - 1])
  }

  /** No row is later than one being stored. */
  predicate InTime(s: State, step: Step) {
    step.Store? && step.id in s.waiting ==> Latest(s.log, s.waiting[step.id].input.timestamp)
  }

  predicate Possible(h: Digest, s: State, run: seq<Step>) {
    run == [] ||
    (Possible(h, s, run[..|run| - 1])
     && Enabled(After(h, s, run[..|run| - 1]), run[|run| - 1]) && InTime(After(h, s, run[..|run| - 1]), run[|run| - 1]))
  }

  /** Nothing was stored since the append read the last hash. */
  predicate Fresh(s: State, step: Step) {
    step.Store? && step.id in s.waiting ==> s.waiting[step.id].read == |s.log|
  }

  /** No append of the run was stored between another's read and its store. */
  predicate AllFresh(h: Digest, s: State, run: seq<Step>) {
    run == [] || (AllFresh(h, s, run[..|run| - 1]) && Fresh(After(h, s, run[..|run| - 1]), run[|run| - 1]))
  }

  /** What every waiting append read is the hash the log then ended in. */
  ghost predicate ReadsKept(s: State) {
    forall id :: id in s.waiting ==>
      s.waiting[id].read <= |s.log| && s.waiting[id].previousHash == HashBefore(s.log, s.waiting[id].read)
  }

  lemma {:induction false} LatestIsLast(log: seq<Entry>, timestamp: int)
    requires Latest(log, timestamp)
    ensures Place(log, timestamp) == |log|
  {
    if log != [] {
      assert log[|log| - 1] in log;
    }
  }

  lemma {:induction false} ReadsKeptStep(h: Digest, s: State, step: Step)
    requires ReadsKept(s) && Enabled(s, step) && InTime(s, step)
    ensures ReadsKept(Take(h, s, step))
    ensures step.Store? ==>
              var w := s.waiting[step.id];
              Take(h, s, step).log == s.log + [Entry(w.input, w.previousHash, h(w.input, w.previousHash))]
  {
    if step.Store? {
      LatestIsLast(s.log, s.waiting[step.id].input.timestamp);
    }
  }

  /** A row appended at the end keeps a log verifying exactly when it carries the
      last hash and its own. */
  lemma {:induction false} SnocVerifiesIff(h: Digest, log: seq<Entry>, e: Entry)
    requires e.entryHash == h(e.input, e.previousHash)
    ensures Verifies(h, log + [e]) <==> Verifies(h, log) && e.previousHash == LastHash(log)
  {
    var r := log + [e];
    forall i | 0 <= i < |log| ensures Linked(h, r, i) <==> Linked(h, log, i) {
    }
    assert Linked(h, r, |log|) <==> e.previousHash == LastHash(log);
    if Verifies(h, r) {
      forall i | 0 <= i < |log| ensures Linked(h, log, i) {
        assert Linked(h, r, i);
      }
      assert Linked(h, r, |log|);
    }
  }

  /** Storing keeps the log verifying exactly when nothing was stored since the read. */
  lemma {:induction false} StoreVerifiesIff(h: Digest, s: State, step: Step)
    requires Ideal(h) && ReadsKept(s) && Enabled(s, step) && InTime(s, step)
    ensures Verifies(h, Take(h, s, step).log) <==> Verifies(h, s.log) && Fresh(s, step)
  {
    if step.Store? {
      var w := s.waiting[step.id];
      ReadsKeptStep(h, s, step);
      SnocVerifiesIff(h, s.log, Entry(w.input, w.previousHash, h(w.input, w.previousHash)));
      if Verifies(h, s.log) && w.read < |s.log| {
        HashesDiffer(h, s.log, w.read, |s.log|);
      }
    }
  }

  lemma {:induction false} RunKeepsReads(h: Digest, s: State, run: seq<Step>)
    requires ReadsKept(s) && Possible(h, s, run)
    ensures ReadsKept(After(h, s, run))
  {
    if run != [] {
      RunKeepsReads(h, s, run[..|run| - 1]);
      ReadsKeptStep(h, After(h, s, run[..|run| - 1]), run[|run| - 1]);
    }
  }

  /** Overlapping appends leave a log that verifies exactly when none of them was
      stored between another's read and its store: otherwise the chain forks. */
  lemma {:induction false} ForksIff(h: Digest, s: State, run: seq<Step>)
    requires Ideal(h) && Verifies(h, s.log) && ReadsKept(s) && Possible(h, s, run)
    ensures Verifies(h, After(h, s, run).log) <==> AllFresh(h, s, run)
  {
    if run != [] {
      var before := run[..|run| - 1];
      ForksIff(h, s, before);
      RunKeepsReads(h, s, before);
      StoreVerifiesIff(h, After(h, s, before), run[|run| - 1]);
    }
  }

  /** Two appends that both read the last hash before either is stored fork the chain. */
  lemma {:induction false} BothReadFirst(h: Digest, s: State, i: AppendId, j: AppendId)
    requires Ideal(h) && Verifies(h, s.log) && ReadsKept(s) && i in s.waiting && j in s.waiting && i != j
    requires s.waiting[i].read == |s.log| == s.waiting[j].read
    requires InTime(s, Store(i)) && s.waiting[i].input.timestamp <= s.waiting[j].input.timestamp
    ensures !Verifies(h, Take(h, Take(h, s, Store(i)), Store(j)).log)
  {
    var t := Take(h, s, Store(i));
    ReadsKeptStep(h, s, Store(i));
    StoreVerifiesIff(h, t, Store(j));
  }
}
