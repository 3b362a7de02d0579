/** Any number of commits of one group session that overlap: each creates the
    participants' events, commits their sessions and registers, one remote call at
    a time, and cancels what it created when a call fails. */
module OverlappingCommits {
  import opened SchedulingSessions
  import opened CommitFates
  import opened GroupCommit
  import opened Optional
  import opened Sequences

  type CommitId = nat

  /** Where a commit stands: the next participant of each loop, or `created`
      participants left to cancel from `next` on. */
  datatype Phase =
    | Creating(next: nat)
    | Committing(next: nat)
    | Registering
    | Cancelling(next: nat, created: nat)
    | Over

  datatype Progress = Progress(candidate: CandidateId, event: EventId, phase: Phase)

  /** `lead` is the commit whose event the first participant holds. */
  datatype World = World(users: map<UserId, UserGraph>, registry: Status, commits: map<CommitId, Progress>,
                         delivered: seq<UserId>, lead: Option<CommitId>)

  datatype Action =
    | Begin(c: CommitId, candidate: CandidateId, event: EventId)
    | Call(c: CommitId, fate: Fate)
    | Other(user: UserId, op: Op)

  predicate InRange(ps: seq<UserId>, p: Phase) {
    match p
    case Creating(i) => i < |ps|
    case Committing(i) => i < |ps|
    case Registering => true
    case Cancelling(i, created) => i <= created <= |ps|
    case Over => false
  }

  predicate Enabled(id: SessionId, ps: seq<UserId>, w: World, a: Action) {
    match a
    case Begin(c, _, _) => c !in w.commits
    case Call(c, _) => c in w.commits && InRange(ps, w.commits[c].phase)
    case Other(u, op) => u in w.users && !(op.CommitOp? && op.id == id)
  }

  function MoveTo(w: World, c: CommitId, p: Phase): World
    requires c in w.commits
  {
    w.(commits := w.commits[c := w.commits[c].(phase := p)])
  }

  /** The event of one participant: refused when the group event is there already. */
  function CreateCall(ps: seq<UserId>, w: World, c: CommitId, i: nat, fate: Fate): World
    requires c in w.commits && i < |ps|
  {
    var u := ps[i];
    if fate.LostBefore? || u !in w.users || w.users[u].groupEvent.Some? then MoveTo(w, c, Cancelling(0, i))
    else
      var next := if fate.LostAfter? then Cancelling(0, i) else if i + 1 < |ps| then Creating(i + 1) else Committing(0);
      MoveTo(w, c, next).(users := w.users[u := w.users[u].(groupEvent := Some(w.commits[c].event))],
                          delivered := w.delivered + [u],
                          lead := if i == 0 then Some(c) else w.lead)
  }

  function CommitCall(id: SessionId, ps: seq<UserId>, w: World, c: CommitId, i: nat, fate: Fate): World
    requires c in w.commits && i < |ps|
  {
    var u := ps[i];
    if fate.LostBefore? || u !in w.users || id !in w.users[u].tables.sessions then MoveTo(w, c, Cancelling(0, |ps|))
    else
      var next := if fate.LostAfter? then Cancelling(0, |ps|) else if i + 1 < |ps| then Committing(i + 1) else Registering;
      var t := Commit(w.users[u].tables, id, Commitment(w.commits[c].candidate, w.commits[c].event));
      MoveTo(w, c, next).(users := w.users[u := w.users[u].(tables := t)])
  }

  function CancelCall(id: SessionId, ps: seq<UserId>, w: World, c: CommitId, i: nat, created: nat, fate: Fate): World
    requires c in w.commits && i < created <= |ps|
  {
    var u := ps[i];
    var moved := MoveTo(w, c, Cancelling(i + 1, created));
    if fate.LostBefore? || u !in w.users then moved
    else moved.(users := w.users[u := w.users[u].(tables := Cancel(w.users[u].tables, id))])
  }

  /** The next remote call of a commit. */
  function CallNext(id: SessionId, ps: seq<UserId>, w: World, c: CommitId, fate: Fate): World
    requires c in w.commits && InRange(ps, w.commits[c].phase)
  {
    match w.commits[c].phase
    case Creating(i) => CreateCall(ps, w, c, i, fate)
    case Committing(i) => CommitCall(id, ps, w, c, i, fate)
    case Registering =>
      var moved := MoveTo(w, c, if fate.Delivered? then Over else Cancelling(0, |ps|));
      if fate.LostBefore? then moved else moved.(registry := Committed)
    case Cancelling(i, created) =>
      if i < created then CancelCall(id, ps, w, c, i, created, fate)
      else
        var moved := MoveTo(w, c, Over);
        if fate.LostBefore? then moved else moved.(registry := Cancelled)
    case Over => w
  }

  function Take(id: SessionId, ps: seq<UserId>, w: World, a: Action): World
    requires Enabled(id, ps, w, a)
  {
    match a
    case Begin(c, candidate, event) => w.(commits := w.commits[c := Progress(candidate, event, Creating(0))])
    case Call(c, fate) => CallNext(id, ps, w, c, fate)
    case Other(u, op) => w.(users := w.users[u := w.users[u].(tables := Apply(w.users[u].tables, op))])
  }

  ghost predicate Possible(id: SessionId, ps: seq<UserId>, w: World, run: seq<Action>)
    decreases |run|
  {
    run == [] || (Enabled(id, ps, w, run[0]) && Possible(id, ps, Take(id, ps, w, run[0]), run[1..]))
  }

  function After(id: SessionId, ps: seq<UserId>, w: World, run: seq<Action>): World
    requires Possible(id, ps, w, run)
    decreases |run|
  {
    if run == [] then w else After(id, ps, Take(id, ps, w, run[0]), run[1..])
  }

  /** No commit has begun and the registry does not say 'committed'. */
  predicate Start(w: World) {
    w.registry != Committed && w.commits == map[] && w.delivered == [] && w.lead.None?
  }

  /** The registry says 'committed' only if all sessions are committed to one candidate. */
  ghost predicate Truthful(id: SessionId, ps: seq<UserId>, w: World) {
    w.registry == Committed ==> exists c :: AllCommittedTo(w.users, id, ps, c)
  }

  // ----- What every step keeps -----

  /** A commit other than the lead has created nothing, so it cancels nothing either. */
  ghost predicate Behind(p: Phase) {
    p == Creating(0) || p == Cancelling(0, 0) || p == Over
  }

  /** How far the lead is: the sessions it has committed so far. */
  ghost predicate LeadHas(id: SessionId, ps: seq<UserId>, users: map<UserId, UserGraph>, p: Progress) {
    match p.phase
    case Committing(i) => i <= |ps| && forall j :: 0 <= j < i ==> CommittedTo(users, id, ps[j], p.candidate)
    case Registering => AllCommittedTo(users, id, ps, p.candidate)
    case _ => true
  }

  ghost predicate OneLeads(id: SessionId, ps: seq<UserId>, w: World)
    requires ps != []
  {
    && (forall c :: c in w.commits && w.lead != Some(c) ==> Behind(w.commits[c].phase))
    && (w.lead.Some? ==>
          && w.lead.value in w.commits && ps[0] in w.users && w.users[ps[0]].groupEvent.Some?
          && LeadHas(id, ps, w.users, w.commits[w.lead.value]))
    && (w.registry == Committed ==>
          w.lead.Some? && AllCommittedTo(w.users, id, ps, w.commits[w.lead.value].candidate))
  }

  /** Nobody got two events, and whoever got one holds it. */
  ghost predicate OnceEach(w: World) {
    Distinct(w.delivered) && forall u :: u in w.delivered ==> u in w.users && w.users[u].groupEvent.Some?
  }

  ghost predicate Sound(id: SessionId, ps: seq<UserId>, w: World)
    requires ps != []
  {
    OneLeads(id, ps, w) && OnceEach(w)
  }

  /** Every session committed to a candidate before is so afterwards. */
  ghost predicate CommitmentsStay(id: SessionId, before: map<UserId, UserGraph>, after: map<UserId, UserGraph>, candidate: CandidateId) {
    forall u :: CommittedTo(before, id, u, candidate) ==> CommittedTo(after, id, u, candidate)
  }

  lemma {:induction false} CalmStays(id: SessionId, users: map<UserId, UserGraph>, u: UserId, t: Tables, candidate: CandidateId)
    requires u in users && Calm(users[u].tables, t, id)
    ensures CommitmentsStay(id, users, users[u := users[u].(tables := t)], candidate)
  {
  }

  lemma {:induction false} EventStays(id: SessionId, users: map<UserId, UserGraph>, u: UserId, e: EventId, candidate: CandidateId)
    requires u in users
    ensures CommitmentsStay(id, users, users[u := users[u].(groupEvent := Some(e))], candidate)
  {
  }

  lemma {:induction false} CommitStays(id: SessionId, users: map<UserId, UserGraph>, u: UserId, c: Commitment)
    requires u in users && id in users[u].tables.sessions
    ensures var after := users[u := users[u].(tables := Commit(users[u].tables, id, c))];
            CommittedTo(after, id, u, c.candidate) && CommitmentsStay(id, users, after, c.candidate)
  {
  }

  /** What the lead has committed it keeps, whatever happens to the sessions otherwise. */
  lemma {:induction false} LeadKeeps(id: SessionId, ps: seq<UserId>, before: map<UserId, UserGraph>, after: map<UserId, UserGraph>, p: Progress)
    requires CommitmentsStay(id, before, after, p.candidate)
    ensures LeadHas(id, ps, before, p) ==> LeadHas(id, ps, after, p)
    ensures AllCommittedTo(before, id, ps, p.candidate) ==> AllCommittedTo(after, id, ps, p.candidate)
  {
  }

  lemma {:induction false} CreateKeeps(id: SessionId, ps: seq<UserId>, w: World, c: CommitId, i: nat, fate: Fate)
    requires ps != [] && Sound(id, ps, w) && c in w.commits && w.commits[c].phase == Creating(i) && i < |ps|
    ensures Sound(id, ps, CreateCall(ps, w, c, i, fate))
  {
    var u := ps[i];
    if !(fate.LostBefore? || u !in w.users || w.users[u].groupEvent.Some?) {
      var after := CreateCall(ps, w, c, i, fate);
      if w.lead.Some? {
        EventStays(id, w.users, u, w.commits[c].event, w.commits[w.lead.value].candidate);
        LeadKeeps(id, ps, w.users, after.users, w.commits[w.lead.value]);
      }
    }
  }

  lemma {:induction false} CommitKeeps(id: SessionId, ps: seq<UserId>, w: World, c: CommitId, i: nat, fate: Fate)
    requires ps != [] && Sound(id, ps, w) && c in w.commits && w.commits[c].phase == Committing(i) && i < |ps|
    ensures Sound(id, ps, CommitCall(id, ps, w, c, i, fate))
  {
    var u := ps[i];
    assert w.lead == Some(c);
    if !(fate.LostBefore? || u !in w.users || id !in w.users[u].tables.sessions) {
      var after := CommitCall(id, ps, w, c, i, fate);
      CommitStays(id, w.users, u, Commitment(w.commits[c].candidate, w.commits[c].event));
      LeadKeeps(id, ps, w.users, after.users, w.commits[c]);
      forall j | 0 <= j < i + 1 ensures CommittedTo(after.users, id, ps[j], w.commits[c].candidate) {
      }
    }
  }

  lemma {:induction false} CancelKeeps(id: SessionId, ps: seq<UserId>, w: World, c: CommitId, i: nat, created: nat, fate: Fate)
    requires ps != [] && Sound(id, ps, w) && c in w.commits && w.commits[c].phase == Cancelling(i, created) && i < created <= |ps|
    ensures Sound(id, ps, CancelCall(id, ps, w, c, i, created, fate))
  {
    var u := ps[i];
    if !fate.LostBefore? && u in w.users {
      CalmStep(w.users[u].tables, CancelOp(id), id);
      CalmStays(id, w.users, u, Cancel(w.users[u].tables, id), w.commits[c].candidate);
      LeadKeeps(id, ps, w.users, CancelCall(id, ps, w, c, i, created, fate).users, w.commits[c]);
    }
  }

  lemma {:induction false} CallKeeps(id: SessionId, ps: seq<UserId>, w: World, c: CommitId, fate: Fate)
    requires ps != [] && Sound(id, ps, w) && c in w.commits && InRange(ps, w.commits[c].phase)
    ensures Sound(id, ps, CallNext(id, ps, w, c, fate))
  {
    match w.commits[c].phase
    case Creating(i) => CreateKeeps(id, ps, w, c, i, fate);
    case Committing(i) => CommitKeeps(id, ps, w, c, i, fate);
    case Cancelling(i, created) =>
      if i < created {
        CancelKeeps(id, ps, w, c, i, created, fate);
      }
    case _ =>
  }

  lemma {:induction false} OtherKeeps(id: SessionId, ps: seq<UserId>, w: World, u: UserId, op: Op)
    requires ps != [] && Sound(id, ps, w) && u in w.users && !(op.CommitOp? && op.id == id)
    ensures Sound(id, ps, w.(users := w.users[u := w.users[u].(tables := Apply(w.users[u].tables, op))]))
  {
    if w.lead.Some? {
      var t := Apply(w.users[u].tables, op);
      CalmStep(w.users[u].tables, op, id);
      CalmStays(id, w.users, u, t, w.commits[w.lead.value].candidate);
      LeadKeeps(id, ps, w.users, w.users[u := w.users[u].(tables := t)], w.commits[w.lead.value]);
    }
  }

  lemma {:induction false} SoundRun(id: SessionId, ps: seq<UserId>, w: World, run: seq<Action>)
    requires ps != [] && Sound(id, ps, w) && Possible(id, ps, w, run)
    ensures Sound(id, ps, After(id, ps, w, run))
    decreases |run|
  {
    if run != [] {
      match run[0] {
        case Begin(_, _, _) =>
        case Call(c, fate) => CallKeeps(id, ps, w, c, fate);
        case Other(u, op) => OtherKeeps(id, ps, w, u, op);
      }
      SoundRun(id, ps, Take(id, ps, w, run[0]), run[1..]);
    }
  }

  /** However many commits of a session overlap, and whatever calls of theirs are
      lost, the registry stays truthful and no participant gets two events, as long
      as nobody deletes the event it was delivered. */
  lemma {:induction false} OverlapStaysTruthful(id: SessionId, ps: seq<UserId>, w: World, run: seq<Action>)
    requires ps != [] && Start(w) && Possible(id, ps, w, run)
    ensures Truthful(id, ps, After(id, ps, w, run)) && Distinct(After(id, ps, w, run).delivered)
  {
    SoundRun(id, ps, w, run);
  }

  /** Only the commit whose event the first participant holds ever has anything to cancel. */
  lemma {:induction false} OnlyLeadCancels(id: SessionId, ps: seq<UserId>, w: World, run: seq<Action>, c: CommitId)
    requires ps != [] && Start(w) && Possible(id, ps, w, run)
    requires c in After(id, ps, w, run).commits
    ensures var p := After(id, ps, w, run).commits[c].phase;
            p.Cancelling? && p.created > 0 ==> After(id, ps, w, run).lead == Some(c)
  {
    SoundRun(id, ps, w, run);
  }
}
