/** Single-flight access-token refresh as an interleaved protocol: any number of
    `getAccessToken` callers, split at their awaits, against a provider that may
    rotate refresh tokens.  One step below is what the code runs without yielding. */
module TokenRefresh {
  import opened Optional

  /** REFRESH_BUFFER_MS. */
  const REFRESH_BUFFER := 300000

  type RefreshToken = nat
  type AccessToken = nat
  type CallerId = nat
  type FlightId = nat

  datatype Tokens = Tokens(access: AccessToken, refresh: RefreshToken, expiry: int)

  datatype Error = InvalidGrant | ServerError

  /** A successful token response; the refresh token is present when rotated. */
  datatype Grant = Grant(access: AccessToken, rotated: Option<RefreshToken>, expiresIn: int)

  /** The phases of `refreshAccessToken` inside the shared promise. */
  datatype Flight =
    | Sent(token: RefreshToken)
    | Granted(token: RefreshToken, grant: Grant)
    | Refused(error: Error)
    | Encrypting(tokens: Tokens)
    | Written(tokens: Tokens)
    | Resolved(tokens: Tokens)
    | Rejected(error: Error)
  {
    predicate Outstanding() { !Resolved? && !Rejected? }
  }

  /** A caller between two of its awaits. */
  datatype Caller =
    | Loaded(tokens: Tokens)
    | Waiting(attempted: RefreshToken, flight: FlightId)
    | Recovering(attempted: RefreshToken, latest: Tokens)
    | Returned(access: AccessToken)
    | Failed(error: Error)

  datatype State = State(
    stored: Tokens, inFlight: Option<FlightId>, flights: seq<Flight>, callers: map<CallerId, Caller>,
    current: RefreshToken, issued: set<RefreshToken>, now: int)

  datatype Action =
    | Load(caller: CallerId)
    | Decide(caller: CallerId)
    | Accept(flight: FlightId, grant: Grant)
    | Refuse(flight: FlightId, error: Error)
    | Parse(flight: FlightId)
    | Write(flight: FlightId)
    | Clear(flight: FlightId)
    | Wake(caller: CallerId)
    | Settle(caller: CallerId)
    | Tick(elapsed: nat)

  predicate Fresh(t: Tokens, now: int) {
    t.expiry - now > REFRESH_BUFFER
  }

  predicate FlightIn(s: State, f: FlightId) {
    f < |s.flights|
  }

  /** What the scheduler, the provider and the clock may do next.  The provider
      grants only its current refresh token, rotates only to tokens it has never
      issued, and answers a stale token with invalid_grant or a server error. */
  predicate Enabled(s: State, a: Action) {
    match a
    case Load(c) => c !in s.callers
    case Decide(c) => c in s.callers && s.callers[c].Loaded?
    case Accept(f, g) =>
      FlightIn(s, f) && s.flights[f].Sent? && s.flights[f].token == s.current
      && (g.rotated.Some? ==> g.rotated.value !in s.issued)
    case Refuse(f, e) =>
      FlightIn(s, f) && s.flights[f].Sent? && (e == InvalidGrant ==> s.flights[f].token != s.current)
    case Parse(f) => FlightIn(s, f) && s.flights[f].Granted?
    case Write(f) => FlightIn(s, f) && s.flights[f].Encrypting?
    case Clear(f) => FlightIn(s, f) && (s.flights[f].Written? || s.flights[f].Refused?)
    case Wake(c) =>
      c in s.callers && s.callers[c].Waiting? && FlightIn(s, s.callers[c].flight)
      && !s.flights[s.callers[c].flight].Outstanding()
    case Settle(c) => c in s.callers && s.callers[c].Recovering?
    case Tick(_) => true
  }

  function Keep(token: RefreshToken, g: Grant): RefreshToken {
    if g.rotated.Some? then g.rotated.value else token
  }

  function Next(s: State, a: Action): State
    requires Enabled(s, a)
  {
    match a
    case Load(c) => s.(callers := s.callers[c := Loaded(s.stored)])
    case Decide(c) =>
      var t := s.callers[c].tokens;
      if Fresh(t, s.now) then s.(callers := s.callers[c := Returned(t.access)])
      else if s.inFlight.None? then
        var f := |s.flights|;
        s.(flights := s.flights + [Sent(t.refresh)], inFlight := Some(f),
           callers := s.callers[c := Waiting(t.refresh, f)])
      else s.(callers := s.callers[c := Waiting(t.refresh, s.inFlight.value)])
    case Accept(f, g) =>
      s.(flights := s.flights[f := Granted(s.flights[f].token, g)],
         current := Keep(s.flights[f].token, g),
         issued := s.issued + {Keep(s.flights[f].token, g)})
    case Refuse(f, e) => s.(flights := s.flights[f := Refused(e)])
    case Parse(f) =>
      var g := s.flights[f].grant;
      s.(flights := s.flights[f := Encrypting(Tokens(g.access, Keep(s.flights[f].token, g), s.now + g.expiresIn))])
    case Write(f) =>
      s.(flights := s.flights[f := Written(s.flights[f].tokens)], stored := s.flights[f].tokens)
    case Clear(f) =>
      s.(flights := s.flights[f := if s.flights[f].Written? then Resolved(s.flights[f].tokens)
                                   else Rejected(s.flights[f].error)],
         inFlight := None)
    case Wake(c) =>
      var w := s.callers[c];
      var outcome := match s.flights[w.flight]
                     case Resolved(t) => Returned(t.access)
                     case Rejected(InvalidGrant) => Recovering(w.attempted, s.stored)
                     case _ => Failed(ServerError);
      s.(callers := s.callers[c := outcome])
    case Settle(c) =>
      var r := s.callers[c];
      s.(callers := s.callers[c := if r.latest.refresh != r.attempted && Fresh(r.latest, s.now)
                                   then Returned(r.latest.access) else Failed(InvalidGrant)])
    case Tick(elapsed) => s.(now := s.now + elapsed)
  }

  function Initial(t: Tokens, now: int): State {
    State(t, None, [], map[], t.refresh, {t.refresh}, now)
  }

  predicate Run(s: State, actions: seq<Action>)
    decreases |actions|
  {
    actions == [] || (Enabled(s, actions[0]) && Run(Next(s, actions[0]), actions[1..]))
  }

  function After(s: State, actions: seq<Action>): State
    requires Run(s, actions)
    decreases |actions|
  {
    if actions == [] then s else After(Next(s, actions[0]), actions[1..])
  }

  // ----- Safety without assumptions -----

  /** The promise field names the one outstanding flight, if any. */
  ghost predicate OneFlight(s: State) {
    && (s.inFlight.Some? ==> FlightIn(s, s.inFlight.value) && s.flights[s.inFlight.value].Outstanding())
    && (forall f :: 0 <= f < |s.flights| && s.flights[f].Outstanding() ==> s.inFlight == Some(f))
  }

  /** The newest refresh token this side has: in the outstanding flight while it
      carries one, otherwise in the store. */
  function Newest(s: State): RefreshToken {
    if s.inFlight.None? || !FlightIn(s, s.inFlight.value) then s.stored.refresh
    else match s.flights[s.inFlight.value]
         case Granted(token, g) => Keep(token, g)
         case Encrypting(t) => t.refresh
         case _ => s.stored.refresh
  }

  ghost predicate CurrentIsHeld(s: State) {
    s.current in s.issued && Newest(s) == s.current
  }

  ghost predicate Safe(s: State) {
    OneFlight(s) && CurrentIsHeld(s)
  }

  lemma {:induction false} SafeStep(s: State, a: Action)
    requires Safe(s) && Enabled(s, a)
    ensures Safe(Next(s, a))
  {
    var next := Next(s, a);
    match a
    case Decide(c) =>
      assert forall f :: 0 <= f < |s.flights| ==> next.flights[f] == s.flights[f];
    case Accept(f, g) => assert s.inFlight == Some(f);
    case Refuse(f, e) => assert s.inFlight == Some(f);
    case Parse(f) => assert s.inFlight == Some(f);
    case Write(f) => assert s.inFlight == Some(f);
    case Clear(f) => assert s.inFlight == Some(f);
    case _ =>
  }

  lemma {:induction false} SafeRun(s: State, actions: seq<Action>)
    requires Safe(s) && Run(s, actions)
    ensures Safe(After(s, actions))
    decreases |actions|
  {
    if actions != [] {
      SafeStep(s, actions[0]);
      SafeRun(Next(s, actions[0]), actions[1..]);
    }
  }

  /** Under every interleaving at most one refresh is outstanding, and whenever
      none is, the stored refresh token is the provider's current one. */
  lemma {:induction false} SingleFlight(t: Tokens, now: int, actions: seq<Action>)
    requires Run(Initial(t, now), actions)
    ensures var s := After(Initial(t, now), actions);
            && (forall f, g | 0 <= f < |s.flights| && 0 <= g < |s.flights| ::
                  s.flights[f].Outstanding() && s.flights[g].Outstanding() ==> f == g)
            && ((forall f :: 0 <= f < |s.flights| ==> !s.flights[f].Outstanding()) ==> s.stored.refresh == s.current)
  {
    SafeRun(Initial(t, now), actions);
  }

  // ----- No caller ends in invalid_grant -----

  /** The run never passes `horizon`, and every token written would still be
      outside the refresh buffer then. */
  predicate Outlives(s: State, actions: seq<Action>, horizon: int)
    requires Run(s, actions)
    decreases |actions|
  {
    && s.now <= horizon
    && (actions != [] ==>
          && (actions[0].Parse? ==> s.now + s.flights[actions[0].flight].grant.expiresIn - horizon > REFRESH_BUFFER)
          && Outlives(Next(s, actions[0]), actions[1..], horizon))
  }

  ghost predicate Lasting(t: Tokens, first: Tokens, horizon: int) {
    t == first || Fresh(t, horizon)
  }

  ghost predicate CallerGood(c: Caller, first: Tokens, horizon: int) {
    match c
    case Loaded(t) => Lasting(t, first, horizon)
    case Waiting(attempted, _) => attempted == first.refresh
    case Recovering(attempted, latest) =>
      attempted == first.refresh && latest.refresh != first.refresh && Fresh(latest, horizon)
    case Returned(_) => true
    case Failed(e) => e != InvalidGrant
  }

  /** Only the first refresh token is ever sent, and once it has been refused as
      stale it is gone from the store and from the provider. */
  ghost predicate FlightGood(s: State, fl: Flight, first: Tokens, horizon: int) {
    match fl
    case Sent(token) => token == first.refresh
    case Granted(token, _) => true
    case Encrypting(t) => Fresh(t, horizon)
    case Written(t) => Fresh(t, horizon)
    case Refused(e) => e == InvalidGrant ==> s.stored.refresh != first.refresh && s.current != first.refresh
    case Rejected(e) => e == InvalidGrant ==> s.stored.refresh != first.refresh && s.current != first.refresh
    case Resolved(_) => true
  }

  ghost predicate Graceful(s: State, first: Tokens, horizon: int) {
    && Safe(s)
    && first.refresh in s.issued
    && Lasting(s.stored, first, horizon)
    && (forall f :: 0 <= f < |s.flights| ==> FlightGood(s, s.flights[f], first, horizon))
    && (forall c :: c in s.callers ==> CallerGood(s.callers[c], first, horizon))
  }

  /** A caller's own step. */
  lemma {:induction false} GracefulCaller(s: State, a: Action, first: Tokens, horizon: int)
    requires Graceful(s, first, horizon) && Enabled(s, a) && s.now <= horizon
    requires a.Load? || a.Decide? || a.Wake? || a.Settle? || a.Tick?
    ensures Graceful(Next(s, a), first, horizon)
  {
    SafeStep(s, a);
    var next := Next(s, a);
    match a
    case Decide(c) =>
      assert CallerGood(s.callers[c], first, horizon);
      forall f | 0 <= f < |next.flights| ensures FlightGood(next, next.flights[f], first, horizon) {
        assert f < |s.flights| ==> FlightGood(s, s.flights[f], first, horizon);
      }
    case Wake(c) =>
      assert CallerGood(s.callers[c], first, horizon);
      assert FlightGood(s, s.flights[s.callers[c].flight], first, horizon);
    case Settle(c) =>
      assert CallerGood(s.callers[c], first, horizon);
    case _ =>
  }

  /** A step of the refresh under way. */
  lemma {:induction false} GracefulFlight(s: State, a: Action, first: Tokens, horizon: int)
    requires Graceful(s, first, horizon) && Enabled(s, a)
    requires a.Accept? || a.Refuse? || a.Parse? || a.Write? || a.Clear?
    requires a.Parse? ==> s.now + s.flights[a.flight].grant.expiresIn - horizon > REFRESH_BUFFER
    ensures Graceful(Next(s, a), first, horizon)
  {
    SafeStep(s, a);
    var next, f := Next(s, a), a.flight;
    assert FlightGood(s, s.flights[f], first, horizon) && s.inFlight == Some(f);
    forall g | 0 <= g < |next.flights| ensures FlightGood(next, next.flights[g], first, horizon) {
      assert FlightGood(s, s.flights[g], first, horizon);
    }
  }

  lemma {:induction false} GracefulStep(s: State, a: Action, first: Tokens, horizon: int)
    requires Graceful(s, first, horizon) && Enabled(s, a) && s.now <= horizon
    requires a.Parse? ==> s.now + s.flights[a.flight].grant.expiresIn - horizon > REFRESH_BUFFER
    ensures Graceful(Next(s, a), first, horizon)
  {
    if a.Load? || a.Decide? || a.Wake? || a.Settle? || a.Tick? {
      GracefulCaller(s, a, first, horizon);
    } else {
      GracefulFlight(s, a, first, horizon);
    }
  }

  lemma {:induction false} GracefulRun(s: State, actions: seq<Action>, first: Tokens, horizon: int)
    requires Graceful(s, first, horizon) && Run(s, actions) && Outlives(s, actions, horizon)
    ensures Graceful(After(s, actions), first, horizon)
    decreases |actions|
  {
    if actions != [] {
      GracefulStep(s, actions[0], first, horizon);
      GracefulRun(Next(s, actions[0]), actions[1..], first, horizon);
    }
  }

  /** If refreshed tokens outlive the buffer for the run, no caller ends in
      invalid_grant, not even one that started a refresh with a stale token. */
  lemma {:induction false} NoInvalidGrant(t: Tokens, now: int, actions: seq<Action>, horizon: int, c: CallerId)
    requires Run(Initial(t, now), actions) && Outlives(Initial(t, now), actions, horizon)
    ensures var s := After(Initial(t, now), actions);
            c in s.callers ==> s.callers[c] != Failed(InvalidGrant)
  {
    GracefulRun(Initial(t, now), actions, t, horizon);
    var s := After(Initial(t, now), actions);
    if c in s.callers {
      assert CallerGood(s.callers[c], t, horizon);
    }
  }
}
