/** How long refreshed tokens must last for no caller to end in invalid_grant. */
module TokenLifetime {
  import opened Optional
  import opened TokenRefresh

  /** How much the clock advances over the run. */
  function Elapsed(actions: seq<Action>): nat
    decreases |actions|
  {
    if actions == [] then 0 else (if actions[0].Tick? then actions[0].elapsed else 0) + Elapsed(actions[1..])
  }

  predicate GrantsLast(actions: seq<Action>, life: int) {
    forall a :: a in actions && a.Accept? ==> a.grant.expiresIn >= life
  }

  /** A run of at most `wait` milliseconds in which every granted access token
      lasts at least `life`. */
  predicate Bounded(t: Tokens, now: int, actions: seq<Action>, life: int, wait: nat) {
    Run(Initial(t, now), actions) && Elapsed(actions) <= wait && GrantsLast(actions, life)
  }

  ghost predicate NoneRefused(s: State) {
    forall c :: c in s.callers ==> s.callers[c] != Failed(InvalidGrant)
  }

  ghost predicate NeverRefused(t: Tokens, now: int, life: int, wait: nat) {
    forall actions :: Bounded(t, now, actions, life, wait) ==> NoneRefused(After(Initial(t, now), actions))
  }

  function Later(a: int, b: int): int { if a < b then b else a }

  /** When a caller first finds the tokens stale. */
  function StaleAt(t: Tokens, now: int): int {
    Later(now, t.expiry - REFRESH_BUFFER)
  }

  /** The tokens stay fresh for the whole run, or a token granted as soon as they
      are stale does. */
  predicate LongEnough(t: Tokens, now: int, life: int, wait: nat) {
    Fresh(t, now + wait) || StaleAt(t, now) + life - (now + wait) > REFRESH_BUFFER
  }

  /** Grants last, and nothing is refreshed before the first tokens are stale. */
  ghost predicate Timely(s: State, t: Tokens, life: int) {
    && (forall f :: 0 <= f < |s.flights| && s.flights[f].Granted? ==> s.flights[f].grant.expiresIn >= life)
    && (Fresh(t, s.now) ==>
          s.flights == [] && s.stored == t && forall c :: c in s.callers && s.callers[c].Loaded? ==> s.callers[c].tokens == t)
  }

  lemma {:induction false} TimelyStep(s: State, a: Action, t: Tokens, life: int)
    requires Timely(s, t, life) && Enabled(s, a) && (a.Accept? ==> a.grant.expiresIn >= life)
    ensures Timely(Next(s, a), t, life)
  {
  }

  lemma {:induction false} BoundedOutlives(s: State, actions: seq<Action>, t: Tokens, now: int, life: int, wait: nat)
    requires Run(s, actions) && Timely(s, t, life) && GrantsLast(actions, life)
    requires now <= s.now && s.now + Elapsed(actions) <= now + wait && LongEnough(t, now, life, wait)
    ensures Outlives(s, actions, now + wait)
    decreases |actions|
  {
    if actions != [] {
      assert actions[0] in actions && forall a :: a in actions[1..] ==> a in actions;
      TimelyStep(s, actions[0], t, life);
      BoundedOutlives(Next(s, actions[0]), actions[1..], t, now, life, wait);
    }
  }

  lemma {:induction false} StepTo(s: State, a: Action, next: State, rest: seq<Action>)
    requires Enabled(s, a) && Next(s, a) == next && Run(next, rest)
    ensures Run(s, [a] + rest) && After(s, [a] + rest) == After(next, rest)
    ensures Elapsed([a] + rest) == (if a.Tick? then a.elapsed else 0) + Elapsed(rest)
  {
    assert ([a] + rest)[1..] == rest;
  }

  /** Two callers hold the tokens and the first has asked for a refresh. */
  function Asking(t: Tokens, now: int): State {
    State(t, Some(0), [Sent(t.refresh)], map[1 := Waiting(t.refresh, 0), 2 := Loaded(t)], t.refresh, {t.refresh}, now)
  }

  /** The refresh is stored and the second caller still holds the first tokens. */
  function Renewed(t: Tokens, granted: int, life: int, now: int): State {
    var renewed := Tokens(0, t.refresh + 1, granted + life);
    State(renewed, None, [Resolved(renewed)], map[1 := Waiting(t.refresh, 0), 2 := Loaded(t)], t.refresh + 1,
          {t.refresh, t.refresh + 1}, now)
  }

  lemma {:induction false} GrantStored(t: Tokens, now: int, life: int, rest: seq<Action>) returns (run: seq<Action>)
    requires Run(Renewed(t, now, life, now), rest) && GrantsLast(rest, life)
    ensures Run(Asking(t, now), run) && After(Asking(t, now), run) == After(Renewed(t, now, life, now), rest)
    ensures Elapsed(run) == Elapsed(rest) && GrantsLast(run, life)
  {
    var r, g := t.refresh, Grant(0, Some(t.refresh + 1), life);
    var s4 := Asking(t, now).(flights := [Granted(r, g)], current := r + 1, issued := {r, r + 1});
    var s5 := s4.(flights := [Encrypting(Tokens(0, r + 1, now + life))]);
    var s6 := s4.(stored := Tokens(0, r + 1, now + life), flights := [Written(Tokens(0, r + 1, now + life))]);
    var run6 := [Clear(0)] + rest;
    var run5 := [Write(0)] + run6;
    var run4 := [Parse(0)] + run5;
    run := [Accept(0, g)] + run4;
    StepTo(s6, Clear(0), Renewed(t, now, life, now), rest);
    StepTo(s5, Write(0), s6, run6);
    StepTo(s4, Parse(0), s5, run5);
    StepTo(Asking(t, now), Accept(0, g), s4, run4);
  }

  lemma {:induction false} FirstRefreshes(t: Tokens, now: int, life: int, rest: seq<Action>) returns (run: seq<Action>)
    requires !Fresh(t, now) && Run(Renewed(t, now, life, now), rest) && GrantsLast(rest, life)
    ensures Run(Initial(t, now), run) && After(Initial(t, now), run) == After(Renewed(t, now, life, now), rest)
    ensures Elapsed(run) == Elapsed(rest) && GrantsLast(run, life)
  {
    var run3 := GrantStored(t, now, life, rest);
    var s1 := Initial(t, now).(callers := map[1 := Loaded(t)]);
    var s2 := s1.(callers := map[1 := Loaded(t), 2 := Loaded(t)]);
    var run2 := [Decide(1)] + run3;
    var run1 := [Load(2)] + run2;
    run := [Load(1)] + run1;
    StepTo(s2, Decide(1), Asking(t, now), run3);
    StepTo(s1, Load(2), s2, run2);
    StepTo(Initial(t, now), Load(1), s1, run1);
  }

  /** The second caller's refresh with its stale token has been refused. */
  function RefusedStale(t: Tokens, s: State): State {
    s.(flights := [Resolved(s.stored), Rejected(InvalidGrant)], callers := map[1 := Waiting(t.refresh, 0), 2 := Waiting(t.refresh, 1)])
  }

  lemma {:induction false} RefusalKept(t: Tokens, s: State)
    requires !Fresh(s.stored, s.now)
    ensures var run := [Wake(2), Settle(2)];
            Run(RefusedStale(t, s), run) && !NoneRefused(After(RefusedStale(t, s), run))
  {
    var r := t.refresh;
    var s3 := RefusedStale(t, s);
    var s4 := s3.(callers := map[1 := Waiting(r, 0), 2 := Recovering(r, s.stored)]);
    var s5 := s3.(callers := map[1 := Waiting(r, 0), 2 := Failed(InvalidGrant)]);
    StepTo(s4, Settle(2), s5, []);
    StepTo(s3, Wake(2), s4, [Settle(2)]);
    assert s5.callers[2] == Failed(InvalidGrant);
  }

  /** The second caller then refreshes with its stale token and finds the stored
      one about to expire. */
  lemma {:induction false} SecondFails(t: Tokens, granted: int, life: int, now: int) returns (run: seq<Action>)
    requires !Fresh(t, now) && granted + life - now <= REFRESH_BUFFER
    ensures Run(Renewed(t, granted, life, now), run) && Elapsed(run) == 0 && GrantsLast(run, life)
    ensures !NoneRefused(After(Renewed(t, granted, life, now), run))
  {
    var s := Renewed(t, granted, life, now);
    var s1 := s.(inFlight := Some(1), flights := [Resolved(s.stored), Sent(t.refresh)],
                 callers := map[1 := Waiting(t.refresh, 0), 2 := Waiting(t.refresh, 1)]);
    var s2 := s1.(flights := [Resolved(s.stored), Refused(InvalidGrant)]);
    RefusalKept(t, s);
    var run3 := [Wake(2), Settle(2)];
    var run2 := [Clear(1)] + run3;
    var run1 := [Refuse(1, InvalidGrant)] + run2;
    run := [Decide(2)] + run1;
    StepTo(s2, Clear(1), RefusedStale(t, s), run3);
    StepTo(s1, Refuse(1, InvalidGrant), s2, run2);
    StepTo(s, Decide(2), s1, run1);
  }

  /** Tokens that do not last long enough let a caller end in invalid_grant. */
  lemma {:induction false} RefusedRun(t: Tokens, now: int, life: int, wait: nat) returns (run: seq<Action>)
    requires !LongEnough(t, now, life, wait)
    ensures Bounded(t, now, run, life, wait) && !NoneRefused(After(Initial(t, now), run))
  {
    var stale, end := StaleAt(t, now), now + wait;
    var tail := SecondFails(t, stale, life, end);
    StepTo(Renewed(t, stale, life, stale), Tick(end - stale), Renewed(t, stale, life, end), tail);
    var middle := FirstRefreshes(t, stale, life, [Tick(end - stale)] + tail);
    StepTo(Initial(t, now), Tick(stale - now), Initial(t, stale), middle);
    run := [Tick(stale - now)] + middle;
  }

  /** No caller of any such run ends in invalid_grant exactly when the first
      tokens stay fresh throughout or a token granted once they are stale does. */
  lemma {:induction false} NeverRefusedIff(t: Tokens, now: int, life: int, wait: nat)
    ensures NeverRefused(t, now, life, wait) <==> LongEnough(t, now, life, wait)
  {
    if LongEnough(t, now, life, wait) {
      forall actions | Bounded(t, now, actions, life, wait) ensures NoneRefused(After(Initial(t, now), actions)) {
        BoundedOutlives(Initial(t, now), actions, t, now, life, wait);
        forall c | c in After(Initial(t, now), actions).callers
          ensures After(Initial(t, now), actions).callers[c] != Failed(InvalidGrant)
        {
          NoInvalidGrant(t, now, actions, now + wait, c);
        }
      }
    } else {
      var run := RefusedRun(t, now, life, wait);
      assert Bounded(t, now, run, life, wait);
    }
  }
}
