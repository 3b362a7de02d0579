/** What creating one event per participant leaves behind when any of the remote
    calls may be lost, before or after taking effect. */
module CommitFates {
  import opened Sequences

  type UserId = string

  /** What becomes of one call: delivered, or lost before or after taking effect. */
  datatype Fate = Delivered | LostBefore | LostAfter

  /** The participants the loop serves: it stops at a lost call and at a participant
      that is blocked, as one is that already holds the group event. */
  function Served(blocked: set<UserId>, ps: seq<UserId>, fates: seq<Fate>): seq<UserId>
    requires |fates| == |ps|
    decreases |ps|
  {
    if ps == [] || ps[0] in blocked then []
    else match fates[0]
         case Delivered => [ps[0]] + Served(blocked + {ps[0]}, ps[1..], fates[1..])
         case LostBefore => []
         case LostAfter => [ps[0]]
  }

  /** A prefix of the participants, each once and none of them blocked. */
  ghost predicate Reachable(blocked: set<UserId>, ps: seq<UserId>, s: seq<UserId>) {
    s <= ps && Distinct(s) && forall u :: u in s ==> u !in blocked
  }

  lemma {:induction false} ServedIsReachable(blocked: set<UserId>, ps: seq<UserId>, fates: seq<Fate>)
    requires |fates| == |ps|
    ensures Reachable(blocked, ps, Served(blocked, ps, fates))
    decreases |ps|
  {
    if ps != [] && ps[0] !in blocked && fates[0].Delivered? {
      ServedIsReachable(blocked + {ps[0]}, ps[1..], fates[1..]);
      var rest := Served(blocked + {ps[0]}, ps[1..], fates[1..]);
      assert ps == [ps[0]] + ps[1..];
      assert ps[0] !in rest;
    }
  }

  /** The first n calls are delivered and the rest are lost. */
  function LostAfterAll(n: nat, all: nat): (fates: seq<Fate>)
    requires n <= all
    ensures |fates| == all
  {
    seq(all, i requires 0 <= i < all => if i < n then Delivered else LostBefore)
  }

  lemma {:induction false} ReachableIsServed(blocked: set<UserId>, ps: seq<UserId>, s: seq<UserId>)
    requires Reachable(blocked, ps, s)
    ensures Served(blocked, ps, LostAfterAll(|s|, |ps|)) == s
    decreases |ps|
  {
    if s != [] {
      assert ps[0] == s[0] && s[0] in s;
      forall u | u in s[1..] ensures u !in blocked + {ps[0]} {}
      ReachableIsServed(blocked + {ps[0]}, ps[1..], s[1..]);
      assert LostAfterAll(|s|, |ps|)[1..] == LostAfterAll(|s| - 1, |ps| - 1);
      assert s == [s[0]] + s[1..];
    }
  }

  /** Exactly what a run can leave: any prefix of distinct participants, as far as
      the first blocked or repeated one. */
  lemma {:induction false} LeftBehindIff(blocked: set<UserId>, ps: seq<UserId>, s: seq<UserId>)
    ensures (exists fates :: |fates| == |ps| && Served(blocked, ps, fates) == s) <==> Reachable(blocked, ps, s)
  {
    if fates :| |fates| == |ps| && Served(blocked, ps, fates) == s {
      ServedIsReachable(blocked, ps, fates);
    }
    if Reachable(blocked, ps, s) {
      ReachableIsServed(blocked, ps, s);
    }
  }

  ghost predicate NoneOrAll(blocked: set<UserId>, ps: seq<UserId>, fates: seq<Fate>)
    requires |fates| == |ps|
  {
    Served(blocked, ps, fates) == [] || forall u :: u in ps ==> u in Served(blocked, ps, fates)
  }

  /** Whatever calls are lost, either every participant gets the event or none does. */
  ghost predicate AllOrNone(blocked: set<UserId>, ps: seq<UserId>) {
    forall fates :: |fates| == |ps| ==> NoneOrAll(blocked, ps, fates)
  }

  /** All or none exactly when the first participant is blocked or is the only one. */
  lemma {:induction false} AllOrNoneIff(blocked: set<UserId>, ps: seq<UserId>)
    requires ps != []
    ensures AllOrNone(blocked, ps) <==> ps[0] in blocked || forall u :: u in ps ==> u == ps[0]
  {
    if ps[0] !in blocked {
      if u :| u in ps && u != ps[0] {
        ReachableIsServed(blocked, ps, [ps[0]]);
        assert !NoneOrAll(blocked, ps, LostAfterAll(1, |ps|));
      } else {
        forall fates | |fates| == |ps| ensures NoneOrAll(blocked, ps, fates) {
        }
      }
    }
  }

  /** With two different participants a lost call can leave the first alone with
      the event, unless the first is blocked. */
  lemma {:induction false} TwoParticipantsDiffer(blocked: set<UserId>, ps: seq<UserId>, i: nat, j: nat)
    requires i < j < |ps| && ps[i] != ps[j]
    ensures AllOrNone(blocked, ps) <==> ps[0] in blocked
    ensures ps[0] !in blocked ==>
              exists fates :: |fates| == |ps| && Served(blocked, ps, fates) == [ps[0]]
  {
    AllOrNoneIff(blocked, ps);
    assert ps[i] in ps && ps[j] in ps;
    if ps[0] !in blocked {
      ReachableIsServed(blocked, ps, [ps[0]]);
    }
  }
}
