/** Directory discovery: reconciling the known users of a delegation with the
    organization's directory. */
module Discovery {
  import opened Optional

  type GoogleId = string

  datatype Status = Active | Suspended | Removed

  datatype DirectoryUser = DirectoryUser(
    id: GoogleId,
    email: string,
    fullName: Option<string>,
    orgUnitPath: Option<string>,
    suspended: bool,
    archived: bool)

  datatype User = User(
    googleId: GoogleId,
    email: string,
    displayName: Option<string>,
    orgUnitPath: Option<string>,
    status: Status,
    accountId: Option<string>,
    discoveredAt: int,
    statusChangedAt: int,
    removedAt: Option<int>)

  datatype Change = Change(user: User, previous: Status, next: Status)

  /** `isValidTransition`. */
  predicate IsValidTransition(from: Status, to: Status) {
    match from
    case Active => to == Suspended || to == Removed
    case Suspended => to == Active || to == Removed
    case Removed => false
  }

  /** `determineUserStatus`. */
  function StatusOf(d: DirectoryUser): Status {
    if d.suspended || d.archived then Suspended else Active
  }

  // ----- Filters -----

  function LowerChar(c: char): char {
    if 'A' <= c <= 'Z' then (c as int + 32) as char else c
  }

  function Lower(s: string): string {
    seq(|s|, i requires 0 <= i < |s| => LowerChar(s[i]))
  }

  predicate InUnits(d: DirectoryUser, units: seq<string>) {
    units == [] || (d.orgUnitPath.Some? && d.orgUnitPath.value != "" && exists u :: u in units && u <= d.orgUnitPath.value)
  }

  predicate EndsInSlash(unit: string) {
    unit != "" && unit[|unit| - 1] == '/'
  }

  /** A path in a unit: the unit itself, or one below it. */
  predicate Within(unit: string, path: string) {
    unit <= path && (path == unit || EndsInSlash(unit) || path[|unit|] == '/')
  }

  /** The filter tests for a prefix; that is being within the unit, for every
      path, exactly when the unit ends in a slash. */
  lemma {:induction false} PrefixIsWithinIff(unit: string)
    ensures (forall path: string :: unit <= path <==> Within(unit, path)) <==> EndsInSlash(unit)
  {
    if !EndsInSlash(unit) {
      var sibling := unit + "x";
      assert sibling[|unit|] == 'x';
      assert unit <= sibling && !Within(unit, sibling);
    }
  }

  /** The unit "/Eng" keeps a user of "/Engineering". */
  lemma {:induction false} SiblingUnitKept(d: DirectoryUser)
    requires d.orgUnitPath == Some("/Engineering")
    ensures InUnits(d, ["/Eng"]) && !Within("/Eng", "/Engineering")
  {
    assert "/Engineering" == "/Eng" + "ineering" && "/Eng" in ["/Eng"];
  }

  predicate Excluded(d: DirectoryUser, emails: seq<string>) {
    exists e :: e in emails && Lower(e) == Lower(d.email)
  }

  /** `filterByOU` followed by `filterExcluded`. */
  function Filtered(ds: seq<DirectoryUser>, units: seq<string>, emails: seq<string>): (r: seq<DirectoryUser>)
    ensures forall d :: d in r <==> d in ds && InUnits(d, units) && !Excluded(d, emails)
  {
    if ds == [] then []
    else
      var d := ds[|ds| - 1];
      Filtered(ds[..|ds| - 1], units, emails) + (if InUnits(d, units) && !Excluded(d, emails) then [d] else [])
  }

  // ----- What a run leaves behind -----

  type Users = map<GoogleId, User>

  function Ids(ds: seq<DirectoryUser>): set<GoogleId> {
    set d | d in ds :: d.id
  }

  predicate DistinctIds(ds: seq<DirectoryUser>) {
    forall i, j :: 0 <= i < j < |ds| ==> ds[i].id != ds[j].id
  }

  /** The last directory entry with this id. */
  function Find(ds: seq<DirectoryUser>, id: GoogleId): (d: DirectoryUser)
    requires id in Ids(ds)
    ensures d in ds && d.id == id
  {
    var last := ds[|ds| - 1];
    if last.id == id then last
    else
      assert forall d :: d in ds <==> d == last || d in ds[..|ds| - 1];
      Find(ds[..|ds| - 1], id)
  }

  function Discovered(d: DirectoryUser, now: int): User {
    User(d.id, d.email, d.fullName, d.orgUnitPath, StatusOf(d), None, now, now, None)
  }

  function Refreshed(u: User, d: DirectoryUser, now: int): User {
    u.(email := d.email, displayName := d.fullName, orgUnitPath := d.orgUnitPath, status := StatusOf(d),
       statusChangedAt := if u.status != StatusOf(d) then now else u.statusChangedAt)
  }

  function Left(u: User, now: int): User {
    u.(status := Removed, statusChangedAt := now, removedAt := Some(now))
  }

  /** The record of a listed user after the run. */
  function Listed(users: Users, d: DirectoryUser, now: int): User {
    if d.id !in users then Discovered(d, now)
    else if users[d.id].status == Removed then users[d.id]
    else Refreshed(users[d.id], d, now)
  }

  /** The record of a known user the directory no longer lists. */
  function Unlisted(u: User, now: int): User {
    if u.status == Removed then u else Left(u, now)
  }

  /** After the listed users are reconciled. */
  function Seen(users: Users, ds: seq<DirectoryUser>, now: int): Users {
    map id | id in users.Keys + Ids(ds) :: if id in Ids(ds) then Listed(users, Find(ds, id), now) else users[id]
  }

  /** After the whole run. */
  function Reconciled(users: Users, ds: seq<DirectoryUser>, now: int): Users {
    map id | id in users.Keys + Ids(ds) ::
      if id in Ids(ds) then Listed(users, Find(ds, id), now) else Unlisted(users[id], now)
  }

  /** removedAt is set exactly on removed users. */
  predicate WellKept(users: Users) {
    forall id :: id in users ==> users[id].googleId == id && (users[id].removedAt.Some? <==> users[id].status == Removed)
  }

  /** Removed users stay as they are. */
  predicate RemovedKept(before: Users, after: Users) {
    forall id :: id in before && before[id].status == Removed ==> id in after && after[id] == before[id]
  }

  /** What the directory and the delegation's records agree on after a run. */
  lemma {:induction false} ReconciledAgrees(users: Users, ds: seq<DirectoryUser>, now: int)
    requires WellKept(users)
    ensures var r := Reconciled(users, ds, now);
            && WellKept(r) && RemovedKept(users, r)
            && (forall id :: id in r <==> id in users || id in Ids(ds))
            && (forall id :: id in r && !(id in users && users[id].status == Removed) ==>
                  r[id].status == if id in Ids(ds) then StatusOf(Find(ds, id)) else Removed)
  {
    var r := Reconciled(users, ds, now);
    forall id | id in r ensures r[id].googleId == id && (r[id].removedAt.Some? <==> r[id].status == Removed) {
      if id in Ids(ds) {
        assert Find(ds, id).id == id;
      }
    }
  }

  // ----- What a run reports -----

  predicate IsNew(users: Users, d: DirectoryUser) {
    d.id !in users
  }

  predicate HasChanged(users: Users, d: DirectoryUser) {
    d.id in users && users[d.id].status != Removed && users[d.id].status != StatusOf(d)
  }

  /** The new users' records, in directory order. */
  function NewUsers(users: Users, ds: seq<DirectoryUser>, now: int): seq<User> {
    if ds == [] then []
    else
      var d := ds[|ds| - 1];
      NewUsers(users, ds[..|ds| - 1], now) + (if IsNew(users, d) then [Discovered(d, now)] else [])
  }

  /** The status changes, in directory order. */
  function Changes(users: Users, ds: seq<DirectoryUser>, now: int): seq<Change> {
    if ds == [] then []
    else
      var d := ds[|ds| - 1];
      Changes(users, ds[..|ds| - 1], now)
      + (if HasChanged(users, d) then [Change(Refreshed(users[d.id], d, now), users[d.id].status, StatusOf(d))] else [])
  }

  /** The known users that have left. */
  function Gone(users: Users, ds: seq<DirectoryUser>): set<GoogleId> {
    set id | id in users && users[id].status != Removed && id !in Ids(ds)
  }

  lemma {:induction false} NothingReported(users: Users, ds: seq<DirectoryUser>, now: int)
    requires forall d :: d in ds ==> !IsNew(users, d) && !HasChanged(users, d)
    ensures NewUsers(users, ds, now) == [] && Changes(users, ds, now) == []
  {
    if ds != [] {
      assert ds[|ds| - 1] in ds;
      NothingReported(users, ds[..|ds| - 1], now);
    }
  }

  lemma {:induction false} FindDistinct(ds: seq<DirectoryUser>, d: DirectoryUser)
    requires DistinctIds(ds) && d in ds
    ensures d.id in Ids(ds) && Find(ds, d.id) == d
  {
  }

  /** A second run over the same directory reports nothing and changes nothing. */
  lemma {:induction false} SecondRunIsIdle(users: Users, ds: seq<DirectoryUser>, now: int, later: int)
    requires WellKept(users) && DistinctIds(ds)
    ensures var r := Reconciled(users, ds, now);
            && Reconciled(r, ds, later) == r
            && NewUsers(r, ds, later) == [] && Changes(r, ds, later) == [] && Gone(r, ds) == {}
  {
    var r := Reconciled(users, ds, now);
    ReconciledAgrees(users, ds, now);
    var again := Reconciled(r, ds, later);
    forall id | id in r ensures again[id] == r[id] {
      if id in Ids(ds) {
        assert Find(ds, id).id == id;
      }
    }
    assert again.Keys == r.Keys;
    forall d | d in ds ensures !IsNew(r, d) && !HasChanged(r, d) {
      FindDistinct(ds, d);
    }
    NothingReported(r, ds, later);
  }

  // ----- The service -----

  lemma {:induction false} SeenStep(users: Users, ds: seq<DirectoryUser>, i: nat, now: int)
    requires i < |ds| && DistinctIds(ds)
    ensures ds[i].id !in Ids(ds[..i])
    ensures Seen(users, ds[..i + 1], now) == Seen(users, ds[..i], now)[ds[i].id := Listed(users, ds[i], now)]
  {
    var d, before, after := ds[i], ds[..i], ds[..i + 1];
    assert after[..i] == before && after[i] == d;
    assert forall x :: x in after <==> x == d || x in before;
    assert Ids(after) == Ids(before) + {d.id};
    forall id | id in Ids(before) ensures Find(after, id) == Find(before, id) {
    }
  }

  /** No unknown id is listed twice. */
  ghost predicate NewIdsDistinct(users: Users, ds: seq<DirectoryUser>) {
    forall i, j :: 0 <= i < j < |ds| && ds[i].id == ds[j].id ==> ds[i].id in users
  }

  lemma {:induction false} NewIdsStep(users: Users, ds: seq<DirectoryUser>, i: nat)
    requires i < |ds| && NewIdsDistinct(users, ds[..i])
    ensures Ids(ds[..i + 1]) == Ids(ds[..i]) + {ds[i].id}
    ensures ds[i].id in Ids(ds[..i]) && ds[i].id !in users ==> !NewIdsDistinct(users, ds)
    ensures !(ds[i].id in Ids(ds[..i]) && ds[i].id !in users) ==> NewIdsDistinct(users, ds[..i + 1])
  {
    var d, before, after := ds[i], ds[..i], ds[..i + 1];
    assert after == before + [d];
    if d.id in Ids(before) && d.id !in users {
      var x :| x in before && x.id == d.id;
      var j :| 0 <= j < i && before[j] == x;
      assert ds[j].id == ds[i].id;
    }
  }

  /** What every record keeps while the listed users are reconciled. */
  ghost predicate KeptWhileSeeing(existing: Users, users: Users) {
    && WellKept(users) && RemovedKept(existing, users) && existing.Keys <= users.Keys
    && forall id :: id in existing && existing[id].status != Removed ==> users[id].status != Removed
  }

  /** The first i listed users have been reconciled. */
  ghost predicate SeenTo(existing: Users, ds: seq<DirectoryUser>, i: nat, users: Users, now: int)
    requires i <= |ds|
  {
    && KeptWhileSeeing(existing, users)
    && (DistinctIds(ds) ==> users == Seen(existing, ds[..i], now))
    && users.Keys == existing.Keys + Ids(ds[..i]) && NewIdsDistinct(existing, ds[..i])
  }

  /** The records after these users left. */
  function Departed(users: Users, gone: set<GoogleId>, now: int): Users {
    map id | id in users :: if id in gone then Left(users[id], now) else users[id]
  }

  /** Removing who left completes the reconciliation. */
  lemma {:induction false} SeenThenDeparted(users: Users, ds: seq<DirectoryUser>, now: int)
    ensures Departed(Seen(users, ds, now), Gone(users, ds), now) == Reconciled(users, ds, now)
  {
  }

  /** The records reported as removed. */
  ghost predicate Reports(removed: seq<User>, existing: Users, gone: set<GoogleId>, now: int)
    requires gone <= existing.Keys
  {
    forall u :: u in removed <==> u.googleId in gone && u == Left(existing[u.googleId], now)
  }

  /** Midway through the removals: `gone` have left and were reported. */
  ghost predicate Marking(all: Users, existing: Users, gone: set<GoogleId>, users: Users, removed: seq<User>, now: int) {
    gone <= existing.Keys <= all.Keys && users == Departed(all, gone, now) && Reports(removed, existing, gone, now)
  }

  predicate Truthy(s: Option<string>) {
    s.Some? && s.value != ""
  }

  /** SQL comparison: a null is before nothing. */
  predicate Before(t: Option<int>, cutoff: int) {
    t.Some? && t.value < cutoff
  }

  class DiscoveryService {
    var users: Users

    constructor ()
      ensures users == map[] && WellKept(users)
    {
      users := map[];
    }

    /** One directory user against the records as they were when the run began. */
    method See(d: DirectoryUser, existing: Users, now: int) returns (ok: bool)
      requires WellKept(users) && WellKept(existing) && RemovedKept(existing, users) && existing.Keys <= users.Keys
      requires forall id :: id in existing && existing[id].status != Removed ==> users[id].status != Removed
      modifies this
      ensures WellKept(users) && RemovedKept(old(users), users) && existing.Keys <= users.Keys
      ensures forall id :: id in existing && existing[id].status != Removed ==> users[id].status != Removed
      ensures !ok <==> d.id in old(users) && d.id !in existing
      ensures ok ==> users.Keys == old(users).Keys + {d.id}
      ensures (if d.id in existing then old(users)[d.id] == existing[d.id] else d.id !in old(users)) ==>
                ok && users == old(users)[d.id := Listed(existing, d, now)]
    {
      ok := true;
      var newStatus := StatusOf(d);
      if d.id !in existing {
        if d.id in users {
          return false;
        }
        users := users[d.id := Discovered(d, now)];
      } else if existing[d.id].status != newStatus && existing[d.id].status != Removed {
        if IsValidTransition(existing[d.id].status, newStatus) {
          users := users[d.id := users[d.id].(status := newStatus, statusChangedAt := now, email := d.email,
                                              displayName := d.fullName, orgUnitPath := d.orgUnitPath)];
        }
      } else if existing[d.id].status != Removed {
        users := users[d.id := users[d.id].(email := d.email, displayName := d.fullName, orgUnitPath := d.orgUnitPath)];
      }
    }

    /** One known user: it stays, or leaves and is reported. */
    method MarkOne(existing: Users, ghost ds: seq<DirectoryUser>, listed: set<GoogleId>, now: int, ghost all: Users,
                   ghost todo: set<GoogleId>, id: GoogleId, given: seq<User>)
      returns (removed: seq<User>)
      requires id in todo && id in existing && existing[id].googleId == id && listed == Ids(ds)
      requires Marking(all, existing, Gone(existing, ds) - todo, users, given, now)
      modifies this
      ensures Marking(all, existing, Gone(existing, ds) - (todo - {id}), users, removed, now)
    {
      removed := given;
      if existing[id].status != Removed && id !in listed && IsValidTransition(existing[id].status, Removed) {
        users := users[id := Left(users[id], now)];
        removed := removed + [Left(existing[id], now)];
      }
    }

    /** Mark the known users that are no longer listed. */
    method MarkRemoved(existing: Users, ghost ds: seq<DirectoryUser>, listed: set<GoogleId>, now: int) returns (removed: seq<User>)
      requires WellKept(users) && WellKept(existing) && existing.Keys <= users.Keys && listed == Ids(ds)
      requires forall id :: id in existing && existing[id].status != Removed ==> users[id].status != Removed
      modifies this
      ensures WellKept(users) && RemovedKept(old(users), users)
      ensures users == Departed(old(users), Gone(existing, ds), now)
      ensures Reports(removed, existing, Gone(existing, ds), now)
    {
      removed := [];
      var todo := existing.Keys;
      ghost var all := users;
      while todo != {}
        invariant todo <= existing.Keys
        invariant Marking(all, existing, Gone(existing, ds) - todo, users, removed, now)
        decreases |todo|
      {
        var id :| id in todo;
        removed := MarkOne(existing, ds, listed, now, all, todo, id, removed);
        todo := todo - {id};
      }
      assert Gone(existing, ds) - {} == Gone(existing, ds);
    }

    /** The next listed user; an unknown one listed before violates the unique index. */
    method SeeNext(ghost ds: seq<DirectoryUser>, ghost i: nat, d: DirectoryUser, existing: Users, now: int) returns (ok: bool)
      requires WellKept(existing) && i < |ds| && d == ds[i] && SeenTo(existing, ds, i, users, now)
      modifies this
      ensures KeptWhileSeeing(existing, users)
      ensures if ok then SeenTo(existing, ds, i + 1, users, now) else !NewIdsDistinct(existing, ds)
    {
      NewIdsStep(existing, ds, i);
      if DistinctIds(ds) {
        SeenStep(existing, ds, i, now);
      }
      ok := See(d, existing, now);
    }

    /** What one listed user adds to the report. */
    method Report(existing: Users, ghost ds: seq<DirectoryUser>, ghost i: nat, d: DirectoryUser, now: int,
                  newUsers: seq<User>, changes: seq<Change>)
      returns (moreUsers: seq<User>, moreChanges: seq<Change>)
      requires i < |ds| && d == ds[i]
      requires newUsers == NewUsers(existing, ds[..i], now) && changes == Changes(existing, ds[..i], now)
      ensures moreUsers == NewUsers(existing, ds[..i + 1], now) && moreChanges == Changes(existing, ds[..i + 1], now)
    {
      assert ds[..i + 1][..i] == ds[..i];
      moreUsers, moreChanges := newUsers, changes;
      if IsNew(existing, d) {
        moreUsers := newUsers + [Discovered(d, now)];
      } else if HasChanged(existing, d) {
        moreChanges := changes + [Change(Refreshed(existing[d.id], d, now), existing[d.id].status, StatusOf(d))];
      }
    }

    /** Reconcile every listed user. */
    method SeeAll(ds: seq<DirectoryUser>, existing: Users, now: int) returns (ok: bool, newUsers: seq<User>, changes: seq<Change>)
      requires WellKept(users) && users == existing
      modifies this
      ensures KeptWhileSeeing(existing, users)
      ensures ok <==> NewIdsDistinct(existing, ds)
      ensures ok ==> newUsers == NewUsers(existing, ds, now) && changes == Changes(existing, ds, now)
      ensures ok && DistinctIds(ds) ==> users == Seen(existing, ds, now)
    {
      ok, newUsers, changes := true, [], [];
      for i := 0 to |ds|
        invariant SeenTo(existing, ds, i, users, now)
        invariant newUsers == NewUsers(existing, ds[..i], now) && changes == Changes(existing, ds[..i], now)
      {
        ok := SeeNext(ds, i, ds[i], existing, now);
        if !ok {
          return;
        }
        newUsers, changes := Report(existing, ds, i, ds[i], now, newUsers, changes);
      }
      assert ds[..|ds|] == ds;
    }

    /** `discoverUsers` on the fetched directory.  It fails exactly when an unknown
        id is listed twice, on the unique index. */
    method DiscoverUsers(directory: seq<DirectoryUser>, units: seq<string>, excluded: seq<string>, now: int)
      returns (ok: bool, newUsers: seq<User>, changes: seq<Change>, removed: seq<User>)
      requires WellKept(users)
      modifies this
      ensures WellKept(users) && RemovedKept(old(users), users)
      ensures ok <==> NewIdsDistinct(old(users), Filtered(directory, units, excluded))
      ensures DistinctIds(Filtered(directory, units, excluded)) ==>
                && ok
                && users == Reconciled(old(users), Filtered(directory, units, excluded), now)
                && newUsers == NewUsers(old(users), Filtered(directory, units, excluded), now)
                && changes == Changes(old(users), Filtered(directory, units, excluded), now)
                && Reports(removed, old(users), Gone(old(users), Filtered(directory, units, excluded)), now)
    {
      var ds := Filtered(directory, units, excluded);
      var existing := users;
      removed := [];
      ok, newUsers, changes := SeeAll(ds, existing, now);
      if ok {
        removed := MarkRemoved(existing, ds, Ids(ds), now);
        SeenThenDeparted(existing, ds, now);
      }
    }

    /** `transitionUserStatus`; false stands for the thrown errors. */
    method TransitionUserStatus(id: GoogleId, next: Status, now: int) returns (ok: bool)
      requires WellKept(users)
      modifies this
      ensures WellKept(users) && RemovedKept(old(users), users)
      ensures ok <==> id in old(users) && IsValidTransition(old(users)[id].status, next)
      ensures !ok ==> users == old(users)
      ensures ok ==> users == old(users)[id := old(users)[id].(status := next, statusChangedAt := now,
                                                              removedAt := if next == Removed then Some(now) else None)]
    {
      if id !in users || !IsValidTransition(users[id].status, next) {
        return false;
      }
      var u := users[id].(status := next, statusChangedAt := now);
      if next == Removed {
        u := u.(removedAt := Some(now));
      }
      users := users[id := u];
      ok := true;
    }

    /** `federateDiscoveredUser`, with the account the callback would create. */
    method FederateDiscoveredUser(id: GoogleId, created: string) returns (account: Option<string>)
      requires WellKept(users)
      modifies this
      ensures WellKept(users) && RemovedKept(old(users), users)
      ensures account.Some? <==> id in old(users) && old(users)[id].status == Active
      ensures account.Some? ==> users == old(users)[id := old(users)[id].(accountId := account)]
      ensures account.Some? && Truthy(old(users)[id].accountId) ==> users == old(users)
      ensures account.Some? && !Truthy(old(users)[id].accountId) ==> account == Some(created)
      ensures account.None? ==> users == old(users)
    {
      if id !in users || users[id].status != Active {
        return None;
      }
      if Truthy(users[id].accountId) {
        account := users[id].accountId;
        assert users[id].(accountId := account) == users[id];
        return;
      }
      users := users[id := users[id].(accountId := Some(created))];
      account := Some(created);
    }

    /** `cleanupRemovedUsers`: the rows removed before the cutoff, and only those. */
    method CleanupRemovedUsers(cutoff: int) returns (cleaned: set<GoogleId>)
      requires WellKept(users)
      modifies this
      ensures WellKept(users)
      ensures forall id :: id in cleaned <==> id in old(users) && old(users)[id].status == Removed && Before(old(users)[id].removedAt, cutoff)
      ensures users == old(users) - cleaned
    {
      cleaned := set id | id in users && users[id].status == Removed && Before(users[id].removedAt, cutoff);
      var todo := cleaned;
      ghost var all := users;
      while todo != {}
        invariant todo <= cleaned && users == all - (cleaned - todo)
        decreases |todo|
      {
        var id :| id in todo;
        users := users - {id};
        todo := todo - {id};
      }
    }
  }
}
