/** Reconciling a user's authorizations (admin/onboard.go) and verifying them
    (admin/verify.go), against a directory that holds everybody's. */
module Authorizations {
  import opened Text

  type Id = nat

  datatype Authorization = Authorization(
    orgID: string, userID: string, projectID: string, roles: seq<string>, active: bool)

  type Directory = map<Id, Authorization>

  datatype Listed = Listed(id: Id, authz: Authorization)

  /** Whose authorizations are meant. */
  datatype Subject = Subject(orgID: string, userID: string, projectID: string)

  predicate Matches(who: Subject, a: Authorization) {
    a.userID == who.userID && a.projectID == who.projectID
  }

  // ---- normalising role names ----

  /** The distinct non-empty trimmed values, in order of first appearance. */
  function Distinct(values: seq<string>): seq<string> {
    if values == [] then []
    else
      var before := Distinct(values[..|values| - 1]);
      var v := TrimSpace(values[|values| - 1]);
      if v == "" || v in before then before else before + [v]
  }

  function Normalize(values: seq<string>): seq<string> {
    Sort(Distinct(values))
  }

  lemma {:induction false} DistinctHolds(values: seq<string>)
    ensures NoDuplicates(Distinct(values))
    ensures forall v :: v in Distinct(values) <==> v != "" && exists i :: 0 <= i < |values| && TrimSpace(values[i]) == v
  {
    hide TrimSpace;
    if values != [] {
      var n := |values| - 1;
      DistinctHolds(values[..n]);
      assert forall i :: 0 <= i < n ==> values[..n][i] == values[i];
    }
  }

  /** What normalisation yields: sorted, without duplicates, exactly the non-empty
      trimmed values. These three determine the list. */
  lemma NormalizeMeans(values: seq<string>)
    ensures var r := Normalize(values);
            Sorted(r) && NoDuplicates(r)
            && forall v :: v in r <==> v != "" && exists i :: 0 <= i < |values| && TrimSpace(values[i]) == v
  {
    DistinctHolds(values);
    SortSorts(Distinct(values));
    SortedElements(Distinct(values));
    forall v ensures v in Normalize(values) <==> v in Distinct(values) {
      assert v in Elements(Normalize(values)) <==> v in Elements(Distinct(values));
    }
  }

  /** `normalizeSortedStrings`: the set is read out in an arbitrary order, and still
      the result is always the same. */
  method NormalizeSortedStrings(values: seq<string>) returns (out: seq<string>)
    ensures out == Normalize(values)
  {
    var kept: set<string> := {};
    for i := 0 to |values|
      invariant forall v :: v in kept <==> v != "" && exists j :: 0 <= j < i && TrimSpace(values[j]) == v
    {
      var trimmed := TrimSpace(values[i]);
      if trimmed == "" {
        continue;
      }
      kept := kept + {trimmed};
    }
    var order := ReadOut(kept);
    DistinctHolds(values);
    assert Elements(order) == Elements(Distinct(values));
    SortOfSet(order, Distinct(values));
    return Sort(order);
  }

  /** Ranging over a map: its keys in some order. */
  method ReadOut(keys: set<string>) returns (order: seq<string>)
    ensures NoDuplicates(order) && Elements(order) == keys
  {
    order := [];
    var left := keys;
    while left != {}
      invariant left <= keys && NoDuplicates(order)
      invariant forall k :: k in order <==> k in keys - left
      decreases |left|
    {
      var k :| k in left;
      assert k !in order;
      left := left - {k};
      order := order + [k];
    }
  }

  // ---- reconciling ----

  /** `sameRoleSet`. */
  predicate SameRoleSet(current: set<string>, desired: seq<string>) {
    |current| == |desired| && forall i :: 0 <= i < |desired| ==> desired[i] in current
  }

  lemma SameRoleSetIff(current: set<string>, desired: seq<string>)
    requires NoDuplicates(desired)
    ensures SameRoleSet(current, desired) <==> current == Elements(desired)
  {
    MultisetOfDistinct(desired);
    if SameRoleSet(current, desired) {
      assert Elements(desired) <= current;
      SubsetOfSameSize(Elements(desired), current);
    }
  }

  lemma SubsetOfSameSize<T>(a: set<T>, b: set<T>)
    requires a <= b && |a| == |b|
    ensures a == b
  {
    assert b == a + (b - a) && |b| == |a| + |b - a|;
  }

  function MatchingIn(who: Subject, listed: seq<Listed>): seq<Listed> {
    if listed == [] then []
    else
      MatchingIn(who, listed[..|listed| - 1])
      + if Matches(who, listed[|listed| - 1].authz) then [listed[|listed| - 1]] else []
  }

  function RolesIn(who: Subject, listed: seq<Listed>): set<string> {
    if listed == [] then {}
    else
      RolesIn(who, listed[..|listed| - 1])
      + if Matches(who, listed[|listed| - 1].authz) then Elements(listed[|listed| - 1].authz.roles) else {}
  }

  datatype Write = Delete(id: Id) | Create(authz: Authorization)

  function Deletions(matching: seq<Listed>): seq<Write> {
    seq(|matching|, i requires 0 <= i < |matching| => Delete(matching[i].id))
  }

  function NewAuthorization(who: Subject, desired: seq<string>): Authorization {
    Authorization(who.orgID, who.userID, who.projectID, desired, true)
  }

  /** The writes a run issues after it has read `listed`. */
  function Plan(who: Subject, listed: seq<Listed>, desired: seq<string>): seq<Write> {
    var matching := MatchingIn(who, listed);
    if SameRoleSet(RolesIn(who, listed), desired) && |matching| <= 1 then []
    else Deletions(matching) + if desired == [] then [] else [Create(NewAuthorization(who, desired))]
  }

  /** What the directory does with a write; it picks the id of a new authorization. */
  function Perform(dir: Directory, w: Write, newId: Id): Directory {
    match w
    case Delete(id) => dir - {id}
    case Create(a) => dir[newId := a]
  }

  function PerformAll(dir: Directory, ws: seq<Write>, newId: Id): Directory {
    if ws == [] then dir else Perform(PerformAll(dir, ws[..|ws| - 1], newId), ws[|ws| - 1], newId)
  }

  /** The remote service: it may stop answering after any number of calls. */
  class Service {
    var dir: Directory
    var nextId: Id
    var callsLeft: nat

    ghost predicate Valid()
      reads this
    {
      forall id <- dir :: id < nextId
    }

    constructor (dir: Directory, nextId: Id, callsLeft: nat)
      requires forall id <- dir :: id < nextId
      ensures Valid() && this.dir == dir && this.nextId == nextId && this.callsLeft == callsLeft
    {
      this.dir := dir;
      this.nextId := nextId;
      this.callsLeft := callsLeft;
    }

    /** Lists everything, in an order of the service's choosing. */
    method ListAuthorizations() returns (ok: bool, listed: seq<Listed>)
      modifies this`callsLeft
      ensures ok ==> Enumerates(listed, dir)
      ensures ok <==> old(callsLeft) > 0
      ensures callsLeft == if ok then old(callsLeft) - 1 else 0
    {
      if callsLeft == 0 {
        return false, [];
      }
      callsLeft := callsLeft - 1;
      ok, listed := true, [];
      var left := dir.Keys;
      while left != {}
        invariant left <= dir.Keys
        invariant ListedFrom(listed, dir)
        invariant forall i :: 0 <= i < |listed| ==> listed[i].id !in left
        invariant forall id :: id in dir && id !in left ==> exists i :: 0 <= i < |listed| && listed[i].id == id
        invariant ok && callsLeft == old(callsLeft) - 1
        decreases |left|
      {
        var id :| id in left;
        left := left - {id};
        ghost var before := listed;
        listed := listed + [Listed(id, dir[id])];
        assert listed[|before|].id == id;
        forall i | i in dir && i !in left ensures exists k :: 0 <= k < |listed| && listed[k].id == i {
          if i != id {
            var k :| 0 <= k < |before| && before[k].id == i;
            assert listed[k].id == i;
          }
        }
      }
    }

    /** Removes an authorization; one that does not exist is reported as not found. */
    method DeleteAuthorization(id: Id) returns (ok: bool, notFound: bool)
      requires Valid()
      modifies this`dir, this`callsLeft
      ensures Valid()
      ensures dir == if ok then old(dir) - {id} else old(dir)
      ensures notFound ==> !ok && id !in dir
      ensures ok || notFound <==> old(callsLeft) > 0
      ensures callsLeft == if ok || notFound then old(callsLeft) - 1 else 0
    {
      if callsLeft == 0 {
        return false, false;
      }
      callsLeft := callsLeft - 1;
      if id !in dir {
        return false, true;
      }
      dir := dir - {id};
      return true, false;
    }

    method CreateAuthorization(a: Authorization) returns (ok: bool)
      requires Valid()
      modifies this
      ensures Valid()
      ensures dir == if ok then old(dir)[old(nextId) := a] else old(dir)
      ensures ok <==> old(callsLeft) > 0
    {
      if callsLeft == 0 {
        return false;
      }
      callsLeft := callsLeft - 1;
      dir := dir[nextId := a];
      nextId := nextId + 1;
      return true;
    }
  }

  /** The listing holds only what the directory holds, and nothing twice. */
  predicate ListedFrom(listed: seq<Listed>, dir: Directory) {
    && (forall i :: 0 <= i < |listed| ==> listed[i].id in dir && dir[listed[i].id] == listed[i].authz)
    && (forall i, j :: 0 <= i < j < |listed| ==> listed[i].id != listed[j].id)
  }

  /** The listing is complete as well. */
  predicate Enumerates(listed: seq<Listed>, dir: Directory) {
    ListedFrom(listed, dir) && forall id <- dir :: exists i :: 0 <= i < |listed| && listed[i].id == id
  }

  /** The loop that picks out the subject's authorizations and their roles; the
      reconciler and the verifier each have it. */
  method Gather(who: Subject, listed: seq<Listed>) returns (matching: seq<Listed>, roles: set<string>)
    ensures matching == MatchingIn(who, listed) && roles == RolesIn(who, listed)
  {
    matching, roles := [], {};
    for i := 0 to |listed|
      invariant matching == MatchingIn(who, listed[..i]) && roles == RolesIn(who, listed[..i])
    {
      assert listed[..i + 1][..i] == listed[..i];
      if !Matches(who, listed[i].authz) {
        continue;
      }
      matching := matching + [listed[i]];
      roles := roles + Elements(listed[i].authz.roles);
    }
    assert listed[..|listed|] == listed;
  }

  /** `reconcileAuthorizations`. The service may stop answering at any call, and then
      the run breaks off; `done` counts the writes it made. It lists first and then
      makes as many of the planned writes, in order, as are still answered. */
  method ReconcileAuthorizations(svc: Service, who: Subject, permissions: seq<string>)
    returns (ok: bool, ghost listed: seq<Listed>, ghost done: nat)
    requires svc.Valid()
    modifies svc
    ensures svc.Valid()
    ensures done <= |Plan(who, listed, Normalize(permissions))|
    ensures svc.dir == PerformAll(old(svc.dir), Plan(who, listed, Normalize(permissions))[..done], old(svc.nextId))
    ensures old(svc.callsLeft) == 0 ==> !ok && done == 0
    ensures old(svc.callsLeft) > 0 ==> Enumerates(listed, old(svc.dir))
    ensures ok ==> done == |Plan(who, listed, Normalize(permissions))| < old(svc.callsLeft)
    ensures !ok && old(svc.callsLeft) > 0 ==> done == old(svc.callsLeft) - 1
                                             < |Plan(who, listed, Normalize(permissions))|
  {
    hide Normalize, Enumerates, PerformAll, Plan, SameRoleSet;
    var desired := NormalizeSortedStrings(permissions);
    done := 0;
    PerformNone(svc.dir, svc.nextId);
    var reached, all := svc.ListAuthorizations();
    listed := all;
    if !reached {
      return false, listed, 0;
    }
    var matching, current := Gather(who, all);
    ghost var plan := Plan(who, all, desired);
    PlanShape(who, all, desired);
    hide MatchingIn, RolesIn;
    assert plan[..0] == [];
    if SameRoleSet(current, desired) && |matching| <= 1 {
      return true, listed, 0;
    }
    for i := 0 to |matching|
      invariant svc.Valid() && svc.nextId == old(svc.nextId)
      invariant done == i && svc.callsLeft == old(svc.callsLeft) - 1 - i
      invariant svc.dir == PerformAll(old(svc.dir), plan[..i], old(svc.nextId))
    {
      PerformNext(old(svc.dir), plan, i, old(svc.nextId));
      var deleted, notFound := svc.DeleteAuthorization(matching[i].id);
      if !deleted && !notFound {
        return false, listed, done;
      }
      done := done + 1;
    }
    if |desired| == 0 {
      assert plan[..|matching|] == plan;
      return true, listed, done;
    }
    PerformNext(old(svc.dir), plan, |matching|, old(svc.nextId));
    var created := svc.CreateAuthorization(NewAuthorization(who, desired));
    if created {
      done := done + 1;
    }
    return created, listed, done;
  }

  /** A plan that is not empty deletes the matching authorizations in turn and then,
      if roles are desired, creates one. */
  lemma PlanShape(who: Subject, listed: seq<Listed>, desired: seq<string>)
    ensures var m, plan := MatchingIn(who, listed), Plan(who, listed, desired);
            if SameRoleSet(RolesIn(who, listed), desired) && |m| <= 1 then plan == []
            else
              && |plan| == |m| + (if desired == [] then 0 else 1)
              && (forall i :: 0 <= i < |m| ==> plan[i] == Delete(m[i].id))
              && (desired != [] ==> plan[|m|] == Create(NewAuthorization(who, desired)))
  {}

  lemma PerformNext(dir: Directory, plan: seq<Write>, i: nat, newId: Id)
    requires i < |plan|
    ensures PerformAll(dir, plan[..i + 1], newId) == Perform(PerformAll(dir, plan[..i], newId), plan[i], newId)
  {
    assert plan[..i + 1][..i] == plan[..i];
  }

  lemma PerformNone(dir: Directory, newId: Id)
    ensures PerformAll(dir, [], newId) == dir
  {}

  // ---- what a run achieves ----

  function MatchingIds(who: Subject, dir: Directory): set<Id> {
    set id | id in dir && dir[id].userID == who.userID && dir[id].projectID == who.projectID
  }

  function IdsOf(listed: seq<Listed>): set<Id> {
    set i | 0 <= i < |listed| :: listed[i].id
  }

  lemma {:induction false} MatchingInMeans(who: Subject, listed: seq<Listed>)
    ensures var m := MatchingIn(who, listed);
            && (forall x :: x in m <==> x in listed && Matches(who, x.authz))
            && ((forall i, j :: 0 <= i < j < |listed| ==> listed[i].id != listed[j].id) ==>
                 forall i, j :: 0 <= i < j < |m| ==> m[i].id != m[j].id)
  {
    if listed != [] {
      var n := |listed| - 1;
      MatchingInMeans(who, listed[..n]);
      assert listed == listed[..n] + [listed[n]];
    }
  }

  lemma {:induction false} RolesInMeans(who: Subject, listed: seq<Listed>)
    ensures forall r :: r in RolesIn(who, listed) <==>
              exists x :: x in listed && Matches(who, x.authz) && r in x.authz.roles
  {
    if listed != [] {
      var n := |listed| - 1;
      RolesInMeans(who, listed[..n]);
      assert listed == listed[..n] + [listed[n]];
    }
  }

  lemma {:induction false} DistinctIdsCount(m: seq<Listed>)
    requires forall i, j :: 0 <= i < j < |m| ==> m[i].id != m[j].id
    ensures |IdsOf(m)| == |m|
  {
    if m != [] {
      var n := |m| - 1;
      DistinctIdsCount(m[..n]);
      assert IdsOf(m) == IdsOf(m[..n]) + {m[n].id};
      assert m[n].id !in IdsOf(m[..n]);
    }
  }

  /** What a listing taken from the directory shows of the subject. */
  lemma ListingShows(who: Subject, listed: seq<Listed>, dir: Directory)
    requires ListedFrom(listed, dir)
    ensures var m := MatchingIn(who, listed);
            && IdsOf(m) <= MatchingIds(who, dir) && |IdsOf(m)| == |m|
            && (forall r :: r in RolesIn(who, listed) <==> exists id :: id in IdsOf(m) && r in dir[id].roles)
            && (Enumerates(listed, dir) ==> IdsOf(m) == MatchingIds(who, dir))
  {
    IdsShown(who, listed, dir);
    hide ListedFrom, Enumerates, MatchingIn, MatchingIds, IdsOf, RolesIn;
    forall r
      ensures r in RolesIn(who, listed) <==> exists id :: id in IdsOf(MatchingIn(who, listed)) && r in dir[id].roles
    {
      RoleShown(who, listed, dir, r);
    }
  }

  lemma IdsShown(who: Subject, listed: seq<Listed>, dir: Directory)
    requires ListedFrom(listed, dir)
    ensures var ids := IdsOf(MatchingIn(who, listed));
            && ids <= MatchingIds(who, dir) && |ids| == |MatchingIn(who, listed)|
            && (forall id <- ids :: id in dir)
            && (Enumerates(listed, dir) ==> ids == MatchingIds(who, dir))
  {
    MatchingInMeans(who, listed);
    DistinctIdsCount(MatchingIn(who, listed));
    hide MatchingIn, MatchingIds, IdsOf;
    forall id | id in IdsOf(MatchingIn(who, listed)) ensures id in MatchingIds(who, dir) && id in dir {
      ShownMatches(who, listed, dir, id);
    }
    if Enumerates(listed, dir) {
      forall id | id in MatchingIds(who, dir) ensures id in IdsOf(MatchingIn(who, listed)) {
        MatchIsShown(who, listed, dir, id);
      }
    }
  }

  lemma ShownMatches(who: Subject, listed: seq<Listed>, dir: Directory, id: Id)
    requires ListedFrom(listed, dir) && id in IdsOf(MatchingIn(who, listed))
    ensures id in MatchingIds(who, dir) && id in dir
  {
    MatchingInMeans(who, listed);
    hide MatchingIn;
    var m := MatchingIn(who, listed);
    var i :| 0 <= i < |m| && m[i].id == id;
    assert m[i] in listed;
  }

  lemma MatchIsShown(who: Subject, listed: seq<Listed>, dir: Directory, id: Id)
    requires Enumerates(listed, dir) && id in MatchingIds(who, dir)
    ensures id in IdsOf(MatchingIn(who, listed))
  {
    MatchingInMeans(who, listed);
    hide MatchingIn;
    var i :| 0 <= i < |listed| && listed[i].id == id;
    assert listed[i] in MatchingIn(who, listed);
  }

  lemma RoleShown(who: Subject, listed: seq<Listed>, dir: Directory, r: string)
    requires ListedFrom(listed, dir) && forall id <- IdsOf(MatchingIn(who, listed)) :: id in dir
    ensures r in RolesIn(who, listed) <==> exists id :: id in IdsOf(MatchingIn(who, listed)) && r in dir[id].roles
  {
    var m := MatchingIn(who, listed);
    MatchingInMeans(who, listed);
    RolesInMeans(who, listed);
    hide MatchingIn, RolesIn;
    if r in RolesIn(who, listed) {
      var x :| x in listed && Matches(who, x.authz) && r in x.authz.roles;
      assert x in m;
      assert x.id in IdsOf(m) && dir[x.id] == x.authz;
    }
    if exists id :: id in IdsOf(m) && r in dir[id].roles {
      var id :| id in IdsOf(m) && r in dir[id].roles;
      var i :| 0 <= i < |m| && m[i].id == id;
      assert m[i] in listed && Matches(who, m[i].authz);
    }
  }

  lemma {:induction false} DeletionsRemove(dir: Directory, m: seq<Listed>, k: nat, newId: Id)
    requires k <= |m|
    ensures PerformAll(dir, Deletions(m)[..k], newId) == dir - IdsOf(m[..k])
  {
    if k > 0 {
      DeletionsRemove(dir, m, k - 1, newId);
      assert Deletions(m)[..k][..k - 1] == Deletions(m)[..k - 1];
      assert IdsOf(m[..k]) == IdsOf(m[..k - 1]) + {m[k - 1].id};
    }
  }

  /** Every intermediate directory of a run: some of the listed matching
      authorizations are gone, or all of them are and the new one is there. */
  lemma AfterWrites(who: Subject, listed: seq<Listed>, dir: Directory, desired: seq<string>, newId: Id, k: nat)
    requires k <= |Plan(who, listed, desired)|
    ensures var m, plan := MatchingIn(who, listed), Plan(who, listed, desired);
            var dir' := PerformAll(dir, plan[..k], newId);
            && (k <= |m| ==> dir' == dir - IdsOf(m[..k]))
            && (k > |m| ==>
                 && desired != [] && k == |m| + 1
                 && dir' == (dir - IdsOf(m))[newId := NewAuthorization(who, desired)])
  {
    var m, plan := MatchingIn(who, listed), Plan(who, listed, desired);
    if k == 0 {
      assert m[..0] == [];
    } else if k <= |m| {
      DeletionsRemove(dir, m, k, newId);
      assert plan[..k] == Deletions(m)[..k];
    } else {
      DeletionsRemove(dir, m, |m|, newId);
      assert plan[..k][..|m|] == Deletions(m)[..|m|];
      assert m[..|m|] == m;
    }
  }

  predicate OfAnother(who: Subject, a: Authorization) {
    a.userID != who.userID || a.projectID != who.projectID
  }

  /** Nobody else's authorizations are touched: those of another user or another project
      are the same before and after. */
  ghost predicate Untouched(who: Subject, dir: Directory, dir': Directory) {
    && (forall id :: id in dir && OfAnother(who, dir[id]) ==> id in dir' && dir'[id] == dir[id])
    && (forall id :: id in dir' && OfAnother(who, dir'[id]) ==> id in dir && dir[id] == dir'[id])
  }

  /** Framing, for every prefix of a run and even for an incomplete listing. */
  lemma OthersUntouched(who: Subject, listed: seq<Listed>, dir: Directory, desired: seq<string>, newId: Id, k: nat)
    requires ListedFrom(listed, dir) && newId !in dir && k <= |Plan(who, listed, desired)|
    ensures Untouched(who, dir, PerformAll(dir, Plan(who, listed, desired)[..k], newId))
  {
    hide Plan, MatchingIn, RolesIn, PerformAll;
    AfterWrites(who, listed, dir, desired, newId, k);
    ListingShows(who, listed, dir);
    var m := MatchingIn(who, listed);
    if k <= |m| {
      assert IdsOf(m[..k]) <= IdsOf(m);
    }
  }

  /** Exactly one authorization of the subject, with exactly the desired roles. */
  ghost predicate OnTarget(who: Subject, dir: Directory, desired: seq<string>) {
    exists id :: OnlyMatch(who, dir, desired, id)
  }

  ghost predicate OnlyMatch(who: Subject, dir: Directory, desired: seq<string>, id: Id) {
    MatchingIds(who, dir) == {id} && id in dir && Elements(dir[id].roles) == Elements(desired)
  }

  /** The directory after a run that was not interrupted. */
  function Final(who: Subject, listed: seq<Listed>, dir: Directory, desired: seq<string>, newId: Id): Directory {
    PerformAll(dir, Plan(who, listed, desired), newId)
  }

  lemma FinalDirectory(who: Subject, listed: seq<Listed>, dir: Directory, desired: seq<string>, newId: Id)
    requires Plan(who, listed, desired) != []
    ensures var rest := dir - IdsOf(MatchingIn(who, listed));
            Final(who, listed, dir, desired, newId)
              == if desired == [] then rest else rest[newId := NewAuthorization(who, desired)]
  {
    var plan, m := Plan(who, listed, desired), MatchingIn(who, listed);
    assert |plan| == |m| + (if desired == [] then 0 else 1);
    AfterWrites(who, listed, dir, desired, newId, |plan|);
    hide Plan, MatchingIn, PerformAll;
    assert plan[..|plan|] == plan && m[..|m|] == m;
  }

  lemma FinalMatching(who: Subject, listed: seq<Listed>, dir: Directory, desired: seq<string>, newId: Id)
    requires ListedFrom(listed, dir) && newId !in dir && Plan(who, listed, desired) != []
    ensures var dir' := Final(who, listed, dir, desired, newId);
            var unseen := MatchingIds(who, dir) - IdsOf(MatchingIn(who, listed));
            && MatchingIds(who, dir') == unseen + (if desired == [] then {} else {newId})
            && (desired != [] ==> newId in dir' && dir'[newId].roles == desired)
  {
    FinalDirectory(who, listed, dir, desired, newId);
    var gone := IdsOf(MatchingIn(who, listed));
    hide Plan, MatchingIn, PerformAll, ListedFrom, Final, IdsOf, MatchingIds;
    MatchingAfterRemoval(who, dir, gone);
    MatchingAfterAdding(who, dir - gone, newId, NewAuthorization(who, desired));
  }

  lemma MatchingAfterRemoval(who: Subject, dir: Directory, gone: set<Id>)
    ensures MatchingIds(who, dir - gone) == MatchingIds(who, dir) - gone
  {}

  lemma MatchingAfterAdding(who: Subject, dir: Directory, id: Id, a: Authorization)
    requires id !in dir && Matches(who, a)
    ensures MatchingIds(who, dir[id := a]) == MatchingIds(who, dir) + {id}
  {}

  lemma SingletonUnion<T>(a: set<T>, x: T, y: T)
    requires a + {x} == {y} && x !in a
    ensures a == {}
  {}

  /** Convergence, and how it depends on the listing: for a non-empty set of desired
      roles a run ends on target, from any directory whatsoever, exactly when the
      listing it read showed all of the subject's authorizations. */
  lemma ConvergesIff(who: Subject, listed: seq<Listed>, dir: Directory, desired: seq<string>, newId: Id)
    requires ListedFrom(listed, dir) && newId !in dir
    requires desired != [] && NoDuplicates(desired)
    ensures OnTarget(who, Final(who, listed, dir, desired, newId), desired)
            <==> IdsOf(MatchingIn(who, listed)) == MatchingIds(who, dir)
  {
    ListingShows(who, listed, dir);
    SameRoleSetIff(RolesIn(who, listed), desired);
    var m := MatchingIn(who, listed);
    var dir' := Final(who, listed, dir, desired, newId);
    if Plan(who, listed, desired) == [] {
      assert RolesIn(who, listed) == Elements(desired);
      KeptAuthorization(who, listed, dir, desired);
      assert dir' == dir;
    } else {
      FinalMatching(who, listed, dir, desired, newId);
      assert newId !in MatchingIds(who, dir);
      hide *;
      WrittenOnTarget(who, dir, dir', desired, newId, IdsOf(m));
    }
  }

  lemma WrittenOnTarget(who: Subject, dir: Directory, dir': Directory, desired: seq<string>, newId: Id, gone: set<Id>)
    requires newId in dir' && dir'[newId].roles == desired && newId !in MatchingIds(who, dir)
    requires gone <= MatchingIds(who, dir) && MatchingIds(who, dir') == (MatchingIds(who, dir) - gone) + {newId}
    ensures OnTarget(who, dir', desired) <==> gone == MatchingIds(who, dir)
  {
    hide MatchingIds, Elements;
    var unseen := MatchingIds(who, dir) - gone;
    if gone == MatchingIds(who, dir) {
      assert unseen == {};
      assert OnlyMatch(who, dir', desired, newId);
    }
    if OnTarget(who, dir', desired) {
      var id :| OnlyMatch(who, dir', desired, id);
      SingletonUnion(unseen, newId, id);
      assert MatchingIds(who, dir) == unseen + gone;
    }
  }

  /** When nothing is written the listing shows one authorization with the roles. */
  lemma KeptAuthorization(who: Subject, listed: seq<Listed>, dir: Directory, desired: seq<string>)
    requires ListedFrom(listed, dir) && desired != []
    requires RolesIn(who, listed) == Elements(desired) && |MatchingIn(who, listed)| <= 1
    ensures OnTarget(who, dir, desired) <==> IdsOf(MatchingIn(who, listed)) == MatchingIds(who, dir)
  {
    hide MatchingIn, RolesIn;
    ListingShows(who, listed, dir);
    var ids := IdsOf(MatchingIn(who, listed));
    assert desired[0] in RolesIn(who, listed);
    var id :| id in ids && desired[0] in dir[id].roles;
    SubsetOfSameSize({id}, ids);
    assert ids == {id};
    forall r ensures r in Elements(dir[id].roles) <==> r in Elements(desired) {
      assert r in RolesIn(who, listed) <==> exists i :: i in ids && r in dir[i].roles;
    }
    if ids == MatchingIds(who, dir) {
      assert OnlyMatch(who, dir, desired, id);
    }
  }

  /** Convergence from any state, framing and idempotence, when the listing is
      complete: one run ends on target, leaves everyone else alone, and a second run
      writes nothing. */
  lemma ReconcileConverges(who: Subject, listed: seq<Listed>, dir: Directory, permissions: seq<string>, newId: Id,
                           listed2: seq<Listed>)
    requires Enumerates(listed, dir) && newId !in dir && Normalize(permissions) != []
    requires Enumerates(listed2, Final(who, listed, dir, Normalize(permissions), newId))
    ensures var desired := Normalize(permissions);
            var dir' := Final(who, listed, dir, desired, newId);
            && OnTarget(who, dir', desired)
            && Untouched(who, dir, dir')
            && Plan(who, listed2, desired) == []
  {
    var desired := Normalize(permissions);
    NormalizeMeans(permissions);
    ListingShows(who, listed, dir);
    ConvergesIff(who, listed, dir, desired, newId);
    var plan := Plan(who, listed, desired);
    assert plan[..|plan|] == plan;
    OthersUntouched(who, listed, dir, desired, newId, |plan|);
    hide Final, Plan;
    QuietOnTarget(who, listed2, Final(who, listed, dir, desired, newId), desired);
  }

  lemma QuietOnTarget(who: Subject, listed: seq<Listed>, dir: Directory, desired: seq<string>)
    requires Enumerates(listed, dir) && OnTarget(who, dir, desired) && NoDuplicates(desired)
    ensures Plan(who, listed, desired) == []
  {
    ListingShows(who, listed, dir);
    SameRoleSetIff(RolesIn(who, listed), desired);
    PlanShape(who, listed, desired);
    hide Enumerates, MatchingIn, RolesIn, Plan, SameRoleSet;
    var id :| OnlyMatch(who, dir, desired, id);
    forall r ensures r in RolesIn(who, listed) <==> r in Elements(desired) {
      assert id in MatchingIds(who, dir);
    }
  }

  /** A run that stopped after any number of its writes is made good by running
      again: the second run ends on the same target, with everyone else's
      authorizations as they were before the first. */
  lemma RerunAfterStop(who: Subject, listed: seq<Listed>, dir: Directory, permissions: seq<string>, newId: Id, k: nat,
                       listed2: seq<Listed>, newId2: Id)
    requires Enumerates(listed, dir) && newId !in dir && Normalize(permissions) != []
    requires k <= |Plan(who, listed, Normalize(permissions))|
    requires var stopped := PerformAll(dir, Plan(who, listed, Normalize(permissions))[..k], newId);
             Enumerates(listed2, stopped) && newId2 !in stopped
    ensures var desired := Normalize(permissions);
            var stopped := PerformAll(dir, Plan(who, listed, desired)[..k], newId);
            var dir' := Final(who, listed2, stopped, desired, newId2);
            && OnTarget(who, dir', desired)
            && Untouched(who, dir, dir')
  {
    var desired := Normalize(permissions);
    var stopped := PerformAll(dir, Plan(who, listed, desired)[..k], newId);
    NormalizeMeans(permissions);
    OthersUntouched(who, listed, dir, desired, newId, k);
    ListingShows(who, listed2, stopped);
    ConvergesIff(who, listed2, stopped, desired, newId2);
    var plan := Plan(who, listed2, desired);
    assert plan[..|plan|] == plan;
    OthersUntouched(who, listed2, stopped, desired, newId2, |plan|);
  }

  /** With no desired roles a run removes the subject's authorizations, except that a
      single one without roles stays. */
  lemma NoRolesDesired(who: Subject, listed: seq<Listed>, dir: Directory, newId: Id)
    requires Enumerates(listed, dir) && newId !in dir
    ensures var dir' := Final(who, listed, dir, [], newId);
            && Untouched(who, dir, dir')
            && (MatchingIds(who, dir') != {} <==>
                 exists id :: MatchingIds(who, dir) == {id} && id in dir && dir[id].roles == [])
  {
    var plan := Plan(who, listed, []);
    assert plan[..|plan|] == plan;
    OthersUntouched(who, listed, dir, [], newId, |plan|);
    ListingShows(who, listed, dir);
    var m := MatchingIn(who, listed);
    if m == [] {
      assert IdsOf(m) == {};
      assert RolesIn(who, listed) == {};
    } else if plan == [] {
      RolelessStays(who, listed, dir);
    } else {
      FinalMatching(who, listed, dir, [], newId);
      hide MatchingIn, RolesIn, PerformAll;
      forall id | MatchingIds(who, dir) == {id} && id in dir ensures dir[id].roles != [] {
        assert RolesIn(who, listed) != {};
        var r :| r in RolesIn(who, listed);
        assert exists i :: i in IdsOf(m) && r in dir[i].roles;
      }
    }
  }

  lemma RolelessStays(who: Subject, listed: seq<Listed>, dir: Directory)
    requires Enumerates(listed, dir) && RolesIn(who, listed) == {} && |MatchingIn(who, listed)| == 1
    ensures exists id :: MatchingIds(who, dir) == {id} && id in dir && dir[id].roles == []
  {
    ListingShows(who, listed, dir);
    var m := MatchingIn(who, listed);
    var id := m[0].id;
    assert IdsOf(m) == {id};
    var roles := dir[id].roles;
    assert roles == [] || roles[0] in roles;
    forall r ensures r !in roles {
      assert r !in RolesIn(who, listed);
    }
  }

  /** What a run creates, if it writes and roles are desired: an active authorization of
      that user on that project in that organization, with exactly the desired roles; and
      whatever it removes was that user's on that project. */
  lemma CreatedIs(who: Subject, listed: seq<Listed>, dir: Directory, desired: seq<string>, newId: Id)
    requires ListedFrom(listed, dir) && newId !in dir && Plan(who, listed, desired) != []
    ensures var dir' := Final(who, listed, dir, desired, newId);
            && (newId in dir' <==> desired != [])
            && (desired != [] ==>
                 && dir'[newId].orgID == who.orgID && dir'[newId].userID == who.userID
                 && dir'[newId].projectID == who.projectID && dir'[newId].roles == desired && dir'[newId].active)
            && (forall id :: id in dir && id !in dir' ==>
                  dir[id].userID == who.userID && dir[id].projectID == who.projectID)
  {
    FinalDirectory(who, listed, dir, desired, newId);
    ListingShows(who, listed, dir);
    hide Plan, MatchingIn, PerformAll, ListedFrom, Final, IdsOf, RolesIn;
  }
}
