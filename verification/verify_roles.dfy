/** Verifying a user's roles, and its agreement with the reconciler. */
module VerifyRoles {
  import opened Text
  import opened Authorizations
  import opened DriftReport

  const COUNT := "authorization.count"
  const STATE := "authorization.state"
  const ROLES := "roles"

  /** The sorted list of a set of strings. */
  ghost function SortedOf(s: set<string>): (r: seq<string>)
    ensures Sorted(r) && NoDuplicates(r) && Elements(r) == s
  {
    SortedExists(s);
    var r :| Sorted(r) && NoDuplicates(r) && Elements(r) == s;
    r
  }

  lemma {:induction false} SortedExists(s: set<string>)
    ensures exists r :: Sorted(r) && NoDuplicates(r) && Elements(r) == s
    decreases |s|
  {
    var order := Enumeration(s);
    SortSorts(order);
    SortedElements(order);
    assert Sorted(Sort(order)) && NoDuplicates(Sort(order)) && Elements(Sort(order)) == s;
  }

  lemma {:induction false} Enumeration(s: set<string>) returns (order: seq<string>)
    ensures NoDuplicates(order) && Elements(order) == s
    decreases |s|
  {
    if s == {} {
      order := [];
    } else {
      var x :| x in s;
      var rest := Enumeration(s - {x});
      assert x !in rest by { assert x !in Elements(rest); }
      order := rest + [x];
      assert Elements(order) == Elements(rest) + {x};
    }
  }

  /** Sorted duplicate-free lists are determined by their elements. */
  lemma SortedOfIs(r: seq<string>, s: set<string>)
    requires Sorted(r) && NoDuplicates(r) && Elements(r) == s
    ensures r == SortedOf(s)
  {
    MultisetOfDistinct(r);
    MultisetOfDistinct(SortedOf(s));
    SortedUnique(r, SortedOf(s));
  }

  function StateText(active: bool): Value {
    Text(if active then "STATE_ACTIVE" else "STATE_INACTIVE")
  }

  function WantCount(want: seq<string>): int {
    if |want| > 0 then 1 else 0
  }

  /** Everything `verifyRoles` adds to the report. */
  ghost function RoleDrift(who: Subject, listed: seq<Listed>, expected: seq<string>, resource: string): seq<Drift> {
    var m, want := MatchingIn(who, listed), Normalize(expected);
    Compared(resource, COUNT, Number(WantCount(want)), Number(|m|))
    + (if |m| == 1 then Compared(resource, STATE, StateText(true), StateText(m[0].authz.active)) else [])
    + Compared(resource, ROLES, List(want), List(SortedOf(RolesIn(who, listed))))
  }

  /** The keys of a Go map, sorted. */
  method SortedRoles(roles: set<string>) returns (actual: seq<string>)
    ensures actual == SortedOf(roles)
  {
    var order := ReadOut(roles);
    actual := Sort(order);
    SortSorts(order);
    SortedElements(order);
    SortedOfIs(actual, roles);
  }

  method VerifyRoles(who: Subject, expected: seq<string>, listed: seq<Listed>, resource: string, report: Report)
    modifies report
    ensures report.drift == old(report.drift) + RoleDrift(who, listed, expected, resource)
  {
    hide MatchingIn, RolesIn, Normalize, SortedOf, Compared;
    var matching, roles := Gather(who, listed);
    var want := NormalizeSortedStrings(expected);
    var wantCount := 0;
    if |want| > 0 {
      wantCount := 1;
    }
    var actual := SortedRoles(roles);
    ghost var a := Compared(resource, COUNT, Number(wantCount), Number(|matching|));
    ghost var b :=
      if |matching| == 1 then Compared(resource, STATE, StateText(true), StateText(matching[0].authz.active)) else [];
    ghost var c := Compared(resource, ROLES, List(want), List(actual));
    assert RoleDrift(who, listed, expected, resource) == a + b + c;
    hide *;
    ghost var before := report.drift;
    AppendedInTurn(before, a, b, c);
    report.Compare(resource, COUNT, Number(wantCount), Number(|matching|));
    if |matching| == 1 {
      report.Compare(resource, STATE, StateText(true), StateText(matching[0].authz.active));
    }
    assert report.drift == before + a + b;
    report.Compare(resource, ROLES, List(want), List(actual));
  }

  lemma AppendedInTurn<T>(s: seq<T>, a: seq<T>, b: seq<T>, c: seq<T>)
    ensures s + a + b + c == s + (a + b + c) && s + a + [] == s + a
  {}

  lemma NormalizeIsSortedOf(values: seq<string>)
    ensures Normalize(values) == SortedOf(Elements(Normalize(values)))
  {
    NormalizeMeans(values);
    SortedOfIs(Normalize(values), Elements(Normalize(values)));
  }

  /** What the report says about roles, field by field, in terms of the listing. */
  lemma BlamesRolesIff(who: Subject, listed: seq<Listed>, expected: seq<string>, resource: string)
    ensures var drift, want := RoleDrift(who, listed, expected, resource), Normalize(expected);
            && (Blames(drift, COUNT) <==> |MatchingIn(who, listed)| != WantCount(want))
            && (Blames(drift, ROLES) <==> RolesIn(who, listed) != Elements(want))
            && (Blames(drift, STATE) <==>
                 |MatchingIn(who, listed)| == 1 && !MatchingIn(who, listed)[0].authz.active)
  {
    NormalizeIsSortedOf(expected);
    hide Normalize, MatchingIn, RolesIn, SortedOf;
    var m, want := MatchingIn(who, listed), Normalize(expected);
    var a := Compared(resource, COUNT, Number(WantCount(want)), Number(|m|));
    var b := if |m| == 1 then Compared(resource, STATE, StateText(true), StateText(m[0].authz.active)) else [];
    var c := Compared(resource, ROLES, List(want), List(SortedOf(RolesIn(who, listed))));
    var drift := RoleDrift(who, listed, expected, resource);
    assert drift == a + b + c;
    assert forall d :: d in drift <==> d in a || d in b || d in c;
    FieldsOf(resource, COUNT, Number(WantCount(want)), Number(|m|));
    FieldsOf(resource, ROLES, List(want), List(SortedOf(RolesIn(who, listed))));
    if |m| == 1 {
      FieldsOf(resource, STATE, StateText(true), StateText(m[0].authz.active));
    }
    assert COUNT != ROLES && COUNT != STATE && ROLES != STATE;
  }

  lemma FieldsOf(resource: string, field: string, want: Value, got: Value)
    ensures forall d <- Compared(resource, field, want, got) :: d.field == field
    ensures want != got ==> Drift(resource, field, want, got) in Compared(resource, field, want, got)
    ensures want == got ==> Compared(resource, field, want, got) == []
  {}

  /** Onboarding, then verifying: after an uninterrupted reconciliation to a non-empty
      set of roles, from any directory, the verifier finds nothing wrong with the
      number of authorizations or the roles. */
  lemma OnboardThenVerify(who: Subject, listed: seq<Listed>, dir: Directory, permissions: seq<string>, newId: Id,
                          listed2: seq<Listed>, resource: string)
    requires Enumerates(listed, dir) && newId !in dir && Normalize(permissions) != []
    requires Enumerates(listed2, Final(who, listed, dir, Normalize(permissions), newId))
    ensures var drift := RoleDrift(who, listed2, permissions, resource);
            !Blames(drift, COUNT) && !Blames(drift, ROLES)
  {
    var desired := Normalize(permissions);
    var dir' := Final(who, listed, dir, desired, newId);
    ReconcileConverges(who, listed, dir, permissions, newId, listed2);
    OnTargetIsClean(who, listed2, dir', permissions, resource);
  }

  lemma OnTargetIsClean(who: Subject, listed: seq<Listed>, dir: Directory, permissions: seq<string>, resource: string)
    requires Enumerates(listed, dir) && Normalize(permissions) != [] && OnTarget(who, dir, Normalize(permissions))
    ensures var drift := RoleDrift(who, listed, permissions, resource);
            !Blames(drift, COUNT) && !Blames(drift, ROLES)
  {
    var desired := Normalize(permissions);
    ListingShows(who, listed, dir);
    hide Normalize, RoleDrift, Enumerates, MatchingIn, RolesIn;
    var id :| OnlyMatch(who, dir, desired, id);
    assert id in MatchingIds(who, dir);
    BlamesRolesIff(who, listed, permissions, resource);
  }

  /** The two agree on when there is nothing to do, with one exception: when no roles
      are desired and the subject has a single authorization without roles, the
      reconciler leaves it and the verifier reports it. */
  lemma QuietIffClean(who: Subject, listed: seq<Listed>, dir: Directory, permissions: seq<string>, resource: string)
    requires Enumerates(listed, dir)
    ensures var desired, drift := Normalize(permissions), RoleDrift(who, listed, permissions, resource);
            Plan(who, listed, desired) == []
            <==> (!Blames(drift, COUNT) && !Blames(drift, ROLES))
                 || (desired == [] && |MatchingIn(who, listed)| == 1 && RolesIn(who, listed) == {})
  {
    var desired := Normalize(permissions);
    NormalizeMeans(permissions);
    SameRoleSetIff(RolesIn(who, listed), desired);
    BlamesRolesIff(who, listed, permissions, resource);
    PlanShape(who, listed, desired);
    ListingShows(who, listed, dir);
    hide Normalize, RoleDrift, Enumerates, MatchingIn, RolesIn, Plan, SameRoleSet;
    var m := MatchingIn(who, listed);
    if m == [] {
      assert IdsOf(m) == {};
      assert RolesIn(who, listed) == {};
    }
    assert desired == [] <==> Elements(desired) == {} by {
      if desired != [] { assert desired[0] in Elements(desired); }
    }
  }

  /** The report in full: what was expected, what is there, and about whom. */
  lemma RoleDriftSays(who: Subject, listed: seq<Listed>, expected: seq<string>, resource: string)
    ensures var drift, want := RoleDrift(who, listed, expected, resource), Normalize(expected);
            var m := MatchingIn(who, listed);
            forall d <- drift ::
              && d.resource == resource
              && (|| (d.field == "authorization.count"
                      && d.expected == Number(if want == [] then 0 else 1) && d.actual == Number(|m|))
                  || (d.field == "authorization.state" && |m| == 1
                      && d.expected == Text("STATE_ACTIVE") && d.actual == Text("STATE_INACTIVE"))
                  || (d.field == "roles"
                      && d.expected == List(want) && d.actual == List(SortedOf(RolesIn(who, listed)))))
  {
    hide Normalize, MatchingIn, RolesIn, SortedOf;
    var m, want := MatchingIn(who, listed), Normalize(expected);
    var a := Compared(resource, COUNT, Number(WantCount(want)), Number(|m|));
    var b := if |m| == 1 then Compared(resource, STATE, StateText(true), StateText(m[0].authz.active)) else [];
    var c := Compared(resource, ROLES, List(want), List(SortedOf(RolesIn(who, listed))));
    var drift := RoleDrift(who, listed, expected, resource);
    assert drift == a + b + c;
    assert forall d :: d in drift <==> d in a || d in b || d in c;
    hide RoleDrift;
  }

  /** What counts as the user's: the listed authorizations of that user on that project,
      in order. */
  lemma {:induction false} MatchingSays(who: Subject, listed: seq<Listed>)
    ensures var m := MatchingIn(who, listed);
            && (forall x :: x in m <==>
                  x in listed && x.authz.userID == who.userID && x.authz.projectID == who.projectID)
            && (forall r :: r in RolesIn(who, listed) <==> exists x :: x in m && r in x.authz.roles)
  {
    MatchingInMeans(who, listed);
    RolesInMeans(who, listed);
    hide MatchingIn, RolesIn;
  }
}
