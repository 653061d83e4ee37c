/** `EnsureWebApplication` (admin/web_application.go): one run, the next run, and the
    verifier afterwards. */
module EnsureApplication {
  import opened Wrappers
  import opened DriftReport
  import opened Pagination
  import opened WebApplication

  datatype EnsureError = LookupFailed | AmbiguousName | CreateFailed | UpdateFailed | TypeMismatch

  datatype Outcome = Refused(error: EnsureError) | Done(id: nat, clientID: nat, created: bool, updated: bool)

  /** The applications of a service, in listing order. */
  type Apps = seq<App>

  predicate DistinctIds(apps: Apps) {
    forall i, j :: 0 <= i < j < |apps| ==> apps[i].id != apps[j].id
  }

  function Named(projectID: string, name: string): App -> bool {
    (a: App) => a.projectID == projectID && a.name == name
  }

  /** What a new application is created with. */
  function NewConfig(clientID: nat, want: Desired): OIDC {
    OIDC(clientID, want.redirectURIs, [CodeResponse], GrantTypes(want.refreshTokens), Web, NoAuth,
         want.postLogoutURIs, Version10, want.devMode, BearerToken, false, false, false)
  }

  /** What an update request sets: everything except the client's identity and the
      version, which it does not carry. */
  function Updated(prior: OIDC, want: Desired): OIDC {
    OIDC(prior.clientID, want.redirectURIs, [CodeResponse], GrantTypes(want.refreshTokens), Web, NoAuth,
         want.postLogoutURIs, prior.version, want.devMode, BearerToken, false, false, false)
  }

  datatype Write = Nothing | Create | Update(id: nat)

  /** What a run decides on, given the lookup. */
  datatype Decision = Refuse(error: EnsureError) | Go(write: Write)

  function Decide(found: Found<App>, want: Desired): Decision {
    match found
    case Missing => Go(Create)
    case One(app) =>
      if !app.kind.OidcApp? then Refuse(TypeMismatch)
      else if Matches(app.kind.config, want) then Go(Nothing)
      else Go(Update(app.id))
    case Ambiguous => Refuse(AmbiguousName)
    case _ => Refuse(LookupFailed)
  }

  /** There is no such application, or one that is an OIDC application. */
  predicate Workable(found: Found<App>) {
    found.Missing? || (found.One? && found.item.kind.OidcApp?)
  }

  /** A run goes ahead exactly then, with drift or without; all other lookups are refused,
      each with its error. */
  lemma DecideSays(found: Found<App>, want: Desired)
    ensures var d := Decide(found, want);
            && (d.Go? <==> found.Missing? || (found.One? && found.item.kind.OidcApp?))
            && (d == Go(Create) <==> found.Missing?)
            && (found.One? && found.item.kind.OidcApp? ==>
                 d == if Matches(found.item.kind.config, want) then Go(Nothing) else Go(Update(found.item.id)))
            && (found.One? && !found.item.kind.OidcApp? ==> d == Refuse(TypeMismatch))
            && (found.Ambiguous? ==> d == Refuse(AmbiguousName))
            && (d == Refuse(LookupFailed) <==> found.ServiceFailed? || found.NotAdvancing? || found.OutOfBudget?)
  {
    hide Matches;
  }

  function UpdateApp(a: App, projectID: string, id: nat, want: Desired): App {
    if a.id == id && a.projectID == projectID && a.kind.OidcApp?
    then a.(kind := OidcApp(Updated(a.kind.config, want)))
    else a
  }

  function UpdateIn(apps: Apps, projectID: string, id: nat, want: Desired): Apps {
    if apps == [] then []
    else [UpdateApp(apps[0], projectID, id, want)] + UpdateIn(apps[1..], projectID, id, want)
  }

  /** The service's side of a write. */
  function Perform(apps: Apps, newId: nat, projectID: string, want: Desired, w: Write): Apps {
    match w
    case Nothing => apps
    case Create => apps + [App(newId, projectID, want.name, OidcApp(NewConfig(newId, want)))]
    case Update(id) => UpdateIn(apps, projectID, id, want)
  }

  /** Serving a list page by page. */
  function Pages<T>(all: seq<T>): Pagination.Service<T> {
    (n: nat, offset: nat) =>
      if offset >= |all| then Page([], |all|)
      else Page(all[offset..if offset + PAGE_SIZE <= |all| then offset + PAGE_SIZE else |all|], |all|)
  }

  lemma PagesAreCounted<T(!new)>(all: seq<T>)
    ensures CountedPages(Pages(all), all)
  {}

  /** The remote service, as the client sees it. A call beyond `callsLeft` fails without
      effect; a lookup, however many pages it reads, counts as one. */
  class Service {
    var apps: Apps
    var nextId: nat
    var callsLeft: nat

    ghost predicate Valid()
      reads this
    {
      DistinctIds(apps) && forall i :: 0 <= i < |apps| ==> apps[i].id < nextId
    }

    constructor (calls: nat)
      ensures Valid() && apps == [] && callsLeft == calls
    {
      apps, nextId, callsLeft := [], 0, calls;
    }

    method LookupByName(projectID: string, name: string) returns (found: Found<App>)
      modifies this`callsLeft
      ensures found == if old(callsLeft) == 0 then ServiceFailed else ScanAll(apps, Named(projectID, name))
      ensures callsLeft == if old(callsLeft) == 0 then 0 else old(callsLeft) - 1
    {
      if callsLeft == 0 {
        return ServiceFailed;
      }
      callsLeft := callsLeft - 1;
      PagesAreCounted(apps);
      LookupIsScan(Pages(apps), apps, Named(projectID, name), |apps| + 1);
      found := Lookup(Pages(apps), Named(projectID, name), |apps| + 1);
    }

    method CreateApplication(projectID: string, want: Desired) returns (ok: bool, id: nat)
      requires Valid()
      modifies this
      ensures Valid()
      ensures apps == if ok then Perform(old(apps), old(nextId), projectID, want, Create) else old(apps)
      ensures ok ==> id == old(nextId)
      ensures ok <==> old(callsLeft) > 0
    {
      if callsLeft == 0 {
        return false, 0;
      }
      callsLeft := callsLeft - 1;
      apps := apps + [App(nextId, projectID, want.name, OidcApp(NewConfig(nextId, want)))];
      ok, id := true, nextId;
      nextId := nextId + 1;
    }

    method UpdateOIDCAppConfig(projectID: string, id: nat, want: Desired) returns (ok: bool)
      requires Valid()
      modifies this`apps, this`callsLeft
      ensures Valid()
      ensures apps == if ok then UpdateIn(old(apps), projectID, id, want) else old(apps)
      ensures ok <==> old(callsLeft) > 0
    {
      if callsLeft == 0 {
        return false;
      }
      callsLeft := callsLeft - 1;
      UpdateKeepsIds(apps, projectID, id, want);
      apps := UpdateIn(apps, projectID, id, want);
      return true;
    }
  }

  lemma {:induction false} UpdateInAt(apps: Apps, projectID: string, id: nat, want: Desired, i: nat)
    requires i < |apps|
    ensures var r := UpdateIn(apps, projectID, id, want);
            |r| == |apps| && r[i] == UpdateApp(apps[i], projectID, id, want)
  {
    if i > 0 {
      UpdateInAt(apps[1..], projectID, id, want, i - 1);
    } else if |apps| > 1 {
      UpdateInAt(apps[1..], projectID, id, want, 0);
    }
  }

  lemma UpdateKeepsIds(apps: Apps, projectID: string, id: nat, want: Desired)
    ensures var r := UpdateIn(apps, projectID, id, want);
            |r| == |apps| && forall i :: 0 <= i < |apps| ==> r[i].id == apps[i].id
  {}

  /** What a run reports after a write that took effect. */
  function Reported(found: Found<App>, newId: nat, w: Write): Outcome {
    if found.One? && found.item.kind.OidcApp?
    then Done(found.item.id, found.item.kind.config.clientID, false, w != Nothing)
    else Done(newId, newId, true, false)
  }

  /** `EnsureWebApplication`, for a resolved project and normalised input. */
  method EnsureWebApplication(svc: Service, projectID: string, want: Desired) returns (r: Outcome)
    requires svc.Valid()
    modifies svc
    ensures svc.Valid()
    ensures r.Refused? ==> svc.apps == old(svc.apps)
    ensures var found := ScanAll(old(svc.apps), Named(projectID, want.name));
            var d := Decide(found, want);
            && (d.Refuse? ==> r == Refused(if old(svc.callsLeft) == 0 then LookupFailed else d.error))
            && (d.Go? ==> (r.Done? <==> old(svc.callsLeft) >= if d.write.Nothing? then 1 else 2))
            && (d.Go? && r.Refused? ==>
                 r.error == if old(svc.callsLeft) == 0 then LookupFailed
                            else if found.Missing? then CreateFailed else UpdateFailed)
            && (r.Done? ==>
                 && d.Go?
                 && svc.apps == Perform(old(svc.apps), old(svc.nextId), projectID, want, d.write)
                 && r == Reported(found, old(svc.nextId), d.write))
  {
    hide ScanAll, Matches, UpdateIn;
    var found := svc.LookupByName(projectID, want.name);
    match found {
      case Missing =>
        var ok, id := svc.CreateApplication(projectID, want);
        return if ok then Done(id, id, true, false) else Refused(CreateFailed);
      case One(app) =>
        if !app.kind.OidcApp? {
          return Refused(TypeMismatch);
        }
        var matches := WebApplicationMatches(app.kind.config, want);
        if matches {
          return Done(app.id, app.kind.config.clientID, false, false);
        }
        var ok := svc.UpdateOIDCAppConfig(projectID, app.id, want);
        return if ok then Done(app.id, app.kind.config.clientID, false, true) else Refused(UpdateFailed);
      case Ambiguous => return Refused(AmbiguousName);
      case _ => return Refused(LookupFailed);
    }
  }

  /** `verifyWebApplication`: a failed or ambiguous lookup is an error and reports
      nothing; otherwise the report is `VerifiedDrift` of what a scan of all applications
      finds. */
  method VerifyWebApplication(svc: Service, projectID: string, want: Desired, r: Rendering, report: Report)
    returns (err: Option<EnsureError>)
    modifies svc`callsLeft, report
    ensures var found := ScanAll(svc.apps, Named(projectID, want.name));
            if old(svc.callsLeft) == 0 then err == Some(LookupFailed) && report.drift == old(report.drift)
            else
              && (err.None? <==> !found.Ambiguous?)
              && (found.Ambiguous? ==> err == Some(AmbiguousName) && report.drift == old(report.drift))
              && (found.Missing? ==> report.drift == VerifiedDrift(old(report.drift), want, None, r))
              && (found.One? ==> report.drift == VerifiedDrift(old(report.drift), want, Some(found.item), r))
  {
    var found := svc.LookupByName(projectID, want.name);
    hide VerifiedDrift, Wanted;
    match found {
      case Missing => CompareWebApplication(want, None, r, report);
      case One(app) => CompareWebApplication(want, Some(app), r, report);
      case Ambiguous => return Some(AmbiguousName);
      case _ => return Some(LookupFailed);
    }
    return None;
  }

  // ---- lookups by position ----

  predicate OnlyAt<T>(all: seq<T>, wanted: T -> bool, i: nat) {
    i < |all| && wanted(all[i]) && forall j :: 0 <= j < |all| && j != i ==> !wanted(all[j])
  }

  lemma {:induction false} NothingWanted<T>(all: seq<T>, wanted: T -> bool)
    requires forall j :: 0 <= j < |all| ==> !wanted(all[j])
    ensures Wanted(all, wanted) == []
  {
    if all != [] {
      NothingWanted(all[1..], wanted);
    }
  }

  lemma OnlyAtIsOne<T>(all: seq<T>, wanted: T -> bool, i: nat)
    requires OnlyAt(all, wanted, i)
    ensures ScanAll(all, wanted) == One(all[i])
  {
    NothingWanted(all[..i], wanted);
    NothingWanted(all[i + 1..], wanted);
    assert Wanted([all[i]], wanted) == [all[i]] + Wanted([all[i]][1..], wanted);
    assert all == all[..i] + ([all[i]] + all[i + 1..]);
    WantedAppend(all[..i], [all[i]] + all[i + 1..], wanted);
    WantedAppend([all[i]], all[i + 1..], wanted);
    hide Wanted;
  }

  lemma {:induction false} WantedNone<T>(all: seq<T>, wanted: T -> bool)
    requires Wanted(all, wanted) == []
    ensures forall j :: 0 <= j < |all| ==> !wanted(all[j])
  {
    if all != [] {
      WantedNone(all[1..], wanted);
      assert forall j :: 0 < j < |all| ==> all[j] == all[1..][j - 1];
    }
  }

  lemma {:induction false} OneIsOnlyAt<T>(all: seq<T>, wanted: T -> bool) returns (i: nat)
    requires |Wanted(all, wanted)| == 1
    ensures OnlyAt(all, wanted, i) && Wanted(all, wanted) == [all[i]]
  {
    if wanted(all[0]) {
      i := 0;
      WantedNone(all[1..], wanted);
      assert forall j :: 0 < j < |all| ==> all[j] == all[1..][j - 1];
    } else {
      var k := OneIsOnlyAt(all[1..], wanted);
      i := k + 1;
      assert forall j :: 0 < j < |all| ==> all[j] == all[1..][j - 1];
    }
  }

  // ---- what a run achieves ----

  function Find(apps: Apps, projectID: string, name: string): Found<App> {
    ScanAll(apps, Named(projectID, name))
  }

  /** The applications after a run all of whose calls were answered. */
  function Run(apps: Apps, newId: nat, projectID: string, want: Desired): Apps {
    var d := Decide(Find(apps, projectID, want.name), want);
    if d.Refuse? then apps else Perform(apps, newId, projectID, want, d.write)
  }

  lemma UpdateIsReplacement(apps: Apps, projectID: string, want: Desired, i: nat)
    requires DistinctIds(apps) && i < |apps|
    requires apps[i].projectID == projectID && apps[i].kind.OidcApp?
    ensures UpdateIn(apps, projectID, apps[i].id, want)
            == apps[i := apps[i].(kind := OidcApp(Updated(apps[i].kind.config, want)))]
  {
    UpdateKeepsIds(apps, projectID, apps[i].id, want);
    forall j | 0 <= j < |apps|
      ensures UpdateIn(apps, projectID, apps[i].id, want)[j]
              == if j == i then apps[i].(kind := OidcApp(Updated(apps[i].kind.config, want))) else apps[j]
    {
      UpdateInAt(apps, projectID, apps[i].id, want, j);
    }
    hide UpdateIn;
  }

  /** A run, spelled out: it appends a new application, replaces the configuration of
      the one it found, or writes nothing. All the others stay, in order. */
  lemma RunIs(apps: Apps, newId: nat, projectID: string, want: Desired)
    requires DistinctIds(apps) && Workable(Find(apps, projectID, want.name))
    ensures var apps' := Run(apps, newId, projectID, want);
            match Find(apps, projectID, want.name)
            case Missing =>
              apps' == apps + [App(newId, projectID, want.name, OidcApp(NewConfig(newId, want)))]
            case One(app) =>
              && app.kind.OidcApp?
              && exists i: nat :: OnlyAt(apps, Named(projectID, want.name), i) && apps[i] == app
                   && apps' == if Matches(app.kind.config, want) then apps
                               else apps[i := app.(kind := OidcApp(Updated(app.kind.config, want)))]
            case _ => false
  {
    var wanted := Named(projectID, want.name);
    var found := Find(apps, projectID, want.name);
    if found.One? {
      var i := OneIsOnlyAt(apps, wanted);
      hide Wanted, Matches, UpdateIn;
      UpdateIsReplacement(apps, projectID, want, i);
    }
  }

  /** What the next lookup finds after a run. */
  lemma RunLeaves(apps: Apps, newId: nat, projectID: string, want: Desired)
    requires DistinctIds(apps) && Workable(Find(apps, projectID, want.name))
    ensures var found := Find(apps, projectID, want.name);
            Find(Run(apps, newId, projectID, want), projectID, want.name) ==
              if found.Missing? then One(App(newId, projectID, want.name, OidcApp(NewConfig(newId, want))))
              else if found.One? && found.item.kind.OidcApp? && !Matches(found.item.kind.config, want)
              then One(found.item.(kind := OidcApp(Updated(found.item.kind.config, want))))
              else found
  {
    var wanted := Named(projectID, want.name);
    var found := Find(apps, projectID, want.name);
    RunIs(apps, newId, projectID, want);
    hide Matches, Run, Decide;
    if found.Missing? {
      WantedNone(apps, wanted);
      hide Wanted;
      OnlyAtIsOne(apps + [App(newId, projectID, want.name, OidcApp(NewConfig(newId, want)))], wanted, |apps|);
    } else if found.One? && !Matches(found.item.kind.config, want) {
      hide Wanted;
      var i: nat :| OnlyAt(apps, wanted, i) && apps[i] == found.item
               && Run(apps, newId, projectID, want)
                  == apps[i := found.item.(kind := OidcApp(Updated(found.item.kind.config, want)))];
      OnlyAtIsOne(Run(apps, newId, projectID, want), wanted, i);
    }
  }

  lemma NewConfigMatches(clientID: nat, prior: OIDC, want: Desired)
    ensures Matches(NewConfig(clientID, want), want)
    ensures Matches(Updated(prior, want), want) <==> prior.version == Version10
  {}

  /** The condition under which a run converges: there was no such application, or
      there was one at version 1.0. */
  predicate CanConverge(found: Found<App>) {
    found.Missing? || (found.One? && found.item.kind.OidcApp? && found.item.kind.config.version == Version10)
  }

  /** Convergence: after a successful run the application matches exactly when it was
      absent or at version 1.0 before, and that is also exactly when the next run
      reports neither Created nor Updated and leaves everything as it is. */
  lemma EnsureConvergesIff(apps: Apps, newId: nat, projectID: string, want: Desired)
    requires DistinctIds(apps) && Workable(Find(apps, projectID, want.name))
    ensures var found := Find(apps, projectID, want.name);
            var apps' := Run(apps, newId, projectID, want);
            var after := Find(apps', projectID, want.name);
            && after.One? && after.item.kind.OidcApp?
            && (Matches(after.item.kind.config, want) <==> CanConverge(found))
            && (Decide(after, want) == Go(Nothing) <==> CanConverge(found))
  {
    var found := Find(apps, projectID, want.name);
    RunLeaves(apps, newId, projectID, want);
    hide Find, Run;
    if found.Missing? {
      NewConfigMatches(newId, NewConfig(newId, want), want);
    } else {
      NewConfigMatches(newId, found.item.kind.config, want);
      assert Matches(found.item.kind.config, want) ==> found.item.kind.config.version == Version10;
    }
    hide Matches;
  }

  /** Any number of successful runs in a row. */
  function Runs(apps: Apps, newIds: seq<nat>, projectID: string, want: Desired): Apps
    decreases |newIds|
  {
    if newIds == [] then apps
    else Runs(Run(apps, newIds[0], projectID, want), newIds[1..], projectID, want)
  }

  /** An application at another version is updated by every run and never matches. */
  lemma {:induction false} OtherVersionNeverMatches(apps: Apps, newIds: seq<nat>, projectID: string, want: Desired)
    requires DistinctIds(apps)
    requires var found := Find(apps, projectID, want.name);
             found.One? && found.item.kind.OidcApp? && found.item.kind.config.version != Version10
    ensures var after := Find(Runs(apps, newIds, projectID, want), projectID, want.name);
            && after.One? && after.item.kind.OidcApp?
            && !Matches(after.item.kind.config, want)
            && Decide(after, want) == Go(Update(after.item.id))
    decreases |newIds|
  {
    if newIds != [] {
      var apps' := Run(apps, newIds[0], projectID, want);
      RunLeaves(apps, newIds[0], projectID, want);
      RunKeepsOthers(apps, newIds[0], projectID, want);
      hide Find, Run;
      OtherVersionNeverMatches(apps', newIds[1..], projectID, want);
    }
  }

  /** Framing: every application that was there is still there, at its place, under its
      own id, project and name, and unchanged unless it is the one asked for; that one
      keeps its client id. At most one is added, at the end. */
  lemma RunKeepsOthers(apps: Apps, newId: nat, projectID: string, want: Desired)
    requires DistinctIds(apps)
    ensures var apps' := Run(apps, newId, projectID, want);
            && |apps| <= |apps'| <= |apps| + 1
            && (|apps'| > |apps| <==> Find(apps, projectID, want.name).Missing?)
            && forall i | 0 <= i < |apps| ::
                 && (apps[i].projectID != projectID || apps[i].name != want.name ==> apps'[i] == apps[i])
                 && apps'[i].id == apps[i].id
                 && apps'[i].projectID == apps[i].projectID && apps'[i].name == apps[i].name
                 && (apps[i].kind.OidcApp? ==>
                      apps'[i].kind.OidcApp? && apps'[i].kind.config.clientID == apps[i].kind.config.clientID)
    ensures !Find(apps, projectID, want.name).Missing? || (forall i :: 0 <= i < |apps| ==> apps[i].id != newId)
            ==> DistinctIds(Run(apps, newId, projectID, want))
  {
    var found := Find(apps, projectID, want.name);
    if Decide(found, want).Go? {
      RunIs(apps, newId, projectID, want);
      hide Find, Matches, Run;
      var apps' := Run(apps, newId, projectID, want);
      if found.One? && !Matches(found.item.kind.config, want) {
        var i: nat :| OnlyAt(apps, Named(projectID, want.name), i) && apps[i] == found.item
                      && apps' == apps[i := found.item.(kind := OidcApp(Updated(found.item.kind.config, want)))];
      }
    }
  }

  /** Reconciling, then verifying: the verifier leaves its report as it was exactly when
      the run could converge. */
  lemma EnsureThenVerifyIff(apps: Apps, newId: nat, projectID: string, want: Desired, r: Rendering, before: seq<Drift>)
    requires DistinctIds(apps) && Workable(Find(apps, projectID, want.name)) && TellsApart(r)
    ensures var found := Find(apps, projectID, want.name);
            var after := Find(Run(apps, newId, projectID, want), projectID, want.name);
            after.One? && (VerifiedDrift(before, want, Some(after.item), r) == before <==> CanConverge(found))
  {
    EnsureConvergesIff(apps, newId, projectID, want);
    hide Find, Run, Decide, Matches, WebDrift, CanConverge, TellsApart;
    var after := Find(Run(apps, newId, projectID, want), projectID, want.name);
    MatchesIffNoDrift(before, "application/" + want.name, want, after.item.kind.config, r);
  }

  /** The verifier is silent exactly when a run would write nothing. */
  lemma SilentIffNothingToDo(want: Desired, found: Found<App>, r: Rendering, before: seq<Drift>)
    requires (found.Missing? || found.One?) && TellsApart(r)
    ensures var seen := if found.One? then Some(found.item) else None;
            VerifiedDrift(before, want, seen, r) == before <==> Decide(found, want) == Go(Nothing)
  {
    if found.One? && found.item.kind.OidcApp? {
      MatchesIffNoDrift(before, "application/" + want.name, want, found.item.kind.config, r);
      hide Matches, WebDrift, TellsApart;
    }
  }

  /** What a successful run reports, and what it leaves for the application it found, in
      terms of the lookup: created exactly when there was none, updated exactly when there
      was one that did not match. */
  lemma RunReports(found: Found<App>, newId: nat, want: Desired)
    requires Workable(found)
    ensures var d := Decide(found, want);
            d.Go? && Reported(found, newId, d.write) ==
              if found.Missing? then Done(newId, newId, true, false)
              else Done(found.item.id, found.item.kind.config.clientID, false, !Matches(found.item.kind.config, want))
  {
    hide Matches;
  }

  /** The configuration that a run creates or writes, field by field. */
  lemma WrittenSays(id: nat, prior: OIDC, want: Desired)
    ensures var created, updated := NewConfig(id, want), Updated(prior, want);
            && created.clientID == id && updated.clientID == prior.clientID
            && created.version == Version10 && updated.version == prior.version
            && forall c <- [created, updated] ::
                 && c.redirectURIs == want.redirectURIs && c.postLogoutURIs == want.postLogoutURIs
                 && c.responseTypes == [CodeResponse] && c.appType == Web && c.authMethod == NoAuth
                 && c.grantTypes == [AuthorizationCode] + (if want.refreshTokens then [RefreshToken] else [])
                 && c.devMode == want.devMode && c.tokenType == BearerToken
                 && !c.accessTokenRoles && !c.idTokenRoles && !c.idTokenUserinfo
  {}

  /** Which application is looked up: the one of that name in that project, spelled out on
      the whole list. */
  lemma FindSays(apps: Apps, projectID: string, name: string)
    ensures var found := Find(apps, projectID, name);
            && (found.Missing? <==> forall a <- apps :: a.projectID != projectID || a.name != name)
            && (found.One? ==> found.item in apps && found.item.projectID == projectID && found.item.name == name)
            && (found.Missing? || found.One? || found.Ambiguous?)
  {
    var wanted := Named(projectID, name);
    if Wanted(apps, wanted) == [] {
      WantedNone(apps, wanted);
      forall a | a in apps ensures a.projectID != projectID || a.name != name {
        var i :| 0 <= i < |apps| && apps[i] == a;
        assert !wanted(apps[i]);
      }
    }
    if forall a <- apps :: a.projectID != projectID || a.name != name {
      NothingWanted(apps, wanted);
    }
    if |Wanted(apps, wanted)| == 1 {
      var i := OneIsOnlyAt(apps, wanted);
    }
  }
}
