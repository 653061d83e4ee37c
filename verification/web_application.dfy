/** Reconciling the Web application (admin/web_application.go) and verifying it
    (admin/verify.go). */
module WebApplication {
  import opened Wrappers
  import opened Text
  import opened DriftReport

  // ---- comparing lists as multisets ----

  function Count<T>(counts: map<T, nat>, x: T): nat {
    if x in counts then counts[x] else 0
  }

  /** The counts are those of a multiset. */
  ghost predicate Tallies<T(!new)>(counts: map<T, nat>, m: multiset<T>) {
    forall x :: Count(counts, x) == m[x]
  }

  /** `sameMembers`: the counting loops decide equality of multisets. */
  method SameMembers<T(==,!new)>(left: seq<T>, right: seq<T>) returns (same: bool)
    ensures same <==> multiset(left) == multiset(right)
  {
    hide Tallies, Count;
    SizesAgree(left, right);
    if |left| != |right| {
      return false;
    }
    var counts: map<T, nat> := map[];
    NothingCounted<T>();
    for i := 0 to |left|
      invariant Tallies(counts, multiset(left[..i]))
    {
      CountUp(counts, left, i);
      counts := counts[left[i] := Count(counts, left[i]) + 1];
    }
    assert left[..|left|] == left;
    assert multiset(left) - multiset(right[..0]) == multiset(left);
    for i := 0 to |right|
      invariant multiset(right[..i]) <= multiset(left)
      invariant Tallies(counts, multiset(left) - multiset(right[..i]))
    {
      CountDown(counts, multiset(left), right, i);
      if Count(counts, right[i]) == 0 {
        return false;
      }
      counts := counts[right[i] := Count(counts, right[i]) - 1];
    }
    assert right[..|right|] == right;
    SmallerOfSameSize(multiset(right), multiset(left));
    return true;
  }

  lemma NothingCounted<T(!new)>()
    ensures Tallies<T>(map[], multiset{})
  {}

  lemma CountUp<T(!new)>(counts: map<T, nat>, s: seq<T>, i: nat)
    requires i < |s| && Tallies(counts, multiset(s[..i]))
    ensures Tallies(counts[s[i] := Count(counts, s[i]) + 1], multiset(s[..i + 1]))
  {
    assert s[..i + 1] == s[..i] + [s[i]];
  }

  /** Taking one more element off: when none is left of it the multisets differ, and
      otherwise the counts follow. */
  lemma CountDown<T(!new)>(counts: map<T, nat>, all: multiset<T>, s: seq<T>, i: nat)
    requires i < |s| && multiset(s[..i]) <= all && Tallies(counts, all - multiset(s[..i]))
    ensures Count(counts, s[i]) == 0 ==> all != multiset(s)
    ensures Count(counts, s[i]) > 0 ==>
              && multiset(s[..i + 1]) <= all
              && Tallies(counts[s[i] := Count(counts, s[i]) - 1], all - multiset(s[..i + 1]))
  {
    var x := s[i];
    assert s[..i + 1] == s[..i] + [x];
    assert s == s[..i + 1] + s[i + 1..];
    var before, after := multiset(s[..i]), multiset(s[..i + 1]);
    assert after == before + multiset{x};
    assert Count(counts, x) == all[x] - before[x];
    if Count(counts, x) == 0 {
      assert multiset(s)[x] > all[x];
    } else {
      assert after <= all;
      forall y ensures Count(counts[x := Count(counts, x) - 1], y) == (all - after)[y] {
        assert Count(counts, y) == (all - before)[y];
      }
    }
  }

  lemma SizesAgree<T>(left: seq<T>, right: seq<T>)
    ensures |multiset(left)| == |left| && |multiset(right)| == |right|
  {}

  lemma SmallerOfSameSize<T>(a: multiset<T>, b: multiset<T>)
    requires a <= b && |a| == |b|
    ensures a == b
  {
    assert b == a + (b - a);
    assert |b - a| == 0;
  }

  function Map<T, U>(s: seq<T>, f: T -> U): seq<U> {
    if s == [] then [] else [f(s[0])] + Map(s[1..], f)
  }

  ghost predicate Injective<T(!new)>(f: T -> string) {
    forall x, y :: f(x) == f(y) ==> x == y
  }

  lemma {:induction false} MapCounts<T(!new)>(s: seq<T>, f: T -> string, x: T)
    requires Injective(f)
    ensures multiset(Map(s, f))[f(x)] == multiset(s)[x]
  {
    if s != [] {
      MapCounts(s[1..], f, x);
      assert s == [s[0]] + s[1..];
    }
  }

  lemma {:induction false} MapImage<T>(s: seq<T>, f: T -> string, y: string)
    requires y in Map(s, f)
    ensures exists x :: x in s && y == f(x)
  {
    if y != f(s[0]) {
      MapImage(s[1..], f, y);
    }
  }

  /** The rendered, sorted form that `compareSet` compares. */
  function Rendered<T>(s: seq<T>, render: T -> string): seq<string> {
    Sort(Map(s, render))
  }

  /** Comparing sorted renderings decides the same thing as counting. */
  lemma RenderedEqualIff<T(!new)>(a: seq<T>, b: seq<T>, render: T -> string)
    requires Injective(render)
    ensures Rendered(a, render) == Rendered(b, render) <==> multiset(a) == multiset(b)
  {
    SortEqualIff(Map(a, render), Map(b, render));
    var ma, mb := multiset(Map(a, render)), multiset(Map(b, render));
    hide Sort;
    if multiset(a) == multiset(b) {
      forall y ensures ma[y] == mb[y] {
        SameCount(a, b, render, y);
      }
      assert ma == mb;
    }
    if ma == mb {
      forall x ensures multiset(a)[x] == multiset(b)[x] {
        MapCounts(a, render, x);
        MapCounts(b, render, x);
      }
      assert multiset(a) == multiset(b);
    }
  }

  lemma SameCount<T(!new)>(a: seq<T>, b: seq<T>, render: T -> string, y: string)
    requires Injective(render) && multiset(a) == multiset(b)
    ensures multiset(Map(a, render))[y] == multiset(Map(b, render))[y]
  {
    if y in Map(a, render) || y in Map(b, render) {
      if y in Map(a, render) { MapImage(a, render, y); } else { MapImage(b, render, y); }
      var x :| y == render(x);
      MapCounts(a, render, x);
      MapCounts(b, render, x);
    }
  }

  // ---- configurations ----

  datatype ResponseType = CodeResponse | OtherResponse(number: int)
  datatype GrantType = AuthorizationCode | RefreshToken | OtherGrant(number: int)
  datatype AppType = Web | OtherApp(number: int)
  datatype AuthMethod = NoAuth | OtherMethod(number: int)
  datatype Version = Version10 | OtherVersion(number: int)
  datatype TokenType = BearerToken | OtherToken(number: int)

  datatype OIDC = OIDC(
    clientID: nat, redirectURIs: seq<string>, responseTypes: seq<ResponseType>, grantTypes: seq<GrantType>,
    appType: AppType, authMethod: AuthMethod, postLogoutURIs: seq<string>, version: Version, devMode: bool,
    tokenType: TokenType, accessTokenRoles: bool, idTokenRoles: bool, idTokenUserinfo: bool)

  datatype Kind = OidcApp(config: OIDC) | ApiApp | SamlApp | UnknownApp

  datatype App = App(id: nat, projectID: string, name: string, kind: Kind)

  /** The normalised input: what the application should be. */
  datatype Desired = Desired(name: string, redirectURIs: seq<string>, postLogoutURIs: seq<string>,
                             refreshTokens: bool, devMode: bool)

  function GrantTypes(refreshTokens: bool): seq<GrantType> {
    if refreshTokens then [AuthorizationCode, RefreshToken] else [AuthorizationCode]
  }

  predicate SameBag<T(==)>(a: seq<T>, b: seq<T>) {
    multiset(a) == multiset(b)
  }

  predicate Matches(actual: OIDC, want: Desired) {
    && SameBag(actual.redirectURIs, want.redirectURIs)
    && SameBag(actual.responseTypes, [CodeResponse])
    && SameBag(actual.grantTypes, GrantTypes(want.refreshTokens))
    && actual.appType == Web
    && actual.authMethod == NoAuth
    && SameBag(actual.postLogoutURIs, want.postLogoutURIs)
    && actual.version == Version10
    && actual.devMode == want.devMode
    && actual.tokenType == BearerToken
    && !actual.accessTokenRoles && !actual.idTokenRoles && !actual.idTokenUserinfo
  }

  /** `webApplicationMatches`. */
  method WebApplicationMatches(actual: OIDC, want: Desired) returns (ok: bool)
    ensures ok <==> Matches(actual, want)
  {
    var redirects := SameMembers(actual.redirectURIs, want.redirectURIs);
    if !redirects { return false; }
    var responses := SameMembers(actual.responseTypes, [CodeResponse]);
    if !responses { return false; }
    var grants := SameMembers(actual.grantTypes, GrantTypes(want.refreshTokens));
    if !grants || actual.appType != Web || actual.authMethod != NoAuth { return false; }
    var logouts := SameMembers(actual.postLogoutURIs, want.postLogoutURIs);
    return logouts
           && actual.version == Version10
           && actual.devMode == want.devMode
           && actual.tokenType == BearerToken
           && !actual.accessTokenRoles && !actual.idTokenRoles && !actual.idTokenUserinfo;
  }

  // ---- normalising the lists of URIs ----

  /** `normalizeWebURISet`, around a function that normalises one URI or refuses it. */
  method NormalizeWebURISet(values: seq<string>, normalizeOne: string -> Option<string>)
    returns (r: Option<seq<string>>)
    ensures r == NormalizedSet(values, normalizeOne)
  {
    var normalized: seq<string> := [];
    var seen: set<string> := {};
    for i := 0 to |values|
      invariant forall j :: 0 <= j < i ==> normalizeOne(values[j]).Some?
      invariant normalized == Images(values[..i], normalizeOne)
      invariant seen == Elements(normalized) && NoDuplicates(normalized)
    {
      var uri := normalizeOne(values[i]);
      if uri.None? {
        return None;
      }
      assert values[..i + 1][..i] == values[..i];
      if uri.value in seen {
        var j :| 0 <= j < |normalized| && normalized[j] == uri.value;
        RepeatedImage(values, normalizeOne, j, i);
        return None;
      }
      seen := seen + {uri.value};
      normalized := normalized + [uri.value];
    }
    assert values[..|values|] == values;
    return Some(Sort(normalized));
  }

  function Images(values: seq<string>, normalizeOne: string -> Option<string>): (r: seq<string>)
    ensures |r| == |values|
  {
    if values == [] then []
    else
      var n := |values| - 1;
      var last := normalizeOne(values[n]);
      Images(values[..n], normalizeOne) + [if last.Some? then last.value else ""]
  }

  function NormalizedSet(values: seq<string>, normalizeOne: string -> Option<string>): Option<seq<string>> {
    var images := Images(values, normalizeOne);
    if (forall v <- values :: normalizeOne(v).Some?) && NoDuplicates(images) then Some(Sort(images)) else None
  }

  lemma {:induction false} ImagesAt(values: seq<string>, normalizeOne: string -> Option<string>, i: nat)
    requires i < |values|
    ensures Images(values, normalizeOne)[i] ==
            if normalizeOne(values[i]).Some? then normalizeOne(values[i]).value else ""
  {
    var n := |values| - 1;
    if i < n {
      ImagesAt(values[..n], normalizeOne, i);
    }
  }

  lemma RepeatedImage(values: seq<string>, normalizeOne: string -> Option<string>, j: nat, i: nat)
    requires j < i < |values| && normalizeOne(values[i]).Some?
    requires Images(values[..i], normalizeOne)[j] == normalizeOne(values[i]).value
    ensures !NoDuplicates(Images(values, normalizeOne))
  {
    ImagesAt(values, normalizeOne, i);
    ImagesAt(values, normalizeOne, j);
    ImagesAt(values[..i], normalizeOne, j);
  }

  /** A list is accepted exactly when every URI is and no two normalise alike; then
      the result is sorted and has the normalised URIs, each once. */
  lemma NormalizedSetMeans(values: seq<string>, normalizeOne: string -> Option<string>)
    ensures var r := NormalizedSet(values, normalizeOne);
            && (r.Some? <==>
                 && (forall i :: 0 <= i < |values| ==> normalizeOne(values[i]).Some?)
                 && (forall i, j :: 0 <= i < j < |values| ==> normalizeOne(values[i]) != normalizeOne(values[j])))
            && (r.Some? ==>
                 && Sorted(r.value) && NoDuplicates(r.value)
                 && forall u :: u in r.value <==> exists i :: 0 <= i < |values| && normalizeOne(values[i]) == Some(u))
  {
    var images := Images(values, normalizeOne);
    forall i | 0 <= i < |values|
      ensures images[i] == if normalizeOne(values[i]).Some? then normalizeOne(values[i]).value else ""
    {
      ImagesAt(values, normalizeOne, i);
    }
    hide Images;
    if forall i :: 0 <= i < |values| ==> normalizeOne(values[i]).Some? {
      forall i, j | 0 <= i < j < |values|
        ensures images[i] != images[j] <==> normalizeOne(values[i]) != normalizeOne(values[j]) {}
      if NoDuplicates(images) {
        SortSorts(images);
        SortedElements(images);
        ImagesElements(values, normalizeOne);
        assert forall u :: u in Sort(images) <==> u in Elements(Sort(images));
        hide Sort;
      }
    }
  }

  lemma ImagesElements(values: seq<string>, normalizeOne: string -> Option<string>)
    requires forall i :: 0 <= i < |values| ==> normalizeOne(values[i]).Some?
    ensures forall u ::
              u in Elements(Images(values, normalizeOne)) <==>
              exists i :: 0 <= i < |values| && normalizeOne(values[i]) == Some(u)
  {
    var images := Images(values, normalizeOne);
    forall i | 0 <= i < |values| ensures normalizeOne(values[i]) == Some(images[i]) {
      ImagesAt(values, normalizeOne, i);
    }
    hide Images;
    forall u ensures u in Elements(images) <==> exists i :: 0 <= i < |values| && normalizeOne(values[i]) == Some(u) {
      if u in Elements(images) {
        var i :| 0 <= i < |images| && images[i] == u;
        assert normalizeOne(values[i]) == Some(u);
      }
    }
  }

  // ---- verifying ----

  /** How enumeration values are shown in a report. */
  datatype Rendering = Rendering(
    response: ResponseType -> string, grant: GrantType -> string, appType: AppType -> string,
    authMethod: AuthMethod -> string, version: Version -> string, tokenType: TokenType -> string)

  ghost predicate TellsApart(r: Rendering) {
    && Injective(r.response) && Injective(r.grant) && Injective(r.appType)
    && Injective(r.authMethod) && Injective(r.version) && Injective(r.tokenType)
  }

  function ComparedSet<T>(resource: string, field: string, want: seq<T>, got: seq<T>, render: T -> string): seq<Drift> {
    Compared(resource, field, List(Rendered(want, render)), List(Rendered(got, render)))
  }

  function AsIs(s: string): string { s }

  /** An enumeration value in a report. */
  function Shown<T>(x: T, render: T -> string): Value {
    DriftReport.Text(render(x))
  }

  /** The report after the first six comparisons of `verifyWebApplication`. */
  function FirstDrift(before: seq<Drift>, resource: string, want: Desired, oidc: OIDC, r: Rendering): seq<Drift> {
    before
    + ComparedSet(resource, "redirect_uris", want.redirectURIs, oidc.redirectURIs, AsIs)
    + ComparedSet(resource, "response_types", [CodeResponse], oidc.responseTypes, r.response)
    + ComparedSet(resource, "grant_types", GrantTypes(want.refreshTokens), oidc.grantTypes, r.grant)
    + Compared(resource, "application_type", Shown(Web, r.appType), Shown(oidc.appType, r.appType))
    + Compared(resource, "auth_method_type", Shown(NoAuth, r.authMethod), Shown(oidc.authMethod, r.authMethod))
    + ComparedSet(resource, "post_logout_redirect_uris", want.postLogoutURIs, oidc.postLogoutURIs, AsIs)
  }

  /** The report after the other six. */
  function LastDrift(before: seq<Drift>, resource: string, want: Desired, oidc: OIDC, r: Rendering): seq<Drift> {
    before
    + Compared(resource, "version", Shown(Version10, r.version), Shown(oidc.version, r.version))
    + Compared(resource, "development_mode", Flag(want.devMode), Flag(oidc.devMode))
    + Compared(resource, "access_token_type", Shown(BearerToken, r.tokenType), Shown(oidc.tokenType, r.tokenType))
    + Compared(resource, "access_token_role_assertion", Flag(false), Flag(oidc.accessTokenRoles))
    + Compared(resource, "id_token_role_assertion", Flag(false), Flag(oidc.idTokenRoles))
    + Compared(resource, "id_token_userinfo_assertion", Flag(false), Flag(oidc.idTokenUserinfo))
  }

  function WebDrift(before: seq<Drift>, resource: string, want: Desired, oidc: OIDC, r: Rendering): seq<Drift> {
    LastDrift(FirstDrift(before, resource, want, oidc, r), resource, want, oidc, r)
  }

  function TypeName(kind: Kind): string {
    match kind
    case ApiApp => "API"
    case SamlApp => "SAML"
    case _ => "unknown"
  }

  /** The report after `verifyWebApplication`, given what the lookup found. */
  function VerifiedDrift(before: seq<Drift>, want: Desired, found: Option<App>, r: Rendering): seq<Drift> {
    var resource := "application/" + want.name;
    if found.None? then before + [Drift(resource, "exists", Flag(true), Flag(false))]
    else
      match found.value.kind
      case OidcApp(oidc) => WebDrift(before, resource, want, oidc, r)
      case other => before + [Drift(resource, "type", DriftReport.Text("OIDC"), DriftReport.Text(TypeName(other)))]
  }

  method CompareSet<T>(report: Report, resource: string, field: string, want: seq<T>, got: seq<T>, render: T -> string)
    modifies report
    ensures report.drift == old(report.drift) + ComparedSet(resource, field, want, got, render)
  {
    report.Compare(resource, field, List(Rendered(want, render)), List(Rendered(got, render)));
  }

  /** The comparisons of `verifyWebApplication`, after its lookup. */
  method CompareWebApplication(want: Desired, found: Option<App>, r: Rendering, report: Report)
    modifies report
    ensures report.drift == VerifiedDrift(old(report.drift), want, found, r)
  {
    hide ComparedSet, Compared, Rendered;
    var resource := "application/" + want.name;
    if found.None? {
      report.AddDrift(resource, "exists", Flag(true), Flag(false));
      return;
    }
    if !found.value.kind.OidcApp? {
      report.AddDrift(resource, "type", DriftReport.Text("OIDC"), DriftReport.Text(TypeName(found.value.kind)));
      return;
    }
    var oidc := found.value.kind.config;
    CompareSet(report, resource, "redirect_uris", want.redirectURIs, oidc.redirectURIs, AsIs);
    CompareSet(report, resource, "response_types", [CodeResponse], oidc.responseTypes, r.response);
    CompareSet(report, resource, "grant_types", GrantTypes(want.refreshTokens), oidc.grantTypes, r.grant);
    report.Compare(resource, "application_type", Shown(Web, r.appType), Shown(oidc.appType, r.appType));
    report.Compare(resource, "auth_method_type", Shown(NoAuth, r.authMethod), Shown(oidc.authMethod, r.authMethod));
    CompareSet(report, resource, "post_logout_redirect_uris", want.postLogoutURIs, oidc.postLogoutURIs, AsIs);
    report.Compare(resource, "version", Shown(Version10, r.version), Shown(oidc.version, r.version));
    report.Compare(resource, "development_mode", Flag(want.devMode), Flag(oidc.devMode));
    report.Compare(resource, "access_token_type", Shown(BearerToken, r.tokenType), Shown(oidc.tokenType, r.tokenType));
    report.Compare(resource, "access_token_role_assertion", Flag(false), Flag(oidc.accessTokenRoles));
    report.Compare(resource, "id_token_role_assertion", Flag(false), Flag(oidc.idTokenRoles));
    report.Compare(resource, "id_token_userinfo_assertion", Flag(false), Flag(oidc.idTokenUserinfo));
  }

  lemma SetSilentIff<T(!new)>(resource: string, field: string, want: seq<T>, got: seq<T>, render: T -> string)
    requires Injective(render)
    ensures |ComparedSet(resource, field, want, got, render)| == if SameBag(got, want) then 0 else 1
  {
    RenderedEqualIff(want, got, render);
    hide Rendered;
  }

  lemma AsIsInjective()
    ensures Injective(AsIs)
  {}

  lemma TextSilentIff<T(!new)>(resource: string, field: string, want: T, got: T, render: T -> string)
    requires Injective(render)
    ensures var drift := Compared(resource, field, Shown(want, render), Shown(got, render));
            |drift| == if got == want then 0 else 1
  {}

  lemma FirstSilentIff(before: seq<Drift>, resource: string, want: Desired, oidc: OIDC, r: Rendering)
    requires TellsApart(r)
    ensures var after := FirstDrift(before, resource, want, oidc, r);
            if && SameBag(oidc.redirectURIs, want.redirectURIs)
               && SameBag(oidc.responseTypes, [CodeResponse])
               && SameBag(oidc.grantTypes, GrantTypes(want.refreshTokens))
               && oidc.appType == Web && oidc.authMethod == NoAuth
               && SameBag(oidc.postLogoutURIs, want.postLogoutURIs)
            then after == before else |after| > |before|
  {
    hide ComparedSet, SameBag, GrantTypes, Compared, Injective;
    AsIsInjective();
    SetSilentIff(resource, "redirect_uris", want.redirectURIs, oidc.redirectURIs, AsIs);
    SetSilentIff(resource, "response_types", [CodeResponse], oidc.responseTypes, r.response);
    SetSilentIff(resource, "grant_types", GrantTypes(want.refreshTokens), oidc.grantTypes, r.grant);
    SetSilentIff(resource, "post_logout_redirect_uris", want.postLogoutURIs, oidc.postLogoutURIs, AsIs);
    TextSilentIff(resource, "application_type", Web, oidc.appType, r.appType);
    TextSilentIff(resource, "auth_method_type", NoAuth, oidc.authMethod, r.authMethod);
    SixAppended(before,
      ComparedSet(resource, "redirect_uris", want.redirectURIs, oidc.redirectURIs, AsIs),
      ComparedSet(resource, "response_types", [CodeResponse], oidc.responseTypes, r.response),
      ComparedSet(resource, "grant_types", GrantTypes(want.refreshTokens), oidc.grantTypes, r.grant),
      Compared(resource, "application_type", Shown(Web, r.appType), Shown(oidc.appType, r.appType)),
      Compared(resource, "auth_method_type", Shown(NoAuth, r.authMethod), Shown(oidc.authMethod, r.authMethod)),
      ComparedSet(resource, "post_logout_redirect_uris", want.postLogoutURIs, oidc.postLogoutURIs, AsIs));
  }

  lemma LastSilentIff(before: seq<Drift>, resource: string, want: Desired, oidc: OIDC, r: Rendering)
    requires TellsApart(r)
    ensures var after := LastDrift(before, resource, want, oidc, r);
            if && oidc.version == Version10 && oidc.devMode == want.devMode && oidc.tokenType == BearerToken
               && !oidc.accessTokenRoles && !oidc.idTokenRoles && !oidc.idTokenUserinfo
            then after == before else |after| > |before|
  {}

  lemma SixAppended<T>(s: seq<T>, a: seq<T>, b: seq<T>, c: seq<T>, d: seq<T>, e: seq<T>, f: seq<T>)
    ensures var r := s + a + b + c + d + e + f;
            if a == [] && b == [] && c == [] && d == [] && e == [] && f == [] then r == s else |r| > |s|
  {}

  /** The two comparisons agree: the reconciler finds nothing to change exactly when
      the verifier adds nothing to its report. */
  lemma MatchesIffNoDrift(before: seq<Drift>, resource: string, want: Desired, oidc: OIDC, r: Rendering)
    requires TellsApart(r)
    ensures Matches(oidc, want) <==> WebDrift(before, resource, want, oidc, r) == before
  {
    hide TellsApart, SameBag, FirstDrift, LastDrift;
    FirstSilentIff(before, resource, want, oidc, r);
    LastSilentIff(FirstDrift(before, resource, want, oidc, r), resource, want, oidc, r);
  }

  // ---- spelled out ----

  /** The grant types of an application that matches: the authorization code, and the
      refresh token if and only if refresh tokens are wanted. */
  lemma GrantsSay(actual: OIDC, want: Desired)
    requires Matches(actual, want)
    ensures AuthorizationCode in actual.grantTypes
    ensures RefreshToken in actual.grantTypes <==> want.refreshTokens
    ensures |actual.grantTypes| == if want.refreshTokens then 2 else 1
  {
    assert multiset(actual.grantTypes) == multiset(GrantTypes(want.refreshTokens));
    assert forall g :: g in actual.grantTypes <==> g in multiset(actual.grantTypes);
    assert |actual.grantTypes| == |multiset(actual.grantTypes)|;
    assert AuthorizationCode in multiset(GrantTypes(want.refreshTokens));
  }

  /** A mismatch of one field, reported with what was wanted and what is there. */
  predicate Reports(d: Drift, resource: string, field: string, want: Value, got: Value) {
    want != got && d.resource == resource && d.field == field && d.expected == want && d.actual == got
  }

  lemma ComparedSays(d: Drift, resource: string, field: string, want: Value, got: Value)
    ensures d in Compared(resource, field, want, got) <==> Reports(d, resource, field, want, got)
  {}

  lemma InSix<T>(x: T, s: seq<T>, a: seq<T>, b: seq<T>, c: seq<T>, d: seq<T>, e: seq<T>, f: seq<T>)
    ensures x in s + a + b + c + d + e + f <==>
            x in s || x in a || x in b || x in c || x in d || x in e || x in f
  {}

  /** The report on an application holds exactly the mismatches of these twelve fields. */
  lemma WebDriftSays(resource: string, want: Desired, oidc: OIDC, r: Rendering, d: Drift)
    ensures var grants := if want.refreshTokens then [AuthorizationCode, RefreshToken] else [AuthorizationCode];
            d in WebDrift([], resource, want, oidc, r) <==>
            || Reports(d, resource, "redirect_uris",
                       List(Rendered(want.redirectURIs, AsIs)), List(Rendered(oidc.redirectURIs, AsIs)))
            || Reports(d, resource, "response_types",
                       List(Rendered([CodeResponse], r.response)), List(Rendered(oidc.responseTypes, r.response)))
            || Reports(d, resource, "grant_types",
                       List(Rendered(grants, r.grant)), List(Rendered(oidc.grantTypes, r.grant)))
            || Reports(d, resource, "application_type", Shown(Web, r.appType), Shown(oidc.appType, r.appType))
            || Reports(d, resource, "auth_method_type",
                       Shown(NoAuth, r.authMethod), Shown(oidc.authMethod, r.authMethod))
            || Reports(d, resource, "post_logout_redirect_uris",
                       List(Rendered(want.postLogoutURIs, AsIs)), List(Rendered(oidc.postLogoutURIs, AsIs)))
            || Reports(d, resource, "version", Shown(Version10, r.version), Shown(oidc.version, r.version))
            || Reports(d, resource, "development_mode", Flag(want.devMode), Flag(oidc.devMode))
            || Reports(d, resource, "access_token_type",
                       Shown(BearerToken, r.tokenType), Shown(oidc.tokenType, r.tokenType))
            || Reports(d, resource, "access_token_role_assertion", Flag(false), Flag(oidc.accessTokenRoles))
            || Reports(d, resource, "id_token_role_assertion", Flag(false), Flag(oidc.idTokenRoles))
            || Reports(d, resource, "id_token_userinfo_assertion", Flag(false), Flag(oidc.idTokenUserinfo))
  {
    FirstDriftSays([], resource, want, oidc, r, d);
    LastDriftSays(FirstDrift([], resource, want, oidc, r), resource, want, oidc, r, d);
    hide Reports, FirstDrift, LastDrift, Rendered, Shown;
  }

  lemma FirstDriftSays(before: seq<Drift>, resource: string, want: Desired, oidc: OIDC, r: Rendering, d: Drift)
    ensures var grants := if want.refreshTokens then [AuthorizationCode, RefreshToken] else [AuthorizationCode];
            d in FirstDrift(before, resource, want, oidc, r) <==>
            || d in before
            || Reports(d, resource, "redirect_uris",
                       List(Rendered(want.redirectURIs, AsIs)), List(Rendered(oidc.redirectURIs, AsIs)))
            || Reports(d, resource, "response_types",
                       List(Rendered([CodeResponse], r.response)), List(Rendered(oidc.responseTypes, r.response)))
            || Reports(d, resource, "grant_types",
                       List(Rendered(grants, r.grant)), List(Rendered(oidc.grantTypes, r.grant)))
            || Reports(d, resource, "application_type", Shown(Web, r.appType), Shown(oidc.appType, r.appType))
            || Reports(d, resource, "auth_method_type",
                       Shown(NoAuth, r.authMethod), Shown(oidc.authMethod, r.authMethod))
            || Reports(d, resource, "post_logout_redirect_uris",
                       List(Rendered(want.postLogoutURIs, AsIs)), List(Rendered(oidc.postLogoutURIs, AsIs)))
  {
    var a := ComparedSet(resource, "redirect_uris", want.redirectURIs, oidc.redirectURIs, AsIs);
    var b := ComparedSet(resource, "response_types", [CodeResponse], oidc.responseTypes, r.response);
    var c := ComparedSet(resource, "grant_types", GrantTypes(want.refreshTokens), oidc.grantTypes, r.grant);
    var e := Compared(resource, "application_type", Shown(Web, r.appType), Shown(oidc.appType, r.appType));
    var f := Compared(resource, "auth_method_type", Shown(NoAuth, r.authMethod), Shown(oidc.authMethod, r.authMethod));
    var g := ComparedSet(resource, "post_logout_redirect_uris", want.postLogoutURIs, oidc.postLogoutURIs, AsIs);
    assert FirstDrift(before, resource, want, oidc, r) == before + a + b + c + e + f + g;
    hide Reports, Compared, FirstDrift, Rendered, Shown;
    InSix(d, before, a, b, c, e, f, g);
    ComparedSays(d, resource, "redirect_uris",
                 List(Rendered(want.redirectURIs, AsIs)), List(Rendered(oidc.redirectURIs, AsIs)));
    ComparedSays(d, resource, "response_types",
                 List(Rendered([CodeResponse], r.response)), List(Rendered(oidc.responseTypes, r.response)));
    ComparedSays(d, resource, "grant_types",
                 List(Rendered(GrantTypes(want.refreshTokens), r.grant)), List(Rendered(oidc.grantTypes, r.grant)));
    ComparedSays(d, resource, "application_type", Shown(Web, r.appType), Shown(oidc.appType, r.appType));
    ComparedSays(d, resource, "auth_method_type", Shown(NoAuth, r.authMethod), Shown(oidc.authMethod, r.authMethod));
    ComparedSays(d, resource, "post_logout_redirect_uris",
                 List(Rendered(want.postLogoutURIs, AsIs)), List(Rendered(oidc.postLogoutURIs, AsIs)));
  }

  lemma LastDriftSays(before: seq<Drift>, resource: string, want: Desired, oidc: OIDC, r: Rendering, d: Drift)
    ensures d in LastDrift(before, resource, want, oidc, r) <==>
            || d in before
            || Reports(d, resource, "version", Shown(Version10, r.version), Shown(oidc.version, r.version))
            || Reports(d, resource, "development_mode", Flag(want.devMode), Flag(oidc.devMode))
            || Reports(d, resource, "access_token_type",
                       Shown(BearerToken, r.tokenType), Shown(oidc.tokenType, r.tokenType))
            || Reports(d, resource, "access_token_role_assertion", Flag(false), Flag(oidc.accessTokenRoles))
            || Reports(d, resource, "id_token_role_assertion", Flag(false), Flag(oidc.idTokenRoles))
            || Reports(d, resource, "id_token_userinfo_assertion", Flag(false), Flag(oidc.idTokenUserinfo))
  {
    var a := Compared(resource, "version", Shown(Version10, r.version), Shown(oidc.version, r.version));
    var b := Compared(resource, "development_mode", Flag(want.devMode), Flag(oidc.devMode));
    var c :=
      Compared(resource, "access_token_type", Shown(BearerToken, r.tokenType), Shown(oidc.tokenType, r.tokenType));
    var e := Compared(resource, "access_token_role_assertion", Flag(false), Flag(oidc.accessTokenRoles));
    var f := Compared(resource, "id_token_role_assertion", Flag(false), Flag(oidc.idTokenRoles));
    var g := Compared(resource, "id_token_userinfo_assertion", Flag(false), Flag(oidc.idTokenUserinfo));
    assert LastDrift(before, resource, want, oidc, r) == before + a + b + c + e + f + g;
    hide Reports, Compared, LastDrift, Shown;
    InSix(d, before, a, b, c, e, f, g);
    ComparedSays(d, resource, "version", Shown(Version10, r.version), Shown(oidc.version, r.version));
    ComparedSays(d, resource, "development_mode", Flag(want.devMode), Flag(oidc.devMode));
    ComparedSays(d, resource, "access_token_type", Shown(BearerToken, r.tokenType), Shown(oidc.tokenType, r.tokenType));
    ComparedSays(d, resource, "access_token_role_assertion", Flag(false), Flag(oidc.accessTokenRoles));
    ComparedSays(d, resource, "id_token_role_assertion", Flag(false), Flag(oidc.idTokenRoles));
    ComparedSays(d, resource, "id_token_userinfo_assertion", Flag(false), Flag(oidc.idTokenUserinfo));
  }

  /** What is reported of an application that is missing or not an OIDC one. */
  lemma OtherwiseSays(before: seq<Drift>, want: Desired, app: App, r: Rendering)
    ensures var resource := "application/" + want.name;
            && VerifiedDrift(before, want, None, r) == before + [Drift(resource, "exists", Flag(true), Flag(false))]
            && (app.kind.ApiApp? ==>
                 VerifiedDrift(before, want, Some(app), r)
                 == before + [Drift(resource, "type", DriftReport.Text("OIDC"), DriftReport.Text("API"))])
            && (app.kind.SamlApp? ==>
                 VerifiedDrift(before, want, Some(app), r)
                 == before + [Drift(resource, "type", DriftReport.Text("OIDC"), DriftReport.Text("SAML"))])
            && (app.kind.UnknownApp? ==>
                 VerifiedDrift(before, want, Some(app), r)
                 == before + [Drift(resource, "type", DriftReport.Text("OIDC"), DriftReport.Text("unknown"))])
  {}
}
