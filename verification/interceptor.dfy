/** The authorization decision (server/interceptor.go). */
module Interceptor {
  import opened Wrappers
  import opened AuthTypes
  import opened IntrospectionCache
  import opened Policies
  import opened Glob
  import opened Bearer
  import opened Server

  const INTERNAL_MESSAGE := "internal authorization error"

  /** `status.Error`. */
  function StatusError(code: Code, message: string): Error {
    Error(false, false, Some(code), message)
  }

  predicate CallerFacing(code: Code) {
    || code.Unauthenticated? || code.PermissionDenied? || code.InvalidArgument?
    || code.NotFound? || code.FailedPrecondition? || code.ResourceExhausted?
  }

  function ToGRPCStatus(err: Option<Error>): Option<Error> {
    if err.None? then None
    else if err.value.unauthenticated then Some(StatusError(Unauthenticated, err.value.message))
    else if err.value.forbidden then Some(StatusError(PermissionDenied, err.value.message))
    else if err.value.status.Some? && CallerFacing(err.value.status.value) then err
    else Some(StatusError(Internal, INTERNAL_MESSAGE))
  }

  /** Every failure reaches the client as a gRPC status, never as success; only
      caller-facing statuses carry the original text, and translating twice changes
      nothing. */
  lemma StatusesAreSafe(err: Option<Error>)
    ensures ToGRPCStatus(err).None? <==> err.None?
    ensures err.Some? ==> var st := ToGRPCStatus(err).value;
              st.status.Some? && (CallerFacing(st.status.value) || st == StatusError(Internal, INTERNAL_MESSAGE))
    ensures err.Some? && ToGRPCStatus(err).value.message != INTERNAL_MESSAGE ==>
              ToGRPCStatus(err).value.message == err.value.message && CallerFacing(ToGRPCStatus(err).value.status.value)
    ensures err.Some? && err.value.unauthenticated ==>
              ToGRPCStatus(err) == Some(Error(false, false, Some(Unauthenticated), err.value.message))
    ensures err.Some? && !err.value.unauthenticated && err.value.forbidden ==>
              ToGRPCStatus(err) == Some(Error(false, false, Some(PermissionDenied), err.value.message))
    ensures ToGRPCStatus(ToGRPCStatus(err)) == ToGRPCStatus(err)
  {}

  predicate IsReflection(m: string) {
    HasPrefix(m, "/grpc.reflection.v1.") || HasPrefix(m, "/grpc.reflection.v1alpha.")
  }

  predicate IsPublic(e: Enforcer, m: string) {
    m in e.publicMethods || (e.allowUnauthReflect && IsReflection(m))
  }

  /** `audienceMatches`. */
  method MatchAudience(tokenAud: seq<string>, expected: seq<string>) returns (ok: bool)
    ensures ok == AudienceMatches(tokenAud, expected)
  {
    if |tokenAud| == 0 {
      return false;
    }
    for i := 0 to |expected|
      invariant forall k :: 0 <= k < i ==> expected[k] !in tokenAud
    {
      for j := 0 to |tokenAud|
        invariant expected[i] !in tokenAud[..j]
      {
        if tokenAud[j] == expected[i] {
          assert expected[i] in expected && expected[i] in tokenAud;
          return true;
        }
      }
      assert tokenAud[..|tokenAud|] == tokenAud;
    }
    assert expected[..|expected|] == expected;
    return false;
  }

  predicate AudienceMatches(tokenAud: seq<string>, expected: seq<string>) {
    exists w <- expected :: w in tokenAud
  }

  /** What every policy answers, given method, claims, leaf and earlier calls. */
  type PolicyEnv = (string, Claims, nat, seq<nat>) -> Option<Error>

  function EnvFor(env: PolicyEnv, m: string, claims: Claims): Env {
    (id: nat, calls: seq<nat>) => env(m, claims, id, calls)
  }

  /** An allowed call proceeds with claims unless it was public; `calls` are the leaf
      policies that were run. */
  datatype Decision =
    | Allowed(claims: Option<Claims>, calls: seq<nat>)
    | Denied(err: Error, calls: seq<nat>)

  datatype Entrance = Bypass | Refuse(err: Error) | Ask(token: Token)

  /** Up to the call of `resolve`. */
  function Enter(e: Enforcer, m: string, md: Option<Metadata>): Entrance {
    if IsPublic(e, m) then Bypass
    else if FromIncomingMetadata(md) == "" then
      Refuse(StatusError(Unauthenticated, "missing or malformed bearer token"))
    else Ask(FromIncomingMetadata(md))
  }

  /** From the result of `resolve` on; `now` is the clock reading of the expiry check. */
  function Conclude(e: Enforcer, m: string, claims: Claims, err: Option<Error>, now: Instant, env: PolicyEnv)
    : Decision
  {
    if err.Some? then Denied(ToGRPCStatus(err).value, [])
    else if claims.expiration.Some? && now > claims.expiration.value then
      Denied(StatusError(Unauthenticated, "token expired"), [])
    else if e.expectedIssuer != "" && claims.issuer != e.expectedIssuer then
      Denied(StatusError(Unauthenticated, "token issuer not accepted"), [])
    else if |e.expectedAudience| > 0 && !AudienceMatches(claims.audience, e.expectedAudience) then
      Denied(StatusError(Unauthenticated, "token audience not accepted"), [])
    else if m !in e.policies then
      Denied(StatusError(PermissionDenied, "no policy registered for method " + m), [])
    else
      var v := EvalAll(e.policies[m], EnvFor(env, m, claims), []);
      if v.err.Some? then Denied(ToGRPCStatus(v.err).value, v.calls) else Allowed(Some(claims), v.calls)
  }

  /** `authorize` for a call that meets no other call of its token. The clock is read
      at `first` and `second` by the cache and at `third` by the expiry check. */
  method Authorize(e: Enforcer, cache: Cache, hash: Token -> Key, m: string, md: Option<Metadata>,
                   first: Instant, second: Instant, third: Instant, answer: Answer, env: PolicyEnv)
    returns (d: Decision, asked: bool)
    requires cache.limits == e.limits
    modifies cache
    ensures match Enter(e, m, md)
            case Bypass => d == Allowed(None, []) && !asked && cache.State() == old(cache.State())
            case Refuse(err) => d == Denied(err, []) && !asked && cache.State() == old(cache.State())
            case Ask(token) =>
              var r := ResolveAlone(e.limits, old(cache.State()), hash(token), first, second, answer);
              d == Conclude(e, m, r.claims, r.err, third, env) && asked == r.asked && cache.State() == r.store
  {
    if IsPublic(e, m) {
      return Allowed(None, []), false;
    }
    var token := FromIncomingMetadata(md);
    if token == "" {
      return Denied(StatusError(Unauthenticated, "missing or malformed bearer token"), []), false;
    }
    var claims, err;
    claims, err, asked := cache.Resolve(hash(token), first, second, answer);
    if err.Some? {
      return Denied(ToGRPCStatus(err).value, []), asked;
    }
    if claims.expiration.Some? && third > claims.expiration.value {
      return Denied(StatusError(Unauthenticated, "token expired"), []), asked;
    }
    if e.expectedIssuer != "" && claims.issuer != e.expectedIssuer {
      return Denied(StatusError(Unauthenticated, "token issuer not accepted"), []), asked;
    }
    if |e.expectedAudience| > 0 {
      var ok := MatchAudience(claims.audience, e.expectedAudience);
      if !ok {
        return Denied(StatusError(Unauthenticated, "token audience not accepted"), []), asked;
      }
    }
    if m !in e.policies {
      return Denied(StatusError(PermissionDenied, "no policy registered for method " + m), []), asked;
    }
    var v := RunPolicies(e.policies[m], EnvFor(env, m, claims));
    if v.err.Some? {
      return Denied(v.err.value, v.calls), asked;
    }
    return Allowed(Some(claims), v.calls), asked;
  }

  /** The enforcer's own loop over a method's policies does what `All` of them does,
      with the error translated. */
  method RunPolicies(ps: seq<Policy>, env: Env) returns (v: Verdict)
    ensures var all := Eval(AllOf(ps), env, []);
            v == Verdict(ToGRPCStatus(all.err), all.calls)
  {
    var done: seq<nat> := [];
    for i := 0 to |ps|
      invariant EvalAll(ps, env, []) == EvalAll(ps[i..], env, done)
    {
      if ps[i].NilPolicy? {
        continue;
      }
      var r := Eval(ps[i], env, done);
      if r.err.Some? {
        return Verdict(ToGRPCStatus(r.err), r.calls);
      }
      done := r.calls;
    }
    return Verdict(None, done);
  }

  /** The conditions of an admission, each on its own. */
  predicate Admissible(e: Enforcer, m: string, claims: Claims, err: Option<Error>, now: Instant, env: PolicyEnv) {
    && err.None?
    && (claims.expiration.None? || now <= claims.expiration.value)
    && (e.expectedIssuer == "" || claims.issuer == e.expectedIssuer)
    && (e.expectedAudience == [] || exists w :: w in e.expectedAudience && w in claims.audience)
    && m in e.policies
    && (forall i :: 0 <= i < |e.policies[m]| && !e.policies[m][i].NilPolicy? ==>
          Eval(e.policies[m][i], EnvFor(env, m, claims),
               Before(e.policies[m], i, EnvFor(env, m, claims), [])).err.None?)
  }

  /** The order of the checks is irrelevant to whether a call is admitted: it is iff
      every condition holds, and then all its policies were run. */
  lemma AdmittedIff(e: Enforcer, m: string, claims: Claims, err: Option<Error>, now: Instant, env: PolicyEnv)
    ensures var d := Conclude(e, m, claims, err, now, env);
            && (d.Allowed? <==> Admissible(e, m, claims, err, now, env))
            && (d.Allowed? ==>
                 d.claims == Some(claims) && m in e.policies
                 && d.calls == Eval(AllOf(e.policies[m]), EnvFor(env, m, claims), []).calls)
            && (d.Denied? ==> d.err.status.Some?)
  {
    if m in e.policies {
      AllAllowsIff(e.policies[m], EnvFor(env, m, claims), []);
    }
  }

  /** A guarded method of an accepted configuration bypasses authentication exactly
      when it is a reflection method and unauthenticated reflection was switched on. */
  lemma GuardedIsPublicIff(cfg: Server.Config, m: string)
    requires Separated(cfg) && m in cfg.policies
    ensures IsPublic(Described(cfg), m) <==> cfg.allowUnauthenticatedReflection && IsReflection(m)
  {}

  // ---- who bypasses, and what a denial says ----

  /** Only a public method, or a reflection method when that was switched on, proceeds
      without a token; and without a token nothing else does. */
  lemma BypassIff(e: Enforcer, m: string, md: Option<Metadata>)
    ensures var open := m in e.publicMethods
                        || (e.allowUnauthReflect && (BeginsWith(m, "/grpc.reflection.v1.")
                                                     || BeginsWith(m, "/grpc.reflection.v1alpha.")));
            && (IsPublic(e, m) <==> open)
            && (Enter(e, m, md).Bypass? <==> open)
            && (Enter(e, m, md).Refuse? <==> !open && FromIncomingMetadata(md) == "")
            && (Enter(e, m, md).Ask? <==> !open && FromIncomingMetadata(md) != "")
            && (Enter(e, m, md).Ask? ==> Enter(e, m, md).token == FromIncomingMetadata(md))
            && (Enter(e, m, md).Refuse? ==> Enter(e, m, md).err.status == Some(Unauthenticated))
  {
    PrefixIff(m, "/grpc.reflection.v1.");
    PrefixIff(m, "/grpc.reflection.v1alpha.");
    hide FromIncomingMetadata, HasPrefix;
  }

  /** The same in terms of a configuration. */
  lemma ConfiguredBypassIff(cfg: Server.Config, m: string, md: Option<Metadata>)
    ensures Enter(Described(cfg), m, md).Bypass? <==>
              m in cfg.publicMethods
              || (cfg.allowUnauthenticatedReflection && (BeginsWith(m, "/grpc.reflection.v1.")
                                                         || BeginsWith(m, "/grpc.reflection.v1alpha.")))
  {
    BypassIff(Described(cfg), m, md);
    EnforcerCarries(cfg);
    hide Enter, Described;
  }

  /** An error that wraps neither sentinel keeps its status and text if that is one of six
      codes, and is replaced by a bare Internal otherwise. */
  lemma OtherErrorsSay(err: Error)
    requires !err.unauthenticated && !err.forbidden
    ensures var kept := {Some(Unauthenticated), Some(PermissionDenied), Some(InvalidArgument), Some(NotFound),
                         Some(FailedPrecondition), Some(ResourceExhausted)};
            var st := ToGRPCStatus(Some(err));
            && (err.status in kept ==> st == Some(err))
            && (err.status !in kept ==> st == Some(Error(false, false, Some(Internal), "internal authorization error")))
  {}

  /** Which status a call is denied with once `resolve` has returned. */
  lemma DenialSays(e: Enforcer, m: string, claims: Claims, err: Option<Error>, now: Instant, env: PolicyEnv)
    ensures var d := Conclude(e, m, claims, err, now, env);
            var expired := claims.expiration.Some? && claims.expiration.value < now;
            var pinned := && (e.expectedIssuer == "" || e.expectedIssuer == claims.issuer)
                          && (e.expectedAudience == [] || exists w :: w in e.expectedAudience && w in claims.audience);
            && (err.Some? ==> d == Denied(ToGRPCStatus(err).value, []))
            && (err.None? && (expired || !pinned) ==>
                 d.Denied? && d.err.status == Some(Unauthenticated) && d.calls == [])
            && (err.None? && !expired && pinned && m !in e.policies ==>
                 d.Denied? && d.err.status == Some(PermissionDenied) && d.calls == [])
            && (err.None? && !expired && pinned && m in e.policies ==>
                 var v := Eval(AllOf(e.policies[m]), EnvFor(env, m, claims), []);
                 d == if v.err.Some? then Denied(ToGRPCStatus(v.err).value, v.calls)
                      else Allowed(Some(claims), v.calls))
  {
    assert AudienceMatches(claims.audience, e.expectedAudience)
           <==> exists w :: w in e.expectedAudience && w in claims.audience;
    if m in e.policies {
      var leaves := EnvFor(env, m, claims);
      assert Eval(AllOf(e.policies[m]), leaves, []) == EvalAll(e.policies[m], leaves, []);
    }
    hide ToGRPCStatus, AudienceMatches, EvalAll, Eval;
  }

  /** A leaf policy of a method is asked about that method and those claims, and if it
      refuses when its turn comes the call is denied with what it said. */
  lemma RefusingPolicyDenies(e: Enforcer, m: string, claims: Claims, now: Instant, env: PolicyEnv, i: nat, id: nat)
    requires claims.expiration.Some? ==> now <= claims.expiration.value
    requires e.expectedIssuer == "" || e.expectedIssuer == claims.issuer
    requires e.expectedAudience == [] || exists w :: w in e.expectedAudience && w in claims.audience
    requires m in e.policies && i < |e.policies[m]| && e.policies[m][i] == Leaf(id)
    requires var ps, leaves := e.policies[m], EnvFor(env, m, claims);
             EvalAll(ps[..i], leaves, []).err.None? && env(m, claims, id, Before(ps, i, leaves, [])).Some?
    ensures var calls := Before(e.policies[m], i, EnvFor(env, m, claims), []);
            Conclude(e, m, claims, None, now, env)
            == Denied(ToGRPCStatus(env(m, claims, id, calls)).value, calls + [id])
  {
    RefusingLeafDecides(e.policies[m], i, id, EnvFor(env, m, claims), []);
    hide EvalAll, ToGRPCStatus;
  }
}
