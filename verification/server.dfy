/** Building the enforcer from a configuration (server/server.go). */
module Server {
  import opened Wrappers
  import opened AuthTypes
  import opened Policies
  import opened Glob
  import opened IntrospectionCache

  datatype Config = Config(
    requireAuth: bool,
    issuer: string,
    clientID: string,
    clientSecret: string,
    insecure: bool,
    ownIntrospector: bool,
    cacheTTL: Duration,
    cacheMaxEntries: int,
    policies: map<string, seq<Policy>>,
    publicMethods: seq<string>,
    allowUnauthenticatedReflection: bool,
    expectedIssuer: string,
    expectedAudience: seq<string>)

  datatype Enforcer = Enforcer(
    limits: Limits,
    policies: map<string, seq<Policy>>,
    publicMethods: set<string>,
    allowUnauthReflect: bool,
    expectedIssuer: string,
    expectedAudience: seq<string>)

  datatype ConfigError =
    | MissingFields(names: seq<string>)
    | IssuerNotHTTPS
    | IntrospectorUnavailable
    | PublicAndGuarded(methods: seq<string>)

  datatype Mode = PassThrough | Enforcing(enforcer: Enforcer) | Invalid(error: ConfigError)

  function EffectiveMaxEntries(cfg: Config): int {
    if cfg.cacheTTL <= 0 then 0 else if cfg.cacheMaxEntries > 0 then cfg.cacheMaxEntries else 10_000
  }

  /** Why the default introspector cannot be built, before the network is involved. */
  function IntrospectorProblem(cfg: Config): Option<ConfigError> {
    var missing :=
      (if cfg.issuer == "" then ["Issuer"] else [])
      + (if cfg.clientID == "" then ["IntrospectionClientID"] else [])
      + (if cfg.clientSecret == "" then ["IntrospectionClientSecret"] else []);
    if missing != [] then Some(MissingFields(missing))
    else if !cfg.insecure && !HasPrefix(cfg.issuer, "https://") then Some(IssuerNotHTTPS)
    else None
  }

  /** Methods that are both public and guarded, in whatever order the map yields them. */
  method ValidateMethodSets(cfg: Config) returns (overlap: seq<string>)
    ensures forall m :: m in overlap <==> m in cfg.policies && m in cfg.publicMethods
  {
    if |cfg.publicMethods| == 0 || |cfg.policies| == 0 {
      return [];
    }
    var pub: set<string> := {};
    for i := 0 to |cfg.publicMethods|
      invariant forall m :: m in pub <==> m in cfg.publicMethods[..i]
    {
      pub := pub + {cfg.publicMethods[i]};
    }
    overlap := [];
    var left := cfg.policies.Keys;
    while left != {}
      invariant left <= cfg.policies.Keys
      invariant forall m :: m in overlap <==> m in cfg.policies.Keys - left && m in cfg.publicMethods
      decreases |left|
    {
      var m :| m in left;
      left := left - {m};
      if m in pub {
        overlap := overlap + [m];
      }
    }
  }

  /** The enforcer a valid configuration describes. */
  ghost function Described(cfg: Config): Enforcer {
    Enforcer(Limits(cfg.cacheTTL, EffectiveMaxEntries(cfg)), cfg.policies, (set m | m in cfg.publicMethods),
             cfg.allowUnauthenticatedReflection, cfg.expectedIssuer, cfg.expectedAudience)
  }

  ghost predicate Separated(cfg: Config) {
    forall m :: m in cfg.policies ==> m !in cfg.publicMethods
  }

  /** `New`; `reachable` says whether building the default introspector succeeds. */
  method New(cfg: Config, reachable: bool) returns (mode: Mode)
    ensures mode.PassThrough? <==> !cfg.requireAuth
    ensures mode.Enforcing? <==>
              cfg.requireAuth && Separated(cfg)
              && (cfg.ownIntrospector || (IntrospectorProblem(cfg).None? && reachable))
    ensures mode.Enforcing? ==> mode.enforcer == Described(cfg)
    ensures cfg.requireAuth && !cfg.ownIntrospector && IntrospectorProblem(cfg).Some? ==>
              mode == Invalid(IntrospectorProblem(cfg).value)
    ensures cfg.requireAuth && !cfg.ownIntrospector && IntrospectorProblem(cfg).None? && !reachable ==>
              mode == Invalid(IntrospectorUnavailable)
    ensures mode.Invalid? && (cfg.ownIntrospector || (IntrospectorProblem(cfg).None? && reachable)) ==>
              && mode.error.PublicAndGuarded? && mode.error.methods != []
              && forall m :: m in mode.error.methods <==> m in cfg.policies && m in cfg.publicMethods
  {
    if !cfg.requireAuth {
      return PassThrough;
    }
    if !cfg.ownIntrospector {
      var problem := IntrospectorProblem(cfg);
      if problem.Some? {
        return Invalid(problem.value);
      }
      if !reachable {
        return Invalid(IntrospectorUnavailable);
      }
    }
    var overlap := ValidateMethodSets(cfg);
    if overlap != [] {
      assert overlap[0] in overlap;
      return Invalid(PublicAndGuarded(overlap));
    }
    var pub: set<string> := {};
    for i := 0 to |cfg.publicMethods|
      invariant pub == set m | m in cfg.publicMethods[..i]
    {
      assert cfg.publicMethods[..i + 1] == cfg.publicMethods[..i] + [cfg.publicMethods[i]];
      pub := pub + {cfg.publicMethods[i]};
    }
    assert cfg.publicMethods[..|cfg.publicMethods|] == cfg.publicMethods;
    return Enforcing(Enforcer(Limits(cfg.cacheTTL, EffectiveMaxEntries(cfg)), cfg.policies, pub,
                              cfg.allowUnauthenticatedReflection, cfg.expectedIssuer, cfg.expectedAudience));
  }

  /** Caching is off exactly when the configured TTL is not positive; no value of
      CacheMaxEntries turns it off. */
  lemma CachingOffIff(cfg: Config)
    ensures Disabled(Described(cfg).limits) <==> cfg.cacheTTL <= 0
  {}

  /** A default introspector can be built from a configuration if and only if nothing is
      missing and the issuer is https, or plain http was permitted; what is missing is
      named, and reported before a plain-http issuer is. */
  lemma IntrospectorNeeds(cfg: Config)
    ensures var problem := IntrospectorProblem(cfg);
            var complete := cfg.issuer != "" && cfg.clientID != "" && cfg.clientSecret != "";
            var https := |cfg.issuer| >= 8 && cfg.issuer[..8] == "https://";
            && (problem.None? <==> complete && (cfg.insecure || https))
            && (problem == Some(IssuerNotHTTPS) <==> complete && !cfg.insecure && !https)
            && (!complete ==>
                 && problem.Some? && problem.value.MissingFields?
                 && ("Issuer" in problem.value.names <==> cfg.issuer == "")
                 && ("IntrospectionClientID" in problem.value.names <==> cfg.clientID == "")
                 && ("IntrospectionClientSecret" in problem.value.names <==> cfg.clientSecret == ""))
  {
    var id, secret, issuer := "IntrospectionClientID", "IntrospectionClientSecret", "Issuer";
    assert |id| != |secret| && |id| != |issuer| && |secret| != |issuer|;
  }

  /** The size and the lifetime a cache is built with. */
  lemma CacheSizeIs(cfg: Config)
    ensures var l := Described(cfg).limits;
            && l.ttl == cfg.cacheTTL
            && (cfg.cacheTTL > 0 && cfg.cacheMaxEntries > 0 ==> l.maxSize == cfg.cacheMaxEntries)
            && (cfg.cacheTTL > 0 && cfg.cacheMaxEntries <= 0 ==> l.maxSize == 10_000)
            && (cfg.cacheTTL <= 0 ==> l.maxSize == 0)
  {}

  /** Everything else is passed on as it is. */
  lemma EnforcerCarries(cfg: Config)
    ensures var e := Described(cfg);
            && e.policies == cfg.policies
            && (forall m :: m in e.publicMethods <==> m in cfg.publicMethods)
            && e.allowUnauthReflect == cfg.allowUnauthenticatedReflection
            && e.expectedIssuer == cfg.expectedIssuer && e.expectedAudience == cfg.expectedAudience
  {}
}
