/** Any number of RPCs pass through the interceptor at once: `authorize` on top of
    the interleaved `resolve` protocol. */
module Admission {
  import opened Wrappers
  import opened AuthTypes
  import opened IntrospectionCache
  import opened ResolveProtocol
  import opened ResolveInvariant
  import opened ResolveTheorems
  import opened Policies
  import opened Glob
  import opened Bearer
  import opened Server
  import opened Interceptor

  /** An RPC is waiting for `resolve`, or decided; `at` is the clock at the decision. */
  datatype Progress = Resolving | Decided(decision: Decision, at: Instant)

  datatype Rpc = Rpc(path: string, md: Option<Metadata>, progress: Progress)

  datatype World = World(sys: Sys, rpcs: map<nat, Rpc>)

  /** The server as built by `New`, its hash and the behaviour of its policies. */
  datatype Setup = Setup(e: Enforcer, hash: Token -> Key, env: PolicyEnv)

  function ProtocolOf(u: Setup): ResolveProtocol.Config {
    ResolveProtocol.Config(u.e.limits, u.hash)
  }

  datatype Move =
    | Arrive(c: nat, m: string, md: Option<Metadata>)
    | Inner(a: Action)
    | Decide(c: nat)

  predicate CanMove(u: Setup, w: World, v: Move) {
    match v
    case Arrive(c, _, _) => c !in w.rpcs && c !in w.sys.callers
    case Inner(a) =>
      && Enabled(w.sys, a)
      && (a.Stamp? ==>
           a.c in w.rpcs && w.rpcs[a.c].progress.Resolving?
           && Enter(u.e, w.rpcs[a.c].path, w.rpcs[a.c].md) == Ask(a.token))
    case Decide(c) =>
      c in w.rpcs && w.rpcs[c].progress.Resolving? && c in w.sys.callers && w.sys.callers[c].Returned?
  }

  function Take(u: Setup, w: World, v: Move): World
    requires CanMove(u, w, v)
  {
    match v
    case Arrive(c, m, md) =>
      var progress := match Enter(u.e, m, md)
        case Bypass => Decided(Allowed(None, []), w.sys.now)
        case Refuse(err) => Decided(Denied(err, []), w.sys.now)
        case Ask(_) => Resolving;
      w.(rpcs := w.rpcs[c := Rpc(m, md, progress)])
    case Inner(a) => w.(sys := Apply(ProtocolOf(u), w.sys, a))
    case Decide(c) =>
      var o := w.sys.callers[c].outcome;
      var d := Conclude(u.e, w.rpcs[c].path, o.claims, o.err, w.sys.now, u.env);
      w.(rpcs := w.rpcs[c := w.rpcs[c].(progress := Decided(d, w.sys.now))])
  }

  function Play(u: Setup, start: Instant, moves: seq<Move>): Option<World> {
    if moves == [] then Some(World(Initial(start), map[]))
    else
      var before := Play(u, start, moves[..|moves| - 1]);
      var v := moves[|moves| - 1];
      if before.Some? && CanMove(u, before.value, v) then Some(Take(u, before.value, v)) else None
  }

  /** A decision is what the pipeline says about the call's own metadata and what
      `resolve` returned to this very call. */
  predicate RpcOk(u: Setup, w: World, c: nat)
    requires c in w.rpcs
  {
    var r := w.rpcs[c];
    match Enter(u.e, r.path, r.md)
    case Bypass => r.progress.Decided? && r.progress.decision == Allowed(None, [])
    case Refuse(err) => r.progress.Decided? && r.progress.decision == Denied(err, [])
    case Ask(token) =>
      && (c in w.sys.callers ==> w.sys.callers[c].token == token)
      && (r.progress.Decided? ==>
           && c in w.sys.callers && w.sys.callers[c].Returned?
           && var o := w.sys.callers[c].outcome;
              r.progress.decision == Conclude(u.e, r.path, o.claims, o.err, r.progress.at, u.env))
  }

  ghost predicate WorldOk(u: Setup, w: World) {
    && Inv(ProtocolOf(u), w.sys)
    && (forall c <- w.sys.callers :: c in w.rpcs)
    && (forall c <- w.rpcs :: RpcOk(u, w, c))
  }

  /** What callers may rely on across a protocol step. */
  lemma CallersPersist(u: Setup, s: Sys, a: Action)
    requires Enabled(s, a) && Inv(ProtocolOf(u), s)
    ensures var s' := Apply(ProtocolOf(u), s, a);
            && (forall c <- s.callers ::
                  c in s'.callers && s'.callers[c].token == s.callers[c].token
                  && (s.callers[c].Returned? ==> s'.callers[c] == s.callers[c]))
            && (forall c <- s'.callers :: c in s.callers || (a.Stamp? && c == a.c && s'.callers[c].token == a.token))
  {
    hide Inv;
    OneCallerMoves(ProtocolOf(u), s, a);
    hide Apply;
  }

  lemma RpcPersists(u: Setup, w: World, w': World, c: nat)
    requires c in w.rpcs && RpcOk(u, w, c) && c in w'.rpcs && w'.rpcs[c] == w.rpcs[c]
    requires c in w.sys.callers ==>
               c in w'.sys.callers && w'.sys.callers[c].token == w.sys.callers[c].token
               && (w.sys.callers[c].Returned? ==> w'.sys.callers[c] == w.sys.callers[c])
    requires c in w'.sys.callers && c !in w.sys.callers ==>
               Enter(u.e, w.rpcs[c].path, w.rpcs[c].md) == Ask(w'.sys.callers[c].token)
    ensures RpcOk(u, w', c)
  {}

  lemma InnerKeeps(u: Setup, w: World, a: Action)
    requires WorldOk(u, w) && CanMove(u, w, Inner(a))
    ensures WorldOk(u, w.(sys := Apply(ProtocolOf(u), w.sys, a)))
  {
    hide RpcOk, Inv, Apply, Enter;
    var w' := w.(sys := Apply(ProtocolOf(u), w.sys, a));
    StepKeeps(ProtocolOf(u), w.sys, a);
    CallersPersist(u, w.sys, a);
    forall c | c in w'.rpcs ensures RpcOk(u, w', c) {
      RpcPersists(u, w, w', c);
    }
    forall c | c in w'.sys.callers ensures c in w'.rpcs {}
  }

  lemma ArriveKeeps(u: Setup, w: World, c: nat, m: string, md: Option<Metadata>)
    requires WorldOk(u, w) && CanMove(u, w, Arrive(c, m, md))
    ensures WorldOk(u, Take(u, w, Arrive(c, m, md)))
  {}

  lemma DecideKeeps(u: Setup, w: World, c: nat)
    requires WorldOk(u, w) && CanMove(u, w, Decide(c))
    ensures WorldOk(u, Take(u, w, Decide(c)))
  {}

  lemma {:induction false} PlayKeeps(u: Setup, start: Instant, moves: seq<Move>)
    requires Play(u, start, moves).Some?
    ensures WorldOk(u, Play(u, start, moves).value)
  {
    if moves != [] {
      var w := Play(u, start, moves[..|moves| - 1]).value;
      PlayKeeps(u, start, moves[..|moves| - 1]);
      var v := moves[|moves| - 1];
      hide WorldOk;
      match v
      case Arrive(c, m, md) => ArriveKeeps(u, w, c, m, md);
      case Inner(a) => InnerKeeps(u, w, a);
      case Decide(c) => DecideKeeps(u, w, c);
    }
  }

  /** The introspection behind RPC c satisfies every condition of an admission. */
  predicate Justified(u: Setup, w: World, c: nat)
    requires c in w.rpcs && w.rpcs[c].progress.Decided?
  {
    && c in w.sys.callers && w.sys.callers[c].Returned?
    && var i := Source(w.sys, c);
       && i < |w.sys.log|
       && Admissible(u.e, w.rpcs[c].path, w.sys.log[i].answer.claims, w.sys.log[i].answer.err,
                     w.rpcs[c].progress.at, u.env)
  }

  /** End to end, in every interleaving: a call of a method that is not public is
      admitted iff its header holds a token and the introspection that answered its
      `resolve` (of a token with the same key, fresh when it was looked up) was
      positive and meets every condition; it then proceeds with those very claims
      and all its policies have been run on them. */
  lemma AdmissionIff(u: Setup, start: Instant, moves: seq<Move>, c: nat)
    requires Play(u, start, moves).Some?
    requires var w := Play(u, start, moves).value;
             c in w.rpcs && w.rpcs[c].progress.Decided? && !IsPublic(u.e, w.rpcs[c].path)
    ensures var w := Play(u, start, moves).value;
            var d, m, token := w.rpcs[c].progress.decision, w.rpcs[c].path, FromIncomingMetadata(w.rpcs[c].md);
            && (d.Allowed? <==> token != "" && Justified(u, w, c))
            && (d.Allowed? ==>
                 var i := Source(w.sys, c);
                 && u.hash(w.sys.log[i].token) == u.hash(token)
                 && (CollisionFree(u.hash) ==> w.sys.log[i].token == token)
                 && (JustMade(w.sys, c) || FreshAt(ProtocolOf(u), w.sys, i, CheckedAt(w.sys, c)))
                 && d.claims == Some(w.sys.log[i].answer.claims)
                 && m in u.e.policies
                 && d.calls == Eval(AllOf(u.e.policies[m]), EnvFor(u.env, m, w.sys.log[i].answer.claims), []).calls)
  {
    PlayKeeps(u, start, moves);
    var w := Play(u, start, moves).value;
    hide Play, Conclude, Admissible, Inv, Eval;
    assert RpcOk(u, w, c);
    if FromIncomingMetadata(w.rpcs[c].md) != "" {
      SourceInState(ProtocolOf(u), w.sys, c);
      var o := w.sys.callers[c].outcome;
      AdmittedIff(u.e, w.rpcs[c].path, o.claims, o.err, w.rpcs[c].progress.at, u.env);
    }
  }

  /** With a configuration `New` accepts and reflection not opened up, a method that
      has policies is only ever admitted after all of them were run, and agreed, on
      the claims of an introspection of the caller's token. */
  lemma GuardedMethodsAreGuarded(cfg: Server.Config, u: Setup, start: Instant, moves: seq<Move>, c: nat)
    requires Separated(cfg) && !cfg.allowUnauthenticatedReflection && u.e == Described(cfg)
    requires Play(u, start, moves).Some?
    requires var w := Play(u, start, moves).value;
             c in w.rpcs && w.rpcs[c].progress.Decided? && w.rpcs[c].progress.decision.Allowed?
             && w.rpcs[c].path in cfg.policies
    ensures var w := Play(u, start, moves).value;
            var m := w.rpcs[c].path;
            && FromIncomingMetadata(w.rpcs[c].md) != ""
            && Justified(u, w, c)
            && var claims := w.sys.log[Source(w.sys, c)].answer.claims;
               && Eval(AllOf(cfg.policies[m]), EnvFor(u.env, m, claims), [])
                  == Verdict(None, w.rpcs[c].progress.decision.calls)
  {
    var w := Play(u, start, moves).value;
    var m := w.rpcs[c].path;
    GuardedIsPublicIff(cfg, m);
    AdmissionIff(u, start, moves, c);
    var claims := w.sys.log[Source(w.sys, c)].answer.claims;
    AllAllowsIff(cfg.policies[m], EnvFor(u.env, m, claims), []);
  }

  // ---- the clock and the requests ----

  /** A decision is taken by the clock at that moment, on the result of this very call;
      past the expiry claim it is a denial. */
  lemma DecisionIsNow(u: Setup, w: World, c: nat)
    requires CanMove(u, w, Decide(c))
    ensures var w' := Take(u, w, Decide(c));
            var o := w.sys.callers[c].outcome;
            && w'.sys == w.sys && c in w'.rpcs
            && w'.rpcs[c].progress.Decided? && w'.rpcs[c].progress.at == w.sys.now
            && w'.rpcs[c].progress.decision == Conclude(u.e, w.rpcs[c].path, o.claims, o.err, w.sys.now, u.env)
            && (o.claims.expiration.Some? && o.claims.expiration.value < w.sys.now ==>
                 w'.rpcs[c].progress.decision.Denied?)
  {
    AdmittedIff(u.e, w.rpcs[c].path, w.sys.callers[c].outcome.claims, w.sys.callers[c].outcome.err, w.sys.now, u.env);
    hide Conclude;
  }

  /** A call may arrive at any time, for any method and with any metadata; what is under way
      in `resolve` goes on independently, each waiting call entering it with its own token;
      and a call is decided at any time after that has returned. */
  lemma AnyMoveIsPossible(u: Setup, w: World, c: nat, m: string, md: Option<Metadata>, a: Action)
    ensures CanMove(u, w, Arrive(c, m, md)) <==> c !in w.rpcs && c !in w.sys.callers
    ensures !a.Stamp? ==> (CanMove(u, w, Inner(a)) <==> Enabled(w.sys, a))
    ensures a.Stamp? ==>
              (CanMove(u, w, Inner(a)) <==>
                && a.c !in w.sys.callers && a.c in w.rpcs && w.rpcs[a.c].progress.Resolving?
                && Enter(u.e, w.rpcs[a.c].path, w.rpcs[a.c].md) == Ask(a.token))
    ensures CanMove(u, w, Decide(c)) <==>
              c in w.rpcs && w.rpcs[c].progress.Resolving? && c in w.sys.callers && w.sys.callers[c].Returned?
  {
    hide Enter;
  }

  /** A move records the request of a new call and changes no other request; a decision,
      once taken, stays. */
  lemma RequestsStay(u: Setup, w: World, v: Move)
    requires CanMove(u, w, v)
    ensures var w' := Take(u, w, v);
            && (forall c <- w.rpcs :: c in w'.rpcs && w'.rpcs[c].path == w.rpcs[c].path && w'.rpcs[c].md == w.rpcs[c].md
                                      && (w.rpcs[c].progress.Decided? ==> w'.rpcs[c] == w.rpcs[c]))
            && (forall c <- w'.rpcs :: c in w.rpcs || (v.Arrive? && c == v.c && w'.rpcs[c].path == v.m
                                                       && w'.rpcs[c].md == v.md))
            && (v.Arrive? ==> v.c in w'.rpcs && w'.sys == w.sys)
            && (v.Inner? ==> w'.rpcs == w.rpcs && w'.sys == Apply(ProtocolOf(u), w.sys, v.a))
  {
    hide Conclude, Enter, Apply;
  }

  /** When a call that was sent to `resolve` is decided, in clock time. */
  predicate DecidedInTime(u: Setup, w: World, c: nat)
    requires c in w.rpcs
  {
    w.rpcs[c].progress.Decided? && Enter(u.e, w.rpcs[c].path, w.rpcs[c].md).Ask? ==>
      && c in w.sys.callers && w.sys.callers[c].Returned?
      && w.sys.callers[c].back <= w.rpcs[c].progress.at <= w.sys.now
  }

  /** In every interleaving a call is decided after its `resolve` returned and not in the
      future; so its expiry check is never made by an earlier clock reading. */
  lemma {:induction false} DecisionsAreInTime(u: Setup, start: Instant, moves: seq<Move>)
    requires Play(u, start, moves).Some?
    ensures var w := Play(u, start, moves).value; forall c <- w.rpcs :: DecidedInTime(u, w, c)
  {
    if moves != [] {
      var w, v := Play(u, start, moves[..|moves| - 1]).value, moves[|moves| - 1];
      DecisionsAreInTime(u, start, moves[..|moves| - 1]);
      PlayKeeps(u, start, moves[..|moves| - 1]);
      var w' := Take(u, w, v);
      hide Play;
      forall c | c in w'.rpcs ensures DecidedInTime(u, w', c) {
        InTimePersists(u, w, v, c);
      }
    }
  }

  lemma InTimePersists(u: Setup, w: World, v: Move, c: nat)
    requires CanMove(u, w, v) && WorldOk(u, w) && c in Take(u, w, v).rpcs
    requires forall d <- w.rpcs :: DecidedInTime(u, w, d)
    ensures DecidedInTime(u, Take(u, w, v), c)
  {
    hide Enter, Conclude, Inv, RpcOk, Apply;
    match v
    case Arrive(d, m, md) => ArrivalIsNow(u, w, d, m, md);
    case Inner(a) => ReturnsStay(u, w.sys, a);
    case Decide(d) =>
      if d == c {
        BackIsPast(ProtocolOf(u), w.sys, c);
      }
  }

  lemma ArrivalIsNow(u: Setup, w: World, c: nat, m: string, md: Option<Metadata>)
    requires CanMove(u, w, Arrive(c, m, md))
    ensures var w' := Take(u, w, Arrive(c, m, md));
            && (w'.rpcs[c].progress.Resolving? <==> Enter(u.e, m, md).Ask?)
            && (w'.rpcs[c].progress.Decided? ==> w'.rpcs[c].progress.at == w.sys.now)
  {
    hide Enter;
  }

  lemma ReturnsStay(u: Setup, s: Sys, a: Action)
    requires Enabled(s, a) && Inv(ProtocolOf(u), s)
    ensures var s' := Apply(ProtocolOf(u), s, a);
            && s.now <= s'.now
            && forall c <- s.callers :: s.callers[c].Returned? ==> c in s'.callers && s'.callers[c] == s.callers[c]
  {
    CallersPersist(u, s, a);
    ReadingsAreNow(ProtocolOf(u), s, a);
    hide Inv, Apply, Enabled;
  }

  lemma BackIsPast(cfg: ResolveProtocol.Config, s: Sys, c: nat)
    requires Inv(cfg, s) && c in s.callers && s.callers[c].Returned?
    ensures s.callers[c].back <= s.now
  {
    assert PhaseOk(cfg, s, c);
    hide Inv;
  }

  /** A call of a method that is neither public nor registered is denied in every
      interleaving, with or without a token; without one, as unauthenticated. */
  lemma UnregisteredIsDenied(u: Setup, start: Instant, moves: seq<Move>, c: nat)
    requires Play(u, start, moves).Some?
    requires var w := Play(u, start, moves).value; c in w.rpcs && w.rpcs[c].progress.Decided?
    requires var m := Play(u, start, moves).value.rpcs[c].path;
             && m !in u.e.policies && m !in u.e.publicMethods
             && (u.e.allowUnauthReflect ==>
                  !BeginsWith(m, "/grpc.reflection.v1.") && !BeginsWith(m, "/grpc.reflection.v1alpha."))
    ensures var w := Play(u, start, moves).value;
            && w.rpcs[c].progress.decision.Denied?
            && (FromIncomingMetadata(w.rpcs[c].md) == "" ==>
                 w.rpcs[c].progress.decision.err.status == Some(Unauthenticated))
  {
    PlayKeeps(u, start, moves);
    var w := Play(u, start, moves).value;
    hide Play;
    BypassIff(u.e, w.rpcs[c].path, w.rpcs[c].md);
    assert RpcOk(u, w, c);
    hide Inv, Enter, BeginsWith;
    if c in w.sys.callers && w.sys.callers[c].Returned? {
      var o := w.sys.callers[c].outcome;
      DenialSays(u.e, w.rpcs[c].path, o.claims, o.err, w.rpcs[c].progress.at, u.env);
    }
    hide Conclude;
  }
}
