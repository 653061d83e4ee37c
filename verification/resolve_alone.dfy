/** The sequential reading of `resolve` is one of the protocol's behaviours: a call
    that meets no other call of its key does to the cache, and returns, what
    `Cache.Resolve` does. */
module ResolveUncontended {
  import opened Wrappers
  import opened AuthTypes
  import opened IntrospectionCache
  import opened ResolveProtocol
  import opened ResolveTheorems

  /** Some sequence of steps leads from s to s'. */
  ghost predicate Reaches(cfg: Config, s: Sys, s': Sys) {
    exists actions :: Steps(cfg, s, actions) == Some(s')
  }

  lemma OneMoreStep(cfg: Config, s: Sys, s': Sys, a: Action)
    requires Reaches(cfg, s, s') && Enabled(s', a)
    ensures Reaches(cfg, s, Apply(cfg, s', a))
  {
    var actions :| Steps(cfg, s, actions) == Some(s');
    assert (actions + [a])[..|actions|] == actions;
    assert Steps(cfg, s, actions + [a]) == Some(Apply(cfg, s', a));
  }

  /** Up to the first lookup. */
  lemma AloneFast(cfg: Config, s: Sys, c: nat, token: Token) returns (s': Sys)
    requires c !in s.callers
    ensures Reaches(cfg, s, s')
    ensures var got := Get(cfg.limits, s.store, cfg.hash(token), s.now);
            && s'.store == got.store && s'.open == s.open && s'.log == s.log && s'.now == s.now
            && s'.flights == s.flights && s'.callers.Keys == s.callers.Keys + {c}
            && (if got.hit.Some?
                then s'.callers[c].Returned?
                     && s'.callers[c].outcome == Outcome(got.hit.value.claims, got.hit.value.err)
                else s'.callers[c] == Missed(token, s.now))
  {
    assert Steps(cfg, s, []) == Some(s);
    var s1 := Apply(cfg, s, Stamp(c, token));
    OneMoreStep(cfg, s, s, Stamp(c, token));
    s' := Apply(cfg, s1, FastGet(c));
    OneMoreStep(cfg, s, s1, FastGet(c));
  }

  /** Opening a flight and looking again, d nanoseconds later. */
  lemma AloneAgain(cfg: Config, s0: Sys, s: Sys, c: nat, d: nat) returns (s': Sys)
    requires Reaches(cfg, s0, s)
    requires c in s.callers && s.callers[c].Missed? && cfg.hash(s.callers[c].token) !in s.open
    ensures Reaches(cfg, s0, s')
    ensures var key, f := cfg.hash(s.callers[c].token), |s.flights|;
            var got := Get(cfg.limits, s.store, key, s.now + d);
            && s'.store == got.store && s'.log == s.log && s'.open == s.open[key := f] && s'.now == s.now + d
            && |s'.flights| == f + 1 && s'.flights[f].token == s.callers[c].token
            && s'.flights[f].leader == c && s'.flights[f].closedAt.None?
            && s'.callers == s.callers[c := Leading(s.callers[c].token, s.callers[c].at, f)]
            && (if got.hit.Some?
                then s'.flights[f].stage.Settled?
                     && s'.flights[f].stage.outcome == Outcome(got.hit.value.claims, got.hit.value.err)
                else s'.flights[f].stage.Calling? && s'.flights[f].stage.start == s.now + d)
  {
    hide Reaches, Get;
    var f := |s.flights|;
    var s1 := DoJoin(cfg, s, c);
    OneMoreStep(cfg, s0, s, Join(c));
    var s2 := s1.(now := s1.now + d);
    OneMoreStep(cfg, s0, s1, Tick(d));
    var s3 := SetStage(s2, f, Restamped(s2.now));
    OneMoreStep(cfg, s0, s2, Restamp(f));
    s' := DoRecheck(cfg, s3, f);
    OneMoreStep(cfg, s0, s3, Recheck(f));
  }

  /** Asking the introspector and keeping what it says. */
  lemma AloneAsk(cfg: Config, s0: Sys, s: Sys, f: nat, answer: Answer) returns (s': Sys)
    requires Reaches(cfg, s0, s) && f < |s.flights| && s.flights[f].stage.Calling?
    ensures Reaches(cfg, s0, s')
    ensures var key, start := cfg.hash(s.flights[f].token), s.flights[f].stage.start;
            && s'.store == Remember(cfg.limits, s.store, key, start, answer)
            && |s'.log| == |s.log| + 1 && s'.log[|s.log|].answer == answer
            && s'.open == s.open && s'.callers == s.callers && s'.now == s.now
            && |s'.flights| == |s.flights|
            && s'.flights[f].stage.Settled? && s'.flights[f].stage.outcome == OutcomeOf(answer)
            && s'.flights[f] == s.flights[f].(stage := s'.flights[f].stage)
  {
    hide Reaches, Put;
    var s1 := DoReply(s, f, answer);
    OneMoreStep(cfg, s0, s, Reply(f, answer));
    s' := DoKeep(cfg, s1, f);
    OneMoreStep(cfg, s0, s1, Keep(f));
  }

  /** The end of a settled flight and the return of its leader, d nanoseconds later. */
  lemma LateClose(cfg: Config, s0: Sys, s: Sys, f: nat, d: nat) returns (s': Sys)
    requires Reaches(cfg, s0, s) && Enabled(s, Close(f))
    requires var c := s.flights[f].leader; c in s.callers && s.callers[c].Leading? && s.callers[c].flight == f
    ensures Reaches(cfg, s0, s')
    ensures var fl, c := s.flights[f], s.flights[f].leader;
            && s'.log == s.log && s'.store == s.store && s'.now == s.now + d
            && s'.open == s.open - {cfg.hash(fl.token)}
            && s'.flights == s.flights[f := fl.(closedAt := Some(s.now + d))]
            && s'.callers == s.callers[c := Returned(s.callers[c].token, s.callers[c].at, fl.stage.outcome,
                                                     Delivered(f), s.now + d)]
  {
    hide Reaches;
    var s1 := s.(now := s.now + d);
    OneMoreStep(cfg, s0, s, Tick(d));
    var s2 := DoClose(cfg, s1, f);
    OneMoreStep(cfg, s0, s1, Close(f));
    s' := DoDeliver(s2, s.flights[f].leader);
    OneMoreStep(cfg, s0, s2, Deliver(s.flights[f].leader));
  }

  /** A call that meets no open flight of its key behaves as `Cache.Resolve`. */
  lemma RunsAlone(cfg: Config, s: Sys, c: nat, token: Token, d: nat, answer: Answer) returns (s': Sys)
    requires c !in s.callers && cfg.hash(token) !in s.open
    ensures Reaches(cfg, s, s')
    ensures var r := ResolveAlone(cfg.limits, s.store, cfg.hash(token), s.now, s.now + d, answer);
            && s'.store == r.store && s'.open == s.open
            && c in s'.callers && s'.callers[c].Returned? && s'.callers[c].outcome == Outcome(r.claims, r.err)
            && |s'.log| == |s.log| + (if r.asked then 1 else 0)
            && (r.asked ==> s'.log[|s.log|].answer == answer)
            && s.now <= s'.now <= s.now + d
            && (forall b :: b in s'.callers ==> b == c || b in s.callers)
  {
    hide Reaches, Get, Remember;
    s' := AloneFast(cfg, s, c, token);
    if s'.callers[c].Missed? {
      var f := |s'.flights|;
      s' := AloneAgain(cfg, s, s', c, d);
      if s'.flights[f].stage.Calling? {
        s' := AloneAsk(cfg, s, s', f, answer);
      }
      s' := LateClose(cfg, s, s', f, 0);
      assert s'.open == s.open;
    }
  }

  /** With caching on, whatever the configuration: a caller that is held up between its
      clock reading and its lookup is handed a cached positive result whose token has
      expired by then, by as much as it was held up. */
  lemma MayReturnPastExpiry(cfg: Config, now: Instant, token: Token, claims: Claims, exp: Instant, late: nat)
    returns (actions: seq<Action>)
    requires !Disabled(cfg.limits) && exp > now
    ensures Exec(cfg, now, actions).Some?
    ensures var s := Exec(cfg, now, actions).value;
            && 1 in s.callers && s.callers[1].Returned? && s.callers[1].token == token && s.callers[1].via.Cached?
            && Source(s, 1) < |s.log| && s.log[Source(s, 1)].answer == Answer(claims, Some(exp), None)
            && s.callers[1].outcome == Outcome(claims, None) && s.callers[1].back == exp + late
  {
    var answer := Answer(claims, Some(exp), None);
    var s0 := Initial(now);
    FreshCacheKeeps(cfg, now, cfg.hash(token), answer);
    hide Get, Remember;
    var s1 := RunsAlone(cfg, s0, 0, token, 0, answer);
    var s4 := LateHit(cfg, s0, s1, 1, token, exp + late - now);
    actions := StepsTo(cfg, now, s4, 1);
    hide *;
  }

  /** The first lookup of a call, taken d nanoseconds after the call read the clock. */
  lemma LateHit(cfg: Config, s0: Sys, s: Sys, c: nat, token: Token, d: nat) returns (s': Sys)
    requires Reaches(cfg, s0, s) && c !in s.callers && Get(cfg.limits, s.store, cfg.hash(token), s.now).hit.Some?
    ensures Reaches(cfg, s0, s')
    ensures var hit := Get(cfg.limits, s.store, cfg.hash(token), s.now).hit.value;
            && c in s'.callers && s'.callers[c].Returned? && s'.callers[c].token == token && s'.callers[c].via.Cached?
            && s'.callers[c].outcome == Outcome(hit.claims, hit.err) && s'.callers[c].back == s.now + d
            && s'.log == s.log
  {
    hide Reaches, Get;
    var s1 := Apply(cfg, s, Stamp(c, token));
    OneMoreStep(cfg, s0, s, Stamp(c, token));
    var s2 := s1.(now := s1.now + d);
    OneMoreStep(cfg, s0, s1, Tick(d));
    s' := DoFastGet(cfg, s2, c);
    OneMoreStep(cfg, s0, s2, FastGet(c));
  }

  /** The steps to a state, and what is known of a result returned in it. */
  lemma StepsTo(cfg: Config, now: Instant, s: Sys, c: nat) returns (actions: seq<Action>)
    requires Reaches(cfg, Initial(now), s) && c in s.callers && s.callers[c].Returned?
    ensures Exec(cfg, now, actions) == Some(s) && Source(s, c) < |s.log|
  {
    actions :| Steps(cfg, Initial(now), actions) == Some(s);
    assert Exec(cfg, now, actions) == Some(s);
    hide *;
    EveryResultWasIntrospected(cfg, now, actions, c);
  }

  /** What a first introspection leaves behind, as the next lookup sees it. */
  lemma FreshCacheKeeps(cfg: Config, now: Instant, key: Key, answer: Answer)
    requires !Disabled(cfg.limits) && answer.err.None? && answer.expiresAt.Some? && answer.expiresAt.value > now
    ensures var r := ResolveAlone(cfg.limits, EMPTY_STORE, key, now, now, answer);
            && r.asked && r.claims == answer.claims && r.err == answer.err
            && var hit := Get(cfg.limits, r.store, key, now).hit;
               hit.Some? && hit.value.claims == answer.claims && hit.value.err == answer.err
  {
    BoundTTLIsMinimum(cfg.limits.ttl, now, answer.expiresAt);
  }

  /** In every configuration, caching or not: a positive result obtained by the caller's
      own flight is handed out however late after the token's expiry the flight ends. */
  lemma MayDeliverPastExpiry(cfg: Config, now: Instant, token: Token, claims: Claims, exp: Instant, late: nat)
    returns (actions: seq<Action>)
    requires exp + late >= now
    ensures Exec(cfg, now, actions).Some?
    ensures var s := Exec(cfg, now, actions).value;
            && 0 in s.callers && s.callers[0].Returned? && s.callers[0].token == token && s.callers[0].via.Delivered?
            && Source(s, 0) < |s.log| && s.log[Source(s, 0)].answer == Answer(claims, Some(exp), None)
            && s.callers[0].outcome == Outcome(claims, None) && s.callers[0].back == exp + late
  {
    var s0 := Initial(now);
    assert Get(cfg.limits, EMPTY_STORE, cfg.hash(token), now).hit.None?;
    hide Remember, Get, Reaches;
    var s := AloneFast(cfg, s0, 0, token);
    s := AloneAgain(cfg, s0, s, 0, 0);
    s := AloneAsk(cfg, s0, s, 0, Answer(claims, Some(exp), None));
    s := LateClose(cfg, s0, s, 0, exp + late - now);
    actions := StepsTo(cfg, now, s, 0);
    hide *;
  }
}
