/** What callers of `resolve` and the identity provider can rely on in every
    interleaving. */
module ResolveTheorems {
  import opened AuthTypes
  import opened IntrospectionCache
  import opened ResolveProtocol
  import opened ResolveInvariant

  // ---- where results come from ----

  /** Introspection i was cached and unexpired at time `at`. */
  predicate FreshAt(cfg: Config, s: Sys, i: nat, at: Instant)
    requires i < |s.log|
  {
    Kept(cfg, s, i) && at <= Expiry(cfg, s, i)
  }

  /** Flight f was still open when the call stamped `at` had begun, and it either
      made introspection i itself or found it cached when it looked again. */
  predicate DeliveredBy(cfg: Config, s: Sys, f: nat, i: nat, key: Key, at: Instant)
    requires f < |s.flights| && i < |s.log|
  {
    var fl := s.flights[f];
    && cfg.hash(fl.token) == key
    && fl.closedAt.Some? && at <= fl.closedAt.value
    && fl.stage.Settled?
    && (if fl.stage.made then s.log[i].flight == f && s.log[i].start == fl.stage.start
        else FreshAt(cfg, s, i, fl.stage.start))
  }

  /** The introspection a returned result is traced back to. */
  function Source(s: Sys, c: nat): nat
    requires c in s.callers && s.callers[c].Returned?
  {
    match s.callers[c].via
    case Cached(src) => src
    case Delivered(f) => if f < |s.flights| && s.flights[f].stage.Settled? then s.flights[f].stage.src else 0
  }

  lemma SourceInState(cfg: Config, s: Sys, c: nat)
    requires Inv(cfg, s) && c in s.callers && s.callers[c].Returned?
    ensures var p, i := s.callers[c], Source(s, c);
            && i < |s.log|
            && LogKey(cfg, s, i) == cfg.hash(p.token)
            && p.outcome == OutcomeOf(s.log[i].answer)
            && match p.via
               case Cached(_) => FreshAt(cfg, s, i, p.at)
               case Delivered(f) => f < |s.flights| && DeliveredBy(cfg, s, f, i, cfg.hash(p.token), p.at)
  {
    hide EntryOk, LogOk, WellFormed;
    assert PhaseOk(cfg, s, c);
    if s.callers[c].via.Delivered? {
      assert FlightOk(cfg, s, s.callers[c].via.flight);
    }
  }

  ghost predicate CollisionFree(hash: Token -> Key) {
    forall a, b :: hash(a) == hash(b) ==> a == b
  }

  /** Every result `resolve` ever returns is exactly what one logged introspection
      with the same key produced, either cached and unexpired at the caller's own
      timestamp or delivered by a flight that was open during the call. When the
      hash has no collisions that introspection was of the very same token. */
  lemma EveryResultWasIntrospected(cfg: Config, start: Instant, actions: seq<Action>, c: nat)
    requires Exec(cfg, start, actions).Some?
    requires var s := Exec(cfg, start, actions).value; c in s.callers && s.callers[c].Returned?
    ensures var s := Exec(cfg, start, actions).value;
            var p, i := s.callers[c], Source(s, c);
            && i < |s.log|
            && LogKey(cfg, s, i) == cfg.hash(p.token)
            && p.outcome == OutcomeOf(s.log[i].answer)
            && (match p.via
                case Cached(_) => FreshAt(cfg, s, i, p.at)
                case Delivered(f) => f < |s.flights| && DeliveredBy(cfg, s, f, i, cfg.hash(p.token), p.at))
            && (CollisionFree(cfg.hash) ==> s.log[i].token == p.token)
  {
    Reachable(cfg, start, actions);
    SourceInState(cfg, Exec(cfg, start, actions).value, c);
  }

  // ---- freshness ----

  /** Where staleness is measured from: the caller's own timestamp on a hit, the
      flight's otherwise. */
  function CheckedAt(s: Sys, c: nat): Instant
    requires c in s.callers && s.callers[c].Returned?
  {
    match s.callers[c].via
    case Cached(_) => s.callers[c].at
    case Delivered(f) =>
      if f < |s.flights| && s.flights[f].stage.Settled? then s.flights[f].stage.start else s.callers[c].at
  }

  /** The result was delivered by a flight that asked the introspector itself. */
  predicate JustMade(s: Sys, c: nat)
    requires c in s.callers && s.callers[c].Returned?
  {
    match s.callers[c].via
    case Cached(_) => false
    case Delivered(f) => f < |s.flights| && s.flights[f].stage.Settled? && s.flights[f].stage.made
  }

  /** Unless its flight had just asked, a returned result was cached, and when it was
      checked it was at most `ttl` old, counted from the start of the introspection; a
      failure that is not about authentication was at most a second old. A positive
      result had passed the token's expiry at that moment if and only if its own flight
      had just asked and the expiry was already over when it did. */
  lemma ResultsAreFresh(cfg: Config, start: Instant, actions: seq<Action>, c: nat)
    requires Exec(cfg, start, actions).Some?
    requires var s := Exec(cfg, start, actions).value; c in s.callers && s.callers[c].Returned?
    ensures var s := Exec(cfg, start, actions).value;
            var i, at := Source(s, c), CheckedAt(s, c);
            && i < |s.log|
            && (JustMade(s, c) ==> at == s.log[i].start)
            && (!JustMade(s, c) ==>
                 && !Disabled(cfg.limits)
                 && at <= s.log[i].start + cfg.limits.ttl
                 && (s.log[i].answer.err.Some? && !s.log[i].answer.err.value.unauthenticated ==>
                      at <= s.log[i].start + SECOND))
            && (s.log[i].answer.err.None? && s.log[i].answer.expiresAt.Some? ==>
                 (at > s.log[i].answer.expiresAt.value
                  <==> JustMade(s, c) && s.log[i].answer.expiresAt.value < s.log[i].start))
  {
    Reachable(cfg, start, actions);
    FreshInState(cfg, Exec(cfg, start, actions).value, c);
  }

  lemma FreshInState(cfg: Config, s: Sys, c: nat)
    requires Inv(cfg, s) && c in s.callers && s.callers[c].Returned?
    ensures var i, at := Source(s, c), CheckedAt(s, c);
            && i < |s.log| && at <= s.callers[c].back
            && (JustMade(s, c) ==> at == s.log[i].start)
            && (!JustMade(s, c) ==>
                 && !Disabled(cfg.limits)
                 && at <= s.log[i].start + cfg.limits.ttl
                 && (s.log[i].answer.err.Some? && !s.log[i].answer.err.value.unauthenticated ==>
                      at <= s.log[i].start + SECOND)
                 && (s.log[i].answer.err.None? && s.log[i].answer.expiresAt.Some? ==>
                      at <= s.log[i].answer.expiresAt.value))
  {
    SourceInState(cfg, s, c);
    CheckedBeforeReturn(cfg, s, c);
    hide Inv;
    var i := Source(s, c);
    LifetimeBounds(cfg.limits, s.log[i].start, s.log[i].answer);
    hide Lifetime;
  }

  lemma CheckedBeforeReturn(cfg: Config, s: Sys, c: nat)
    requires Inv(cfg, s) && c in s.callers && s.callers[c].Returned?
    ensures CheckedAt(s, c) <= s.callers[c].back
  {
    hide EntryOk, LogOk, WellFormed;
    assert PhaseOk(cfg, s, c);
    if s.callers[c].via.Delivered? {
      assert FlightOk(cfg, s, s.callers[c].via.flight);
    }
  }

  /** When `resolve` hands out a positive result past the token's expiry, by the clock at
      its return: exactly when the expiry was over between the check of the result and
      the return, or was over before the introspection that the caller's own flight
      made even began. */
  lemma ServedPastExpiryIff(cfg: Config, start: Instant, actions: seq<Action>, c: nat)
    requires Exec(cfg, start, actions).Some?
    requires var s := Exec(cfg, start, actions).value; c in s.callers && s.callers[c].Returned?
    ensures var s := Exec(cfg, start, actions).value;
            var i := Source(s, c);
            && i < |s.log|
            && (s.log[i].answer.err.None? && s.log[i].answer.expiresAt.Some? ==>
                 var exp := s.log[i].answer.expiresAt.value;
                 (s.callers[c].back > exp
                  <==> CheckedAt(s, c) <= exp < s.callers[c].back || (JustMade(s, c) && exp < s.log[i].start)))
  {
    Reachable(cfg, start, actions);
    FreshInState(cfg, Exec(cfg, start, actions).value, c);
    hide *;
  }

  /** The same for the first lookup, in terms of the state before it: the caller is
      handed a positive result past the token's expiry if and only if the entry is
      unexpired by the caller's own earlier clock reading while the token's expiry is
      over by the clock. The guard of the lookup compares with that reading only. */
  lemma HitPastExpiryIff(cfg: Config, start: Instant, actions: seq<Action>, c: nat)
    requires Exec(cfg, start, actions).Some?
    requires var s := Exec(cfg, start, actions).value;
             Enabled(s, FastGet(c)) && cfg.hash(s.callers[c].token) in s.store.entries
    ensures var s := Exec(cfg, start, actions).value;
            var key := cfg.hash(s.callers[c].token);
            var e, i, p := s.store.entries[key], Origin(s, key), DoFastGet(cfg, s, c).callers[c];
            && i < |s.log| && LogKey(cfg, s, i) == key
            && (s.log[i].answer.err.None? && s.log[i].answer.expiresAt.Some? ==>
                 var ttlEnd, exp := s.log[i].start + cfg.limits.ttl, s.log[i].answer.expiresAt.value;
                 && e.expiresAt == (if ttlEnd <= exp then ttlEnd else exp)
                 && (p.Returned? && p.outcome.err.None? && p.back > exp
                     <==> s.callers[c].at <= e.expiresAt && exp < s.now))
  {
    Reachable(cfg, start, actions);
    var s := Exec(cfg, start, actions).value;
    hide PhaseOk, FlightOk, LogOk, Exec;
    var key := cfg.hash(s.callers[c].token);
    EntrySource(cfg, s, key);
    var i := Origin(s, key);
    assert !Disabled(cfg.limits);
    hide Inv, EntryOk;
    if s.log[i].answer.err.None? && s.log[i].answer.expiresAt.Some? {
      BoundTTLIsMinimum(cfg.limits.ttl, s.log[i].start, s.log[i].answer.expiresAt);
    }
  }

  // ---- at most one introspection per key ----

  /** A flight whose call of the introspector is pending or not yet stored. */
  predicate InFlight(s: Sys, f: nat)
    requires f < |s.flights|
  {
    s.flights[f].stage.Calling? || s.flights[f].stage.Answered?
  }

  /** The caller leads a flight that is not over. */
  predicate LeadsOpen(s: Sys, c: nat)
    requires c in s.callers
  {
    && s.callers[c].Leading? && s.callers[c].flight < |s.flights|
    && s.flights[s.callers[c].flight].closedAt.None?
  }

  /** No two flights of one key are unfinished at the same time, no two callers lead
      unfinished flights of one key, and while a flight is between its missed re-check and its store
      its key is absent, so storing never overwrites an entry. */
  lemma OneFlightPerKey(cfg: Config, start: Instant, actions: seq<Action>)
    requires Exec(cfg, start, actions).Some?
    ensures var s := Exec(cfg, start, actions).value;
            && (forall f, g |
                  0 <= f < |s.flights| && 0 <= g < |s.flights|
                  && s.flights[f].closedAt.None? && s.flights[g].closedAt.None?
                  && cfg.hash(s.flights[f].token) == cfg.hash(s.flights[g].token) :: f == g)
            && (forall c, d |
                  c in s.callers && d in s.callers && LeadsOpen(s, c) && LeadsOpen(s, d)
                  && cfg.hash(s.callers[c].token) == cfg.hash(s.callers[d].token) :: c == d)
            && (forall f :: 0 <= f < |s.flights| && InFlight(s, f) ==>
                  cfg.hash(s.flights[f].token) !in s.store.entries)
  {
    Reachable(cfg, start, actions);
    var s := Exec(cfg, start, actions).value;
    hide PhaseOk, FlightOk, EntryOk, LogOk, WellFormed, StageOk, Exec;
    forall f, g | 0 <= f < |s.flights| && 0 <= g < |s.flights|
        && s.flights[f].closedAt.None? && s.flights[g].closedAt.None?
        && cfg.hash(s.flights[f].token) == cfg.hash(s.flights[g].token)
      ensures f == g
    {
      HoldsItsKey(cfg, s, f);
      HoldsItsKey(cfg, s, g);
    }
    forall c, d | c in s.callers && d in s.callers && LeadsOpen(s, c) && LeadsOpen(s, d)
        && cfg.hash(s.callers[c].token) == cfg.hash(s.callers[d].token)
      ensures c == d
    {
      LeadsItsFlight(cfg, s, c);
      LeadsItsFlight(cfg, s, d);
      HoldsItsKey(cfg, s, s.callers[c].flight);
      HoldsItsKey(cfg, s, s.callers[d].flight);
    }
    forall f | 0 <= f < |s.flights| && InFlight(s, f) ensures cfg.hash(s.flights[f].token) !in s.store.entries {
      KeyAbsent(cfg, s, f);
    }
  }

  lemma KeyAbsent(cfg: Config, s: Sys, f: nat)
    requires f < |s.flights| && FlightOk(cfg, s, f) && InFlight(s, f)
    ensures cfg.hash(s.flights[f].token) !in s.store.entries
  {}

  /** A flight asks the introspector at most once. */
  lemma OneIntrospectionPerFlight(cfg: Config, start: Instant, actions: seq<Action>)
    requires Exec(cfg, start, actions).Some?
    ensures var s := Exec(cfg, start, actions).value;
            forall i, j :: 0 <= i < |s.log| && 0 <= j < |s.log| && s.log[i].flight == s.log[j].flight ==> i == j
  {
    Reachable(cfg, start, actions);
    var s := Exec(cfg, start, actions).value;
    hide PhaseOk, FlightOk, EntryOk, LogOk, WellFormed, Exec;
    forall i, j | 0 <= i < |s.log| && 0 <= j < |s.log| && s.log[i].flight == s.log[j].flight
      ensures i == j
    {
      HasFlight(s, i);
      HasFlight(s, j);
    }
  }

  /** Calls of the introspector for one key follow one another in time. */
  ghost predicate Disjoint(cfg: Config, s: Sys) {
    && (forall i, j :: 0 <= i < j < |s.log| && LogKey(cfg, s, i) == LogKey(cfg, s, j) ==>
          s.log[i].done <= s.log[j].begun)
    && (forall i, f |
          0 <= i < |s.log| && 0 <= f < |s.flights| && s.flights[f].stage.Calling?
          && LogKey(cfg, s, i) == cfg.hash(s.flights[f].token) :: s.log[i].done <= s.flights[f].stage.begun)
  }

  lemma DisjointAfterReply(cfg: Config, s: Sys, f: nat, answer: Answer)
    requires Inv(cfg, s) && Disjoint(cfg, s) && Enabled(s, Reply(f, answer))
    ensures Disjoint(cfg, DoReply(s, f, answer))
  {
    hide PhaseOk, EntryOk, LogOk, WellFormed, StageOk, FlightOk;
    var s' := DoReply(s, f, answer);
    forall i, g | 0 <= i < |s'.log| && 0 <= g < |s'.flights| && s'.flights[g].stage.Calling?
        && LogKey(cfg, s', i) == cfg.hash(s'.flights[g].token)
      ensures s'.log[i].done <= s'.flights[g].stage.begun
    {
      if i < |s.log| {
        assert LogKey(cfg, s, i) == LogKey(cfg, s', i);
      } else {
        HoldsItsKey(cfg, s, f);
        HoldsItsKey(cfg, s, g);
      }
    }
    forall i, j | 0 <= i < j < |s'.log| && LogKey(cfg, s', i) == LogKey(cfg, s', j)
      ensures s'.log[i].done <= s'.log[j].begun
    {
      assert LogKey(cfg, s, i) == LogKey(cfg, s', i);
      if j < |s.log| {
        assert LogKey(cfg, s, j) == LogKey(cfg, s', j);
      }
    }
  }

  lemma DisjointAfterRecheck(cfg: Config, s: Sys, f: nat)
    requires Inv(cfg, s) && Disjoint(cfg, s) && Enabled(s, Recheck(f))
    ensures Disjoint(cfg, DoRecheck(cfg, s, f))
  {
    hide PhaseOk, EntryOk, WellFormed, StageOk, FlightOk, Get;
    var s' := DoRecheck(cfg, s, f);
    forall i, g | 0 <= i < |s'.log| && 0 <= g < |s'.flights| && s'.flights[g].stage.Calling?
        && LogKey(cfg, s', i) == cfg.hash(s'.flights[g].token)
      ensures s'.log[i].done <= s'.flights[g].stage.begun
    {
      assert LogOk(s, i);
      assert LogKey(cfg, s, i) == LogKey(cfg, s', i);
    }
    assert forall i :: 0 <= i < |s.log| ==> LogKey(cfg, s, i) == LogKey(cfg, s', i);
  }

  /** The other steps write no log and begin no introspection. */
  lemma LogIsQuiet(cfg: Config, s: Sys, a: Action)
    requires Enabled(s, a) && !a.Reply? && !a.Recheck?
    ensures var s' := Apply(cfg, s, a);
            && s'.log == s.log
            && forall f | 0 <= f < |s'.flights| && s'.flights[f].stage.Calling? ::
                 f < |s.flights| && s'.flights[f].stage == s.flights[f].stage
                 && s'.flights[f].token == s.flights[f].token
  {
    hide Remember, Get;
  }

  lemma DisjointAfter(cfg: Config, s: Sys, a: Action)
    requires Inv(cfg, s) && Disjoint(cfg, s) && Enabled(s, a)
    ensures Disjoint(cfg, Apply(cfg, s, a))
  {
    if a.Reply? {
      DisjointAfterReply(cfg, s, a.f, a.answer);
    } else if a.Recheck? {
      DisjointAfterRecheck(cfg, s, a.f);
    } else {
      hide Inv, Apply, Enabled;
      LogIsQuiet(cfg, s, a);
      var s' := Apply(cfg, s, a);
      assert forall i :: 0 <= i < |s.log| ==> LogKey(cfg, s, i) == LogKey(cfg, s', i);
    }
  }

  /** Two introspections of one key never overlap: the later one is begun only after
      the earlier one has been answered. */
  lemma {:induction false} IntrospectionsNeverOverlap(cfg: Config, start: Instant, actions: seq<Action>)
    requires Exec(cfg, start, actions).Some?
    ensures Disjoint(cfg, Exec(cfg, start, actions).value)
  {
    if actions != [] {
      IntrospectionsNeverOverlap(cfg, start, actions[..|actions| - 1]);
      Reachable(cfg, start, actions[..|actions| - 1]);
      DisjointAfter(cfg, Exec(cfg, start, actions[..|actions| - 1]).value, actions[|actions| - 1]);
    }
  }
}
