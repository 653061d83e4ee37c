/** Every step of the resolve protocol keeps `Inv`, so every reachable state has it. */
module ResolveInvariant {
  import opened AuthTypes
  import opened IntrospectionCache
  import opened ResolveProtocol

  lemma TickKeeps(cfg: Config, s: Sys, d: nat)
    requires Inv(cfg, s)
    ensures Inv(cfg, s.(now := s.now + d))
  {
    hide PhaseOk, FlightOk, EntryOk, LogOk, WellFormed;
    var s' := s.(now := s.now + d);
    forall c | c in s'.callers ensures PhaseOk(cfg, s', c) {
      PhasePersists(cfg, s, s', c);
    }
    forall f | 0 <= f < |s'.flights| ensures FlightOk(cfg, s', f) {
      FlightPersists(cfg, s, s', f) by { HoldsItsKey(cfg, s, f); }
    }
    forall k | k in s'.store.entries ensures EntryOk(cfg, s', k) {
      EntryPersists(cfg, s, s', k) by { HasOrigin(cfg, s, k); }
    }
    forall i | 0 <= i < |s'.log| ensures LogOk(s', i) {
      LogPersists(s, s', i) by { HasFlight(s, i); }
    }
    assert forall k <- s'.open :: OpenOk(cfg, s, k) && OpenOk(cfg, s', k);
  }

  // ---- what the parts of the invariant say, one fact at a time ----

  lemma LeadsItsFlight(cfg: Config, s: Sys, c: nat)
    requires c in s.callers && PhaseOk(cfg, s, c)
    ensures s.callers[c].Leading? ==>
              s.callers[c].flight < |s.flights| && s.flights[s.callers[c].flight].leader == c
              && s.flights[s.callers[c].flight].token == s.callers[c].token
  {}

  lemma HoldsItsKey(cfg: Config, s: Sys, f: nat)
    requires f < |s.flights| && FlightOk(cfg, s, f)
    ensures var fl, key := s.flights[f], cfg.hash(s.flights[f].token);
            fl.closedAt.None? ==>
              && key in s.open && s.open[key] == f
              && fl.leader in s.callers && s.callers[fl.leader].Leading? && s.callers[fl.leader].flight == f
    ensures s.flights[f].closedAt.Some? ==> s.flights[f].stage.Settled?
    ensures StageOk(cfg, s, f)
  {}

  lemma HasOrigin(cfg: Config, s: Sys, key: Key)
    requires key in s.store.entries && EntryOk(cfg, s, key)
    ensures key in s.origin && s.origin[key] < |s.log|
  {}

  lemma HasFlight(s: Sys, i: nat)
    requires i < |s.log| && LogOk(s, i)
    ensures s.log[i].flight < |s.flights|
    ensures var st := s.flights[s.log[i].flight].stage;
            (st.Answered? && st.src == i) || (st.Settled? && st.made && st.src == i)
  {}

  // ---- steps, decomposed ----

  lemma ShrinkKeeps(cfg: Config, s: Sys, st: Store)
    requires Inv(cfg, s)
    requires forall k <- st.entries :: k in s.store.entries && st.entries[k] == s.store.entries[k]
    requires if Disabled(cfg.limits) then st == EMPTY_STORE else WellFormed(cfg.limits, st)
    ensures Inv(cfg, s.(store := st))
  {
    hide PhaseOk, FlightOk, EntryOk, LogOk, WellFormed;
    var s' := s.(store := st);
    forall c | c in s'.callers ensures PhaseOk(cfg, s', c) {
      PhasePersists(cfg, s, s', c);
    }
    forall f | 0 <= f < |s'.flights| ensures FlightOk(cfg, s', f) {
      FlightPersists(cfg, s, s', f) by { HoldsItsKey(cfg, s, f); }
    }
    forall k | k in s'.store.entries ensures EntryOk(cfg, s', k) {
      EntryPersists(cfg, s, s', k) by { HasOrigin(cfg, s, k); }
    }
    forall i | 0 <= i < |s'.log| ensures LogOk(s', i) {
      LogPersists(s, s', i) by { HasFlight(s, i); }
    }
    assert forall k <- s'.open :: OpenOk(cfg, s, k) && OpenOk(cfg, s', k);
  }

  /** A lookup may only drop an expired entry. */
  lemma LookupKeeps(cfg: Config, s: Sys, key: Key, at: Instant)
    requires Inv(cfg, s)
    ensures var got := Get(cfg.limits, s.store, key, at);
            && Inv(cfg, s.(store := got.store))
            && (got.hit.None? ==> key !in got.store.entries)
            && (got.hit.Some? ==>
                 && got.store == s.store && key in s.store.entries && got.hit.value == s.store.entries[key]
                 && at <= s.store.entries[key].expiresAt && EntryOk(cfg, s, key))
  {
    hide PhaseOk, FlightOk, EntryOk, LogOk, WellFormed;
    var st := Get(cfg.limits, s.store, key, at).store;
    if !Disabled(cfg.limits) {
      GetKeeps(cfg.limits, s.store, key, at);
    }
    ShrinkKeeps(cfg, s, st);
  }

  /** One caller that leads no open flight moves on. */
  lemma CallerKeeps(cfg: Config, s: Sys, c: nat, p: Phase)
    requires Inv(cfg, s)
    requires c in s.callers && s.callers[c].Leading? ==>
               s.callers[c].flight < |s.flights| && s.flights[s.callers[c].flight].closedAt.Some?
    requires var s' := s.(callers := s.callers[c := p]); PhaseOk(cfg, s', c)
    ensures Inv(cfg, s.(callers := s.callers[c := p]))
  {
    hide PhaseOk, FlightOk, EntryOk, LogOk, WellFormed;
    var s' := s.(callers := s.callers[c := p]);
    forall c' | c' in s'.callers ensures PhaseOk(cfg, s', c') {
      if c' != c {
        PhasePersists(cfg, s, s', c');
      }
    }
    forall f | 0 <= f < |s'.flights| ensures FlightOk(cfg, s', f) {
      FlightPersists(cfg, s, s', f) by { HoldsItsKey(cfg, s, f); }
    }
    forall k | k in s'.store.entries ensures EntryOk(cfg, s', k) {
      EntryPersists(cfg, s, s', k) by { HasOrigin(cfg, s, k); }
    }
    forall i | 0 <= i < |s'.log| ensures LogOk(s', i) {
      LogPersists(s, s', i) by { HasFlight(s, i); }
    }
    assert forall k <- s'.open :: OpenOk(cfg, s, k) && OpenOk(cfg, s', k);
  }

  /** An open flight that has logged nothing yet moves to another stage. */
  lemma StageKeeps(cfg: Config, s: Sys, f: nat, stage: Stage, trail: seq<Event>)
    requires Inv(cfg, s) && f < |s.flights| && s.flights[f].closedAt.None?
    requires s.flights[f].stage.Opened? || s.flights[f].stage.Restamped?
    requires StageOk(cfg, SetStage(s.(trail := trail), f, stage), f)
    ensures Inv(cfg, SetStage(s.(trail := trail), f, stage))
  {
    hide PhaseOk, FlightOk, EntryOk, LogOk, WellFormed, StageOk;
    var s' := SetStage(s.(trail := trail), f, stage);
    SetStageKeepsOthers(cfg, s, s', f);
    HoldsItsKey(cfg, s, f);
    FlightMoved(cfg, s, s', f);
    forall i | 0 <= i < |s'.log| ensures LogOk(s', i) {
      LogPersists(s, s', i) by { HasFlight(s, i); }
    }
  }

  /** The parts of the invariant that do not look at the stage of flight f. */
  lemma SetStageKeepsOthers(cfg: Config, s: Sys, s': Sys, f: nat)
    requires Inv(cfg, s) && f < |s.flights| && s.flights[f].closedAt.None?
    requires s'.callers == s.callers && s'.open == s.open && s'.store == s.store && s'.origin == s.origin
    requires |s'.flights| == |s.flights|
    requires s'.flights == s.flights[f := s.flights[f].(stage := s'.flights[f].stage)]
    requires Extends(s, s')
    ensures forall c <- s'.callers :: PhaseOk(cfg, s', c)
    ensures forall g :: 0 <= g < |s'.flights| && g != f ==> FlightOk(cfg, s', g)
    ensures forall k <- s'.open :: OpenOk(cfg, s', k)
    ensures forall k <- s'.store.entries :: EntryOk(cfg, s', k)
  {
    hide PhaseOk, FlightOk, EntryOk, LogOk, WellFormed, StageOk;
    forall c | c in s'.callers ensures PhaseOk(cfg, s', c) {
      PhasePersists(cfg, s, s', c);
    }
    forall g | 0 <= g < |s'.flights| && g != f ensures FlightOk(cfg, s', g) {
      FlightPersists(cfg, s, s', g) by { HoldsItsKey(cfg, s, g); }
    }
    forall k | k in s'.store.entries ensures EntryOk(cfg, s', k) {
      EntryPersists(cfg, s, s', k) by { HasOrigin(cfg, s, k); }
    }
    assert forall k <- s'.open :: OpenOk(cfg, s, k) && OpenOk(cfg, s', k);
  }

  lemma FlightMoved(cfg: Config, s: Sys, s': Sys, f: nat)
    requires f < |s.flights| == |s'.flights| && FlightOk(cfg, s, f) && s.flights[f].closedAt.None?
    requires s'.flights[f] == s.flights[f].(stage := s'.flights[f].stage)
    requires s'.callers == s.callers && s'.open == s.open
    requires StageOk(cfg, s', f)
    ensures FlightOk(cfg, s', f)
  {}

  lemma ReplyKeeps(cfg: Config, s: Sys, f: nat, answer: Answer)
    requires Inv(cfg, s) && Enabled(s, Reply(f, answer))
    ensures Inv(cfg, DoReply(s, f, answer))
  {
    hide PhaseOk, FlightOk, EntryOk, LogOk, WellFormed, StageOk;
    var s' := DoReply(s, f, answer);
    assert FlightOk(cfg, s, f);
    HoldsItsKey(cfg, s, f);
    SetStageKeepsOthers(cfg, s, s', f);
    NewLogOk(cfg, s, f, answer);
    FlightMoved(cfg, s, s', f);
    forall i | 0 <= i < |s.log| ensures LogOk(s', i) {
      LogPersists(s, s', i) by { HasFlight(s, i); }
    }
  }

  lemma NewLogOk(cfg: Config, s: Sys, f: nat, answer: Answer)
    requires Enabled(s, Reply(f, answer)) && FlightOk(cfg, s, f)
    ensures LogOk(DoReply(s, f, answer), |s.log|)
    ensures StageOk(cfg, DoReply(s, f, answer), f)
  {}

  /** The stage change of `Keep`, before the store is touched. */
  lemma SettleKeeps(cfg: Config, s: Sys, f: nat)
    requires Inv(cfg, s) && Enabled(s, Keep(f))
    ensures var st := s.flights[f].stage;
            var s' := SetStage(s, f, Settled(st.start, st.src, OutcomeOf(s.log[st.src].answer), true));
            Inv(cfg, s')
  {
    hide PhaseOk, FlightOk, EntryOk, LogOk, WellFormed, StageOk;
    var st := s.flights[f].stage;
    var s' := SetStage(s, f, Settled(st.start, st.src, OutcomeOf(s.log[st.src].answer), true));
    assert FlightOk(cfg, s, f);
    HoldsItsKey(cfg, s, f);
    SetStageKeepsOthers(cfg, s, s', f);
    SettledOk(cfg, s, f);
    FlightMoved(cfg, s, s', f);
    forall i | 0 <= i < |s.log| ensures LogOk(s', i) {
      if s.log[i].flight == f {
        LogSettles(s, f, i);
      } else {
        LogPersists(s, s', i) by { HasFlight(s, i); }
      }
    }
  }

  lemma SettledOk(cfg: Config, s: Sys, f: nat)
    requires Enabled(s, Keep(f)) && FlightOk(cfg, s, f)
    ensures var st := s.flights[f].stage;
            StageOk(cfg, SetStage(s, f, Settled(st.start, st.src, OutcomeOf(s.log[st.src].answer), true)), f)
  {}

  lemma LogSettles(s: Sys, f: nat, i: nat)
    requires Enabled(s, Keep(f)) && i < |s.log| && s.log[i].flight == f && LogOk(s, i)
    ensures var st := s.flights[f].stage;
            LogOk(SetStage(s, f, Settled(st.start, st.src, OutcomeOf(s.log[st.src].answer), true)), i)
  {}

  /** The key of a settled flight gets a new entry; others may be evicted. */
  lemma EntryKeeps(cfg: Config, s: Sys, s': Sys, f: nat)
    requires Inv(cfg, s) && f < |s.flights| && s.flights[f].closedAt.None? && s.flights[f].stage.Settled?
    requires s' == s.(store := s'.store, origin := s'.origin, trail := s'.trail, filed := s'.filed)
    requires var key := cfg.hash(s.flights[f].token);
             forall k <- s'.store.entries ::
               if k == key then EntryOk(cfg, s', k)
               else
                 && k in s.store.entries && s'.store.entries[k] == s.store.entries[k]
                 && (k in s.origin ==> k in s'.origin && s'.origin[k] == s.origin[k])
    requires !Disabled(cfg.limits) && WellFormed(cfg.limits, s'.store)
    ensures Inv(cfg, s')
  {
    hide PhaseOk, FlightOk, EntryOk, LogOk, WellFormed, StageOk, Disabled;
    forall c | c in s'.callers ensures PhaseOk(cfg, s', c) {
      PhasePersists(cfg, s, s', c);
    }
    HoldsItsKey(cfg, s, f);
    forall g | 0 <= g < |s'.flights| ensures FlightOk(cfg, s', g) {
      HoldsItsKey(cfg, s, g);
      if g == f {
        SettledPersists(cfg, s, s', f);
      } else {
        FlightPersists(cfg, s, s', g);
      }
    }
    forall k | k in s'.store.entries ensures EntryOk(cfg, s', k) {
      if k != cfg.hash(s.flights[f].token) {
        EntryPersists(cfg, s, s', k) by { HasOrigin(cfg, s, k); }
      }
    }
    forall i | 0 <= i < |s'.log| ensures LogOk(s', i) {
      LogPersists(s, s', i) by { HasFlight(s, i); }
    }
    assert forall k <- s'.open :: OpenOk(cfg, s, k) && OpenOk(cfg, s', k);
  }

  /** Storing the result of a settled flight. */
  lemma RememberKeeps(cfg: Config, s: Sys, f: nat, trail: seq<Event>, filed: map<nat, nat>)
    requires Inv(cfg, s) && f < |s.flights| && s.flights[f].closedAt.None?
    requires s.flights[f].stage.Settled? && s.flights[f].stage.made && s.flights[f].stage.src < |s.log|
    requires var st := s.flights[f].stage;
             && s.log[st.src].start == st.start
             && LogKey(cfg, s, st.src) == cfg.hash(s.flights[f].token)
             && cfg.hash(s.flights[f].token) !in s.store.entries
             && Kept(cfg, s, st.src)
    ensures var st, key := s.flights[f].stage, cfg.hash(s.flights[f].token);
            Inv(cfg, s.(store := Remember(cfg.limits, s.store, key, st.start, s.log[st.src].answer),
                        origin := s.origin[key := st.src], trail := trail, filed := filed))
  {
    var st, key := s.flights[f].stage, cfg.hash(s.flights[f].token);
    var e := EntryFor(cfg.limits, st.start, s.log[st.src].answer);
    var s' := s.(store := Remember(cfg.limits, s.store, key, st.start, s.log[st.src].answer),
                 origin := s.origin[key := st.src], trail := trail, filed := filed);
    assert !Disabled(cfg.limits) && WellFormed(cfg.limits, s.store);
    assert s'.store == Put(cfg.limits, s.store, key, e);
    hide Inv, Put, Remember;
    PutKeeps(cfg.limits, s.store, key, e);
    NewEntryOk(cfg, s', key, st.src);
    hide EntryOk, WellFormed, Disabled, EntryFor;
    EntryKeeps(cfg, s, s', f);
  }

  lemma SettledPersists(cfg: Config, s: Sys, s': Sys, f: nat)
    requires f < |s.flights| && FlightOk(cfg, s, f) && s.flights[f].stage.Settled?
    requires s' == s.(store := s'.store, origin := s'.origin, trail := s'.trail, filed := s'.filed)
    ensures FlightOk(cfg, s', f)
  {}

  lemma NewEntryOk(cfg: Config, s: Sys, key: Key, src: nat)
    requires src < |s.log| && LogKey(cfg, s, src) == key && Kept(cfg, s, src)
    requires key in s.store.entries && key in s.origin && s.origin[key] == src
    requires s.store.entries[key] == EntryFor(cfg.limits, s.log[src].start, s.log[src].answer)
    ensures EntryOk(cfg, s, key)
  {}

  lemma KeepKeeps(cfg: Config, s: Sys, f: nat)
    requires Inv(cfg, s) && Enabled(s, Keep(f))
    ensures Inv(cfg, DoKeep(cfg, s, f))
    ensures cfg.hash(s.flights[f].token) !in s.store.entries
  {
    hide PhaseOk, EntryOk, LogOk, WellFormed, Put, FlightOk, Remember;
    var st := s.flights[f].stage;
    var s1 := SetStage(s, f, Settled(st.start, st.src, OutcomeOf(s.log[st.src].answer), true));
    SettleKeeps(cfg, s, f);
    assert FlightOk(cfg, s, f);
    HoldsItsKey(cfg, s, f);
    var s' := DoKeep(cfg, s, f);
    if Lifetime(cfg.limits, st.start, s.log[st.src].answer) > 0 {
      RememberKeeps(cfg, s1, f, s'.trail, s'.filed);
    }
  }

  lemma JoinKeeps(cfg: Config, s: Sys, c: nat)
    requires Inv(cfg, s) && Enabled(s, Join(c))
    ensures Inv(cfg, DoJoin(cfg, s, c))
  {
    hide FlightOk, EntryOk, LogOk, WellFormed;
    var p := s.callers[c];
    var key := cfg.hash(p.token);
    assert PhaseOk(cfg, s, c);
    if key in s.open {
      assert OpenOk(cfg, s, key);
      CallerKeeps(cfg, s, c, Waiting(p.token, p.at, s.open[key]));
    } else {
      LeadKeeps(cfg, s, c);
    }
  }

  lemma LeadKeeps(cfg: Config, s: Sys, c: nat)
    requires Inv(cfg, s) && Enabled(s, Join(c)) && cfg.hash(s.callers[c].token) !in s.open
    ensures Inv(cfg, DoJoin(cfg, s, c))
  {
    hide PhaseOk, FlightOk, EntryOk, LogOk, WellFormed;
    var s' := DoJoin(cfg, s, c);
    var key := cfg.hash(s.callers[c].token);
    forall c' | c' in s'.callers ensures PhaseOk(cfg, s', c') {
      if c' == c {
        NewLeaderOk(cfg, s, c);
      } else {
        PhasePersists(cfg, s, s', c');
      }
    }
    forall f | 0 <= f < |s'.flights| ensures FlightOk(cfg, s', f) {
      if f == |s.flights| {
        NewFlightOk(cfg, s, c);
      } else {
        FlightPersists(cfg, s, s', f) by { HoldsItsKey(cfg, s, f); }
      }
    }
    forall k | k in s'.store.entries ensures EntryOk(cfg, s', k) {
      EntryPersists(cfg, s, s', k) by { HasOrigin(cfg, s, k); }
    }
    forall i | 0 <= i < |s'.log| ensures LogOk(s', i) {
      LogPersists(s, s', i) by { HasFlight(s, i); }
    }
    forall k | k in s'.open ensures OpenOk(cfg, s', k) {
      if k != key { assert OpenOk(cfg, s, k); }
    }
  }

  lemma NewLeaderOk(cfg: Config, s: Sys, c: nat)
    requires Enabled(s, Join(c)) && cfg.hash(s.callers[c].token) !in s.open && PhaseOk(cfg, s, c)
    ensures PhaseOk(cfg, DoJoin(cfg, s, c), c)
  {}

  lemma NewFlightOk(cfg: Config, s: Sys, c: nat)
    requires Enabled(s, Join(c)) && cfg.hash(s.callers[c].token) !in s.open
    ensures FlightOk(cfg, DoJoin(cfg, s, c), |s.flights|)
  {}

  lemma CloseKeeps(cfg: Config, s: Sys, f: nat)
    requires Inv(cfg, s) && Enabled(s, Close(f))
    ensures Inv(cfg, DoClose(cfg, s, f))
  {
    hide PhaseOk, FlightOk, EntryOk, LogOk, WellFormed, StageOk;
    var s' := DoClose(cfg, s, f);
    assert FlightOk(cfg, s, f);
    HoldsItsKey(cfg, s, f);
    forall c | c in s'.callers ensures PhaseOk(cfg, s', c) {
      PhasePersists(cfg, s, s', c);
    }
    forall g | 0 <= g < |s'.flights| ensures FlightOk(cfg, s', g) {
      if g == f {
        ClosedOk(cfg, s, f);
      } else {
        HoldsItsKey(cfg, s, g);
        FlightPersists(cfg, s, s', g);
      }
    }
    forall k | k in s'.store.entries ensures EntryOk(cfg, s', k) {
      EntryPersists(cfg, s, s', k) by { HasOrigin(cfg, s, k); }
    }
    forall i | 0 <= i < |s'.log| ensures LogOk(s', i) {
      LogPersists(s, s', i) by { HasFlight(s, i); }
    }
    forall k | k in s'.open ensures OpenOk(cfg, s', k) {
      assert OpenOk(cfg, s, k);
    }
  }

  lemma ClosedOk(cfg: Config, s: Sys, f: nat)
    requires Enabled(s, Close(f)) && FlightOk(cfg, s, f)
    ensures FlightOk(cfg, DoClose(cfg, s, f), f)
  {}

  lemma FastGetKeeps(cfg: Config, s: Sys, c: nat)
    requires Inv(cfg, s) && Enabled(s, FastGet(c))
    ensures Inv(cfg, DoFastGet(cfg, s, c))
  {
    hide FlightOk, EntryOk, LogOk, WellFormed, Get;
    var p := s.callers[c];
    var key := cfg.hash(p.token);
    var got := Get(cfg.limits, s.store, key, p.at);
    LookupKeeps(cfg, s, key, p.at);
    var s1 := s.(store := got.store);
    assert PhaseOk(cfg, s1, c);
    if got.hit.Some? {
      EntrySource(cfg, s, key);
    }
    CallerKeeps(cfg, s1, c, DoFastGet(cfg, s, c).callers[c]);
  }

  /** A cached entry, said in terms of the introspection it came from. */
  lemma EntrySource(cfg: Config, s: Sys, key: Key)
    requires key in s.store.entries && EntryOk(cfg, s, key)
    ensures var i, e := Origin(s, key), s.store.entries[key];
            && i < |s.log| && LogKey(cfg, s, i) == key && Kept(cfg, s, i)
            && Outcome(e.claims, e.err) == OutcomeOf(s.log[i].answer) && e.expiresAt == Expiry(cfg, s, i)
  {}

  lemma RecheckKeeps(cfg: Config, s: Sys, f: nat)
    requires Inv(cfg, s) && Enabled(s, Recheck(f))
    ensures Inv(cfg, DoRecheck(cfg, s, f))
    ensures DoRecheck(cfg, s, f).flights[f].stage.Calling? ==>
              cfg.hash(s.flights[f].token) !in DoRecheck(cfg, s, f).store.entries
  {
    hide PhaseOk, FlightOk, EntryOk, LogOk, WellFormed, Get;
    var start := s.flights[f].stage.start;
    var key := cfg.hash(s.flights[f].token);
    var got := Get(cfg.limits, s.store, key, start);
    assert FlightOk(cfg, s, f);
    HoldsItsKey(cfg, s, f);
    LookupKeeps(cfg, s, key, start);
    var s1 := s.(store := got.store);
    var s' := DoRecheck(cfg, s, f);
    if got.hit.Some? {
      EntrySource(cfg, s, key);
    }
    StageKeeps(cfg, s1, f, s'.flights[f].stage, s'.trail);
  }

  lemma StampKeeps(cfg: Config, s: Sys, c: nat, token: Token)
    requires Inv(cfg, s) && Enabled(s, Stamp(c, token))
    ensures Inv(cfg, s.(callers := s.callers[c := Stamped(token, s.now)]))
  {
    hide FlightOk, EntryOk, LogOk, WellFormed;
    CallerKeeps(cfg, s, c, Stamped(token, s.now));
  }

  lemma StepKeeps(cfg: Config, s: Sys, a: Action)
    requires Inv(cfg, s) && Enabled(s, a)
    ensures Inv(cfg, Apply(cfg, s, a))
  {
    hide Inv, Get, Remember;
    match a
    case Tick(d) => TickKeeps(cfg, s, d);
    case Stamp(c, token) => StampKeeps(cfg, s, c, token);
    case FastGet(c) => FastGetKeeps(cfg, s, c);
    case Join(c) => JoinKeeps(cfg, s, c);
    case Restamp(f) => RestampKeeps(cfg, s, f);
    case Recheck(f) => RecheckKeeps(cfg, s, f);
    case Reply(f, answer) => ReplyKeeps(cfg, s, f, answer);
    case Keep(f) => KeepKeeps(cfg, s, f);
    case Close(f) => CloseKeeps(cfg, s, f);
    case Deliver(c) => DeliverKeeps(cfg, s, c);
  }

  lemma RestampKeeps(cfg: Config, s: Sys, f: nat)
    requires Inv(cfg, s) && Enabled(s, Restamp(f))
    ensures Inv(cfg, SetStage(s, f, Restamped(s.now)))
  {
    hide PhaseOk, EntryOk, LogOk, WellFormed;
    assert FlightOk(cfg, s, f);
    assert s.(trail := s.trail) == s;
    StageKeeps(cfg, s, f, Restamped(s.now), s.trail);
  }

  lemma DeliverKeeps(cfg: Config, s: Sys, c: nat)
    requires Inv(cfg, s) && Enabled(s, Deliver(c))
    ensures Inv(cfg, DoDeliver(s, c))
  {
    hide EntryOk, LogOk, WellFormed;
    assert PhaseOk(cfg, s, c) && FlightOk(cfg, s, s.callers[c].flight);
    CallerKeeps(cfg, s, c, DoDeliver(s, c).callers[c]);
  }

  lemma {:induction false} Reachable(cfg: Config, start: Instant, actions: seq<Action>)
    requires Exec(cfg, start, actions).Some?
    ensures Inv(cfg, Exec(cfg, start, actions).value)
  {
    if actions != [] {
      Reachable(cfg, start, actions[..|actions| - 1]);
      StepKeeps(cfg, Exec(cfg, start, actions[..|actions| - 1]).value, actions[|actions| - 1]);
    }
  }
}
