/** How often the identity provider is asked: a cached result keeps its key off
    the network until it expires or is evicted. */
module ResolveSpacing {
  import opened AuthTypes
  import opened IntrospectionCache
  import opened ResolveProtocol
  import opened ResolveInvariant
  import opened ResolveTheorems

  /** The key was not evicted for capacity in trail[i..j]. */
  ghost predicate NotEvicted(trail: seq<Event>, key: Key, i: int, j: int)
    requires 0 <= i <= j <= |trail|
  {
    forall n :: i <= n < j ==> trail[n] != Evicted(key)
  }

  /** A stored result that was never evicted is still cached or has expired. */
  ghost predicate StillKnown(s: Sys, i: int)
    requires 0 <= i < |s.trail| && s.trail[i].Stored?
  {
    var key, until := s.trail[i].key, s.trail[i].until;
    NotEvicted(s.trail, key, i, |s.trail|) ==>
      s.now > until || (key in s.store.entries && s.store.entries[key].expiresAt == until)
  }

  /** The introspection begun at trail[j] was begun after the result stored at
      trail[i] had expired, unless that was evicted in between. */
  ghost predicate SpacedPair(trail: seq<Event>, i: int, j: int)
    requires 0 <= i < j < |trail|
  {
    trail[i].Stored? && trail[j].Began? && trail[i].key == trail[j].key
    && NotEvicted(trail, trail[i].key, i, j) ==>
      trail[j].at > trail[i].until
  }

  ghost predicate Spaced(s: Sys) {
    && (forall i :: 0 <= i < |s.trail| && s.trail[i].Stored? ==> StillKnown(s, i))
    && (forall i, j :: 0 <= i < j < |s.trail| ==> SpacedPair(s.trail, i, j))
  }

  lemma PairPersists(trail: seq<Event>, trail': seq<Event>, i: int, j: int)
    requires 0 <= i < j < |trail| <= |trail'| && trail == trail'[..|trail|]
    requires SpacedPair(trail, i, j)
    ensures SpacedPair(trail', i, j)
  {}

  /** Steps that write nothing to the trail and at most expire entries. */
  lemma QuietStep(s: Sys, s': Sys)
    requires Spaced(s) && s'.trail == s.trail && s.now <= s'.now
    requires forall k <- s.store.entries ::
               (k in s'.store.entries && s'.store.entries[k] == s.store.entries[k])
               || s'.now > s.store.entries[k].expiresAt
    ensures Spaced(s')
  {}

  lemma LookupExpires(l: Limits, st: Store, key: Key, at: Instant)
    ensures var got := Get(l, st, key, at);
            forall k <- st.entries ::
              (k in got.store.entries && got.store.entries[k] == st.entries[k]) || at > st.entries[k].expiresAt
  {}

  /** A missed re-check: the introspector is asked for a key that is not cached. */
  lemma BeginStep(s: Sys, s': Sys, key: Key)
    requires Spaced(s) && key !in s.store.entries
    requires s'.trail == s.trail + [Began(key, s.now)] && s'.now == s.now && s'.store == s.store
    ensures Spaced(s')
  {
    var n := |s.trail|;
    assert s.trail == s'.trail[..n];
    forall i, j | 0 <= i < j < |s'.trail| ensures SpacedPair(s'.trail, i, j) {
      if j < n {
        PairPersists(s.trail, s'.trail, i, j);
      } else if s'.trail[i].Stored? && s'.trail[i].key == key && NotEvicted(s'.trail, key, i, j) {
        assert s'.trail[i] == s.trail[i];
        assert NotEvicted(s.trail, key, i, n);
        assert StillKnown(s, i);
      }
    }
    forall i | 0 <= i < |s'.trail| && s'.trail[i].Stored? ensures StillKnown(s', i) {
      assert s'.trail[i] == s.trail[i] && StillKnown(s, i);
      if NotEvicted(s'.trail, s'.trail[i].key, i, |s'.trail|) {
        assert forall m :: 0 <= m < n ==> s.trail[m] == s'.trail[m];
        assert NotEvicted(s.trail, s.trail[i].key, i, n);
      }
    }
  }

  /** Capacity pushes `victim` out. */
  lemma EvictStep(s: Sys, s': Sys, victim: Key)
    requires Spaced(s) && s'.now == s.now
    requires s'.trail == s.trail + [Evicted(victim)]
    requires s'.store.entries == s.store.entries - {victim}
    ensures Spaced(s')
  {
    var n := |s.trail|;
    assert s.trail == s'.trail[..n];
    forall i, j | 0 <= i < j < |s'.trail| ensures SpacedPair(s'.trail, i, j) {
      if j < n {
        PairPersists(s.trail, s'.trail, i, j);
      }
    }
    forall i | 0 <= i < |s'.trail| && s'.trail[i].Stored? ensures StillKnown(s', i) {
      assert s'.trail[i] == s.trail[i] && StillKnown(s, i);
      if NotEvicted(s'.trail, s'.trail[i].key, i, |s'.trail|) {
        assert s'.trail[n] == Evicted(victim);
        assert forall m :: 0 <= m < n ==> s.trail[m] == s'.trail[m];
        assert NotEvicted(s.trail, s.trail[i].key, i, n);
      }
    }
  }

  /** A result is stored under a key that was absent. */
  lemma StoreStep(s: Sys, s': Sys, key: Key, e: Entry)
    requires Spaced(s) && key !in s.store.entries && s'.now == s.now
    requires s'.trail == s.trail + [Stored(key, e.expiresAt)]
    requires s'.store.entries == s.store.entries[key := e]
    ensures Spaced(s')
  {
    var n := |s.trail|;
    assert s.trail == s'.trail[..n];
    forall i, j | 0 <= i < j < |s'.trail| ensures SpacedPair(s'.trail, i, j) {
      if j < n {
        PairPersists(s.trail, s'.trail, i, j);
      }
    }
    forall i | 0 <= i < |s'.trail| && s'.trail[i].Stored? ensures StillKnown(s', i) {
      if i < n {
        assert s'.trail[i] == s.trail[i] && StillKnown(s, i);
        if NotEvicted(s'.trail, s'.trail[i].key, i, |s'.trail|) {
          assert forall m :: 0 <= m < n ==> s.trail[m] == s'.trail[m];
          assert NotEvicted(s.trail, s.trail[i].key, i, n);
        }
      }
    }
  }

  /** What keeping does to the store and the trail. */
  lemma KeepIs(cfg: Config, s: Sys, f: nat)
    requires Inv(cfg, s) && Enabled(s, Keep(f))
    ensures var st, key := s.flights[f].stage, cfg.hash(s.flights[f].token);
            var answer, s' := s.log[st.src].answer, DoKeep(cfg, s, f);
            && key !in s.store.entries && s'.now == s.now
            && if Lifetime(cfg.limits, st.start, answer) <= 0 then s'.trail == s.trail && s'.store == s.store
               else
                 var e := EntryFor(cfg.limits, st.start, answer);
                 if Full(cfg.limits, s.store, key) then
                   && FirstLive(s.store) < |s.store.order|
                   && s'.trail == (s.trail + [Evicted(Victim(s.store))]) + [Stored(key, e.expiresAt)]
                   && s'.store.entries == (s.store.entries - {Victim(s.store)})[key := e]
                 else
                   && s'.trail == s.trail + [Stored(key, e.expiresAt)]
                   && s'.store.entries == s.store.entries[key := e]
  {
    hide PhaseOk, FlightOk, EntryOk, LogOk, StageOk, WellFormed, Put;
    var st, key := s.flights[f].stage, cfg.hash(s.flights[f].token);
    var answer := s.log[st.src].answer;
    KeyAbsent(cfg, s, f);
    if Lifetime(cfg.limits, st.start, answer) > 0 {
      assert !Disabled(cfg.limits);
      PutKeeps(cfg.limits, s.store, key, EntryFor(cfg.limits, st.start, answer));
    }
  }

  lemma KeepSpaced(cfg: Config, s: Sys, f: nat)
    requires Inv(cfg, s) && Spaced(s) && Enabled(s, Keep(f))
    ensures Spaced(DoKeep(cfg, s, f))
  {
    KeepIs(cfg, s, f);
    var st, key := s.flights[f].stage, cfg.hash(s.flights[f].token);
    var answer, s' := s.log[st.src].answer, DoKeep(cfg, s, f);
    hide *;
    if Lifetime(cfg.limits, st.start, answer) > 0 {
      var e := EntryFor(cfg.limits, st.start, answer);
      if Full(cfg.limits, s.store, key) {
        var v := Victim(s.store);
        var s1 := s.(store := Store(s.store.entries - {v}, s.store.order), trail := s.trail + [Evicted(v)]);
        EvictStep(s, s1, v);
        StoreStep(s1, s', key, e);
      } else {
        StoreStep(s, s', key, e);
      }
    } else {
      QuietStep(s, s');
    }
  }

  lemma RecheckSpaced(cfg: Config, s: Sys, f: nat)
    requires Inv(cfg, s) && Spaced(s) && Enabled(s, Recheck(f))
    ensures Spaced(DoRecheck(cfg, s, f))
  {
    hide PhaseOk, EntryOk, LogOk, WellFormed, Spaced, Get;
    assert FlightOk(cfg, s, f);
    var start, key := s.flights[f].stage.start, cfg.hash(s.flights[f].token);
    var got := Get(cfg.limits, s.store, key, start);
    LookupExpires(cfg.limits, s.store, key, start);
    LookupKeeps(cfg, s, key, start);
    var s1 := s.(store := got.store);
    QuietStep(s, s1);
    var s' := DoRecheck(cfg, s, f);
    if got.hit.Some? {
      QuietStep(s1, s');
    } else {
      BeginStep(s1, s', key);
    }
  }

  lemma FastGetSpaced(cfg: Config, s: Sys, c: nat)
    requires Inv(cfg, s) && Spaced(s) && Enabled(s, FastGet(c))
    ensures Spaced(DoFastGet(cfg, s, c))
  {}

  lemma SpacedAfter(cfg: Config, s: Sys, a: Action)
    requires Inv(cfg, s) && Spaced(s) && Enabled(s, a)
    ensures Spaced(Apply(cfg, s, a))
  {
    hide PhaseOk, FlightOk, EntryOk, LogOk, WellFormed, Spaced;
    match a
    case FastGet(c) => FastGetSpaced(cfg, s, c);
    case Recheck(f) => RecheckSpaced(cfg, s, f);
    case Keep(f) => KeepSpaced(cfg, s, f);
    case _ => QuietStep(s, Apply(cfg, s, a));
  }

  lemma {:induction false} TrailIsSpaced(cfg: Config, start: Instant, actions: seq<Action>)
    requires Exec(cfg, start, actions).Some?
    ensures Spaced(Exec(cfg, start, actions).value)
  {
    if actions != [] {
      TrailIsSpaced(cfg, start, actions[..|actions| - 1]);
      Reachable(cfg, start, actions[..|actions| - 1]);
      SpacedAfter(cfg, Exec(cfg, start, actions[..|actions| - 1]).value, actions[|actions| - 1]);
    }
  }

  // The trail holds what the log says, in the right order.

  /** The trail has the beginning of introspection i. */
  predicate Marked(cfg: Config, s: Sys, i: nat)
    requires i < |s.log|
  {
    s.log[i].mark < |s.trail| && s.trail[s.log[i].mark] == Began(LogKey(cfg, s, i), s.log[i].begun)
  }

  /** The trail has the storing of introspection i, before position `limit`. */
  predicate Filed(cfg: Config, s: Sys, i: nat, limit: int)
    requires i < |s.log|
  {
    i in s.filed && s.filed[i] < limit && s.filed[i] < |s.trail|
    && s.trail[s.filed[i]] == Stored(LogKey(cfg, s, i), Expiry(cfg, s, i))
  }

  predicate CallMarked(cfg: Config, s: Sys, f: nat)
    requires f < |s.flights|
  {
    var st := s.flights[f].stage;
    st.Calling? ==> st.mark < |s.trail| && s.trail[st.mark] == Began(cfg.hash(s.flights[f].token), st.begun)
  }

  /** What was stored for the key of a calling flight was filed before its call. */
  predicate FiledBeforeCall(cfg: Config, s: Sys, i: nat, f: nat)
    requires i < |s.log| && f < |s.flights|
  {
    var st := s.flights[f].stage;
    st.Calling? && Kept(cfg, s, i) && LogKey(cfg, s, i) == cfg.hash(s.flights[f].token) ==> Filed(cfg, s, i, st.mark)
  }

  predicate FiledOnceSettled(cfg: Config, s: Sys, i: nat)
    requires i < |s.log|
  {
    Kept(cfg, s, i) && s.log[i].flight < |s.flights| && s.flights[s.log[i].flight].stage.Settled? ==>
      Filed(cfg, s, i, |s.trail|)
  }

  predicate FiledInOrder(cfg: Config, s: Sys, i: nat, j: nat)
    requires i < |s.log| && j < |s.log|
  {
    i < j && Kept(cfg, s, i) && LogKey(cfg, s, i) == LogKey(cfg, s, j) ==> Filed(cfg, s, i, s.log[j].mark)
  }

  /** Nothing is filed before its flight is settled. */
  predicate SettledIfFiled(s: Sys, i: nat) {
    i in s.filed ==>
      i < |s.log| && s.log[i].flight < |s.flights| && s.flights[s.log[i].flight].stage.Settled?
  }

  ghost predicate Indexed(cfg: Config, s: Sys) {
    && (forall i: nat :: SettledIfFiled(s, i))
    && (forall i :: 0 <= i < |s.log| ==> Marked(cfg, s, i))
    && (forall f :: 0 <= f < |s.flights| ==> CallMarked(cfg, s, f))
    && (forall i, f :: 0 <= i < |s.log| && 0 <= f < |s.flights| ==> FiledBeforeCall(cfg, s, i, f))
    && (forall i :: 0 <= i < |s.log| ==> FiledOnceSettled(cfg, s, i))
    && (forall i, j :: 0 <= i < |s.log| && 0 <= j < |s.log| ==> FiledInOrder(cfg, s, i, j))
  }

  /** The records only grow. */
  ghost predicate Appends(s: Sys, s': Sys) {
    && s.log <= s'.log && s.trail <= s'.trail
    && (forall i <- s.filed :: i in s'.filed && s'.filed[i] == s.filed[i])
  }

  lemma MarkedPersists(cfg: Config, s: Sys, s': Sys, i: nat)
    requires i < |s.log| && Appends(s, s') && Marked(cfg, s, i)
    ensures Marked(cfg, s', i)
  {}

  lemma CallMarkedPersists(cfg: Config, s: Sys, s': Sys, f: nat)
    requires f < |s.flights| && f < |s'.flights| && Appends(s, s') && CallMarked(cfg, s, f)
    requires s'.flights[f].token == s.flights[f].token && s'.flights[f].stage == s.flights[f].stage
    ensures CallMarked(cfg, s', f)
  {}

  lemma FiledBeforeCallPersists(cfg: Config, s: Sys, s': Sys, i: nat, f: nat)
    requires i < |s.log| && f < |s.flights| && f < |s'.flights| && Appends(s, s') && FiledBeforeCall(cfg, s, i, f)
    requires s'.flights[f].token == s.flights[f].token && s'.flights[f].stage == s.flights[f].stage
    ensures FiledBeforeCall(cfg, s', i, f)
  {}

  lemma FiledOnceSettledPersists(cfg: Config, s: Sys, s': Sys, i: nat)
    requires i < |s.log| && Appends(s, s') && FiledOnceSettled(cfg, s, i)
    requires var f := s.log[i].flight;
             f < |s'.flights| && s'.flights[f].stage.Settled? ==> f < |s.flights| && s.flights[f].stage.Settled?
    ensures FiledOnceSettled(cfg, s', i)
  {}

  lemma FiledInOrderPersists(cfg: Config, s: Sys, s': Sys, i: nat, j: nat)
    requires i < |s.log| && j < |s.log| && Appends(s, s') && FiledInOrder(cfg, s, i, j)
    ensures FiledInOrder(cfg, s', i, j)
  {}

  /** Flight f alone changes its stage, or a new flight is opened, or neither. */
  ghost predicate OneMoves(s: Sys, s': Sys, f: nat) {
    && |s.flights| <= |s'.flights|
    && (forall g :: 0 <= g < |s.flights| ==> s'.flights[g].token == s.flights[g].token)
    && (forall g :: 0 <= g < |s.flights| && g != f ==> s'.flights[g].stage == s.flights[g].stage)
    && (forall g :: |s.flights| <= g < |s'.flights| && g != f ==> s'.flights[g].stage.Opened?)
  }

  /** What remains to be shown about the flight that moves, per step. */
  lemma IndexedPersists(cfg: Config, s: Sys, s': Sys, f: nat)
    requires Inv(cfg, s) && Indexed(cfg, s) && Appends(s, s') && OneMoves(s, s', f)
    requires f < |s'.flights| ==> CallMarked(cfg, s', f)
    requires f < |s'.flights| ==> forall i :: 0 <= i < |s.log| ==> FiledBeforeCall(cfg, s', i, f)
    requires forall i :: 0 <= i < |s.log| && s.log[i].flight == f ==> FiledOnceSettled(cfg, s', i)
    ensures forall i :: 0 <= i < |s.log| ==> Marked(cfg, s', i)
    ensures forall g :: 0 <= g < |s'.flights| ==> CallMarked(cfg, s', g)
    ensures forall i, g :: 0 <= i < |s.log| && 0 <= g < |s'.flights| ==> FiledBeforeCall(cfg, s', i, g)
    ensures forall i :: 0 <= i < |s.log| ==> FiledOnceSettled(cfg, s', i)
    ensures forall i, j :: 0 <= i < |s.log| && 0 <= j < |s.log| ==> FiledInOrder(cfg, s', i, j)
  {
    hide Marked, CallMarked, FiledBeforeCall, FiledOnceSettled, FiledInOrder,
      PhaseOk, FlightOk, EntryOk, LogOk, WellFormed;
    forall i | 0 <= i < |s.log| ensures Marked(cfg, s', i) {
      MarkedPersists(cfg, s, s', i);
    }
    forall g | 0 <= g < |s'.flights| ensures CallMarked(cfg, s', g) {
      if g >= |s.flights| {
        if g != f { OpenedIsQuiet(cfg, s', g); }
      } else if g != f {
        CallMarkedPersists(cfg, s, s', g);
      }
    }
    forall i, g | 0 <= i < |s.log| && 0 <= g < |s'.flights| ensures FiledBeforeCall(cfg, s', i, g) {
      if g >= |s.flights| {
        if g != f { OpenedIsQuiet(cfg, s', g); }
      } else if g != f {
        FiledBeforeCallPersists(cfg, s, s', i, g);
      }
    }
    forall i | 0 <= i < |s.log| ensures FiledOnceSettled(cfg, s', i) {
      if s.log[i].flight != f {
        HasFlight(s, i);
        FiledOnceSettledPersists(cfg, s, s', i);
      }
    }
    forall i, j | 0 <= i < |s.log| && 0 <= j < |s.log| ensures FiledInOrder(cfg, s', i, j) {
      FiledInOrderPersists(cfg, s, s', i, j);
    }
  }

  lemma OpenedIsQuiet(cfg: Config, s: Sys, f: nat)
    requires f < |s.flights| && !s.flights[f].stage.Calling?
    ensures CallMarked(cfg, s, f)
    ensures forall i :: 0 <= i < |s.log| ==> FiledBeforeCall(cfg, s, i, f)
  {}

  /** Introspections of a key all belong to closed flights when a new flight of that
      key looks into the cache. */
  lemma OthersAreSettled(cfg: Config, s: Sys, f: nat, i: nat)
    requires Inv(cfg, s) && f < |s.flights| && i < |s.log|
    requires s.flights[f].closedAt.None? && !s.flights[f].stage.Answered? && !s.flights[f].stage.Settled?
    requires LogKey(cfg, s, i) == cfg.hash(s.flights[f].token)
    ensures s.log[i].flight < |s.flights| && s.log[i].flight != f && s.flights[s.log[i].flight].stage.Settled?
  {
    hide PhaseOk, EntryOk, WellFormed, StageOk, FlightOk;
    assert LogOk(s, i);
    HoldsItsKey(cfg, s, s.log[i].flight);
    HoldsItsKey(cfg, s, f);
  }

  lemma NothingLoggedYet(cfg: Config, s: Sys, f: nat)
    requires Inv(cfg, s) && f < |s.flights| && !s.flights[f].stage.Answered? && !s.flights[f].stage.Settled?
    ensures forall i :: 0 <= i < |s.log| ==> s.log[i].flight != f
  {
    hide PhaseOk, FlightOk, EntryOk, LogOk, WellFormed;
    forall i | 0 <= i < |s.log| ensures s.log[i].flight != f {
      HasFlight(s, i);
    }
  }

  lemma RecheckIndexed(cfg: Config, s: Sys, f: nat)
    requires Inv(cfg, s) && Indexed(cfg, s) && Enabled(s, Recheck(f))
    ensures Indexed(cfg, DoRecheck(cfg, s, f))
  {
    hide Marked, FiledInOrder, PhaseOk, EntryOk, LogOk, WellFormed, StageOk, Get, FlightOk;
    var s' := DoRecheck(cfg, s, f);
    HoldsItsKey(cfg, s, f);
    forall i | 0 <= i < |s.log| ensures FiledBeforeCall(cfg, s', i, f) {
      if s'.flights[f].stage.Calling? && LogKey(cfg, s', i) == cfg.hash(s'.flights[f].token) {
        OthersAreSettled(cfg, s, f, i);
        assert FiledOnceSettled(cfg, s, i);
      }
    }
    NothingLoggedYet(cfg, s, f);
    IndexedPersists(cfg, s, s', f);
    forall i: nat ensures SettledIfFiled(s', i) {
      assert SettledIfFiled(s, i);
    }
  }

  lemma ReplyIndexed(cfg: Config, s: Sys, f: nat, answer: Answer)
    requires Inv(cfg, s) && Indexed(cfg, s) && Enabled(s, Reply(f, answer))
    ensures Indexed(cfg, DoReply(s, f, answer))
  {
    hide PhaseOk, EntryOk, LogOk, WellFormed, StageOk, FlightOk, FiledOnceSettled, Kept;
    var s' := DoReply(s, f, answer);
    var n := |s.log|;
    HoldsItsKey(cfg, s, f);
    NothingLoggedYet(cfg, s, f);
    IndexedPersists(cfg, s, s', f);
    NewAnswerIndexed(cfg, s, f, answer);
    forall i, j | 0 <= i < |s'.log| && 0 <= j < |s'.log| ensures FiledInOrder(cfg, s', i, j) {
      if j == n && i < n {
        assert FiledBeforeCall(cfg, s, i, f);
        NewAnswerFiled(cfg, s, f, answer, i);
      }
    }
    forall g | 0 <= g < |s'.flights| ensures FiledBeforeCall(cfg, s', n, g) {
      if s'.flights[g].stage.Calling? {
        HoldsItsKey(cfg, s, g);
      }
    }
    forall i: nat ensures SettledIfFiled(s', i) {
      assert SettledIfFiled(s, i);
      if i < |s.log| { HasFlight(s, i); }
    }
  }

  lemma NewAnswerIndexed(cfg: Config, s: Sys, f: nat, answer: Answer)
    requires Enabled(s, Reply(f, answer)) && CallMarked(cfg, s, f)
    ensures Marked(cfg, DoReply(s, f, answer), |s.log|)
    ensures FiledOnceSettled(cfg, DoReply(s, f, answer), |s.log|)
  {}

  lemma NewAnswerFiled(cfg: Config, s: Sys, f: nat, answer: Answer, i: nat)
    requires Enabled(s, Reply(f, answer)) && i < |s.log| && FiledBeforeCall(cfg, s, i, f)
    ensures FiledInOrder(cfg, DoReply(s, f, answer), i, |s.log|)
  {}

  /** `Keep` files its own introspection, if it stores it, at the end of the trail. */
  lemma KeepFiles(cfg: Config, s: Sys, f: nat)
    requires Enabled(s, Keep(f)) && FlightOk(cfg, s, f) && SettledIfFiled(s, s.flights[f].stage.src)
    ensures var s' := DoKeep(cfg, s, f);
            && s'.log == s.log && |s'.flights| == |s.flights|
            && Appends(s, s') && OneMoves(s, s', f) && s'.flights[f].stage.Settled?
            && FiledOnceSettled(cfg, s', s.flights[f].stage.src)
            && (forall i: nat :: i in s'.filed && i !in s.filed ==> i == s.flights[f].stage.src)
  {}

  lemma KeepIndexed(cfg: Config, s: Sys, f: nat)
    requires Inv(cfg, s) && Indexed(cfg, s) && Enabled(s, Keep(f))
    ensures Indexed(cfg, DoKeep(cfg, s, f))
  {
    hide PhaseOk, EntryOk, LogOk, WellFormed, FlightOk, FiledInOrder, Marked, StageOk, DoKeep,
      FiledOnceSettled, FiledBeforeCall, CallMarked;
    var s' := DoKeep(cfg, s, f);
    var src := s.flights[f].stage.src;
    KeepFiles(cfg, s, f);
    OpenedIsQuiet(cfg, s', f);
    forall i | 0 <= i < |s.log| && s.log[i].flight == f ensures FiledOnceSettled(cfg, s', i) {
      HasFlight(s, i);
    }
    IndexedPersists(cfg, s, s', f);
    AnsweredOwnsLog(cfg, s, f);
    forall i: nat ensures SettledIfFiled(s', i) {
      assert SettledIfFiled(s, i);
    }
  }

  lemma AnsweredOwnsLog(cfg: Config, s: Sys, f: nat)
    requires Enabled(s, Keep(f)) && FlightOk(cfg, s, f)
    ensures s.log[s.flights[f].stage.src].flight == f
  {}

  /** All other steps leave the records alone. */
  lemma QuietIndexed(cfg: Config, s: Sys, a: Action, f: nat)
    requires Inv(cfg, s) && Indexed(cfg, s) && Enabled(s, a)
    requires a.Tick? || a.Stamp? || a.FastGet? || a.Join? || a.Restamp? || a.Close? || a.Deliver?
    requires f == if a.Restamp? || a.Close? then a.f else |s.flights|
    ensures Indexed(cfg, Apply(cfg, s, a))
  {
    hide PhaseOk, EntryOk, LogOk, WellFormed, FlightOk, FiledInOrder, Marked, StageOk, Apply,
      FiledOnceSettled, FiledBeforeCall, CallMarked;
    var s' := Apply(cfg, s, a);
    RecordsStay(cfg, s, a);
    OneFlightMoves(cfg, s, a);
    if f < |s'.flights| {
      OpenedIsQuiet(cfg, s', f);
    }
    forall i | 0 <= i < |s.log| && s.log[i].flight == f ensures FiledOnceSettled(cfg, s', i) {
      HasFlight(s, i);
      FiledOnceSettledPersists(cfg, s, s', i);
    }
    IndexedPersists(cfg, s, s', f);
    forall i: nat ensures SettledIfFiled(s', i) {
      assert SettledIfFiled(s, i);
    }
  }

  lemma IndexedAfter(cfg: Config, s: Sys, a: Action)
    requires Inv(cfg, s) && Indexed(cfg, s) && Enabled(s, a)
    ensures Indexed(cfg, Apply(cfg, s, a))
  {
    hide Inv, Indexed;
    match a
    case Recheck(f) => RecheckIndexed(cfg, s, f);
    case Reply(f, answer) => ReplyIndexed(cfg, s, f, answer);
    case Keep(f) => KeepIndexed(cfg, s, f);
    case Restamp(f) => QuietIndexed(cfg, s, a, f);
    case Close(f) => QuietIndexed(cfg, s, a, f);
    case _ => QuietIndexed(cfg, s, a, |s.flights|);
  }

  lemma {:induction false} TrailIsIndexed(cfg: Config, start: Instant, actions: seq<Action>)
    requires Exec(cfg, start, actions).Some?
    ensures Indexed(cfg, Exec(cfg, start, actions).value)
  {
    if actions != [] {
      TrailIsIndexed(cfg, start, actions[..|actions| - 1]);
      Reachable(cfg, start, actions[..|actions| - 1]);
      IndexedAfter(cfg, Exec(cfg, start, actions[..|actions| - 1]).value, actions[|actions| - 1]);
    }
  }

  /** Upstream spacing: once the result of an introspection is cached, the
      introspector is asked about the same key again only when the clock is past
      the expiry of that result, unless capacity evicted the key in between. */
  lemma UpstreamSpacing(cfg: Config, start: Instant, actions: seq<Action>, i: nat, j: nat)
    requires Exec(cfg, start, actions).Some?
    requires var s := Exec(cfg, start, actions).value;
             i < j < |s.log| && Kept(cfg, s, i) && LogKey(cfg, s, i) == LogKey(cfg, s, j)
    ensures var s := Exec(cfg, start, actions).value;
            var key := LogKey(cfg, s, i);
            && i in s.filed && s.filed[i] < s.log[j].mark < |s.trail|
            && s.trail[s.filed[i]] == Stored(key, Expiry(cfg, s, i))
            && s.trail[s.log[j].mark] == Began(key, s.log[j].begun)
            && (NotEvicted(s.trail, key, s.filed[i], s.log[j].mark) ==> s.log[j].begun > Expiry(cfg, s, i))
  {
    TrailIsIndexed(cfg, start, actions);
    TrailIsSpaced(cfg, start, actions);
    var s := Exec(cfg, start, actions).value;
    assert FiledInOrder(cfg, s, i, j) && Marked(cfg, s, j);
    assert SpacedPair(s.trail, s.filed[i], s.log[j].mark);
  }
}
