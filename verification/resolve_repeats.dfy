/** When the introspector is asked about a key again. */
module ResolveRepeats {
  import opened Wrappers
  import opened AuthTypes
  import opened IntrospectionCache
  import opened ResolveProtocol
  import opened ResolveInvariant
  import opened ResolveTheorems
  import opened ResolveSpacing
  import opened ResolveUncontended

  // ---- what is cached is the latest answer ----

  /** No introspection of the key comes after introspection i. */
  predicate Latest(cfg: Config, s: Sys, key: Key, i: nat) {
    forall j :: 0 <= j < |s.log| && LogKey(cfg, s, j) == key ==> j <= i
  }

  /** A cached entry stems from the latest introspection of its key and has not been
      evicted since that was stored. */
  ghost predicate EntryRecent(cfg: Config, s: Sys, key: Key) {
    && key in s.origin && Latest(cfg, s, key, s.origin[key])
    && s.origin[key] in s.filed && s.filed[s.origin[key]] < |s.trail|
    && NotEvicted(s.trail, key, s.filed[s.origin[key]], |s.trail|)
  }

  predicate AnswerRecent(cfg: Config, s: Sys, f: nat)
    requires f < |s.flights|
  {
    s.flights[f].stage.Answered? ==> Latest(cfg, s, cfg.hash(s.flights[f].token), s.flights[f].stage.src)
  }

  ghost predicate Recent(cfg: Config, s: Sys) {
    && (forall k <- s.store.entries :: EntryRecent(cfg, s, k))
    && (forall f :: 0 <= f < |s.flights| ==> AnswerRecent(cfg, s, f))
  }

  /** Steps that log and store nothing and evict nothing. */
  lemma QuietRecent(cfg: Config, s: Sys, s': Sys)
    requires Recent(cfg, s)
    requires s'.log == s.log && s'.origin == s.origin && s'.filed == s.filed && s.trail <= s'.trail
    requires forall n :: |s.trail| <= n < |s'.trail| ==> !s'.trail[n].Evicted?
    requires forall k <- s'.store.entries :: k in s.store.entries
    requires |s.flights| <= |s'.flights|
    requires forall f | 0 <= f < |s'.flights| && s'.flights[f].stage.Answered? ::
               f < |s.flights| && s'.flights[f].stage == s.flights[f].stage && s'.flights[f].token == s.flights[f].token
    ensures Recent(cfg, s')
  {
    assert forall i :: 0 <= i < |s.log| ==> LogKey(cfg, s', i) == LogKey(cfg, s, i);
    forall k | k in s'.store.entries ensures EntryRecent(cfg, s', k) {
      assert EntryRecent(cfg, s, k);
    }
    forall f | 0 <= f < |s'.flights| ensures AnswerRecent(cfg, s', f) {
      if s'.flights[f].stage.Answered? {
        assert AnswerRecent(cfg, s, f);
      }
    }
  }

  lemma ReplyRecent(cfg: Config, s: Sys, f: nat, answer: Answer)
    requires Inv(cfg, s) && Recent(cfg, s) && Enabled(s, Reply(f, answer))
    ensures Recent(cfg, DoReply(s, f, answer))
  {
    hide PhaseOk, EntryOk, LogOk, WellFormed, FlightOk, NotEvicted;
    var s' := DoReply(s, f, answer);
    assert forall i :: 0 <= i < |s.log| ==> LogKey(cfg, s', i) == LogKey(cfg, s, i);
    HoldsItsKey(cfg, s, f);
    forall k | k in s'.store.entries ensures EntryRecent(cfg, s', k) {
      assert EntryRecent(cfg, s, k);
    }
    forall g | 0 <= g < |s'.flights| ensures AnswerRecent(cfg, s', g) {
      if g != f && s'.flights[g].stage.Answered? {
        assert AnswerRecent(cfg, s, g);
        HoldsItsKey(cfg, s, g);
      }
    }
  }

  /** What keeping does to the records. */
  lemma KeepRecords(cfg: Config, s: Sys, f: nat)
    requires Enabled(s, Keep(f))
    ensures var st, key, s' := s.flights[f].stage, cfg.hash(s.flights[f].token), DoKeep(cfg, s, f);
            && s'.log == s.log
            && if Lifetime(cfg.limits, st.start, s.log[st.src].answer) > 0 then
                 && s'.origin == s.origin[key := st.src]
                 && s'.trail != [] && s'.trail[|s'.trail| - 1].Stored?
                 && s'.filed == s.filed[st.src := |s'.trail| - 1]
               else s'.origin == s.origin && s'.filed == s.filed
  {
    hide Remember, Lifetime;
  }

  lemma KeepRecent(cfg: Config, s: Sys, f: nat)
    requires Inv(cfg, s) && Recent(cfg, s) && Enabled(s, Keep(f))
    ensures Recent(cfg, DoKeep(cfg, s, f))
  {
    KeepRecords(cfg, s, f);
    OneFlightMoves(cfg, s, Keep(f));
    var s' := DoKeep(cfg, s, f);
    assert forall i :: 0 <= i < |s.log| ==> LogKey(cfg, s', i) == LogKey(cfg, s, i);
    hide Inv, DoKeep, EntryRecent;
    forall k | k in s'.store.entries ensures EntryRecent(cfg, s', k) {
      KeptEntryRecent(cfg, s, f, k);
    }
    forall g | 0 <= g < |s'.flights| ensures AnswerRecent(cfg, s', g) {
      assert AnswerRecent(cfg, s, g);
    }
  }

  lemma KeptEntryRecent(cfg: Config, s: Sys, f: nat, k: Key)
    requires Inv(cfg, s) && Recent(cfg, s) && Enabled(s, Keep(f)) && k in DoKeep(cfg, s, f).store.entries
    ensures EntryRecent(cfg, DoKeep(cfg, s, f), k)
  {
    assert FlightOk(cfg, s, f) && AnswerRecent(cfg, s, f);
    if k in s.store.entries {
      assert EntryRecent(cfg, s, k) && EntryOk(cfg, s, k);
    }
    KeptStays(cfg, s, f, k);
    hide Inv, Recent, EntryRecent, AnswerRecent, DoKeep;
    if k == cfg.hash(s.flights[f].token) {
      NewEntryRecent(cfg, s, f);
    } else {
      OldEntryRecent(cfg, s, f, k);
    }
  }

  /** An entry that is there after keeping is the new one, or was there and was not
      evicted by it. */
  lemma KeptStays(cfg: Config, s: Sys, f: nat, k: Key)
    requires Inv(cfg, s) && Enabled(s, Keep(f)) && k in DoKeep(cfg, s, f).store.entries
    ensures var st, s' := s.flights[f].stage, DoKeep(cfg, s, f);
            if k == cfg.hash(s.flights[f].token) then Lifetime(cfg.limits, st.start, s.log[st.src].answer) > 0
            else
              && k in s.store.entries && s.trail <= s'.trail
              && forall n :: |s.trail| <= n < |s'.trail| ==> s'.trail[n] != Evicted(k)
  {
    var more, gone := KeepAppends(cfg, s, f);
    hide *;
    var s' := DoKeep(cfg, s, f);
    forall n | |s.trail| <= n < |s'.trail| && k != cfg.hash(s.flights[f].token) ensures s'.trail[n] != Evicted(k) {
      assert s'.trail[n] in more;
    }
  }

  /** What keeping appends to the trail, and the keys it evicts. */
  lemma KeepAppends(cfg: Config, s: Sys, f: nat) returns (more: seq<Event>, gone: set<Key>)
    requires Inv(cfg, s) && Enabled(s, Keep(f))
    ensures var st, key, s' := s.flights[f].stage, cfg.hash(s.flights[f].token), DoKeep(cfg, s, f);
            && s'.trail == s.trail + more && (forall e <- more :: e.Evicted? ==> e.key in gone)
            && (forall k <- s'.store.entries :: k == key || (k in s.store.entries && k !in gone))
            && (key in s'.store.entries ==> Lifetime(cfg.limits, st.start, s.log[st.src].answer) > 0)
  {
    KeepIs(cfg, s, f);
    hide *;
    var st, key := s.flights[f].stage, cfg.hash(s.flights[f].token);
    more, gone := [], {};
    if Lifetime(cfg.limits, st.start, s.log[st.src].answer) > 0 {
      more := [Stored(key, EntryFor(cfg.limits, st.start, s.log[st.src].answer).expiresAt)];
      if Full(cfg.limits, s.store, key) {
        more, gone := [Evicted(Victim(s.store))] + more, {Victim(s.store)};
      }
    }
  }

  lemma NewEntryRecent(cfg: Config, s: Sys, f: nat)
    requires Enabled(s, Keep(f)) && AnswerRecent(cfg, s, f)
    requires Lifetime(cfg.limits, s.flights[f].stage.start, s.log[s.flights[f].stage.src].answer) > 0
    ensures EntryRecent(cfg, DoKeep(cfg, s, f), cfg.hash(s.flights[f].token))
  {
    KeepRecords(cfg, s, f);
    hide DoKeep, Lifetime;
    var s' := DoKeep(cfg, s, f);
    assert forall i :: 0 <= i < |s.log| ==> LogKey(cfg, s', i) == LogKey(cfg, s, i);
  }

  lemma OldEntryRecent(cfg: Config, s: Sys, f: nat, k: Key)
    requires Enabled(s, Keep(f)) && FlightOk(cfg, s, f)
    requires k in s.store.entries && EntryOk(cfg, s, k) && EntryRecent(cfg, s, k)
    requires k != cfg.hash(s.flights[f].token)
    requires var s' := DoKeep(cfg, s, f);
             s.trail <= s'.trail && forall n :: |s.trail| <= n < |s'.trail| ==> s'.trail[n] != Evicted(k)
    ensures EntryRecent(cfg, DoKeep(cfg, s, f), k)
  {
    KeepRecords(cfg, s, f);
    hide DoKeep, Lifetime, EntryFor;
    var s' := DoKeep(cfg, s, f);
    assert s.origin[k] != s.flights[f].stage.src;
    assert forall i :: 0 <= i < |s.log| ==> LogKey(cfg, s', i) == LogKey(cfg, s, i);
  }

  lemma RecentAfter(cfg: Config, s: Sys, a: Action)
    requires Inv(cfg, s) && Recent(cfg, s) && Enabled(s, a)
    ensures Recent(cfg, Apply(cfg, s, a))
  {
    hide Inv, Recent;
    match a
    case Reply(f, answer) => ReplyRecent(cfg, s, f, answer);
    case Keep(f) => KeepRecent(cfg, s, f);
    case _ =>
      RecordsStay(cfg, s, a);
      OthersAnswerNothing(cfg, s, a);
      OthersOnlyExpire(cfg, s, a);
      hide *;
      QuietRecent(cfg, s, Apply(cfg, s, a));
  }

  lemma OthersAnswerNothing(cfg: Config, s: Sys, a: Action)
    requires Enabled(s, a) && !a.Reply?
    ensures var s' := Apply(cfg, s, a);
            && |s.flights| <= |s'.flights|
            && forall f | 0 <= f < |s'.flights| && s'.flights[f].stage.Answered? ::
                 f < |s.flights| && s'.flights[f].stage == s.flights[f].stage
                 && s'.flights[f].token == s.flights[f].token
  {
    OneFlightMoves(cfg, s, a);
    hide Apply;
  }

  lemma OthersOnlyExpire(cfg: Config, s: Sys, a: Action)
    requires Enabled(s, a) && !a.Keep?
    ensures forall k <- Apply(cfg, s, a).store.entries :: k in s.store.entries
  {}

  lemma {:induction false} CacheIsRecent(cfg: Config, start: Instant, actions: seq<Action>)
    requires Exec(cfg, start, actions).Some?
    ensures Recent(cfg, Exec(cfg, start, actions).value)
  {
    if actions != [] {
      CacheIsRecent(cfg, start, actions[..|actions| - 1]);
      Reachable(cfg, start, actions[..|actions| - 1]);
      RecentAfter(cfg, Exec(cfg, start, actions[..|actions| - 1]).value, actions[|actions| - 1]);
    }
  }

  // ---- asking again ----

  /** The step with which flight f looks into the cache makes it ask the introspector. */
  predicate Asks(cfg: Config, s: Sys, f: nat)
    requires Enabled(s, Recheck(f))
  {
    DoRecheck(cfg, s, f).flights[f].stage.Calling?
  }

  /** The key was evicted for capacity after introspection i was stored. */
  ghost predicate EvictedSince(cfg: Config, s: Sys, i: nat)
    requires i < |s.log|
  {
    i in s.filed && s.filed[i] < |s.trail| && !NotEvicted(s.trail, LogKey(cfg, s, i), s.filed[i], |s.trail|)
  }

  /** Exactly when a flight asks about a key that was introspected before: the latest
      answer was not kept, or was evicted since, or had expired by the flight's clock
      reading, or has expired by now and another lookup has removed it. In all other
      cases the flight answers from the cache. */
  lemma AsksAgainIff(cfg: Config, start: Instant, actions: seq<Action>, f: nat, i: nat)
    requires Exec(cfg, start, actions).Some?
    requires var s := Exec(cfg, start, actions).value;
             Enabled(s, Recheck(f)) && i < |s.log| && LogKey(cfg, s, i) == cfg.hash(s.flights[f].token)
             && Latest(cfg, s, LogKey(cfg, s, i), i)
    ensures var s := Exec(cfg, start, actions).value;
            Asks(cfg, s, f)
            <==> || !Kept(cfg, s, i)
                 || EvictedSince(cfg, s, i)
                 || s.flights[f].stage.start > Expiry(cfg, s, i)
                 || (s.now > Expiry(cfg, s, i) && LogKey(cfg, s, i) !in s.store.entries)
  {
    Reachable(cfg, start, actions);
    TrailIsIndexed(cfg, start, actions);
    TrailIsSpaced(cfg, start, actions);
    CacheIsRecent(cfg, start, actions);
    AsksAgainInState(cfg, Exec(cfg, start, actions).value, f, i);
  }

  lemma AsksAgainInState(cfg: Config, s: Sys, f: nat, i: nat)
    requires Inv(cfg, s) && Indexed(cfg, s) && Spaced(s) && Recent(cfg, s)
    requires Enabled(s, Recheck(f)) && i < |s.log| && LogKey(cfg, s, i) == cfg.hash(s.flights[f].token)
    requires Latest(cfg, s, LogKey(cfg, s, i), i)
    ensures Asks(cfg, s, f)
            <==> || !Kept(cfg, s, i)
                 || EvictedSince(cfg, s, i)
                 || s.flights[f].stage.start > Expiry(cfg, s, i)
                 || (s.now > Expiry(cfg, s, i) && LogKey(cfg, s, i) !in s.store.entries)
  {
    var key := LogKey(cfg, s, i);
    AsksIff(cfg, s, f);
    if key in s.store.entries {
      assert EntryRecent(cfg, s, key) && EntryOk(cfg, s, key);
      EntrySource(cfg, s, key);
      assert s.origin[key] == i;
    } else if Kept(cfg, s, i) {
      KeptIsFiled(cfg, s, f, i);
      assert StillKnown(s, s.filed[i]);
    }
  }

  lemma AsksIff(cfg: Config, s: Sys, f: nat)
    requires Inv(cfg, s) && Enabled(s, Recheck(f))
    ensures var key := cfg.hash(s.flights[f].token);
            Asks(cfg, s, f) <==> key !in s.store.entries || s.flights[f].stage.start > s.store.entries[key].expiresAt
  {
    hide PhaseOk, FlightOk, EntryOk, LogOk, WellFormed;
  }

  lemma KeptIsFiled(cfg: Config, s: Sys, f: nat, i: nat)
    requires Inv(cfg, s) && Indexed(cfg, s) && Enabled(s, Recheck(f))
    requires i < |s.log| && LogKey(cfg, s, i) == cfg.hash(s.flights[f].token) && Kept(cfg, s, i)
    ensures Filed(cfg, s, i, |s.trail|)
  {
    hide PhaseOk, EntryOk, LogOk, WellFormed, StageOk, FlightOk, Filed, Kept;
    HoldsItsKey(cfg, s, f);
    OthersAreSettled(cfg, s, f, i);
    assert FiledOnceSettled(cfg, s, i);
  }

  /** A key is introspected again only if the earlier answer was not kept, the key was
      evicted after that was stored and before the later call began, or the answer had
      expired by then. */
  lemma AskedAgainOnlyIf(cfg: Config, start: Instant, actions: seq<Action>, i: nat, j: nat)
    requires Exec(cfg, start, actions).Some?
    requires var s := Exec(cfg, start, actions).value;
             i < j < |s.log| && LogKey(cfg, s, i) == LogKey(cfg, s, j)
    ensures var s := Exec(cfg, start, actions).value;
            || !Kept(cfg, s, i)
            || (i in s.filed && s.filed[i] < s.log[j].mark < |s.trail|
                && Evicted(LogKey(cfg, s, i)) in s.trail[s.filed[i]..s.log[j].mark])
            || s.now >= s.log[j].begun > Expiry(cfg, s, i)
  {
    var s := Exec(cfg, start, actions).value;
    if Kept(cfg, s, i) {
      UpstreamSpacing(cfg, start, actions, i, j);
      Reachable(cfg, start, actions);
      assert LogOk(s, j);
      EvictedBetween(s.trail, LogKey(cfg, s, i), s.filed[i], s.log[j].mark);
    }
  }

  lemma EvictedBetween(trail: seq<Event>, key: Key, i: nat, j: nat)
    requires i <= j <= |trail|
    ensures NotEvicted(trail, key, i, j) <==> Evicted(key) !in trail[i..j]
  {
    if Evicted(key) !in trail[i..j] {
      forall n | i <= n < j ensures trail[n] != Evicted(key) {
        assert trail[n] == trail[i..j][n - i];
      }
    }
  }

  /** "N concurrent requests, one upstream call": in any run in which some call for a key
      has returned, every answer about it was kept and is still unexpired, and the key
      was never evicted, it was introspected exactly once, however many calls there were. */
  lemma ExactlyOneCall(cfg: Config, start: Instant, actions: seq<Action>, c: nat)
    requires Exec(cfg, start, actions).Some?
    requires var s := Exec(cfg, start, actions).value;
             c in s.callers && s.callers[c].Returned?
    requires var s := Exec(cfg, start, actions).value;
             var key := cfg.hash(s.callers[c].token);
             && (forall i | 0 <= i < |s.log| && LogKey(cfg, s, i) == key ::
                   Kept(cfg, s, i) && s.now <= Expiry(cfg, s, i))
             && Evicted(key) !in s.trail
    ensures var s := Exec(cfg, start, actions).value;
            var key, i := cfg.hash(s.callers[c].token), Source(s, c);
            && i < |s.log| && LogKey(cfg, s, i) == key
            && forall j | 0 <= j < |s.log| && LogKey(cfg, s, j) == key :: j == i
  {
    EveryResultWasIntrospected(cfg, start, actions, c);
    var s := Exec(cfg, start, actions).value;
    var key, i := cfg.hash(s.callers[c].token), Source(s, c);
    hide Exec, Kept, Expiry, Source;
    forall j | 0 <= j < |s.log| && LogKey(cfg, s, j) == key ensures j == i {
      if j < i {
        AskedAgainOnlyIf(cfg, start, actions, j, i);
      } else if i < j {
        AskedAgainOnlyIf(cfg, start, actions, i, j);
      }
    }
  }

  /** Concurrency alone does not help: two calls that both began before the first
      introspection did, about an answer that is not kept, lead to two introspections. */
  lemma ConcurrentCallsMayAskTwice(cfg: Config, now: Instant, token: Token, answer: Answer)
    returns (actions: seq<Action>)
    requires Lifetime(cfg.limits, now, answer) <= 0
    ensures Exec(cfg, now, actions).Some?
    ensures var s := Exec(cfg, now, actions).value;
            && 0 in s.callers && s.callers[0].Returned? && s.callers[0].token == token
            && 1 in s.callers && s.callers[1].Returned? && s.callers[1].token == token
            && Source(s, 0) == 0 && Source(s, 1) == 1 && |s.log| == 2
            && s.callers[1].at <= s.log[0].start
  {
    var s0 := Initial(now);
    assert Get(cfg.limits, EMPTY_STORE, cfg.hash(token), now) == GetResult(None, EMPTY_STORE);
    hide Get, Reaches, Lifetime;
    NoSteps(cfg, s0);
    var s1 := AloneMiss(cfg, s0, s0, 0, token);
    var s2 := AloneMiss(cfg, s0, s1, 1, token);
    var s3 := AskUnkept(cfg, s0, s2, 0, answer);
    var s4 := AskUnkept(cfg, s0, s3, 1, answer);
    actions := StepsTo(cfg, now, s4, 1);
    hide *;
  }

  lemma NoSteps(cfg: Config, s: Sys)
    ensures Reaches(cfg, s, s)
  {
    assert Steps(cfg, s, []) == Some(s);
  }

  /** A call whose first lookup misses. */
  lemma AloneMiss(cfg: Config, s0: Sys, s: Sys, c: nat, token: Token) returns (s': Sys)
    requires Reaches(cfg, s0, s) && c !in s.callers
    requires Get(cfg.limits, s.store, cfg.hash(token), s.now) == GetResult(None, s.store)
    ensures Reaches(cfg, s0, s')
    ensures s' == s.(callers := s.callers[c := Missed(token, s.now)])
  {
    hide Reaches, Get;
    var s1 := Apply(cfg, s, Stamp(c, token));
    OneMoreStep(cfg, s0, s, Stamp(c, token));
    s' := DoFastGet(cfg, s1, c);
    OneMoreStep(cfg, s0, s1, FastGet(c));
    assert s1.callers[c := Missed(token, s.now)] == s.callers[c := Missed(token, s.now)];
  }

  /** Leading a flight whose answer is not kept. */
  lemma AskUnkept(cfg: Config, s0: Sys, s: Sys, c: nat, answer: Answer) returns (s': Sys)
    requires Reaches(cfg, s0, s) && c in s.callers && s.callers[c].Missed?
    requires var key := cfg.hash(s.callers[c].token);
             key !in s.open && Get(cfg.limits, s.store, key, s.now) == GetResult(None, s.store)
    requires Lifetime(cfg.limits, s.now, answer) <= 0
    ensures Reaches(cfg, s0, s')
    ensures && s'.now == s.now && s'.store == s.store && s'.open == s.open
            && |s'.log| == |s.log| + 1 && s.log <= s'.log && s'.log[|s.log|].start == s.now
            && (forall d <- s'.callers :: d in s.callers)
            && (forall d <- s.callers :: d in s'.callers && (d != c ==> s'.callers[d] == s.callers[d]))
            && s'.callers[c].Returned? && s'.callers[c].token == s.callers[c].token
            && s'.callers[c].at == s.callers[c].at && Source(s', c) == |s.log|
            && s'.callers[c].via == Delivered(|s.flights|)
            && |s'.flights| == |s.flights| + 1 && (forall f :: 0 <= f < |s.flights| ==> s'.flights[f] == s.flights[f])
  {
    var a := BeginAsking(cfg, s0, s, c);
    s' := EndAsking(cfg, s0, a, |s.flights|, answer);
    hide *;
    assert s.open[cfg.hash(s.callers[c].token) := |s.flights|] - {cfg.hash(s.callers[c].token)} == s.open;
  }

  lemma BeginAsking(cfg: Config, s0: Sys, s: Sys, c: nat) returns (s': Sys)
    requires Reaches(cfg, s0, s) && c in s.callers && s.callers[c].Missed?
    requires var key := cfg.hash(s.callers[c].token);
             key !in s.open && Get(cfg.limits, s.store, key, s.now) == GetResult(None, s.store)
    ensures Reaches(cfg, s0, s')
    ensures var f, p := |s.flights|, s.callers[c];
            && s'.now == s.now && s'.store == s.store && s'.log == s.log && s'.open == s.open[cfg.hash(p.token) := f]
            && s'.callers == s.callers[c := Leading(p.token, p.at, f)]
            && s'.flights == s.flights + [Flight(p.token, c, Calling(s.now, s.now, |s.trail|), None)]
  {
    hide Reaches, Get;
    var f := |s.flights|;
    var a := DoJoin(cfg, s, c);
    OneMoreStep(cfg, s0, s, Join(c));
    var b := SetStage(a, f, Restamped(a.now));
    OneMoreStep(cfg, s0, a, Restamp(f));
    s' := DoRecheck(cfg, b, f);
    OneMoreStep(cfg, s0, b, Recheck(f));
  }

  lemma EndAsking(cfg: Config, s0: Sys, s: Sys, f: nat, answer: Answer) returns (s': Sys)
    requires Reaches(cfg, s0, s) && f < |s.flights| && s.flights[f].stage.Calling?
    requires s.flights[f].closedAt.None?
    requires var c := s.flights[f].leader; c in s.callers && s.callers[c].Leading? && s.callers[c].flight == f
    requires Lifetime(cfg.limits, s.flights[f].stage.start, answer) <= 0
    ensures Reaches(cfg, s0, s')
    ensures var fl, c := s.flights[f], s.flights[f].leader;
            && s'.now == s.now && s'.store == s.store && s'.open == s.open - {cfg.hash(fl.token)}
            && |s'.log| == |s.log| + 1 && s.log <= s'.log && s'.log[|s.log|].start == fl.stage.start
            && (forall d <- s'.callers :: d in s.callers)
            && (forall d <- s.callers :: d in s'.callers && (d != c ==> s'.callers[d] == s.callers[d]))
            && s'.callers[c].Returned? && s'.callers[c].token == s.callers[c].token
            && s'.callers[c].at == s.callers[c].at && Source(s', c) == |s.log| && s'.callers[c].via == Delivered(f)
            && |s'.flights| == |s.flights|
            && (forall g :: 0 <= g < |s.flights| && g != f ==> s'.flights[g] == s.flights[g])
  {
    hide Reaches, Lifetime;
    var e := DoReply(s, f, answer);
    OneMoreStep(cfg, s0, s, Reply(f, answer));
    var g := DoKeep(cfg, e, f);
    OneMoreStep(cfg, s0, e, Keep(f));
    s' := LateClose(cfg, s0, g, f, 0);
  }
}
