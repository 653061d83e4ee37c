/** `resolve` as a protocol: any number of callers interleave their steps around
    the shared cache and a per-key singleflight.

    Every constructor of `Action` is one atomic step: a clock reading, one
    operation under the cache mutex, one under the singleflight mutex, or the
    return of the introspector. What the introspector answers is arbitrary. */
module ResolveProtocol {
  import opened Wrappers
  import opened AuthTypes
  import opened IntrospectionCache

  datatype Config = Config(limits: Limits, hash: Token -> Key)

  datatype Outcome = Outcome(claims: Claims, err: Option<Error>)

  /** A completed call of the introspector. `start` is the timestamp the flight
      captured before it looked into the cache a second time; `mark` is where the
      trail records that the call began. */
  datatype Introspection = Introspection(
    token: Token, flight: nat, start: Instant, begun: Instant, mark: nat, done: Instant, answer: Answer)

  /** How far the function run by a flight has come. `src` is the introspection an
      outcome stems from; `made` says whether this flight made it itself. */
  datatype Stage =
    | Opened
    | Restamped(start: Instant)
    | Calling(start: Instant, begun: Instant, mark: nat)
    | Answered(start: Instant, src: nat)
    | Settled(start: Instant, src: nat, outcome: Outcome, made: bool)

  datatype Flight = Flight(token: Token, leader: nat, stage: Stage, closedAt: Option<Instant>)

  datatype Via = Cached(src: nat) | Delivered(flight: nat)

  /** Where a caller is in `resolve(token)`; `at` is its first clock reading, and `back`
      is the clock when it returns. */
  datatype Phase =
    | Stamped(token: Token, at: Instant)
    | Missed(token: Token, at: Instant)
    | Waiting(token: Token, at: Instant, flight: nat)
    | Leading(token: Token, at: Instant, flight: nat)
    | Returned(token: Token, at: Instant, outcome: Outcome, via: Via, back: Instant)

  /** The caller is inside the singleflight, as a waiter or as the leader. */
  predicate Joined(p: Phase) {
    p.Waiting? || p.Leading?
  }

  datatype Event =
    | Began(key: Key, at: Instant)
    | Stored(key: Key, until: Instant)
    | Evicted(key: Key)

  /** `log`, `origin`, `trail` and `filed` only record what happened; no step
      depends on them. `filed` maps a stored introspection to its place in the trail. */
  datatype Sys = Sys(
    now: Instant,
    store: Store,
    callers: map<nat, Phase>,
    flights: seq<Flight>,
    open: map<Key, nat>,
    log: seq<Introspection>,
    origin: map<Key, nat>,
    trail: seq<Event>,
    filed: map<nat, nat>)

  function Initial(now: Instant): Sys {
    Sys(now, EMPTY_STORE, map[], [], map[], [], map[], [], map[])
  }

  // ---- the steps ----

  datatype Action =
    | Tick(d: nat)
    | Stamp(c: nat, token: Token)
    | FastGet(c: nat)
    | Join(c: nat)
    | Restamp(f: nat)
    | Recheck(f: nat)
    | Reply(f: nat, answer: Answer)
    | Keep(f: nat)
    | Close(f: nat)
    | Deliver(c: nat)

  predicate Enabled(s: Sys, a: Action) {
    match a
    case Tick(_) => true
    case Stamp(c, _) => c !in s.callers
    case FastGet(c) => c in s.callers && s.callers[c].Stamped?
    case Join(c) => c in s.callers && s.callers[c].Missed?
    case Restamp(f) => f < |s.flights| && s.flights[f].stage.Opened?
    case Recheck(f) => f < |s.flights| && s.flights[f].stage.Restamped?
    case Reply(f, _) => f < |s.flights| && s.flights[f].stage.Calling?
    case Keep(f) => f < |s.flights| && s.flights[f].stage.Answered? && s.flights[f].stage.src < |s.log|
    case Close(f) => f < |s.flights| && s.flights[f].stage.Settled? && s.flights[f].closedAt.None?
    case Deliver(c) =>
      c in s.callers && Joined(s.callers[c]) && s.callers[c].flight < |s.flights|
      && s.flights[s.callers[c].flight].closedAt.Some? && s.flights[s.callers[c].flight].stage.Settled?
  }

  function OutcomeOf(a: Answer): Outcome {
    Outcome(a.claims, a.err)
  }

  function Origin(s: Sys, key: Key): nat {
    if key in s.origin then s.origin[key] else 0
  }

  function SetStage(s: Sys, f: nat, stage: Stage): Sys
    requires f < |s.flights|
  {
    s.(flights := s.flights[f := s.flights[f].(stage := stage)])
  }

  /** The lookup before the singleflight, at the caller's own timestamp. */
  function DoFastGet(cfg: Config, s: Sys, c: nat): Sys
    requires Enabled(s, FastGet(c))
  {
    var p := s.callers[c];
    var key := cfg.hash(p.token);
    var got := Get(cfg.limits, s.store, key, p.at);
    var next :=
      if got.hit.Some?
      then
        Returned(p.token, p.at, Outcome(got.hit.value.claims, got.hit.value.err), Cached(Origin(s, key)), s.now)
      else Missed(p.token, p.at);
    s.(store := got.store, callers := s.callers[c := next])
  }

  /** `singleflight.Do`: wait for the open flight of the key, or lead a new one. */
  function DoJoin(cfg: Config, s: Sys, c: nat): Sys
    requires Enabled(s, Join(c))
  {
    var p := s.callers[c];
    var key := cfg.hash(p.token);
    if key in s.open then
      s.(callers := s.callers[c := Waiting(p.token, p.at, s.open[key])])
    else
      var f := |s.flights|;
      s.(callers := s.callers[c := Leading(p.token, p.at, f)],
         flights := s.flights + [Flight(p.token, c, Opened, None)],
         open := s.open[key := f])
  }

  /** The second lookup, inside the flight, at the flight's timestamp. */
  function DoRecheck(cfg: Config, s: Sys, f: nat): Sys
    requires Enabled(s, Recheck(f))
  {
    var start := s.flights[f].stage.start;
    var key := cfg.hash(s.flights[f].token);
    var got := Get(cfg.limits, s.store, key, start);
    if got.hit.Some? then
      SetStage(s.(store := got.store), f,
               Settled(start, Origin(s, key), Outcome(got.hit.value.claims, got.hit.value.err), false))
    else
      SetStage(s.(store := got.store, trail := s.trail + [Began(key, s.now)]), f,
               Calling(start, s.now, |s.trail|))
  }

  function DoReply(s: Sys, f: nat, answer: Answer): Sys
    requires Enabled(s, Reply(f, answer))
  {
    var st := s.flights[f].stage;
    SetStage(s.(log := s.log + [Introspection(s.flights[f].token, f, st.start, st.begun, st.mark, s.now, answer)]),
             f, Answered(st.start, |s.log|))
  }

  /** Store the result if it is to be stored, and settle the flight with it. */
  function DoKeep(cfg: Config, s: Sys, f: nat): Sys
    requires Enabled(s, Keep(f))
  {
    var st := s.flights[f].stage;
    var key := cfg.hash(s.flights[f].token);
    var answer := s.log[st.src].answer;
    var settled := Settled(st.start, st.src, OutcomeOf(answer), true);
    if Lifetime(cfg.limits, st.start, answer) > 0 then
      var evicted := if Full(cfg.limits, s.store, key) && FirstLive(s.store) < |s.store.order|
                     then [Evicted(Victim(s.store))] else [];
      SetStage(s.(store := Remember(cfg.limits, s.store, key, st.start, answer),
                  origin := s.origin[key := st.src],
                  trail := s.trail + evicted + [Stored(key, EntryFor(cfg.limits, st.start, answer).expiresAt)],
                  filed := s.filed[st.src := |s.trail + evicted|]),
               f, settled)
    else
      SetStage(s, f, settled)
  }

  /** The flight's function has returned: its key is released and its result is there
      for everybody in it. */
  function DoClose(cfg: Config, s: Sys, f: nat): Sys
    requires Enabled(s, Close(f))
  {
    var fl := s.flights[f];
    s.(flights := s.flights[f := fl.(closedAt := Some(s.now))], open := s.open - {cfg.hash(fl.token)})
  }

  /** A caller returns with the result of the flight it waited for or led. */
  function DoDeliver(s: Sys, c: nat): Sys
    requires Enabled(s, Deliver(c))
  {
    var p := s.callers[c];
    var outcome := s.flights[p.flight].stage.outcome;
    s.(callers := s.callers[c := Returned(p.token, p.at, outcome, Delivered(p.flight), s.now)])
  }

  function Apply(cfg: Config, s: Sys, a: Action): Sys
    requires Enabled(s, a)
  {
    match a
    case Tick(d) => s.(now := s.now + d)
    case Stamp(c, token) => s.(callers := s.callers[c := Stamped(token, s.now)])
    case FastGet(c) => DoFastGet(cfg, s, c)
    case Join(c) => DoJoin(cfg, s, c)
    case Restamp(f) => SetStage(s, f, Restamped(s.now))
    case Recheck(f) => DoRecheck(cfg, s, f)
    case Reply(f, answer) => DoReply(s, f, answer)
    case Keep(f) => DoKeep(cfg, s, f)
    case Close(f) => DoClose(cfg, s, f)
    case Deliver(c) => DoDeliver(s, c)
  }

  /** The state after a sequence of steps, if each was possible when it was taken. */
  function Steps(cfg: Config, s: Sys, actions: seq<Action>): Option<Sys> {
    if actions == [] then Some(s)
    else
      var before := Steps(cfg, s, actions[..|actions| - 1]);
      var a := actions[|actions| - 1];
      if before.Some? && Enabled(before.value, a) then Some(Apply(cfg, before.value, a)) else None
  }

  /** An execution from an empty cache. */
  function Exec(cfg: Config, start: Instant, actions: seq<Action>): Option<Sys> {
    Steps(cfg, Initial(start), actions)
  }

  // ---- what every step keeps ----

  function LogKey(cfg: Config, s: Sys, i: nat): Key
    requires i < |s.log|
  {
    cfg.hash(s.log[i].token)
  }

  /** When the cached result of introspection i expires. */
  function Expiry(cfg: Config, s: Sys, i: nat): Instant
    requires i < |s.log|
  {
    s.log[i].start + Lifetime(cfg.limits, s.log[i].start, s.log[i].answer)
  }

  predicate Kept(cfg: Config, s: Sys, i: nat)
    requires i < |s.log|
  {
    Lifetime(cfg.limits, s.log[i].start, s.log[i].answer) > 0
  }

  predicate PhaseOk(cfg: Config, s: Sys, c: nat)
    requires c in s.callers
  {
    && s.callers[c].at <= s.now
    && match s.callers[c]
       case Stamped(_, _) => true
       case Missed(_, _) => true
       case Waiting(token, at, f) =>
         && f < |s.flights| && cfg.hash(s.flights[f].token) == cfg.hash(token)
         && (s.flights[f].closedAt.Some? ==> at <= s.flights[f].closedAt.value)
       case Leading(token, at, f) =>
         && f < |s.flights| && s.flights[f].token == token && s.flights[f].leader == c
         && (s.flights[f].closedAt.Some? ==> at <= s.flights[f].closedAt.value)
       case Returned(token, at, outcome, Cached(src), back) =>
         && at <= back <= s.now
         && src < |s.log| && LogKey(cfg, s, src) == cfg.hash(token)
         && outcome == OutcomeOf(s.log[src].answer) && Kept(cfg, s, src) && at <= Expiry(cfg, s, src)
       case Returned(token, at, outcome, Delivered(f), back) =>
         && f < |s.flights| && cfg.hash(s.flights[f].token) == cfg.hash(token)
         && s.flights[f].closedAt.Some? && at <= s.flights[f].closedAt.value <= back <= s.now
         && s.flights[f].stage.Settled? && outcome == s.flights[f].stage.outcome
  }

  predicate StageOk(cfg: Config, s: Sys, f: nat)
    requires f < |s.flights|
  {
    var key := cfg.hash(s.flights[f].token);
    match s.flights[f].stage
    case Opened => true
    case Restamped(start) => start <= s.now
    case Calling(start, begun, _) => start <= begun <= s.now && key !in s.store.entries
    case Answered(start, src) =>
      && start <= s.now && key !in s.store.entries
      && src < |s.log| && s.log[src].flight == f && s.log[src].start == start
      && s.log[src].token == s.flights[f].token
    case Settled(start, src, outcome, made) =>
      && start <= s.now
      && src < |s.log| && LogKey(cfg, s, src) == key && outcome == OutcomeOf(s.log[src].answer)
      && (made ==> s.log[src].flight == f && s.log[src].start == start)
      && (!made ==> Kept(cfg, s, src) && start <= Expiry(cfg, s, src))
  }

  /** An unfinished flight holds its key and is led by a caller that is inside it. */
  predicate FlightOk(cfg: Config, s: Sys, f: nat)
    requires f < |s.flights|
  {
    var fl := s.flights[f];
    && StageOk(cfg, s, f)
    && (fl.closedAt.None? ==>
         && cfg.hash(fl.token) in s.open && s.open[cfg.hash(fl.token)] == f
         && fl.leader in s.callers && s.callers[fl.leader].Leading? && s.callers[fl.leader].flight == f)
    && (fl.closedAt.Some? ==> fl.stage.Settled? && fl.stage.start <= fl.closedAt.value <= s.now)
  }

  predicate OpenOk(cfg: Config, s: Sys, key: Key)
    requires key in s.open
  {
    var f := s.open[key];
    f < |s.flights| && cfg.hash(s.flights[f].token) == key && s.flights[f].closedAt.None?
  }

  /** Every cached entry is what its origin said, for as long as that may be kept. */
  predicate EntryOk(cfg: Config, s: Sys, key: Key)
    requires key in s.store.entries
  {
    && key in s.origin && s.origin[key] < |s.log|
    && var i := s.log[s.origin[key]];
       && cfg.hash(i.token) == key && Lifetime(cfg.limits, i.start, i.answer) > 0
       && s.store.entries[key] == EntryFor(cfg.limits, i.start, i.answer)
  }

  /** Each introspection belongs to one flight, which remembers it as its own. */
  predicate LogOk(s: Sys, i: nat)
    requires i < |s.log|
  {
    var f := s.log[i].flight;
    && s.log[i].start <= s.log[i].begun <= s.log[i].done <= s.now
    && f < |s.flights| && s.flights[f].token == s.log[i].token
    && match s.flights[f].stage
       case Answered(start, src) => src == i
       case Settled(start, src, _, made) => made && src == i
       case _ => false
  }

  ghost predicate Inv(cfg: Config, s: Sys) {
    && (forall c <- s.callers :: PhaseOk(cfg, s, c))
    && (forall f :: 0 <= f < |s.flights| ==> FlightOk(cfg, s, f))
    && (forall k <- s.open :: OpenOk(cfg, s, k))
    && (forall k <- s.store.entries :: EntryOk(cfg, s, k))
    && (forall i :: 0 <= i < |s.log| ==> LogOk(s, i))
    && (!Disabled(cfg.limits) ==> WellFormed(cfg.limits, s.store))
    && (Disabled(cfg.limits) ==> s.store == EMPTY_STORE)
  }

  /** How the recorded past relates the states before and after a step. */
  ghost predicate Extends(s: Sys, s': Sys) {
    && s.now <= s'.now
    && |s.flights| <= |s'.flights|
    && |s.log| <= |s'.log|
    && (forall i :: 0 <= i < |s.log| ==> s'.log[i] == s.log[i])
    && (forall f :: 0 <= f < |s.flights| ==> FlightExtends(s, s.flights[f], s'.flights[f]))
  }

  predicate FlightExtends(s: Sys, fl: Flight, fl': Flight) {
    && fl'.token == fl.token && fl'.leader == fl.leader
    && (fl.closedAt.Some? ==> fl' == fl)
    && (fl.closedAt.None? && fl'.closedAt.Some? ==> fl'.closedAt.value >= s.now)
  }

  lemma PhasePersists(cfg: Config, s: Sys, s': Sys, c: nat)
    requires c in s.callers && PhaseOk(cfg, s, c) && Extends(s, s')
    requires c in s'.callers && s'.callers[c] == s.callers[c]
    ensures PhaseOk(cfg, s', c)
  {}

  lemma FlightPersists(cfg: Config, s: Sys, s': Sys, f: nat)
    requires f < |s.flights| && FlightOk(cfg, s, f) && Extends(s, s')
    requires s'.flights[f] == s.flights[f]
    requires var key := cfg.hash(s.flights[f].token);
             s.flights[f].closedAt.None? ==>
               && key in s'.open && s'.open[key] == f
               && s.flights[f].leader in s'.callers
               && s'.callers[s.flights[f].leader] == s.callers[s.flights[f].leader]
               && (key !in s.store.entries ==> key !in s'.store.entries)
    ensures FlightOk(cfg, s', f)
  {}

  lemma EntryPersists(cfg: Config, s: Sys, s': Sys, key: Key)
    requires key in s.store.entries && EntryOk(cfg, s, key) && Extends(s, s')
    requires key in s'.store.entries && s'.store.entries[key] == s.store.entries[key]
    requires key in s'.origin && s'.origin[key] == s.origin[key]
    ensures EntryOk(cfg, s', key)
  {}

  lemma LogPersists(s: Sys, s': Sys, i: nat)
    requires i < |s.log| && LogOk(s, i) && Extends(s, s')
    requires s'.flights[s.log[i].flight].stage == s.flights[s.log[i].flight].stage
    ensures LogOk(s', i)
  {}

  // ---- what may happen ----

  /** Nothing holds anybody up but the protocol itself: time may pass, a new call may come
      for any token, and the introspector may give any answer, whatever else is going on;
      a caller or flight may go on as soon as it has come so far. */
  lemma AnyOrderIsPossible(s: Sys, c: nat, f: nat, token: Token, answer: Answer, d: nat)
    ensures Enabled(s, Tick(d))
    ensures Enabled(s, Stamp(c, token)) <==> c !in s.callers
    ensures c in s.callers ==>
              && (Enabled(s, FastGet(c)) <==> s.callers[c].Stamped?)
              && (Enabled(s, Join(c)) <==> s.callers[c].Missed?)
              && (s.callers[c].Waiting? || s.callers[c].Leading? ==>
                   (Enabled(s, Deliver(c)) <==>
                     && s.callers[c].flight < |s.flights| && s.flights[s.callers[c].flight].stage.Settled?
                     && s.flights[s.callers[c].flight].closedAt.Some?))
    ensures f < |s.flights| ==>
              && (Enabled(s, Restamp(f)) <==> s.flights[f].stage.Opened?)
              && (Enabled(s, Recheck(f)) <==> s.flights[f].stage.Restamped?)
              && (Enabled(s, Reply(f, answer)) <==> s.flights[f].stage.Calling?)
              && (Enabled(s, Keep(f)) <==> s.flights[f].stage.Answered? && s.flights[f].stage.src < |s.log|)
              && (Enabled(s, Close(f)) <==> s.flights[f].stage.Settled? && s.flights[f].closedAt.None?)
  {}

  // ---- the clock ----

  /** Every time that a step records is the clock's at that step, and only the clock's own
      step moves the clock. */
  lemma ReadingsAreNow(cfg: Config, s: Sys, a: Action)
    requires Enabled(s, a)
    ensures var s' := Apply(cfg, s, a);
            match a
            case Tick(d) => s' == s.(now := s.now + d)
            case Stamp(c, token) => s'.now == s.now && c in s'.callers && s'.callers[c] == Stamped(token, s.now)
            case FastGet(c) =>
              && s'.now == s.now && c in s'.callers && s'.callers[c].at == s.callers[c].at
              && (s'.callers[c].Returned? ==> s'.callers[c].back == s.now)
            case Join(c) => s'.now == s.now && c in s'.callers && s'.callers[c].at == s.callers[c].at
            case Restamp(f) => s'.now == s.now && f < |s'.flights| && s'.flights[f].stage == Restamped(s.now)
            case Recheck(f) =>
              && s'.now == s.now && f < |s'.flights|
              && (s'.flights[f].stage.Calling? ==>
                   s'.flights[f].stage.start == s.flights[f].stage.start && s'.flights[f].stage.begun == s.now)
            case Reply(f, answer) =>
              && s'.now == s.now && |s'.log| == |s.log| + 1
              && s'.log[|s.log|].token == s.flights[f].token && s'.log[|s.log|].answer == answer
              && s'.log[|s.log|].start == s.flights[f].stage.start
              && s'.log[|s.log|].begun == s.flights[f].stage.begun && s'.log[|s.log|].done == s.now
            case Keep(f) => s'.now == s.now
            case Close(f) => s'.now == s.now && f < |s'.flights| && s'.flights[f].closedAt == Some(s.now)
            case Deliver(c) =>
              && s'.now == s.now && c in s'.callers && s'.callers[c].Returned?
              && s'.callers[c].at == s.callers[c].at && s'.callers[c].back == s.now
  {
    hide Get, Remember, Lifetime;
  }

  // ---- whom a step moves ----

  /** The caller whose phase a step changes. */
  function Mover(s: Sys, a: Action): Option<nat>
    requires Enabled(s, a)
  {
    match a
    case Stamp(c, _) => Some(c)
    case FastGet(c) => Some(c)
    case Join(c) => Some(c)
    case Deliver(c) => Some(c)
    case _ => None
  }

  lemma OneCallerMoves(cfg: Config, s: Sys, a: Action)
    requires Enabled(s, a)
    ensures var s', mover := Apply(cfg, s, a), Mover(s, a);
            if mover.None? then s'.callers == s.callers
            else
              var c := mover.value;
              && c in s'.callers && s'.callers == s.callers[c := s'.callers[c]]
              && s'.callers[c].token == (if a.Stamp? then a.token else s.callers[c].token)
              && match a
                 case Stamp(_, _) => s'.callers[c].Stamped?
                 case FastGet(_) => s'.callers[c].Missed? || s'.callers[c].Returned?
                 case Join(_) => s'.callers[c].Waiting? || s'.callers[c].Leading?
                 case _ => s'.callers[c].Returned?
  {
    hide Get, Remember, Lifetime;
  }

  /** Only its stage, and only f's. */
  predicate StageMoves(s: Sys, s': Sys, f: nat)
    requires f < |s.flights|
  {
    |s'.flights| == |s.flights| && s'.flights == s.flights[f := s.flights[f].(stage := s'.flights[f].stage)]
  }

  lemma OneFlightMoves(cfg: Config, s: Sys, a: Action)
    requires Enabled(s, a)
    ensures var s' := Apply(cfg, s, a);
            match a
            case Join(c) =>
              s'.flights == s.flights || s'.flights == s.flights + [Flight(s.callers[c].token, c, Opened, None)]
            case Restamp(f) => StageMoves(s, s', f) && s'.flights[f].stage.Restamped?
            case Recheck(f) => StageMoves(s, s', f) && (s'.flights[f].stage.Calling? || s'.flights[f].stage.Settled?)
            case Reply(f, _) => StageMoves(s, s', f) && s'.flights[f].stage.Answered?
            case Keep(f) => StageMoves(s, s', f) && s'.flights[f].stage.Settled?
            case Close(f) => s'.flights == s.flights[f := s.flights[f].(closedAt := Some(s.now))]
            case _ => s'.flights == s.flights
  {
    hide Get, Remember, Lifetime;
  }

  /** Only looking into the cache, answering and keeping write records. */
  lemma RecordsStay(cfg: Config, s: Sys, a: Action)
    requires Enabled(s, a) && !a.Reply? && !a.Keep?
    ensures var s' := Apply(cfg, s, a);
            && s'.log == s.log && s'.origin == s.origin && s'.filed == s.filed
            && if a.Recheck? then
                 s'.trail == s.trail || s'.trail == s.trail + [Began(cfg.hash(s.flights[a.f].token), s.now)]
               else s'.trail == s.trail
  {
    if a.Recheck? {
      RecheckRecords(cfg, s, a.f);
    }
    hide DoRecheck, DoReply, DoKeep, Get;
  }

  lemma RecheckRecords(cfg: Config, s: Sys, f: nat)
    requires Enabled(s, Recheck(f))
    ensures var s' := DoRecheck(cfg, s, f);
            && s'.log == s.log && s'.origin == s.origin && s'.filed == s.filed
            && (s'.trail == s.trail || s'.trail == s.trail + [Began(cfg.hash(s.flights[f].token), s.now)])
  {
    hide Get;
  }
}
