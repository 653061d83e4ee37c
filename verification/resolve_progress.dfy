/** Every call of `resolve` comes to an end: somebody can always move, and there are
    only so many moves to make. */
module ResolveProgress {
  import opened Wrappers
  import opened AuthTypes
  import opened IntrospectionCache
  import opened ResolveProtocol
  import opened ResolveInvariant
  import opened ResolveUncontended

  // ---- no deadlock ----

  /** No deadlock: while a call of `resolve` has not returned, that caller or the
      flight it is in can take a step. The only step that depends on the outside is
      the introspector's answer. */
  lemma SomeoneCanMove(cfg: Config, start: Instant, actions: seq<Action>, c: nat, answer: Answer)
    requires Exec(cfg, start, actions).Some?
    requires var s := Exec(cfg, start, actions).value; c in s.callers && !s.callers[c].Returned?
    ensures var s := Exec(cfg, start, actions).value;
            var p := s.callers[c];
            || Enabled(s, FastGet(c)) || Enabled(s, Join(c)) || Enabled(s, Deliver(c))
            || ((p.Waiting? || p.Leading?)
                && (|| Enabled(s, Restamp(p.flight)) || Enabled(s, Recheck(p.flight)) || Enabled(s, Keep(p.flight))
                    || Enabled(s, Close(p.flight)) || Enabled(s, Reply(p.flight, answer))))
  {
    Reachable(cfg, start, actions);
    var s := Exec(cfg, start, actions).value;
    hide EntryOk, LogOk, WellFormed, Exec, Enabled, FlightOk, OpenOk;
    assert PhaseOk(cfg, s, c);
    var p := s.callers[c];
    if p.Waiting? || p.Leading? {
      assert FlightOk(cfg, s, p.flight);
      hide *;
      FlightCanMove(cfg, s, p.flight, answer);
    }
    hide *;
    CallerCanMove(cfg, s, c);
  }

  /** A caller that is in no open flight can take a step itself. */
  lemma CallerCanMove(cfg: Config, s: Sys, c: nat)
    requires c in s.callers && PhaseOk(cfg, s, c)
    ensures match s.callers[c]
            case Stamped(_, _) => Enabled(s, FastGet(c))
            case Missed(_, _) => Enabled(s, Join(c))
            case Waiting(_, _, f) =>
              f < |s.flights| && (s.flights[f].closedAt.Some? && s.flights[f].stage.Settled? ==> Enabled(s, Deliver(c)))
            case Leading(_, _, f) =>
              f < |s.flights| && (s.flights[f].closedAt.Some? && s.flights[f].stage.Settled? ==> Enabled(s, Deliver(c)))
            case Returned(_, _, _, _, _) => true
  {}

  /** An open flight can take a step; a closed one has a result to deliver. */
  lemma FlightCanMove(cfg: Config, s: Sys, f: nat, answer: Answer)
    requires f < |s.flights| && FlightOk(cfg, s, f)
    ensures s.flights[f].closedAt.None? ==>
              || Enabled(s, Restamp(f)) || Enabled(s, Recheck(f)) || Enabled(s, Keep(f))
              || Enabled(s, Close(f)) || Enabled(s, Reply(f, answer))
    ensures s.flights[f].closedAt.Some? ==> s.flights[f].stage.Settled?
  {}

  // ---- no livelock ----

  function PhaseRank(p: Phase): nat {
    match p
    case Stamped(_, _) => 1
    case Missed(_, _) => 2
    case Waiting(_, _, _) => 3
    case Leading(_, _, _) => 3
    case Returned(_, _, _, _, _) => 4
  }

  function StageRank(stage: Stage): nat {
    match stage
    case Opened => 0
    case Restamped(_) => 1
    case Calling(_, _, _) => 2
    case Answered(_, _) => 3
    case Settled(_, _, _, _) => 4
  }

  function FlightRank(fl: Flight): nat {
    if fl.closedAt.Some? then 5 else StageRank(fl.stage)
  }

  /** The callers, and the flights, that have come at least so far. */
  function CallersAt(s: Sys, rank: nat): set<nat> {
    set c | c in s.callers && PhaseRank(s.callers[c]) >= rank
  }

  function FlightsAt(s: Sys, rank: nat): set<nat> {
    set f | 0 <= f < |s.flights| && FlightRank(s.flights[f]) >= rank
  }

  function CallerProgress(s: Sys): nat {
    |CallersAt(s, 1)| + |CallersAt(s, 2)| + |CallersAt(s, 3)| + |CallersAt(s, 4)|
  }

  function FlightProgress(s: Sys): nat {
    |FlightsAt(s, 1)| + |FlightsAt(s, 2)| + |FlightsAt(s, 3)| + |FlightsAt(s, 4)| + |FlightsAt(s, 5)|
  }

  lemma SubsetSize<T>(a: set<T>, b: set<T>)
    requires a <= b
    ensures |a| <= |b| && (|a| == |b| ==> a == b)
  {
    assert b == a + (b - a);
  }

  ghost predicate FlightsKeepRank(s: Sys, s': Sys) {
    && |s.flights| <= |s'.flights|
    && (forall f :: 0 <= f < |s.flights| ==> FlightRank(s.flights[f]) <= FlightRank(s'.flights[f]))
  }

  /** Nobody falls back. */
  ghost predicate NoneFallsBack(s: Sys, s': Sys) {
    && (forall c <- s.callers :: c in s'.callers && PhaseRank(s.callers[c]) <= PhaseRank(s'.callers[c]))
    && FlightsKeepRank(s, s')
  }

  ghost predicate CallerRises(s: Sys, s': Sys, c: nat) {
    c in s'.callers && (c in s.callers ==> PhaseRank(s.callers[c]) < PhaseRank(s'.callers[c]))
  }

  ghost predicate FlightRises(s: Sys, s': Sys, f: nat) {
    f < |s.flights| && f < |s'.flights| && FlightRank(s.flights[f]) < FlightRank(s'.flights[f])
  }

  lemma LevelsGrow(s: Sys, s': Sys, rank: nat)
    requires NoneFallsBack(s, s')
    ensures |CallersAt(s, rank)| <= |CallersAt(s', rank)| && |FlightsAt(s, rank)| <= |FlightsAt(s', rank)|
  {
    SubsetSize(CallersAt(s, rank), CallersAt(s', rank));
    SubsetSize(FlightsAt(s, rank), FlightsAt(s', rank));
  }

  lemma AllLevelsGrow(s: Sys, s': Sys)
    requires NoneFallsBack(s, s')
    ensures forall rank: nat :: |CallersAt(s, rank)| <= |CallersAt(s', rank)|
    ensures forall rank: nat :: |FlightsAt(s, rank)| <= |FlightsAt(s', rank)|
  {
    forall rank: nat
      ensures |CallersAt(s, rank)| <= |CallersAt(s', rank)| && |FlightsAt(s, rank)| <= |FlightsAt(s', rank)|
    {
      LevelsGrow(s, s', rank);
    }
  }

  lemma CallerRaisesLevel(s: Sys, s': Sys, c: nat)
    requires NoneFallsBack(s, s') && CallerRises(s, s', c)
    ensures |CallersAt(s, PhaseRank(s'.callers[c]))| < |CallersAt(s', PhaseRank(s'.callers[c]))|
  {
    var rank := PhaseRank(s'.callers[c]);
    SubsetSize(CallersAt(s, rank), CallersAt(s', rank));
    assert c in CallersAt(s', rank) && c !in CallersAt(s, rank);
  }

  lemma FlightRaisesLevel(s: Sys, s': Sys, f: nat)
    requires NoneFallsBack(s, s') && FlightRises(s, s', f)
    ensures |FlightsAt(s, FlightRank(s'.flights[f]))| < |FlightsAt(s', FlightRank(s'.flights[f]))|
  {
    var rank := FlightRank(s'.flights[f]);
    SubsetSize(FlightsAt(s, rank), FlightsAt(s', rank));
    assert f in FlightsAt(s', rank) && f !in FlightsAt(s, rank);
  }

  /** Only an open flight moves. */
  lemma StagesAreOpen(cfg: Config, s: Sys, a: Action)
    requires Inv(cfg, s) && Enabled(s, a)
    ensures a.Restamp? || a.Recheck? || a.Reply? || a.Keep? ==> s.flights[a.f].closedAt.None?
  {
    if a.Restamp? || a.Recheck? || a.Reply? || a.Keep? {
      assert FlightOk(cfg, s, a.f);
    }
  }

  predicate OfCaller(a: Action) {
    a.Stamp? || a.FastGet? || a.Join? || a.Deliver?
  }

  /** Every step but the clock's takes its caller or its flight further. */
  lemma StepRaises(cfg: Config, s: Sys, a: Action)
    requires Inv(cfg, s) && Enabled(s, a)
    ensures var s' := Apply(cfg, s, a);
            && NoneFallsBack(s, s')
            && (OfCaller(a) ==> CallerRises(s, s', a.c))
            && (!OfCaller(a) && !a.Tick? ==> FlightRises(s, s', a.f))
  {
    CallersRise(cfg, s, a);
    FlightsRise(cfg, s, a);
  }

  lemma CallersRise(cfg: Config, s: Sys, a: Action)
    requires Inv(cfg, s) && Enabled(s, a)
    ensures var s' := Apply(cfg, s, a);
            && (forall c <- s.callers :: c in s'.callers && PhaseRank(s.callers[c]) <= PhaseRank(s'.callers[c]))
            && (OfCaller(a) ==> CallerRises(s, s', a.c))
  {
    StagesAreOpen(cfg, s, a);
    OneCallerMoves(cfg, s, a);
    hide Inv, Apply;
  }

  lemma FlightsRise(cfg: Config, s: Sys, a: Action)
    requires Inv(cfg, s) && Enabled(s, a)
    ensures var s' := Apply(cfg, s, a);
            && FlightsKeepRank(s, s')
            && (!OfCaller(a) && !a.Tick? ==> FlightRises(s, s', a.f))
  {
    StagesAreOpen(cfg, s, a);
    OneFlightMoves(cfg, s, a);
    var s' := Apply(cfg, s, a);
    hide Inv, Apply, StageMoves, FlightRank, FlightRises;
    match a
    case Join(_) => ListGrows(s, s');
    case Restamp(f) => StageRises(s, s', f);
    case Recheck(f) => StageRises(s, s', f);
    case Reply(f, _) => StageRises(s, s', f);
    case Keep(f) => StageRises(s, s', f);
    case Close(f) => ClosingRises(s, s', f);
    case _ => ListGrows(s, s');
  }

  lemma ListGrows(s: Sys, s': Sys)
    requires s.flights <= s'.flights
    ensures FlightsKeepRank(s, s')
  {
    hide FlightRank;
  }

  lemma StageRises(s: Sys, s': Sys, f: nat)
    requires f < |s.flights| && s.flights[f].closedAt.None? && StageMoves(s, s', f)
    requires StageRank(s.flights[f].stage) < StageRank(s'.flights[f].stage)
    ensures FlightsKeepRank(s, s') && FlightRises(s, s', f)
  {
    hide StageRank;
  }

  lemma ClosingRises(s: Sys, s': Sys, f: nat)
    requires f < |s.flights| && s.flights[f].closedAt.None?
    requires s'.flights == s.flights[f := s.flights[f].(closedAt := Some(s.now))]
    ensures FlightsKeepRank(s, s') && FlightRises(s, s', f)
  {}

  /** The number of steps other than the clock's. */
  function Moves(actions: seq<Action>): nat {
    if actions == [] then 0
    else Moves(actions[..|actions| - 1]) + (if actions[|actions| - 1].Tick? then 0 else 1)
  }

  lemma StepProgresses(cfg: Config, s: Sys, a: Action)
    requires Inv(cfg, s) && Enabled(s, a)
    ensures var s' := Apply(cfg, s, a);
            CallerProgress(s') + FlightProgress(s')
              >= CallerProgress(s) + FlightProgress(s) + (if a.Tick? then 0 else 1)
  {
    var s' := Apply(cfg, s, a);
    StepRaises(cfg, s, a);
    hide *;
    SumsGrow(s, s');
    if OfCaller(a) {
      CallerSumRises(s, s', a.c);
    } else if !a.Tick? {
      FlightSumRises(s, s', a.f);
    }
  }

  lemma SumsGrow(s: Sys, s': Sys)
    requires NoneFallsBack(s, s')
    ensures CallerProgress(s') >= CallerProgress(s) && FlightProgress(s') >= FlightProgress(s)
  {
    AllLevelsGrow(s, s');
    hide NoneFallsBack, CallersAt, FlightsAt;
  }

  lemma CallerSumRises(s: Sys, s': Sys, c: nat)
    requires NoneFallsBack(s, s') && CallerRises(s, s', c)
    ensures CallerProgress(s') > CallerProgress(s)
  {
    AllLevelsGrow(s, s');
    CallerRaisesLevel(s, s', c);
    hide NoneFallsBack, CallersAt, FlightsAt;
    assert 1 <= PhaseRank(s'.callers[c]) <= 4;
  }

  lemma FlightSumRises(s: Sys, s': Sys, f: nat)
    requires NoneFallsBack(s, s') && FlightRises(s, s', f)
    ensures FlightProgress(s') > FlightProgress(s)
  {
    AllLevelsGrow(s, s');
    FlightRaisesLevel(s, s', f);
    hide NoneFallsBack, CallersAt, FlightsAt;
    assert 1 <= FlightRank(s'.flights[f]) <= 5;
  }

  /** Every flight was opened by a caller of its own. */
  lemma FlightsStayFew(cfg: Config, s: Sys, a: Action)
    requires Inv(cfg, s) && Enabled(s, a) && |s.flights| <= |CallersAt(s, 3)|
    ensures |Apply(cfg, s, a).flights| <= |CallersAt(Apply(cfg, s, a), 3)|
  {
    var s' := Apply(cfg, s, a);
    StepRaises(cfg, s, a);
    OneFlightMoves(cfg, s, a);
    OneCallerMoves(cfg, s, a);
    hide Inv, Apply;
    LevelsGrow(s, s', 3);
    if a.Join? {
      CallerRaisesLevel(s, s', a.c);
    }
  }

  lemma {:induction false} MovesAreProgress(cfg: Config, start: Instant, actions: seq<Action>)
    requires Exec(cfg, start, actions).Some?
    ensures var s := Exec(cfg, start, actions).value;
            Moves(actions) <= CallerProgress(s) + FlightProgress(s) && |s.flights| <= |CallersAt(s, 3)|
  {
    if actions != [] {
      var before, a := actions[..|actions| - 1], actions[|actions| - 1];
      MovesAreProgress(cfg, start, before);
      Reachable(cfg, start, before);
      var s := Exec(cfg, start, before).value;
      hide CallerProgress, FlightProgress, CallersAt, Inv;
      StepProgresses(cfg, s, a);
      FlightsStayFew(cfg, s, a);
    }
  }

  lemma {:induction false} BelowSize(a: set<nat>, n: nat)
    requires forall f <- a :: f < n
    ensures |a| <= n
  {
    if n > 0 {
      BelowSize(a - {n - 1}, n - 1);
      assert a <= (a - {n - 1}) + {n - 1};
      SubsetSize(a, (a - {n - 1}) + {n - 1});
    } else {
      assert a == {};
    }
  }

  lemma LevelsAreSmall(s: Sys, rank: nat)
    ensures |CallersAt(s, rank)| <= |s.callers| && |FlightsAt(s, rank)| <= |s.flights|
  {
    SubsetSize(CallersAt(s, rank), s.callers.Keys);
    BelowSize(FlightsAt(s, rank), |s.flights|);
  }

  /** No livelock: in every interleaving each call of `resolve` accounts for at most
      four steps and each flight for at most five, and there are no more flights than
      calls. */
  lemma StepsAreBounded(cfg: Config, start: Instant, actions: seq<Action>)
    requires Exec(cfg, start, actions).Some?
    ensures var s := Exec(cfg, start, actions).value;
            && Moves(actions) <= 4 * |s.callers| + 5 * |s.flights|
            && |s.flights| <= |s.callers|
  {
    MovesAreProgress(cfg, start, actions);
    var s := Exec(cfg, start, actions).value;
    hide CallersAt, FlightsAt, Exec;
    forall rank: nat ensures |CallersAt(s, rank)| <= |s.callers| && |FlightsAt(s, rank)| <= |s.flights| {
      LevelsAreSmall(s, rank);
    }
  }

  // ---- every call can return ----

  /** The next step of an open flight; the introspector's answer is given. */
  function NextOf(s: Sys, f: nat, answer: Answer): Action
    requires f < |s.flights|
  {
    match s.flights[f].stage
    case Opened => Restamp(f)
    case Restamped(_) => Recheck(f)
    case Calling(_, _, _) => Reply(f, answer)
    case Answered(_, _) => Keep(f)
    case Settled(_, _, _, _) => Close(f)
  }

  lemma FlightMoves(cfg: Config, s: Sys, f: nat, answer: Answer)
    requires Inv(cfg, s) && f < |s.flights| && s.flights[f].closedAt.None?
    ensures var a := NextOf(s, f, answer);
            && Enabled(s, a)
            && var s' := Apply(cfg, s, a);
               && Inv(cfg, s') && s'.callers == s.callers
               && f < |s'.flights| && FlightRank(s'.flights[f]) > FlightRank(s.flights[f])
  {
    var a := NextOf(s, f, answer);
    assert FlightOk(cfg, s, f);
    assert Enabled(s, a);
    hide FlightRank, FlightOk, Inv, Apply, Enabled;
    StepKeeps(cfg, s, a);
    OneCallerMoves(cfg, s, a);
    StepRaises(cfg, s, a);
  }

  /** An open flight can be brought to its end without anything else happening. */
  lemma {:induction false} FlightEnds(cfg: Config, s0: Sys, s: Sys, f: nat, answer: Answer) returns (s': Sys)
    requires Reaches(cfg, s0, s) && Inv(cfg, s) && f < |s.flights|
    ensures Reaches(cfg, s0, s') && Inv(cfg, s') && s'.callers == s.callers
    ensures f < |s'.flights| && s'.flights[f].closedAt.Some?
    decreases 5 - FlightRank(s.flights[f])
  {
    s' := s;
    if s.flights[f].closedAt.None? {
      FlightMoves(cfg, s, f, answer);
      var a := NextOf(s, f, answer);
      hide Reaches, Inv, Apply, Enabled;
      OneMoreStep(cfg, s0, s, a);
      s' := FlightEnds(cfg, s0, Apply(cfg, s, a), f, answer);
    }
  }

  /** One step of a caller that can take it. */
  lemma CallerSteps(cfg: Config, s0: Sys, s: Sys, a: Action) returns (s': Sys)
    requires Reaches(cfg, s0, s) && Inv(cfg, s) && Enabled(s, a) && OfCaller(a) && a.c in s.callers
    ensures s' == Apply(cfg, s, a) && Reaches(cfg, s0, s') && Inv(cfg, s')
    ensures a.c in s'.callers && s'.callers == s.callers[a.c := s'.callers[a.c]]
    ensures PhaseRank(s'.callers[a.c]) > PhaseRank(s.callers[a.c])
  {
    hide Reaches, Inv, Apply, Enabled;
    s' := Apply(cfg, s, a);
    StepKeeps(cfg, s, a);
    OneMoreStep(cfg, s0, s, a);
    OneCallerMoves(cfg, s, a);
    StepRaises(cfg, s, a);
  }

  /** A call can return, without any other call being affected. */
  lemma {:induction false} CallReturns(cfg: Config, s0: Sys, s: Sys, c: nat, answer: Answer) returns (s': Sys)
    requires Reaches(cfg, s0, s) && Inv(cfg, s) && c in s.callers
    ensures Reaches(cfg, s0, s') && Inv(cfg, s')
    ensures c in s'.callers && s'.callers[c].Returned? && s'.callers == s.callers[c := s'.callers[c]]
    decreases 4 - PhaseRank(s.callers[c])
  {
    assert PhaseOk(cfg, s, c);
    CallerCanMove(cfg, s, c);
    hide Reaches, Inv, Apply, PhaseOk;
    match s.callers[c]
    case Stamped(_, _) =>
      s' := CallerSteps(cfg, s0, s, FastGet(c));
      s' := CallReturns(cfg, s0, s', c, answer);
    case Missed(_, _) =>
      s' := CallerSteps(cfg, s0, s, Join(c));
      s' := CallReturns(cfg, s0, s', c, answer);
    case Waiting(_, _, f) => s' := JoinedReturns(cfg, s0, s, c, f, answer);
    case Leading(_, _, f) => s' := JoinedReturns(cfg, s0, s, c, f, answer);
    case Returned(_, _, _, _, _) => s' := s;
  }

  lemma JoinedReturns(cfg: Config, s0: Sys, s: Sys, c: nat, f: nat, answer: Answer) returns (s': Sys)
    requires Reaches(cfg, s0, s) && Inv(cfg, s) && c in s.callers
    requires Joined(s.callers[c]) && s.callers[c].flight == f < |s.flights|
    ensures Reaches(cfg, s0, s') && Inv(cfg, s')
    ensures c in s'.callers && s'.callers[c].Returned? && s'.callers == s.callers[c := s'.callers[c]]
  {
    var s1 := FlightEnds(cfg, s0, s, f, answer);
    assert FlightOk(cfg, s1, f);
    FlightCanMove(cfg, s1, f, answer);
    hide Reaches, Inv;
    s' := CallerSteps(cfg, s0, s1, Deliver(c));
  }

  function Unreturned(s: Sys): set<nat> {
    set c | c in s.callers && !s.callers[c].Returned?
  }

  lemma {:induction false} AllReturn(cfg: Config, s0: Sys, s: Sys, answer: Answer) returns (s': Sys)
    requires Reaches(cfg, s0, s) && Inv(cfg, s)
    ensures Reaches(cfg, s0, s') && s'.callers.Keys == s.callers.Keys
    ensures forall c <- s'.callers :: s'.callers[c].Returned?
    decreases |Unreturned(s)|
  {
    hide Reaches, Inv;
    if Unreturned(s) == {} {
      s' := s;
      forall c | c in s.callers ensures s.callers[c].Returned? {
        assert c !in Unreturned(s);
      }
    } else {
      var c :| c in Unreturned(s);
      s' := CallReturns(cfg, s0, s, c, answer);
      assert Unreturned(s') == Unreturned(s) - {c};
      s' := AllReturn(cfg, s0, s', answer);
    }
  }

  /** Whatever has happened so far and whatever the introspector answers from now on,
      some steps lead to a state in which every call there was has returned. As there are
      only so many steps to make, calls that keep moving come to this end. */
  lemma EveryCallCanReturn(cfg: Config, start: Instant, actions: seq<Action>, answer: Answer)
    returns (more: seq<Action>)
    requires Exec(cfg, start, actions).Some?
    ensures var s := Exec(cfg, start, actions).value;
            && Steps(cfg, s, more).Some?
            && var s' := Steps(cfg, s, more).value;
               s'.callers.Keys == s.callers.Keys && forall c <- s'.callers :: s'.callers[c].Returned?
  {
    Reachable(cfg, start, actions);
    var s := Exec(cfg, start, actions).value;
    assert Steps(cfg, s, []) == Some(s);
    var s' := AllReturn(cfg, s, s, answer);
    more :| Steps(cfg, s, more) == Some(s');
  }
}
