/** Policies and their combinators (policy.go).

    A policy is a tree of `All` and `Any` over leaf policies. What a leaf answers is
    arbitrary and may even depend on which leaves were called before it; evaluating
    a tree yields the error returned and the leaves called, in order. */
module Policies {
  import opened Wrappers
  import opened AuthTypes

  datatype Policy =
    | NilPolicy
    | Leaf(id: nat)
    | AllOf(members: seq<Policy>)
    | AnyOf(members: seq<Policy>)

  type Env = (nat, seq<nat>) -> Option<Error>

  datatype Verdict = Verdict(err: Option<Error>, calls: seq<nat>)

  /** `Forbidden("no policies registered for Any composition on ...")`. */
  const NO_POLICIES := Error(false, true, None, "no policies registered for Any composition")

  /** Calling a policy; nil members are skipped by the combinators, never called. */
  function Eval(p: Policy, env: Env, calls: seq<nat>): Verdict
    requires !p.NilPolicy?
    decreases p, 1
  {
    match p
    case Leaf(id) => Verdict(env(id, calls), calls + [id])
    case AllOf(ps) => EvalAll(ps, env, calls)
    case AnyOf(ps) => if ps == [] then Verdict(Some(NO_POLICIES), calls) else AnyVerdict(ScanAny(ps, None, env, calls))
  }

  function EvalAll(ps: seq<Policy>, env: Env, calls: seq<nat>): Verdict
    decreases ps, 0
  {
    if ps == [] then Verdict(None, calls)
    else if ps[0].NilPolicy? then EvalAll(ps[1..], env, calls)
    else
      var v := Eval(ps[0], env, calls);
      if v.err.Some? then v else EvalAll(ps[1..], env, v.calls)
  }

  /** How far `Any` got: whether some member allowed, and the last error so far. */
  datatype Scan = Scan(allowed: bool, last: Option<Error>, calls: seq<nat>)

  function ScanAny(ps: seq<Policy>, last: Option<Error>, env: Env, calls: seq<nat>): Scan
    decreases ps, 0
  {
    if ps == [] then Scan(false, last, calls)
    else if ps[0].NilPolicy? then ScanAny(ps[1..], last, env, calls)
    else
      var v := Eval(ps[0], env, calls);
      if v.err.None? then Scan(true, last, v.calls) else ScanAny(ps[1..], v.err, env, v.calls)
  }

  function AnyVerdict(s: Scan): Verdict {
    Verdict(if s.allowed then None else s.last, s.calls)
  }

  /** The loop of `All`. */
  method CallAll(ps: seq<Policy>, env: Env, calls: seq<nat>) returns (v: Verdict)
    ensures v == EvalAll(ps, env, calls)
  {
    var done := calls;
    for i := 0 to |ps|
      invariant EvalAll(ps, env, calls) == EvalAll(ps[i..], env, done)
    {
      if ps[i].NilPolicy? {
        continue;
      }
      var r := Eval(ps[i], env, done);
      if r.err.Some? {
        return r;
      }
      done := r.calls;
    }
    return Verdict(None, done);
  }

  /** The loop of `Any`. */
  method CallAny(ps: seq<Policy>, env: Env, calls: seq<nat>) returns (v: Verdict)
    ensures v == Eval(AnyOf(ps), env, calls)
  {
    if |ps| == 0 {
      return Verdict(Some(NO_POLICIES), calls);
    }
    var last, done := None, calls;
    for i := 0 to |ps|
      invariant ScanAny(ps, None, env, calls) == ScanAny(ps[i..], last, env, done)
    {
      if ps[i].NilPolicy? {
        continue;
      }
      var r := Eval(ps[i], env, done);
      if r.err.None? {
        return r;
      }
      last, done := r.err, r.calls;
    }
    return Verdict(last, done);
  }

  predicate HasNonNil(ps: seq<Policy>) {
    exists i :: 0 <= i < |ps| && !ps[i].NilPolicy?
  }

  function NonNil(ps: seq<Policy>): seq<Policy> {
    if ps == [] then []
    else if ps[0].NilPolicy? then NonNil(ps[1..])
    else [ps[0]] + NonNil(ps[1..])
  }

  // ---- sequencing ----

  lemma {:induction false} EvalAllAppend(xs: seq<Policy>, ys: seq<Policy>, env: Env, calls: seq<nat>)
    ensures var v := EvalAll(xs, env, calls);
            EvalAll(xs + ys, env, calls) == if v.err.Some? then v else EvalAll(ys, env, v.calls)
  {
    if xs == [] {
      assert xs + ys == ys;
    } else {
      assert (xs + ys)[1..] == xs[1..] + ys;
      EvalAllAppend(xs[1..], ys, env, if xs[0].NilPolicy? then calls else Eval(xs[0], env, calls).calls);
    }
  }

  lemma {:induction false} ScanAnyAppend(
      xs: seq<Policy>, ys: seq<Policy>, last: Option<Error>, env: Env, calls: seq<nat>)
    ensures var s := ScanAny(xs, last, env, calls);
            ScanAny(xs + ys, last, env, calls) == if s.allowed then s else ScanAny(ys, s.last, env, s.calls)
  {
    if xs == [] {
      assert xs + ys == ys;
    } else {
      assert (xs + ys)[1..] == xs[1..] + ys;
      if xs[0].NilPolicy? {
        ScanAnyAppend(xs[1..], ys, last, env, calls);
      } else {
        var v := Eval(xs[0], env, calls);
        ScanAnyAppend(xs[1..], ys, v.err, env, v.calls);
      }
    }
  }

  // ---- when a composite allows ----

  /** The calls made before `All` reaches member i. */
  function Before(ps: seq<Policy>, i: nat, env: Env, calls: seq<nat>): seq<nat>
    requires i <= |ps|
  {
    EvalAll(ps[..i], env, calls).calls
  }

  /** `All` allows iff every non-nil member, called in turn, allows. */
  lemma {:induction false} AllAllowsIff(ps: seq<Policy>, env: Env, calls: seq<nat>)
    ensures EvalAll(ps, env, calls).err.None? <==>
              forall i :: 0 <= i < |ps| && !ps[i].NilPolicy? ==> Eval(ps[i], env, Before(ps, i, env, calls)).err.None?
  {
    if ps != [] {
      var n := |ps| - 1;
      AllAllowsIff(ps[..n], env, calls);
      assert ps == ps[..n] + [ps[n]];
      EvalAllAppend(ps[..n], [ps[n]], env, calls);
      assert forall i :: 0 <= i <= n ==> ps[..n][..i] == ps[..i];
      assert forall i :: 0 <= i < n ==>
        ps[..n][i] == ps[i] && Before(ps[..n], i, env, calls) == Before(ps, i, env, calls);
      var v := EvalAll(ps[..n], env, calls);
      assert [ps[n]][1..] == [];
      assert EvalAll([ps[n]], env, v.calls) ==
        if ps[n].NilPolicy? then Verdict(None, v.calls) else Eval(ps[n], env, v.calls);
      assert Before(ps, n, env, calls) == v.calls;
      if !ps[n].NilPolicy? && v.err.None? {
        var w := Eval(ps[n], env, v.calls);
        assert EvalAll(ps, env, calls).err == w.err;
      }
    }
  }

  /** The state of `Any` when it reaches member i. */
  function ScanBefore(ps: seq<Policy>, i: nat, env: Env, calls: seq<nat>): Scan
    requires i <= |ps|
  {
    ScanAny(ps[..i], None, env, calls)
  }

  /** Member i is reached and allows. */
  predicate AllowsAt(ps: seq<Policy>, i: nat, env: Env, calls: seq<nat>)
    requires i < |ps|
  {
    var s := ScanBefore(ps, i, env, calls);
    !s.allowed && !ps[i].NilPolicy? && Eval(ps[i], env, s.calls).err.None?
  }

  lemma {:induction false} ScanAllowsIff(ps: seq<Policy>, env: Env, calls: seq<nat>)
    ensures ScanAny(ps, None, env, calls).allowed <==> exists i :: 0 <= i < |ps| && AllowsAt(ps, i, env, calls)
  {
    if ps != [] {
      var n := |ps| - 1;
      ScanAllowsIff(ps[..n], env, calls);
      assert ps == ps[..n] + [ps[n]];
      ScanAnyAppend(ps[..n], [ps[n]], None, env, calls);
      forall i | 0 <= i < n ensures AllowsAt(ps[..n], i, env, calls) == AllowsAt(ps, i, env, calls) {
        assert ps[..n][..i] == ps[..i];
      }
      var s := ScanAny(ps[..n], None, env, calls);
      assert [ps[n]][1..] == [];
      assert ScanBefore(ps, n, env, calls) == s;
      if AllowsAt(ps, n, env, calls) || (exists i :: 0 <= i < n && AllowsAt(ps[..n], i, env, calls)) {
        assert ScanAny(ps, None, env, calls).allowed;
      }
      if s.allowed {
        var i :| 0 <= i < n && AllowsAt(ps[..n], i, env, calls);
        assert AllowsAt(ps, i, env, calls);
      }
    }
  }

  lemma {:induction false} NilsScanNothing(ps: seq<Policy>, last: Option<Error>, env: Env, calls: seq<nat>)
    requires !HasNonNil(ps)
    ensures ScanAny(ps, last, env, calls) == Scan(false, last, calls)
    ensures EvalAll(ps, env, calls) == Verdict(None, calls)
  {
    if ps != [] {
      NilsScanNothing(ps[1..], last, env, calls);
    }
  }

  lemma {:induction false} ScanKeepsAnError(ps: seq<Policy>, last: Option<Error>, env: Env, calls: seq<nat>)
    requires HasNonNil(ps) || last.Some?
    ensures var s := ScanAny(ps, last, env, calls); s.allowed || s.last.Some?
  {
    if ps != [] {
      if ps[0].NilPolicy? {
        if HasNonNil(ps) {
          var i :| 0 <= i < |ps| && !ps[i].NilPolicy?;
          assert !ps[1..][i - 1].NilPolicy?;
        }
        ScanKeepsAnError(ps[1..], last, env, calls);
      } else {
        var v := Eval(ps[0], env, calls);
        if v.err.Some? {
          ScanKeepsAnError(ps[1..], v.err, env, v.calls);
        }
      }
    }
  }

  /** `Any` allows iff some member is reached and allows, or it has members and all
      of them are nil. The second case is not "at least one allows": an `Any` of
      nothing but nils lets every call through. */
  lemma AnyAllowsIff(ps: seq<Policy>, env: Env, calls: seq<nat>)
    ensures Eval(AnyOf(ps), env, calls).err.None? <==>
              (exists i :: 0 <= i < |ps| && AllowsAt(ps, i, env, calls)) || (ps != [] && !HasNonNil(ps))
  {
    ScanAllowsIff(ps, env, calls);
    if HasNonNil(ps) {
      ScanKeepsAnError(ps, None, env, calls);
    } else {
      NilsScanNothing(ps, None, env, calls);
    }
  }

  /** Member i refuses and `All` stops there: the members before it allow, and its error
      and calls are those of the whole. */
  predicate StopsAt(ps: seq<Policy>, i: nat, env: Env, calls: seq<nat>)
    requires i < |ps|
  {
    && !ps[i].NilPolicy?
    && EvalAll(ps[..i], env, calls).err.None?
    && EvalAll(ps, env, calls) == Eval(ps[i], env, Before(ps, i, env, calls))
  }

  /** A refusal by `All` is that of its first member to refuse; no later one is called. */
  lemma {:induction false} AllReportsFirst(ps: seq<Policy>, env: Env, calls: seq<nat>) returns (i: nat)
    requires EvalAll(ps, env, calls).err.Some?
    ensures i < |ps| && StopsAt(ps, i, env, calls)
  {
    var n := |ps| - 1;
    var v := EvalAll(ps[..n], env, calls);
    assert ps == ps[..n] + [ps[n]];
    EvalAllAppend(ps[..n], [ps[n]], env, calls);
    if v.err.Some? {
      i := AllReportsFirst(ps[..n], env, calls);
      assert ps[..n][..i] == ps[..i];
    } else {
      i := n;
      assert [ps[n]][1..] == [];
      assert EvalAll([ps[n]], env, v.calls).err == if ps[n].NilPolicy? then None else Eval(ps[n], env, v.calls).err;
    }
  }

  /** A refusal by `Any` is that of its last non-nil member. */
  lemma {:induction false} AnyReportsLast(ps: seq<Policy>, env: Env, calls: seq<nat>) returns (i: nat)
    requires HasNonNil(ps) && !ScanAny(ps, None, env, calls).allowed
    ensures i < |ps| && !ps[i].NilPolicy? && (forall j :: i < j < |ps| ==> ps[j].NilPolicy?)
    ensures Eval(AnyOf(ps), env, calls) == Eval(ps[i], env, ScanBefore(ps, i, env, calls).calls)
  {
    var n := |ps| - 1;
    assert ps == ps[..n] + [ps[n]];
    ScanAnyAppend(ps[..n], [ps[n]], None, env, calls);
    var s := ScanAny(ps[..n], None, env, calls);
    assert [ps[n]][1..] == [];
    if ps[n].NilPolicy? {
      var k :| 0 <= k < |ps| && !ps[k].NilPolicy?;
      assert !ps[..n][k].NilPolicy?;
      i := AnyReportsLast(ps[..n], env, calls);
      assert ps[..n][..i] == ps[..i];
      assert forall j :: i < j < n ==> ps[..n][j] == ps[j];
    } else {
      i := n;
    }
  }

  // ---- rewriting ----

  /** An `All` inside an `All` can be spliced in place: same error, same calls. */
  lemma FlattenAll(xs: seq<Policy>, ys: seq<Policy>, zs: seq<Policy>, env: Env, calls: seq<nat>)
    ensures EvalAll(xs + [AllOf(ys)] + zs, env, calls) == EvalAll(xs + ys + zs, env, calls)
  {
    hide Eval, EvalAll;
    EvalAllAppend(xs + [AllOf(ys)], zs, env, calls);
    EvalAllAppend(xs, [AllOf(ys)], env, calls);
    EvalAllAppend(xs + ys, zs, env, calls);
    EvalAllAppend(xs, ys, env, calls);
    SingleAll(ys, env, EvalAll(xs, env, calls).calls);
  }

  lemma SingleAll(ys: seq<Policy>, env: Env, calls: seq<nat>)
    ensures EvalAll([AllOf(ys)], env, calls) == EvalAll(ys, env, calls)
  {}

  /** Nil members can be dropped from an `All`. */
  lemma {:induction false} DropNils(ps: seq<Policy>, env: Env, calls: seq<nat>)
    ensures EvalAll(NonNil(ps), env, calls) == EvalAll(ps, env, calls)
  {
    if ps != [] {
      if ps[0].NilPolicy? {
        DropNils(ps[1..], env, calls);
      } else {
        var rest := NonNil(ps[1..]);
        DropNils(ps[1..], env, Eval(ps[0], env, calls).calls);
        assert ([ps[0]] + rest)[1..] == rest;
      }
    }
  }

  /** With a non-nil member, what was the last error before does not matter. */
  lemma {:induction false} ScanForgetsLast(
      ps: seq<Policy>, last: Option<Error>, last': Option<Error>, env: Env, calls: seq<nat>)
    requires HasNonNil(ps)
    ensures var s, s' := ScanAny(ps, last, env, calls), ScanAny(ps, last', env, calls);
            s.allowed == s'.allowed && s.calls == s'.calls && (!s.allowed ==> s.last == s'.last && s.last.Some?)
  {
    if ps[0].NilPolicy? {
      var i :| 0 <= i < |ps| && !ps[i].NilPolicy?;
      assert !ps[1..][i - 1].NilPolicy?;
      ScanForgetsLast(ps[1..], last, last', env, calls);
    } else {
      var v := Eval(ps[0], env, calls);
      if v.err.Some? {
        ScanKeepsAnError(ps[1..], v.err, env, v.calls);
      }
    }
  }

  lemma SingleAny(ys: seq<Policy>, last: Option<Error>, env: Env, calls: seq<nat>)
    ensures var v := Eval(AnyOf(ys), env, calls);
            ScanAny([AnyOf(ys)], last, env, calls)
            == if v.err.None? then Scan(true, last, v.calls) else Scan(false, v.err, v.calls)
  {}

  /** An `Any` with a non-nil member can be spliced into an enclosing `Any`. */
  lemma FlattenAny(xs: seq<Policy>, ys: seq<Policy>, zs: seq<Policy>, env: Env, calls: seq<nat>)
    requires HasNonNil(ys)
    ensures Eval(AnyOf(xs + [AnyOf(ys)] + zs), env, calls) == Eval(AnyOf(xs + ys + zs), env, calls)
  {
    hide ScanAny;
    var nested, flat := xs + [AnyOf(ys)] + zs, xs + ys + zs;
    assert nested != [] && flat != [];
    ScanAnyAppend(xs + [AnyOf(ys)], zs, None, env, calls);
    ScanAnyAppend(xs, [AnyOf(ys)], None, env, calls);
    ScanAnyAppend(xs + ys, zs, None, env, calls);
    ScanAnyAppend(xs, ys, None, env, calls);
    var s := ScanAny(xs, None, env, calls);
    SingleAny(ys, s.last, env, s.calls);
    ScanForgetsLast(ys, s.last, None, env, s.calls);
  }

  /** Two rewritings mean the same in every context and environment. */
  ghost predicate SameAny(ys: seq<Policy>) {
    forall xs: seq<Policy>, zs: seq<Policy>, env: Env, calls: seq<nat> ::
      Eval(AnyOf(xs + [AnyOf(ys)] + zs), env, calls) == Eval(AnyOf(xs + ys + zs), env, calls)
  }

  /** Without a non-nil member splicing changes what the enclosing `Any` returns. */
  lemma FlattenAnyDiffers(ys: seq<Policy>)
    returns (xs: seq<Policy>, zs: seq<Policy>, env: Env, calls: seq<nat>)
    requires !HasNonNil(ys)
    ensures Eval(AnyOf(xs + [AnyOf(ys)] + zs), env, calls) != Eval(AnyOf(xs + ys + zs), env, calls)
  {
    var refusal := Error(true, false, None, "no");
    env := (id, seen) => Some(refusal);
    calls := [];
    var leaf := Leaf(0);
    assert Eval(leaf, env, []) == Verdict(Some(refusal), [0]);
    assert [leaf][1..] == [];
    assert ScanAny([leaf], None, env, []) == Scan(false, Some(refusal), [0]);
    if ys == [] {
      xs, zs := [leaf], [];
      assert xs + ys + zs == [leaf];
      assert xs + [AnyOf(ys)] + zs == [leaf] + [AnyOf([])];
      ScanAnyAppend([leaf], [AnyOf([])], None, env, []);
      SingleAny([], Some(refusal), env, [0]);
      assert Eval(AnyOf(xs + [AnyOf(ys)] + zs), env, []).err == Some(NO_POLICIES);
      assert Eval(AnyOf(xs + ys + zs), env, []).err == Some(refusal);
    } else {
      xs, zs := [], [leaf];
      assert xs + ys + zs == ys + [leaf];
      assert xs + [AnyOf(ys)] + zs == [AnyOf(ys)] + [leaf];
      NilsScanNothing(ys, None, env, []);
      ScanAnyAppend(ys, [leaf], None, env, []);
      ScanAnyAppend([AnyOf(ys)], [leaf], None, env, []);
      SingleAny(ys, None, env, []);
      assert Eval(AnyOf(xs + [AnyOf(ys)] + zs), env, []).err == None;
      assert Eval(AnyOf(xs + ys + zs), env, []).err == Some(refusal);
    }
  }

  /** A nested `Any` may be spliced exactly when it has a non-nil member. */
  lemma FlattenAnyIff(ys: seq<Policy>)
    ensures SameAny(ys) <==> HasNonNil(ys)
  {
    if HasNonNil(ys) {
      forall xs: seq<Policy>, zs: seq<Policy>, env: Env, calls: seq<nat>
        ensures Eval(AnyOf(xs + [AnyOf(ys)] + zs), env, calls) == Eval(AnyOf(xs + ys + zs), env, calls)
      {
        FlattenAny(xs, ys, zs, env, calls);
      }
    } else {
      var xs, zs, env, calls := FlattenAnyDiffers(ys);
    }
  }

  // ---- normalising whole trees ----

  /** Nested `All`s are spliced and nils dropped from every `All`; in every `Any` that has
      a non-nil member nils are dropped and nested `Any`s that have one are spliced. An
      `Any` of nothing but nils, or of nothing, is left as it is. */
  function Normal(p: Policy): Policy
    decreases p, 1
  {
    match p
    case AllOf(ps) => AllOf(NormalAll(ps))
    case AnyOf(ps) => AnyOf(if HasNonNil(ps) then NormalAny(ps) else ps)
    case _ => p
  }

  function NormalAll(ps: seq<Policy>): seq<Policy>
    decreases ps, 0
  {
    if ps == [] then []
    else
      match ps[0]
      case NilPolicy => NormalAll(ps[1..])
      case AllOf(qs) => NormalAll(qs) + NormalAll(ps[1..])
      case _ => [Normal(ps[0])] + NormalAll(ps[1..])
  }

  function NormalAny(ps: seq<Policy>): seq<Policy>
    decreases ps, 0
  {
    if ps == [] then []
    else if ps[0].NilPolicy? then NormalAny(ps[1..])
    else if ps[0].AnyOf? && HasNonNil(ps[0].members) then NormalAny(ps[0].members) + NormalAny(ps[1..])
    else [Normal(ps[0])] + NormalAny(ps[1..])
  }

  lemma EvalAllCons(p: Policy, ps: seq<Policy>, env: Env, calls: seq<nat>)
    requires !p.NilPolicy?
    ensures EvalAll([p] + ps, env, calls) ==
            (var v := Eval(p, env, calls); if v.err.Some? then v else EvalAll(ps, env, v.calls))
  {
    assert ([p] + ps)[1..] == ps;
  }

  lemma ScanAnyCons(p: Policy, ps: seq<Policy>, last: Option<Error>, env: Env, calls: seq<nat>)
    requires !p.NilPolicy?
    ensures ScanAny([p] + ps, last, env, calls) ==
            (var v := Eval(p, env, calls);
             if v.err.None? then Scan(true, last, v.calls) else ScanAny(ps, v.err, env, v.calls))
  {
    assert ([p] + ps)[1..] == ps;
  }

  /** The same as far as an enclosing `Any` can tell. */
  predicate SameScan(s: Scan, t: Scan) {
    s.allowed == t.allowed && s.calls == t.calls && (!s.allowed ==> s.last == t.last)
  }

  /** A policy and its normal form return the same error and make the same calls. */
  lemma {:induction false} NormalKeepsMeaning(p: Policy, env: Env, calls: seq<nat>)
    requires !p.NilPolicy?
    ensures !Normal(p).NilPolicy? && Eval(Normal(p), env, calls) == Eval(p, env, calls)
    decreases p, 1
  {
    match p
    case Leaf(_) =>
    case AllOf(ps) => NormalAllKeeps(ps, env, calls);
    case AnyOf(ps) =>
      if HasNonNil(ps) {
        NormalAnyKeeps(ps, None, env, calls);
        NormalAnyNotEmpty(ps);
      }
  }

  lemma {:induction false} NormalAllKeeps(ps: seq<Policy>, env: Env, calls: seq<nat>)
    ensures EvalAll(NormalAll(ps), env, calls) == EvalAll(ps, env, calls)
    decreases ps, 0
  {
    if ps != [] {
      match ps[0]
      case NilPolicy => NormalAllKeeps(ps[1..], env, calls);
      case AllOf(qs) =>
        var v := EvalAll(qs, env, calls);
        NormalAllKeeps(qs, env, calls);
        EvalAllAppend(NormalAll(qs), NormalAll(ps[1..]), env, calls);
        NormalAllKeeps(ps[1..], env, v.calls);
      case _ =>
        NormalKeepsMeaning(ps[0], env, calls);
        EvalAllCons(Normal(ps[0]), NormalAll(ps[1..]), env, calls);
        NormalAllKeeps(ps[1..], env, Eval(ps[0], env, calls).calls);
    }
  }

  lemma {:induction false} NormalAnyNotEmpty(ps: seq<Policy>)
    requires HasNonNil(ps)
    ensures NormalAny(ps) != []
    decreases ps
  {
    if ps[0].NilPolicy? {
      var i :| 0 <= i < |ps| && !ps[i].NilPolicy?;
      assert !ps[1..][i - 1].NilPolicy?;
      NormalAnyNotEmpty(ps[1..]);
    } else if ps[0].AnyOf? && HasNonNil(ps[0].members) {
      NormalAnyNotEmpty(ps[0].members);
    }
  }

  lemma {:induction false} NormalAnyKeeps(ps: seq<Policy>, last: Option<Error>, env: Env, calls: seq<nat>)
    ensures SameScan(ScanAny(NormalAny(ps), last, env, calls), ScanAny(ps, last, env, calls))
    decreases ps, 0
  {
    if ps != [] {
      var rest := ps[1..];
      if ps[0].NilPolicy? {
        NormalAnyKeeps(rest, last, env, calls);
      } else if ps[0].AnyOf? && HasNonNil(ps[0].members) {
        SplicedAnyKeeps(ps, last, env, calls);
      } else {
        var v := Eval(ps[0], env, calls);
        NormalKeepsMeaning(ps[0], env, calls);
        ScanAnyCons(Normal(ps[0]), NormalAny(rest), last, env, calls);
        NormalAnyKeeps(rest, v.err, env, v.calls);
      }
    }
  }

  lemma {:induction false} SplicedAnyKeeps(ps: seq<Policy>, last: Option<Error>, env: Env, calls: seq<nat>)
    requires ps != [] && ps[0].AnyOf? && HasNonNil(ps[0].members)
    ensures SameScan(ScanAny(NormalAny(ps), last, env, calls), ScanAny(ps, last, env, calls))
    decreases ps, -1
  {
    var qs, rest := ps[0].members, ps[1..];
    var s := ScanAny(qs, last, env, calls);
    NormalAnyKeeps(qs, last, env, calls);
    ScanForgetsLast(qs, last, None, env, calls);
    ScanAnyAppend(NormalAny(qs), NormalAny(rest), last, env, calls);
    if !s.allowed {
      NormalAnyKeeps(rest, s.last, env, s.calls);
    }
  }

  /** Nothing is left to rewrite: no `All` has a nil or an `All` in it, and no `Any` with
      a non-nil member has a nil or such an `Any` in it, at any depth. */
  predicate IsNormal(p: Policy)
    decreases p
  {
    match p
    case AllOf(ps) => forall q <- ps :: !q.NilPolicy? && !q.AllOf? && IsNormal(q)
    case AnyOf(ps) =>
      HasNonNil(ps) ==> forall q <- ps :: !q.NilPolicy? && !(q.AnyOf? && HasNonNil(q.members)) && IsNormal(q)
    case _ => true
  }

  lemma {:induction false} NormalIsNormal(p: Policy)
    ensures IsNormal(Normal(p))
    decreases p, 1
  {
    match p
    case AllOf(ps) => NormalAllIsNormal(ps);
    case AnyOf(ps) => if HasNonNil(ps) { NormalAnyIsNormal(ps); }
    case _ =>
  }

  lemma {:induction false} NormalAllIsNormal(ps: seq<Policy>)
    ensures forall q <- NormalAll(ps) :: !q.NilPolicy? && !q.AllOf? && IsNormal(q)
    decreases ps, 0
  {
    if ps != [] {
      NormalAllIsNormal(ps[1..]);
      match ps[0]
      case NilPolicy =>
      case AllOf(qs) => NormalAllIsNormal(qs);
      case _ => NormalIsNormal(ps[0]);
    }
  }

  lemma {:induction false} NormalAnyIsNormal(ps: seq<Policy>)
    ensures forall q <- NormalAny(ps) :: !q.NilPolicy? && !(q.AnyOf? && HasNonNil(q.members)) && IsNormal(q)
    decreases ps, 0
  {
    if ps != [] {
      NormalAnyIsNormal(ps[1..]);
      if ps[0].NilPolicy? {
      } else if ps[0].AnyOf? && HasNonNil(ps[0].members) {
        NormalAnyIsNormal(ps[0].members);
      } else {
        NormalIsNormal(ps[0]);
      }
    }
  }

  lemma {:induction false} NormalIsFixed(p: Policy)
    requires IsNormal(p)
    ensures Normal(p) == p
    decreases p, 1
  {
    match p
    case AllOf(ps) => NormalAllIsFixed(ps);
    case AnyOf(ps) => if HasNonNil(ps) { NormalAnyIsFixed(ps); }
    case _ =>
  }

  lemma {:induction false} NormalAllIsFixed(ps: seq<Policy>)
    requires forall q <- ps :: !q.NilPolicy? && !q.AllOf? && IsNormal(q)
    ensures NormalAll(ps) == ps
    decreases ps, 0
  {
    if ps != [] {
      assert ps[0] in ps;
      NormalIsFixed(ps[0]);
      NormalAllIsFixed(ps[1..]);
    }
  }

  lemma {:induction false} NormalAnyIsFixed(ps: seq<Policy>)
    requires forall q <- ps :: !q.NilPolicy? && !(q.AnyOf? && HasNonNil(q.members)) && IsNormal(q)
    ensures NormalAny(ps) == ps
    decreases ps, 0
  {
    if ps != [] {
      assert ps[0] in ps;
      NormalIsFixed(ps[0]);
      NormalAnyIsFixed(ps[1..]);
    }
  }

  /** The normal forms are exactly the trees that normalising leaves alone; so it is done
      after one go. */
  lemma FixedIffNormal(p: Policy)
    ensures Normal(p) == p <==> IsNormal(p)
    ensures Normal(Normal(p)) == Normal(p)
  {
    NormalIsNormal(p);
    NormalIsFixed(Normal(p));
    if IsNormal(p) {
      NormalIsFixed(p);
    }
  }

  // ---- single policies ----

  /** A leaf is called with what was called before it and answers for itself; an empty
      `All` allows; an empty `Any` calls nothing and forbids. */
  lemma SinglesSay(id: nat, env: Env, calls: seq<nat>)
    ensures Eval(Leaf(id), env, calls) == Verdict(env(id, calls), calls + [id])
    ensures Eval(AllOf([]), env, calls) == Verdict(None, calls)
    ensures var v := Eval(AnyOf([]), env, calls);
            v.calls == calls && v.err.Some? && v.err.value.forbidden && !v.err.value.unauthenticated
  {}

  /** A leaf that refuses when its turn comes in an `All` is the verdict. */
  lemma RefusingLeafDecides(ps: seq<Policy>, i: nat, id: nat, env: Env, calls: seq<nat>)
    requires i < |ps| && ps[i] == Leaf(id) && EvalAll(ps[..i], env, calls).err.None?
    requires env(id, Before(ps, i, env, calls)).Some?
    ensures EvalAll(ps, env, calls)
            == Verdict(env(id, Before(ps, i, env, calls)), Before(ps, i, env, calls) + [id])
  {
    assert ps == ps[..i] + ([ps[i]] + ps[i + 1..]);
    EvalAllAppend(ps[..i], [ps[i]] + ps[i + 1..], env, calls);
    EvalAllCons(ps[i], ps[i + 1..], env, Before(ps, i, env, calls));
    hide EvalAll;
  }
}
