/** Reconciling a user's access metadata (admin/onboard.go) and verifying it
    (admin/verify.go). */
module UserMetadata {
  import opened Text
  import opened DriftReport
  import Pagination

  type Bytes = seq<bv8>

  /** What the service stores: a value for each user and key that has one. */
  datatype Slot = Slot(user: string, key: string)
  type Store = map<Slot, Bytes>

  datatype Entry = Entry(key: string, value: Bytes)

  /** Patterns allowed and denied; the shape of both `KeyAccess` and `PolicyAccess`. */
  datatype Access = Access(allowed: seq<string>, denied: seq<string>)

  predicate HasAccess(a: Access) {
    |a.allowed| > 0 || |a.denied| > 0
  }

  /** JSON: encoding the two records, and rendering a payload for comparison. Nothing
      is assumed of these functions. */
  datatype Codec = Codec(keyAccess: Access -> Bytes, policyAccess: Access -> Bytes, canonical: Bytes -> string)

  // ---- namespaces and keys ----

  function NormalizeNamespace(explicit: string, fallback: string): string {
    var first, second := TrimSpace(explicit), TrimSpace(fallback);
    if first != "" then first else if second != "" then second else "urn:citius"
  }

  const KEY_ACCESS := ":key_access"
  const POLICY_ACCESS := ":policy_access"

  function KeyAccessKey(namespace: string): string {
    NormalizeNamespace(namespace, "") + KEY_ACCESS
  }

  function PolicyAccessKey(namespace: string): string {
    NormalizeNamespace(namespace, "") + POLICY_ACCESS
  }

  lemma NormalizedOnce(explicit: string, fallback: string)
    ensures var ns := NormalizeNamespace(explicit, fallback);
            NormalizeNamespace(ns, "") == ns && ns != ""
  {
    TrimSpaceIdempotent(explicit);
    TrimSpaceIdempotent(fallback);
    TrimSpaceOf("", "urn:citius", "");
    assert "" + "urn:citius" + "" == "urn:citius";
  }

  /** A key-access key is never a policy-access key, in whatever namespaces. */
  lemma KeysDiffer(a: string, b: string)
    ensures KeyAccessKey(a) != PolicyAccessKey(b)
  {
    var x, y := NormalizeNamespace(a, ""), NormalizeNamespace(b, "");
    var k, p := x + KEY_ACCESS, y + POLICY_ACCESS;
    assert k[|k| - 9] == 'e' && p[|p| - 9] == 'c';
  }

  lemma SuffixCancels(a: string, b: string, suffix: string)
    ensures a + suffix == b + suffix <==> a == b
  {
    if a + suffix == b + suffix {
      assert |a + suffix| == |a| + |suffix| && |b + suffix| == |b| + |suffix|;
      assert a == (a + suffix)[..|a|] && b == (b + suffix)[..|b|];
    }
  }

  /** The reconciler always uses the configured namespace and the verifier prefers an
      explicit one: they look at the same keys exactly when the explicit one is blank
      or names the configured one. */
  lemma SameKeysIff(explicit: string, configured: string)
    ensures var written, verified := NormalizeNamespace("", configured), NormalizeNamespace(explicit, configured);
            var same := TrimSpace(explicit) == "" || TrimSpace(explicit) == NormalizeNamespace("", configured);
            && (KeyAccessKey(written) == KeyAccessKey(verified) <==> same)
            && (PolicyAccessKey(written) == PolicyAccessKey(verified) <==> same)
  {
    var written, verified := NormalizeNamespace("", configured), NormalizeNamespace(explicit, configured);
    NormalizedOnce("", configured);
    NormalizedOnce(explicit, configured);
    assert TrimSpace("") == "";
    SuffixCancels(written, verified, KEY_ACCESS);
    SuffixCancels(written, verified, POLICY_ACCESS);
  }

  // ---- reconciling ----

  /** A key and what it should hold: nothing, or a payload. */
  datatype Want = Want(key: string, present: bool, payload: Bytes)

  function KeyWant(ns: string, access: Access, codec: Codec): Want {
    Want(KeyAccessKey(ns), HasAccess(access), codec.keyAccess(access))
  }

  function PolicyWant(ns: string, access: Access, codec: Codec): Want {
    Want(PolicyAccessKey(ns), HasAccess(access), codec.policyAccess(access))
  }

  datatype Write = SetAll(entries: seq<Entry>) | DeleteAll(keys: seq<string>)

  function ToSet(w: Want): seq<Entry> {
    if w.present then [Entry(w.key, w.payload)] else []
  }

  function ToDelete(w: Want): seq<string> {
    if w.present then [] else [w.key]
  }

  /** The calls of one run: what is wanted is set first, then the rest is deleted. */
  function Plan(a: Want, b: Want): seq<Write> {
    (if ToSet(a) + ToSet(b) == [] then [] else [SetAll(ToSet(a) + ToSet(b))])
    + (if ToDelete(a) + ToDelete(b) == [] then [] else [DeleteAll(ToDelete(a) + ToDelete(b))])
  }

  function SetEntries(store: Store, user: string, entries: seq<Entry>): Store {
    if entries == [] then store
    else
      var n := |entries| - 1;
      SetEntries(store, user, entries[..n])[Slot(user, entries[n].key) := entries[n].value]
  }

  predicate AllPresent(store: Store, user: string, keys: seq<string>) {
    forall k <- keys :: Slot(user, k) in store
  }

  function DeleteKeys(store: Store, user: string, keys: seq<string>): Store {
    store - set k | k in keys :: Slot(user, k)
  }

  /** What a call does. The service may remove whatever keys exist, or be strict: then
      one missing key makes the whole deletion a not-found error without effect, which
      the client takes for success. */
  function Perform(store: Store, user: string, w: Write, strict: bool): Store {
    match w
    case SetAll(entries) => SetEntries(store, user, entries)
    case DeleteAll(keys) => if strict && !AllPresent(store, user, keys) then store else DeleteKeys(store, user, keys)
  }

  function PerformAll(store: Store, user: string, plan: seq<Write>, strict: bool): Store {
    if plan == [] then store
    else
      var n := |plan| - 1;
      Perform(PerformAll(store, user, plan[..n], strict), user, plan[n], strict)
  }

  /** The remote metadata store, as the client sees it. A call beyond `callsLeft` fails
      without effect. */
  class Service {
    var store: Store
    var strict: bool
    var callsLeft: nat

    constructor (store: Store, strict: bool, calls: nat)
      ensures this.store == store && this.strict == strict && callsLeft == calls
    {
      this.store, this.strict, callsLeft := store, strict, calls;
    }

    method SetUserMetadata(user: string, entries: seq<Entry>) returns (ok: bool)
      modifies this`store, this`callsLeft
      ensures store == if ok then Perform(old(store), user, SetAll(entries), strict) else old(store)
      ensures ok <==> old(callsLeft) > 0
      ensures callsLeft == if ok then old(callsLeft) - 1 else 0
    {
      if callsLeft == 0 {
        return false;
      }
      callsLeft := callsLeft - 1;
      for i := 0 to |entries|
        invariant store == SetEntries(old(store), user, entries[..i])
        invariant callsLeft == old(callsLeft) - 1
      {
        assert entries[..i + 1][..i] == entries[..i];
        store := store[Slot(user, entries[i].key) := entries[i].value];
      }
      assert entries[..|entries|] == entries;
      return true;
    }

    method DeleteUserMetadata(user: string, keys: seq<string>) returns (ok: bool, notFound: bool)
      modifies this`store, this`callsLeft
      ensures store == if ok || notFound then Perform(old(store), user, DeleteAll(keys), strict) else old(store)
      ensures !(ok && notFound) && (notFound ==> !AllPresent(old(store), user, keys))
      ensures ok || notFound <==> old(callsLeft) > 0
      ensures callsLeft == if ok || notFound then old(callsLeft) - 1 else 0
    {
      if callsLeft == 0 {
        return false, false;
      }
      callsLeft := callsLeft - 1;
      if strict && !AllPresent(store, user, keys) {
        return false, true;
      }
      store := DeleteKeys(store, user, keys);
      return true, false;
    }
  }

  /** `reconcileMetadata`. The run makes exactly as many of its calls as the service
      still answers, in order, and succeeds when that is all of them. */
  method ReconcileMetadata(svc: Service, user: string, configured: string, codec: Codec, keys: Access, policies: Access)
    returns (ok: bool)
    modifies svc`store, svc`callsLeft
    ensures var ns := NormalizeNamespace("", configured);
            var plan := Plan(KeyWant(ns, keys, codec), PolicyWant(ns, policies, codec));
            && (ok <==> |plan| <= old(svc.callsLeft))
            && svc.store == PerformAll(old(svc.store), user,
                                       if ok then plan else plan[..old(svc.callsLeft)], svc.strict)
  {
    hide NormalizeNamespace, AllPresent, Perform, PerformAll, KeyAccessKey, PolicyAccessKey;
    RunOfNone(svc.store, user, svc.strict);
    var ns := NormalizeNamespace("", configured);
    var toSet: seq<Entry> := [];
    var toDelete: seq<string> := [];
    if HasAccess(keys) {
      toSet := toSet + [Entry(KeyAccessKey(ns), codec.keyAccess(keys))];
    } else {
      toDelete := toDelete + [KeyAccessKey(ns)];
    }
    if HasAccess(policies) {
      toSet := toSet + [Entry(PolicyAccessKey(ns), codec.policyAccess(policies))];
    } else {
      toDelete := toDelete + [PolicyAccessKey(ns)];
    }
    ghost var a, b := KeyWant(ns, keys, codec), PolicyWant(ns, policies, codec);
    assert toSet == ToSet(a) + ToSet(b) && toDelete == ToDelete(a) + ToDelete(b);
    ghost var plan := Plan(a, b);
    assert |toSet| + |toDelete| == 2;
    hide HasAccess, ToSet, ToDelete;
    ghost var before := svc.store;
    ghost var sets := if toSet == [] then [] else [SetAll(toSet)];
    ghost var deletes := if toDelete == [] then [] else [DeleteAll(toDelete)];
    assert plan == sets + deletes;
    hide *;
    assert plan[..0] == [] && plan[..|plan|] == plan;
    if |toSet| > 0 {
      assert plan[0] == SetAll(toSet);
      PerformNext(before, user, plan, 0, svc.strict);
      var done := svc.SetUserMetadata(user, toSet);
      if !done {
        return false;
      }
    }
    if |toDelete| > 0 {
      assert plan[|plan| - 1] == DeleteAll(toDelete);
      PerformNext(before, user, plan, |plan| - 1, svc.strict);
      var done, notFound := svc.DeleteUserMetadata(user, toDelete);
      if !done && !notFound {
        return false;
      }
    }
    return true;
  }

  // ---- what a run achieves ----

  /** The slot holds what is wanted. */
  predicate Holds(store: Store, user: string, w: Want) {
    var slot := Slot(user, w.key);
    if w.present then slot in store && store[slot] == w.payload else slot !in store
  }

  function Final(store: Store, user: string, a: Want, b: Want, strict: bool): Store {
    PerformAll(store, user, Plan(a, b), strict)
  }

  /** The one case in which a run does nothing although there is something to do: a
      strict service, both keys to go, and only one of them there. */
  predicate Stuck(store: Store, user: string, a: Want, b: Want, strict: bool) {
    strict && !a.present && !b.present && (Slot(user, a.key) in store <==> Slot(user, b.key) !in store)
  }

  /** The value a slot has, written as a sequence of at most one. */
  function At(store: Store, slot: Slot): seq<Bytes> {
    if slot in store then [store[slot]] else []
  }

  function Outcome(w: Want): seq<Bytes> {
    if w.present then [w.payload] else []
  }

  lemma RunOfNone(store: Store, user: string, strict: bool)
    ensures PerformAll(store, user, [], strict) == store
  {}

  lemma RunOfTwo(store: Store, user: string, v: Write, w: Write, strict: bool)
    ensures PerformAll(store, user, [v], strict) == Perform(store, user, v, strict)
    ensures PerformAll(store, user, [v, w], strict) == Perform(Perform(store, user, v, strict), user, w, strict)
  {}

  lemma SetOfTwo(store: Store, user: string, d: Entry, e: Entry)
    ensures SetEntries(store, user, [d]) == store[Slot(user, d.key) := d.value]
    ensures SetEntries(store, user, [d, e]) == store[Slot(user, d.key) := d.value][Slot(user, e.key) := e.value]
  {}

  /** The plan, case by case. */
  lemma PlanCases(a: Want, b: Want)
    ensures Plan(a, b) ==
      if a.present && b.present then [SetAll([Entry(a.key, a.payload), Entry(b.key, b.payload)])]
      else if a.present then [SetAll([Entry(a.key, a.payload)]), DeleteAll([b.key])]
      else if b.present then [SetAll([Entry(b.key, b.payload)]), DeleteAll([a.key])]
      else [DeleteAll([a.key, b.key])]
  {
    assert ToSet(a) + ToSet(b) ==
      (if a.present then [Entry(a.key, a.payload)] else []) + (if b.present then [Entry(b.key, b.payload)] else []);
    assert ToDelete(a) + ToDelete(b) == (if a.present then [] else [a.key]) + (if b.present then [] else [b.key]);
    hide ToSet, ToDelete;
    if a.present && b.present {
      var d, e := Entry(a.key, a.payload), Entry(b.key, b.payload);
      assert [d] + [e] == [d, e];
      var none: seq<string> := [];
      assert none + none == none;
    } else if a.present {
      assert [Entry(a.key, a.payload)] + [] == [Entry(a.key, a.payload)] && [] + [b.key] == [b.key];
    } else if b.present {
      assert [] + [Entry(b.key, b.payload)] == [Entry(b.key, b.payload)] && [a.key] + [] == [a.key];
    } else {
      assert [a.key] + [b.key] == [a.key, b.key];
      var none: seq<Entry> := [];
      assert none + none == none;
    }
  }

  /** A run as a function on stores: the two slots, and nothing else, become what is
      wanted. */
  lemma FinalIs(store: Store, user: string, a: Want, b: Want, strict: bool)
    requires a.key != b.key && !Stuck(store, user, a, b, strict)
    ensures var final := Final(store, user, a, b, strict);
            && At(final, Slot(user, a.key)) == Outcome(a)
            && At(final, Slot(user, b.key)) == Outcome(b)
            && forall s | s != Slot(user, a.key) && s != Slot(user, b.key) :: At(final, s) == At(store, s)
  {
    PlanCases(a, b);
    hide Plan;
    if a.present && b.present {
      BothSet(store, user, a, b, strict);
    } else if a.present {
      OneSet(store, user, a, b, strict);
    } else if b.present {
      OneSet(store, user, b, a, strict);
    } else {
      NoneSet(store, user, a, b, strict);
    }
  }

  lemma BothSet(store: Store, user: string, a: Want, b: Want, strict: bool)
    requires a.key != b.key
    ensures PerformAll(store, user, [SetAll([Entry(a.key, a.payload), Entry(b.key, b.payload)])], strict)
            == store[Slot(user, a.key) := a.payload][Slot(user, b.key) := b.payload]
  {
    var d, e := Entry(a.key, a.payload), Entry(b.key, b.payload);
    SetOfTwo(store, user, d, e);
    RunOfTwo(store, user, SetAll([d, e]), SetAll([]), strict);
    hide PerformAll, SetEntries;
  }

  lemma OneSet(store: Store, user: string, a: Want, b: Want, strict: bool)
    requires a.key != b.key
    ensures PerformAll(store, user, [SetAll([Entry(a.key, a.payload)]), DeleteAll([b.key])], strict)
            == store[Slot(user, a.key) := a.payload] - {Slot(user, b.key)}
  {
    var d := Entry(a.key, a.payload);
    SetOfTwo(store, user, d, d);
    RunOfTwo(store, user, SetAll([d]), DeleteAll([b.key]), strict);
    hide PerformAll, SetEntries;
    var middle := store[Slot(user, a.key) := a.payload];
    assert (set k | k in [b.key] :: Slot(user, k)) == {Slot(user, b.key)};
    assert b.key in [b.key];
    assert AllPresent(middle, user, [b.key]) <==> Slot(user, b.key) in middle;
    assert Slot(user, b.key) !in middle ==> middle - {Slot(user, b.key)} == middle;
  }

  lemma NoneSet(store: Store, user: string, a: Want, b: Want, strict: bool)
    requires a.key != b.key
    requires !strict || (Slot(user, a.key) in store <==> Slot(user, b.key) in store)
    ensures PerformAll(store, user, [DeleteAll([a.key, b.key])], strict)
            == store - {Slot(user, a.key), Slot(user, b.key)}
  {}

  /** Convergence: a run that made all its calls leaves both slots as wanted, from any
      store, except in the stuck case. */
  lemma MetadataConvergesIff(store: Store, user: string, a: Want, b: Want, strict: bool)
    requires a.key != b.key
    ensures var final := Final(store, user, a, b, strict);
            Holds(final, user, a) && Holds(final, user, b) <==> !Stuck(store, user, a, b, strict)
  {
    if Stuck(store, user, a, b, strict) {
      StuckStays(store, user, a, b, strict);
    } else {
      FinalIs(store, user, a, b, strict);
    }
  }

  lemma StuckStays(store: Store, user: string, a: Want, b: Want, strict: bool)
    requires Stuck(store, user, a, b, strict)
    ensures Final(store, user, a, b, strict) == store
  {
    var keys := [a.key, b.key];
    PlanCases(a, b);
    RunOfTwo(store, user, DeleteAll(keys), SetAll([]), strict);
    hide Plan, PerformAll;
    assert a.key in keys && b.key in keys;
    assert !AllPresent(store, user, keys);
  }

  /** Only the two slots of the user are ever written, wherever the run stops. */
  lemma {:induction false} OthersKept(store: Store, user: string, a: Want, b: Want, strict: bool, k: nat, s: Slot)
    requires k <= |Plan(a, b)| && s != Slot(user, a.key) && s != Slot(user, b.key)
    ensures At(PerformAll(store, user, Plan(a, b)[..k], strict), s) == At(store, s)
  {
    if k > 0 {
      var plan := Plan(a, b);
      OthersKept(store, user, a, b, strict, k - 1, s);
      PlanKeys(a, b, k - 1);
      hide Plan, Perform, At;
      PerformNext(store, user, plan, k - 1, strict);
      hide PerformAll;
      WriteKeeps(PerformAll(store, user, plan[..k - 1], strict), user, plan[k - 1], strict, s);
    }
  }

  lemma PerformNext(store: Store, user: string, plan: seq<Write>, i: nat, strict: bool)
    requires i < |plan|
    ensures PerformAll(store, user, plan[..i + 1], strict)
            == Perform(PerformAll(store, user, plan[..i], strict), user, plan[i], strict)
  {
    assert plan[..i + 1][..i] == plan[..i];
  }

  predicate WritesKey(w: Write, key: string) {
    match w
    case SetAll(entries) => exists e <- entries :: e.key == key
    case DeleteAll(keys) => key in keys
  }

  lemma PlanKeys(a: Want, b: Want, i: nat)
    requires i < |Plan(a, b)|
    ensures forall key :: WritesKey(Plan(a, b)[i], key) ==> key == a.key || key == b.key
  {}

  lemma {:induction false} WriteKeeps(store: Store, user: string, w: Write, strict: bool, s: Slot)
    requires s.user == user ==> !WritesKey(w, s.key)
    ensures At(Perform(store, user, w, strict), s) == At(store, s)
    decreases if w.SetAll? then |w.entries| else 0
  {
    if w.SetAll? && w.entries != [] {
      var n := |w.entries| - 1;
      assert w.entries[n] in w.entries;
      WriteKeeps(store, user, SetAll(w.entries[..n]), strict, s);
    }
  }

  lemma SameStore(a: Store, b: Store)
    requires forall s :: At(a, s) == At(b, s)
    ensures a == b
  {
    forall s ensures s in a <==> s in b {
      assert At(a, s) == At(b, s);
    }
    forall s | s in a ensures a[s] == b[s] {
      assert At(a, s) == At(b, s);
    }
  }

  /** A run that stopped between its calls is made good by running again: the end is
      the very store an undisturbed run would have reached. With k the length of the
      plan this says that running again changes nothing. */
  lemma RerunReachesSame(store: Store, user: string, a: Want, b: Want, strict: bool, k: nat)
    requires a.key != b.key && k <= |Plan(a, b)|
    ensures var stopped := PerformAll(store, user, Plan(a, b)[..k], strict);
            Final(stopped, user, a, b, strict) == Final(store, user, a, b, strict)
  {
    var stopped := PerformAll(store, user, Plan(a, b)[..k], strict);
    if k == 0 {
      assert Plan(a, b)[..0] == [];
    } else if Stuck(store, user, a, b, strict) {
      assert Plan(a, b)[..k] == Plan(a, b);
      StuckStays(store, user, a, b, strict);
    } else {
      NotStuckLater(store, user, a, b, strict, k);
      FinalIs(store, user, a, b, strict);
      FinalIs(stopped, user, a, b, strict);
      var x, y := Final(stopped, user, a, b, strict), Final(store, user, a, b, strict);
      forall s ensures At(x, s) == At(y, s) {
        if s != Slot(user, a.key) && s != Slot(user, b.key) {
          OthersKept(store, user, a, b, strict, k, s);
        }
      }
      hide Final, PerformAll, Plan;
      SameStore(x, y);
    }
  }

  lemma NotStuckLater(store: Store, user: string, a: Want, b: Want, strict: bool, k: nat)
    requires a.key != b.key && 0 < k <= |Plan(a, b)| && !Stuck(store, user, a, b, strict)
    ensures !Stuck(PerformAll(store, user, Plan(a, b)[..k], strict), user, a, b, strict)
  {}

  // ---- reading it back ----

  /** The values listed under a key, in order. */
  function ValuesOf(entries: seq<Entry>, key: string): seq<Bytes> {
    if entries == [] then []
    else
      var n := |entries| - 1;
      ValuesOf(entries[..n], key) + (if entries[n].key == key then [entries[n].value] else [])
  }

  function Group(groups: map<string, seq<Bytes>>, key: string): seq<Bytes> {
    if key in groups then groups[key] else []
  }

  /** The grouping loop of `listAllUserMetadata`. */
  method GroupEntries(entries: seq<Entry>) returns (groups: map<string, seq<Bytes>>)
    ensures forall key :: Group(groups, key) == ValuesOf(entries, key)
  {
    groups := map[];
    for i := 0 to |entries|
      invariant forall key :: Group(groups, key) == ValuesOf(entries[..i], key)
    {
      assert entries[..i + 1][..i] == entries[..i];
      ghost var before := groups;
      groups := groups[entries[i].key := Group(groups, entries[i].key) + [entries[i].value]];
      forall key ensures Group(groups, key) == ValuesOf(entries[..i + 1], key) {
        assert Group(before, key) == ValuesOf(entries[..i], key);
      }
    }
    assert entries[..|entries|] == entries;
  }

  /** A listing of all of a user's metadata. */
  ghost predicate Lists(entries: seq<Entry>, store: Store, user: string) {
    && (forall i, j :: 0 <= i < j < |entries| ==> entries[i].key != entries[j].key)
    && (forall key, value :: Entry(key, value) in entries <==> At(store, Slot(user, key)) == [value])
  }

  lemma {:induction false} ValuesOfDistinct(entries: seq<Entry>, key: string)
    requires forall i, j :: 0 <= i < j < |entries| ==> entries[i].key != entries[j].key
    ensures var values := ValuesOf(entries, key);
            |values| <= 1 && forall v :: v in values <==> Entry(key, v) in entries
  {
    if entries != [] {
      var n := |entries| - 1;
      ValuesOfDistinct(entries[..n], key);
      assert entries == entries[..n] + [entries[n]];
      forall v | v in ValuesOf(entries[..n], key) ensures entries[n].key != key {
        assert Entry(key, v) in entries[..n];
        var i :| 0 <= i < n && entries[..n][i] == Entry(key, v);
        assert entries[i].key == key && entries[i].key != entries[n].key;
      }
      var prior := ValuesOf(entries[..n], key);
      assert entries[n].key == key ==> prior == [] by {
        if prior != [] {
          assert prior[0] in prior;
        }
      }
    }
  }

  /** A complete listing shows, key by key, what is stored. */
  lemma ListingShowsStore(entries: seq<Entry>, store: Store, user: string, key: string)
    requires Lists(entries, store, user)
    ensures ValuesOf(entries, key) == At(store, Slot(user, key))
  {
    ValuesOfDistinct(entries, key);
    hide ValuesOf;
    var values, at := ValuesOf(entries, key), At(store, Slot(user, key));
    assert forall v :: v in values <==> at == [v];
    if at != [] {
      assert at == [at[0]];
    }
    if values != [] {
      assert values == [values[0]];
    }
  }

  // ---- verifying ----

  function Field(key: string): string {
    "metadata." + key
  }

  /** What `verifyMetadataEntry` adds to the report. */
  function EntryDrift(resource: string, w: Want, actual: seq<Bytes>, canonical: Bytes -> string): seq<Drift> {
    if !w.present then
      if actual == [] then []
      else [Drift(resource, Field(w.key), DriftReport.Text("absent"), DriftReport.Text("present"))]
    else if actual == [] then
      [Drift(resource, Field(w.key), DriftReport.Text(canonical(w.payload)), DriftReport.Text("missing"))]
    else if |actual| != 1 then
      [Drift(resource, Field(w.key) + ".count", Number(1), Number(|actual|))]
    else
      Compared(resource, Field(w.key), DriftReport.Text(canonical(w.payload)), DriftReport.Text(canonical(actual[0])))
  }

  function AccessDrift(resource: string, a: Want, b: Want, entries: seq<Entry>, canonical: Bytes -> string)
    : seq<Drift>
  {
    EntryDrift(resource, a, ValuesOf(entries, a.key), canonical)
    + EntryDrift(resource, b, ValuesOf(entries, b.key), canonical)
  }

  method VerifyMetadataEntry(report: Report, resource: string, key: string, expectedPresent: bool, expected: Bytes,
                             actual: seq<Bytes>, canonical: Bytes -> string)
    modifies report
    ensures report.drift == old(report.drift)
                            + EntryDrift(resource, Want(key, expectedPresent, expected), actual, canonical)
  {
    var field := "metadata." + key;
    if !expectedPresent {
      if |actual| != 0 {
        report.AddDrift(resource, field, DriftReport.Text("absent"), DriftReport.Text("present"));
      }
      return;
    }
    if |actual| == 0 {
      report.AddDrift(resource, field, DriftReport.Text(canonical(expected)), DriftReport.Text("missing"));
      return;
    }
    if |actual| != 1 {
      report.AddDrift(resource, field + ".count", Number(1), Number(|actual|));
      return;
    }
    report.Compare(resource, field, DriftReport.Text(canonical(expected)), DriftReport.Text(canonical(actual[0])));
  }

  /** `verifyAccessMetadata`, on the entries of a listing. */
  method VerifyAccessMetadata(ns: string, keys: Access, policies: Access, codec: Codec, entries: seq<Entry>,
                              resource: string, report: Report)
    modifies report
    ensures report.drift == old(report.drift)
              + AccessDrift(resource, KeyWant(ns, keys, codec), PolicyWant(ns, policies, codec),
                            entries, codec.canonical)
  {
    hide NormalizeNamespace, EntryDrift, ValuesOf;
    var actual := GroupEntries(entries);
    VerifyMetadataEntry(report, resource, KeyAccessKey(ns), HasAccess(keys), codec.keyAccess(keys),
                        Group(actual, KeyAccessKey(ns)), codec.canonical);
    VerifyMetadataEntry(report, resource, PolicyAccessKey(ns), HasAccess(policies), codec.policyAccess(policies),
                        Group(actual, PolicyAccessKey(ns)), codec.canonical);
  }

  /** The slot holds what is wanted as far as the rendered JSON tells. */
  predicate LooksRight(store: Store, user: string, w: Want, canonical: Bytes -> string) {
    var slot := Slot(user, w.key);
    if w.present then slot in store && canonical(store[slot]) == canonical(w.payload) else slot !in store
  }

  /** The verifier is silent exactly when both slots look right. */
  lemma CleanIffLooksRight(store: Store, user: string, a: Want, b: Want, entries: seq<Entry>, codec: Codec,
                           resource: string)
    requires Lists(entries, store, user)
    ensures AccessDrift(resource, a, b, entries, codec.canonical) == []
            <==> LooksRight(store, user, a, codec.canonical) && LooksRight(store, user, b, codec.canonical)
  {
    ListingShowsStore(entries, store, user, a.key);
    ListingShowsStore(entries, store, user, b.key);
    hide ValuesOf, Lists;
    EntryCleanIff(store, user, a, codec.canonical, resource);
    EntryCleanIff(store, user, b, codec.canonical, resource);
  }

  lemma EntryCleanIff(store: Store, user: string, w: Want, canonical: Bytes -> string, resource: string)
    ensures EntryDrift(resource, w, At(store, Slot(user, w.key)), canonical) == []
            <==> LooksRight(store, user, w, canonical)
  {}

  /** Onboarding, then verifying under the same namespace: after a run that made all
      its calls, from any store, the verifier finds no metadata drift, except in the
      stuck case, which it always reports. */
  lemma OnboardThenVerifyMetadata(store: Store, user: string, ns: string, keys: Access, policies: Access, codec: Codec,
                                  strict: bool, entries: seq<Entry>, resource: string)
    requires var a, b := KeyWant(ns, keys, codec), PolicyWant(ns, policies, codec);
             Lists(entries, Final(store, user, a, b, strict), user)
    ensures var a, b := KeyWant(ns, keys, codec), PolicyWant(ns, policies, codec);
            AccessDrift(resource, a, b, entries, codec.canonical) == [] <==> !Stuck(store, user, a, b, strict)
  {
    var a, b := KeyWant(ns, keys, codec), PolicyWant(ns, policies, codec);
    KeysDiffer(ns, ns);
    hide KeyAccessKey, PolicyAccessKey, NormalizeNamespace, HasAccess;
    MetadataConvergesIff(store, user, a, b, strict);
    if Stuck(store, user, a, b, strict) {
      StuckStays(store, user, a, b, strict);
    }
    var final := Final(store, user, a, b, strict);
    CleanIffLooksRight(final, user, a, b, entries, codec, resource);
    hide Final, AccessDrift, Lists;
  }

  /** Verifying under another namespace says nothing about the run: the report is the
      one it would have been before. */
  lemma OtherNamespaceSeesNoChange(store: Store, user: string, configured: string, explicit: string,
                                   keys: Access, policies: Access, codec: Codec, strict: bool,
                                   before: seq<Entry>, after: seq<Entry>, resource: string)
    requires TrimSpace(explicit) != "" && TrimSpace(explicit) != NormalizeNamespace("", configured)
    requires var ns := NormalizeNamespace("", configured);
             Lists(after, Final(store, user, KeyWant(ns, keys, codec), PolicyWant(ns, policies, codec), strict), user)
    requires Lists(before, store, user)
    ensures var ns := NormalizeNamespace(explicit, configured);
            var a, b := KeyWant(ns, keys, codec), PolicyWant(ns, policies, codec);
            AccessDrift(resource, a, b, after, codec.canonical) == AccessDrift(resource, a, b, before, codec.canonical)
  {
    var written, verified := NormalizeNamespace("", configured), NormalizeNamespace(explicit, configured);
    SameKeysIff(explicit, configured);
    KeysDiffer(written, verified);
    KeysDiffer(verified, written);
    hide NormalizeNamespace, KeyAccessKey, PolicyAccessKey, HasAccess;
    var a, b := KeyWant(written, keys, codec), PolicyWant(written, policies, codec);
    var final := Final(store, user, a, b, strict);
    KeyUnchanged(store, user, a, b, strict, before, after, KeyAccessKey(verified));
    KeyUnchanged(store, user, a, b, strict, before, after, PolicyAccessKey(verified));
    hide Final, Lists, ValuesOf, EntryDrift;
  }

  lemma KeyUnchanged(store: Store, user: string, a: Want, b: Want, strict: bool,
                     before: seq<Entry>, after: seq<Entry>, key: string)
    requires key != a.key && key != b.key
    requires Lists(before, store, user) && Lists(after, Final(store, user, a, b, strict), user)
    ensures ValuesOf(after, key) == ValuesOf(before, key)
  {
    hide *;
    var final := Final(store, user, a, b, strict);
    ListingShowsStore(before, store, user, key);
    ListingShowsStore(after, final, user, key);
    FinalKeeps(store, user, a, b, strict, Slot(user, key));
  }

  lemma FinalKeeps(store: Store, user: string, a: Want, b: Want, strict: bool, s: Slot)
    requires s != Slot(user, a.key) && s != Slot(user, b.key)
    ensures At(Final(store, user, a, b, strict), s) == At(store, s)
  {
    hide At, PerformAll, Plan;
    var plan := Plan(a, b);
    OthersKept(store, user, a, b, strict, |plan|, s);
    assert plan[..|plan|] == plan;
  }

  /** With the paging loop in between: what the verifier reads through any number of
      pages is what is stored. */
  lemma PagedListingShowsStore(serve: Pagination.Service<Entry>, all: seq<Entry>, budget: nat,
                               store: Store, user: string, key: string)
    requires Pagination.CountedPages(serve, all) || Pagination.FullPages(serve, all)
    requires budget > |all| && Lists(all, store, user)
    ensures var listing := Pagination.ListFrom(serve, 0, 0, [], budget);
            listing.Listed? && ValuesOf(listing.all, key) == At(store, Slot(user, key))
  {
    Pagination.ListIsWhole(serve, all, budget);
    ListingShowsStore(all, store, user, key);
  }

  // ---- spelled out ----

  /** Namespaces: the first that is not blank, trimmed, and a default. */
  lemma NamespaceSays(explicit: string, configured: string)
    ensures NormalizeNamespace(explicit, configured) ==
            if TrimSpace(explicit) != "" then TrimSpace(explicit)
            else if TrimSpace(configured) != "" then TrimSpace(configured) else "urn:citius"
  {}

  /** What a run stores for a user under a configured namespace, in terms of the pattern
      lists: the encoded access under the key of its kind if there is any pattern, allowed
      or denied, and nothing under it otherwise. */
  lemma AccessIsStored(store: Store, user: string, configured: string, keys: Access, policies: Access, codec: Codec,
                       strict: bool)
    requires var ns := NormalizeNamespace("", configured);
             !Stuck(store, user, KeyWant(ns, keys, codec), PolicyWant(ns, policies, codec), strict)
    ensures var ns := if TrimSpace(configured) == "" then "urn:citius" else TrimSpace(configured);
            var normal := NormalizeNamespace("", configured);
            var final := Final(store, user, KeyWant(normal, keys, codec), PolicyWant(normal, policies, codec), strict);
            && At(final, Slot(user, ns + ":key_access"))
               == (if keys.allowed == [] && keys.denied == [] then [] else [codec.keyAccess(keys)])
            && At(final, Slot(user, ns + ":policy_access"))
               == (if policies.allowed == [] && policies.denied == [] then [] else [codec.policyAccess(policies)])
            && forall s | s != Slot(user, ns + ":key_access") && s != Slot(user, ns + ":policy_access") ::
                 At(final, s) == At(store, s)
  {
    var ns := NormalizeNamespace("", configured);
    NormalizedOnce("", configured);
    assert TrimSpace("") == "";
    KeysDiffer(ns, ns);
    var a, b := KeyWant(ns, keys, codec), PolicyWant(ns, policies, codec);
    FinalIs(store, user, a, b, strict);
    assert a.key == ns + ":key_access" && b.key == ns + ":policy_access";
    hide Final, NormalizeNamespace, TrimSpace, At;
  }

  /** The stuck case in the same terms: a strict service, no patterns at all, and exactly
      one of the two keys stored. */
  lemma StuckSays(store: Store, user: string, ns: string, keys: Access, policies: Access, codec: Codec, strict: bool)
    requires NormalizeNamespace(ns, "") == ns
    ensures Stuck(store, user, KeyWant(ns, keys, codec), PolicyWant(ns, policies, codec), strict) <==>
            && strict && keys.allowed + keys.denied + policies.allowed + policies.denied == []
            && (Slot(user, ns + ":key_access") in store) != (Slot(user, ns + ":policy_access") in store)
  {
    hide NormalizeNamespace;
  }

  /** The report on one key, entry by entry; a key listed twice or more is always reported. */
  lemma EntryDriftSays(resource: string, key: string, present: bool, payload: Bytes, actual: seq<Bytes>,
                       canonical: Bytes -> string)
    ensures var drift := EntryDrift(resource, Want(key, present, payload), actual, canonical);
            var field, want := "metadata." + key, DriftReport.Text(canonical(payload));
            && (!present && actual == [] ==> drift == [])
            && (!present && actual != [] ==>
                 drift == [Drift(resource, field, DriftReport.Text("absent"), DriftReport.Text("present"))])
            && (present && actual == [] ==> drift == [Drift(resource, field, want, DriftReport.Text("missing"))])
            && (present && |actual| >= 2 ==> drift == [Drift(resource, field + ".count", Number(1), Number(|actual|))])
            && (present && |actual| == 1 && canonical(actual[0]) == canonical(payload) ==> drift == [])
            && (present && |actual| == 1 && canonical(actual[0]) != canonical(payload) ==>
                 drift == [Drift(resource, field, want, DriftReport.Text(canonical(actual[0])))])
  {}
}
