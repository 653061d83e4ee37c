/** Whole runs of `get` and `put` on one cache: what is conserved, what eviction
    costs, and which entry it removes. */
module CacheRuns {
  import opened Wrappers
  import opened AuthTypes
  import opened IntrospectionCache
  import opened Text

  datatype Op =
    | OpGet(key: Key, now: Instant)
    | OpPut(key: Key, e: Entry)

  /** The store together with a history of it: `stamps[i]` numbers the insertion
      that appended slot i, `born` remembers the insertion each live entry came
      from, and four counters run along. */
  datatype History = History(
    store: Store,
    stamps: seq<nat>,
    born: map<Key, nat>,
    inserts: nat,
    expiries: nat,
    stalePops: nat,
    turns: nat)

  const START := History(EMPTY_STORE, [], map[], 0, 0, 0, 0)

  function AfterGet(l: Limits, h: History, key: Key, now: Instant): History {
    var st' := Get(l, h.store, key, now).store;
    h.(store := st', expiries := h.expiries + if key in h.store.entries && key !in st'.entries then 1 else 0)
  }

  /** The history once the eviction loop has run. */
  function AfterEvict(h: History): History {
    var n := EvictionCost(h.store);
    h.(store := Evict(h.store),
       stamps := if n <= |h.stamps| then h.stamps[n..] else [],
       stalePops := h.stalePops + FirstLive(h.store),
       turns := h.turns + n)
  }

  /** The history once a new key has been appended. */
  function AfterAppend(h: History, key: Key, e: Entry): History {
    h.(store := Store(h.store.entries[key := e], h.store.order + [key]),
       stamps := h.stamps + [h.inserts],
       born := h.born[key := h.inserts],
       inserts := h.inserts + 1)
  }

  function AfterPut(l: Limits, h: History, key: Key, e: Entry): History {
    if Disabled(l) then h
    else if key in h.store.entries then h.(store := Put(l, h.store, key, e))
    else AfterAppend(if |h.store.entries| >= l.maxSize then AfterEvict(h) else h, key, e)
  }

  /** The history follows the store. */
  lemma PutFollows(l: Limits, h: History, key: Key, e: Entry)
    ensures AfterPut(l, h, key, e).store == Put(l, h.store, key, e)
  {}

  function After(l: Limits, h: History, op: Op): History {
    match op
    case OpGet(key, now) => AfterGet(l, h, key, now)
    case OpPut(key, e) => AfterPut(l, h, key, e)
  }

  function Run(l: Limits, ops: seq<Op>): History {
    if ops == [] then START else After(l, Run(l, ops[..|ops| - 1]), ops[|ops| - 1])
  }

  /** What one of the cache's own operations does to the store. */
  function Operate(l: Limits, st: Store, op: Op): Store {
    match op
    case OpGet(key, now) => Get(l, st, key, now).store
    case OpPut(key, e) => Put(l, st, key, e)
  }

  /** The operations one after the other. */
  function Replay(l: Limits, ops: seq<Op>): Store {
    if ops == [] then EMPTY_STORE else Operate(l, Replay(l, ops[..|ops| - 1]), ops[|ops| - 1])
  }

  /** What is said about the store of a run is said about the cache: the history only
      adds to what `get` and `put` do. */
  lemma {:induction false} RunIsReplay(l: Limits, ops: seq<Op>)
    ensures Run(l, ops).store == Replay(l, ops)
  {
    if ops != [] {
      var n := |ops| - 1;
      RunIsReplay(l, ops[..n]);
      if ops[n].OpPut? {
        PutFollows(l, Run(l, ops[..n]), ops[n].key, ops[n].e);
        hide AfterPut, Put;
      }
    }
  }

  /** The slot that live key `k` occupies by right: its last one. */
  ghost predicate CurrentSlot(order: seq<Key>, k: Key, i: int) {
    0 <= i < |order| && order[i] == k && forall j :: i < j < |order| ==> order[j] != k
  }

  predicate Ascending(stamps: seq<nat>, bound: nat) {
    && (forall i :: 0 <= i < |stamps| ==> stamps[i] < bound)
    && (forall i, j :: 0 <= i < j < |stamps| ==> stamps[i] < stamps[j])
  }

  /** Every live entry was born when its current slot was appended. */
  ghost predicate BornWithSlot(st: Store, stamps: seq<nat>, born: map<Key, nat>)
    requires |stamps| == |st.order|
  {
    && (forall k <- st.entries :: k in born)
    && (forall k, i :: k in st.entries && CurrentSlot(st.order, k, i) ==> born[k] == stamps[i])
  }

  ghost predicate Consistent(l: Limits, h: History) {
    && WellFormed(l, h.store)
    && |h.stamps| == |h.store.order|
    && Ascending(h.stamps, h.inserts)
    && BornWithSlot(h.store, h.stamps, h.born)
    && |h.store.order| + h.stalePops == |h.store.entries| + h.expiries
    && h.turns + |h.store.order| == h.inserts
  }

  lemma GetConsistent(l: Limits, h: History, key: Key, now: Instant)
    requires Consistent(l, h)
    ensures Consistent(l, AfterGet(l, h, key, now))
  {}

  lemma {:induction false} LastSlotExists(order: seq<Key>, k: Key) returns (i: nat)
    requires k in order
    ensures CurrentSlot(order, k, i)
  {
    if order[|order| - 1] == k {
      i := |order| - 1;
    } else {
      i := LastSlotExists(order[..|order| - 1], k);
      assert forall j :: 0 <= j < |order| - 1 ==> order[j] == order[..|order| - 1][j];
    }
  }

  lemma AppendKeepsBirths(st: Store, stamps: seq<nat>, born: map<Key, nat>, key: Key, e: Entry, stamp: nat)
    requires |stamps| == |st.order| && BornWithSlot(st, stamps, born)
    ensures BornWithSlot(Store(st.entries[key := e], st.order + [key]), stamps + [stamp], born[key := stamp])
  {
    var order, order' := st.order, st.order + [key];
    assert order'[|order|] == key;
    forall k, i | k in st.entries[key := e] && CurrentSlot(order', k, i)
      ensures born[key := stamp][k] == (stamps + [stamp])[i]
    {
      if k != key {
        assert forall j :: 0 <= j < |order| ==> order[j] == order'[j];
        assert CurrentSlot(order, k, i);
      }
    }
  }

  lemma AppendConsistent(l: Limits, h: History, key: Key, e: Entry)
    requires Consistent(l, h) && key !in h.store.entries && |h.store.entries| < l.maxSize
    ensures Consistent(l, AfterAppend(h, key, e))
  {
    AppendKeeps(l, h.store, key, e);
    AdditionSize(h.store.entries, key, e);
    AppendKeepsBirths(h.store, h.stamps, h.born, key, e, h.inserts);
  }

  lemma DropKeepsBirths(st: Store, stamps: seq<nat>, born: map<Key, nat>, st': Store, n: nat)
    requires |stamps| == |st.order| && n <= |st.order| && BornWithSlot(st, stamps, born)
    requires st'.order == st.order[n..] && forall k <- st'.entries :: k in st.entries
    ensures BornWithSlot(st', stamps[n..], born)
  {}

  lemma DropAscending(stamps: seq<nat>, bound: nat, n: nat)
    requires Ascending(stamps, bound) && n <= |stamps|
    ensures Ascending(stamps[n..], bound)
  {}

  lemma EvictCounts(l: Limits, h: History)
    requires Consistent(l, h) && |h.store.entries| > 0
    ensures var n, h' := EvictionCost(h.store), AfterEvict(h);
            && n <= |h.stamps| && h'.stamps == h.stamps[n..] && h'.store.order == h.store.order[n..]
            && WellFormed(l, h'.store) && |h'.store.entries| == |h.store.entries| - 1
            && |h'.store.order| + h'.stalePops == |h'.store.entries| + h'.expiries
            && h'.turns + |h'.store.order| == h'.inserts
            && (forall k <- h'.store.entries :: k in h.store.entries)
  {
    hide Ascending, BornWithSlot;
    EvictRemovesOne(l, h.store);
  }

  /** Dropping the front of the order, and the entry of the last slot dropped. */
  lemma EvictConsistent(l: Limits, h: History)
    requires Consistent(l, h) && |h.store.entries| > 0
    ensures Consistent(l, AfterEvict(h))
    ensures |AfterEvict(h).store.entries| == |h.store.entries| - 1
  {
    hide Ascending, BornWithSlot, WellFormed, EvictionCost, Evict;
    EvictCounts(l, h);
    DropAscending(h.stamps, h.inserts, EvictionCost(h.store));
    DropKeepsBirths(h.store, h.stamps, h.born, AfterEvict(h).store, EvictionCost(h.store));
  }

  lemma PutConsistent(l: Limits, h: History, key: Key, e: Entry)
    requires Consistent(l, h) && !Disabled(l)
    ensures Consistent(l, AfterPut(l, h, key, e))
  {
    if key in h.store.entries {
      AdditionSize(h.store.entries, key, e);
    } else if |h.store.entries| < l.maxSize {
      AppendConsistent(l, h, key, e);
    } else {
      EvictConsistent(l, h);
      EvictCounts(l, h);
      AppendConsistent(l, AfterEvict(h), key, e);
    }
  }

  lemma {:induction false} RunConsistent(l: Limits, ops: seq<Op>)
    requires !Disabled(l)
    ensures Consistent(l, Run(l, ops))
  {
    if ops != [] {
      var h := Run(l, ops[..|ops| - 1]);
      RunConsistent(l, ops[..|ops| - 1]);
      match ops[|ops| - 1]
      case OpGet(key, now) => GetConsistent(l, h, key, now);
      case OpPut(key, e) => PutConsistent(l, h, key, e);
    }
  }

  /** The size bound holds throughout, every live key is queued, and slots are
      conserved: the queue is longer than the map by exactly the lazily expired
      keys whose stale slots have not been popped. All eviction loops together
      turn no more often than new keys were stored. */
  lemma SlotsAreConserved(l: Limits, ops: seq<Op>)
    requires !Disabled(l)
    ensures var h := Run(l, ops);
            && |h.store.entries| <= l.maxSize
            && (forall k <- h.store.entries :: k in h.store.order)
            && |h.store.order| == |h.store.entries| + h.expiries - h.stalePops
            && h.turns <= h.inserts
  {
    RunConsistent(l, ops);
  }

  /** No live entry was inserted before `v`. */
  ghost predicate OldestInserted(h: History, v: Key)
    requires v in h.store.entries && forall k <- h.store.entries :: k in h.born
  {
    forall k <- h.store.entries :: h.born[v] <= h.born[k]
  }

  /** No other live key's current slot comes before the current slot of `v`. */
  ghost predicate FirstInLine(st: Store, v: Key) {
    forall k, i, j :: k in st.entries && k != v && CurrentSlot(st.order, k, i) && CurrentSlot(st.order, v, j) ==> j < i
  }

  lemma OldestIffFirstInLine(l: Limits, h: History, v: Key)
    requires Consistent(l, h) && v in h.store.entries
    ensures OldestInserted(h, v) <==> FirstInLine(h.store, v)
  {
    var order := h.store.order;
    var j := LastSlotExists(order, v);
    if FirstInLine(h.store, v) {
      forall k | k in h.store.entries ensures h.born[v] <= h.born[k] {
        if k != v {
          var i := LastSlotExists(order, k);
          assert j < i;
        }
      }
    }
    if OldestInserted(h, v) {
      forall k, i, j' | k in h.store.entries && k != v && CurrentSlot(order, k, i) && CurrentSlot(order, v, j')
        ensures j' < i
      {
        assert h.born[v] == h.stamps[j'] && h.born[k] == h.stamps[i];
      }
    }
  }

  /** Whenever an eviction happens it removes the live key with the earliest slot,
      and that is the oldest insertion exactly when the victim is also first in
      line by current slots. */
  lemma VictimIsOldestIff(l: Limits, ops: seq<Op>)
    requires !Disabled(l) && |Run(l, ops).store.entries| > 0
    ensures var h := Run(l, ops);
            && FirstLive(h.store) < |h.store.order|
            && Victim(h.store) in h.store.entries
            && (forall k <- h.store.entries :: k in h.born)
            && Evict(h.store).entries == h.store.entries - {Victim(h.store)}
            && (OldestInserted(h, Victim(h.store)) <==> FirstInLine(h.store, Victim(h.store)))
  {
    RunConsistent(l, ops);
    var h := Run(l, ops);
    EvictRemovesOne(l, h.store);
    OldestIffFirstInLine(l, h, Victim(h.store));
  }

  /** Every key that was stored anew had no slot left in the queue at that time. */
  predicate NoStaleReinsertion(l: Limits, ops: seq<Op>) {
    forall n :: 0 <= n < |ops| && ops[n].OpPut? ==>
      var st := Run(l, ops[..n]).store;
      ops[n].key in st.entries || ops[n].key !in st.order
  }

  lemma AppendDistinct(order: seq<Key>, n: nat, key: Key)
    requires NoDuplicates(order) && n <= |order| && key !in order
    ensures NoDuplicates(order[n..] + [key])
  {}

  lemma StepKeepsDistinct(l: Limits, h: History, op: Op)
    requires !Disabled(l) && Consistent(l, h) && NoDuplicates(h.store.order)
    requires op.OpPut? ==> op.key in h.store.entries || op.key !in h.store.order
    ensures NoDuplicates(After(l, h, op).store.order)
  {
    hide NoDuplicates, Ascending, BornWithSlot, WellFormed;
    if op.OpPut? && op.key !in h.store.entries {
      if |h.store.entries| >= l.maxSize {
        EvictCounts(l, h);
        AppendDistinct(h.store.order, EvictionCost(h.store), op.key);
      } else {
        AppendDistinct(h.store.order, 0, op.key);
        assert h.store.order[0..] == h.store.order;
      }
    }
  }

  lemma {:induction false} QueueHasNoDuplicates(l: Limits, ops: seq<Op>)
    requires !Disabled(l) && NoStaleReinsertion(l, ops)
    ensures NoDuplicates(Run(l, ops).store.order)
  {
    if ops != [] {
      var n := |ops| - 1;
      assert forall m :: 0 <= m < n ==> ops[..n][m] == ops[m] && ops[..n][..m] == ops[..m];
      QueueHasNoDuplicates(l, ops[..n]);
      RunConsistent(l, ops[..n]);
      var h := Run(l, ops[..n]);
      assert ops[n].OpPut? ==> ops[n].key in h.store.entries || ops[n].key !in h.store.order;
      StepKeepsDistinct(l, h, ops[n]);
    }
  }

  /** Eviction is first-in first-out in every run that never stores a key again
      while an old slot of it is still queued. */
  lemma EvictionIsFifo(l: Limits, ops: seq<Op>)
    requires !Disabled(l) && NoStaleReinsertion(l, ops) && |Run(l, ops).store.entries| > 0
    ensures var h := Run(l, ops);
            && FirstLive(h.store) < |h.store.order|
            && Victim(h.store) in h.store.entries
            && (forall k <- h.store.entries :: k in h.born)
            && OldestInserted(h, Victim(h.store))
  {
    QueueHasNoDuplicates(l, ops);
    VictimIsOldestIff(l, ops);
    var st := Run(l, ops).store;
    var v := Victim(st);
    forall k, i, j | k in st.entries && k != v && CurrentSlot(st.order, k, i) && CurrentSlot(st.order, v, j)
      ensures j < i
    {
      assert j == FirstLive(st);
      assert i != j;
    }
  }

  /** Store a key that is already expired and look it up, n times over. */
  function Churn(key: Key, e: Entry, n: nat): seq<Op> {
    if n == 0 then [] else Churn(key, e, n - 1) + [OpPut(key, e), OpGet(key, e.expiresAt + 1)]
  }

  lemma RunTwo(l: Limits, ops: seq<Op>, a: Op, b: Op)
    ensures Run(l, ops + [a, b]) == After(l, After(l, Run(l, ops), a), b)
  {
    assert (ops + [a, b])[..|ops| + 1] == ops + [a];
    assert (ops + [a])[..|ops|] == ops;
  }

  lemma ChurnTurn(l: Limits, ops: seq<Op>, key: Key, e: Entry)
    requires !Disabled(l) && Run(l, ops).store.entries == map[]
    ensures Run(l, ops + [OpPut(key, e), OpGet(key, e.expiresAt + 1)]).store
            == Store(map[], Run(l, ops).store.order + [key])
  {
    RunTwo(l, ops, OpPut(key, e), OpGet(key, e.expiresAt + 1));
    hide Run;
    var h := Run(l, ops);
    var h1 := AfterPut(l, h, key, e);
    assert h1.store == Store(map[][key := e], h.store.order + [key]);
    assert map[][key := e] - {key} == map[];
  }

  /** The size bound does not bound the queue: with at most one entry live at any
      time it can be made as long as one likes. */
  lemma {:induction false} QueueIsUnbounded(l: Limits, key: Key, e: Entry, n: nat)
    requires !Disabled(l)
    ensures Run(l, Churn(key, e, n)).store.entries == map[]
    ensures |Run(l, Churn(key, e, n)).store.order| == n
  {
    if n > 0 {
      QueueIsUnbounded(l, key, e, n - 1);
      ChurnTurn(l, Churn(key, e, n - 1), key, e);
    }
  }

  lemma {:induction false} DisabledStaysEmpty(l: Limits, ops: seq<Op>)
    requires Disabled(l)
    ensures Run(l, ops).store == EMPTY_STORE
  {
    if ops != [] {
      DisabledStaysEmpty(l, ops[..|ops| - 1]);
    }
  }

  ghost predicate CanQueue(l: Limits, n: nat) {
    exists ops :: |Run(l, ops).store.order| == n
  }

  /** The queue can reach every length if and only if caching is on. */
  lemma QueueIsUnboundedIff(l: Limits, key: Key, e: Entry)
    ensures (forall n: nat :: CanQueue(l, n)) <==> !Disabled(l)
  {
    if Disabled(l) {
      forall ops ensures |Run(l, ops).store.order| != 1 {
        DisabledStaysEmpty(l, ops);
      }
      assert !CanQueue(l, 1);
    } else {
      forall n: nat ensures CanQueue(l, n) {
        QueueIsUnbounded(l, key, e, n);
      }
    }
  }

  /** "The oldest entry goes first" fails once a key is stored again while its old
      slot is queued: a expires, b is stored, a is stored again, and storing c
      evicts a although b is older. */
  lemma NotAlwaysFifo(claims: Claims) returns (l: Limits, ops: seq<Op>)
    ensures !Disabled(l)
    ensures var h := Run(l, ops);
            && FirstLive(h.store) < |h.store.order|
            && h.store.entries.Keys == {"a", "b"} && "a" in h.born && "b" in h.born
            && Victim(h.store) == "a" && h.born["b"] < h.born["a"]
  {
    l, ops := StoredAgain("a", "b", Entry(claims, None, 10), Entry(claims, None, 100));
    hide Run;
  }

  lemma StoredAgain(a: Key, b: Key, short: Entry, long: Entry) returns (l: Limits, ops: seq<Op>)
    requires short.expiresAt == 10 && a != b
    ensures !Disabled(l)
    ensures var h := Run(l, ops);
            && h.store == Store(map[b := long, a := long], [a, b, a])
            && h.born == map[a := 2, b := 1]
  {
    l := Limits(SECOND, 2);
    ops := [OpPut(a, short), OpGet(a, 11), OpPut(b, long), OpPut(a, long)];
    var _, h2 := ExpiringA(l, a, short);
    var h3 := History(Store(map[b := long], [a, b]), [0, 1], map[a := 0, b := 1], 2, 1, 0, 0);
    SecondStored(l, a, b, long, h2, h3);
    ThirdStored(l, a, b, long, h3);
    hide After;
    RunFour(l, OpPut(a, short), OpGet(a, 11), OpPut(b, long), OpPut(a, long));
    hide *;
  }

  lemma SecondStored(l: Limits, a: Key, b: Key, long: Entry, h2: History, h3: History)
    requires !Disabled(l) && l.maxSize == 2 && a != b
    requires h2 == History(Store(map[], [a]), [0], map[a := 0], 1, 1, 0, 0)
    requires h3 == History(Store(map[b := long], [a, b]), [0, 1], map[a := 0, b := 1], 2, 1, 0, 0)
    ensures After(l, h2, OpPut(b, long)) == h3
  {
    PutAppends(l, h2, b, long);
    hide After, Disabled;
    assert [a] + [b] == [a, b] && [0] + [1] == [0, 1];
  }

  lemma ThirdStored(l: Limits, a: Key, b: Key, long: Entry, h3: History)
    requires !Disabled(l) && l.maxSize == 2 && a != b
    requires h3 == History(Store(map[b := long], [a, b]), [0, 1], map[a := 0, b := 1], 2, 1, 0, 0)
    ensures var h := After(l, h3, OpPut(a, long));
            h.store == Store(map[b := long, a := long], [a, b, a]) && h.born == map[a := 2, b := 1]
  {
    PutAppends(l, h3, a, long);
    hide After, Disabled;
    assert [a, b] + [a] == [a, b, a];
  }

  lemma PutAppends(l: Limits, h: History, key: Key, e: Entry)
    requires !Disabled(l) && key !in h.store.entries && |h.store.entries| < l.maxSize
    ensures After(l, h, OpPut(key, e)) == AfterAppend(h, key, e)
  {}

  lemma RunFour(l: Limits, a: Op, b: Op, c: Op, d: Op)
    ensures Run(l, [a, b, c, d]) == After(l, After(l, After(l, After(l, START, a), b), c), d)
  {
    assert Run(l, []) == START;
    hide After;
    RunTwo(l, [], a, b);
    RunTwo(l, [a, b], c, d);
    hide Run;
    assert [] + [a, b] == [a, b];
    assert [a, b] + [c, d] == [a, b, c, d];
  }

  lemma ExpiringA(l: Limits, a: Key, short: Entry) returns (h1: History, h2: History)
    requires short.expiresAt == 10 && !Disabled(l)
    ensures h1 == After(l, START, OpPut(a, short))
    ensures h2 == After(l, h1, OpGet(a, 11)) == History(Store(map[], [a]), [0], map[a := 0], 1, 1, 0, 0)
  {
    h1 := AfterAppend(START, a, short);
    h2 := h1.(store := Store(map[], [a]), expiries := 1);
    assert h1.store.entries - {a} == map[];
  }
}
