/** The introspection cache of server/cache.go without its singleflight:
    a bounded map with a lazily cleaned FIFO list of keys. */
module IntrospectionCache {
  import opened Wrappers
  import opened AuthTypes

  type Token = string
  type Key = string

  datatype Entry = Entry(claims: Claims, err: Option<Error>, expiresAt: Instant)

  /** The two fields that change: the entries and the eviction order. */
  datatype Store = Store(entries: map<Key, Entry>, order: seq<Key>)

  datatype Limits = Limits(ttl: Duration, maxSize: int)

  const EMPTY_STORE := Store(map[], [])

  predicate Disabled(l: Limits) {
    l.ttl <= 0 || l.maxSize <= 0
  }

  // ---- what each operation does to the store ----

  datatype GetResult = GetResult(hit: Option<Entry>, store: Store)

  function Get(l: Limits, st: Store, key: Key, now: Instant): GetResult {
    if Disabled(l) || key !in st.entries then GetResult(None, st)
    else if now > st.entries[key].expiresAt then GetResult(None, st.(entries := st.entries - {key}))
    else GetResult(Some(st.entries[key]), st)
  }

  /** Pops keys off the front of the order until one of them was live. */
  function Evict(st: Store): Store
    decreases |st.order|
  {
    if st.order == [] then st
    else if st.order[0] in st.entries then Store(st.entries - {st.order[0]}, st.order[1..])
    else Evict(st.(order := st.order[1..]))
  }

  function Put(l: Limits, st: Store, key: Key, e: Entry): Store {
    if Disabled(l) then st
    else if key in st.entries then st.(entries := st.entries[key := e])
    else
      var room := if |st.entries| >= l.maxSize then Evict(st) else st;
      Store(room.entries[key := e], room.order + [key])
  }

  function BoundTTL(ttl: Duration, now: Instant, exp: Option<Instant>): Duration {
    if exp.None? then ttl
    else
      var remaining := Sub(exp.value, now);
      if remaining <= 0 then 0 else if remaining < ttl then remaining else ttl
  }

  const TRANSPORT_ERROR_TTL: Duration := SECOND

  function ErrorTTL(ttl: Duration, err: Error): Duration {
    if err.unauthenticated then ttl
    else if ttl > 0 && ttl < TRANSPORT_ERROR_TTL then ttl
    else TRANSPORT_ERROR_TTL
  }

  /** How long the result of an introspection that started at `start` is kept;
      zero means it is not stored at all. */
  function Lifetime(l: Limits, start: Instant, a: Answer): Duration {
    if Disabled(l) then 0
    else if a.err.Some? then ErrorTTL(l.ttl, a.err.value)
    else BoundTTL(l.ttl, start, a.expiresAt)
  }

  function EntryFor(l: Limits, start: Instant, a: Answer): Entry {
    Entry(a.claims, a.err, start + Lifetime(l, start, a))
  }

  function Remember(l: Limits, st: Store, key: Key, start: Instant, a: Answer): Store {
    if Lifetime(l, start, a) > 0 then Put(l, st, key, EntryFor(l, start, a)) else st
  }

  // ---- the class ----

  class Cache {
    const limits: Limits
    var entries: map<Key, Entry>
    var order: seq<Key>

    constructor (ttl: Duration, maxSize: int)
      ensures limits == Limits(ttl, maxSize) && State() == EMPTY_STORE
    {
      limits := Limits(ttl, maxSize);
      entries := map[];
      order := [];
    }

    function State(): Store
      reads this
    {
      Store(entries, order)
    }

    method Lookup(key: Key, now: Instant) returns (hit: Option<Entry>)
      modifies this
      ensures GetResult(hit, State()) == Get(limits, old(State()), key, now)
    {
      if Disabled(limits) {
        return None;
      }
      if key !in entries {
        return None;
      }
      var e := entries[key];
      if now > e.expiresAt {
        entries := entries - {key};
        return None;
      }
      return Some(e);
    }

    method Insert(key: Key, e: Entry)
      modifies this
      ensures State() == Put(limits, old(State()), key, e)
    {
      if Disabled(limits) {
        return;
      }
      if key !in entries {
        if |entries| >= limits.maxSize {
          var _ := EvictOldestLocked();
        }
        order := order + [key];
      }
      entries := entries[key := e];
    }

    /** Returns how many slots it popped. */
    method EvictOldestLocked() returns (popped: nat)
      modifies this
      ensures State() == Evict(old(State()))
      ensures popped == |old(order)| - |order| == EvictionCost(old(State()))
    {
      popped := 0;
      while |order| > 0
        invariant Evict(State()) == Evict(old(State()))
        invariant popped + |order| == |old(order)|
        invariant popped + EvictionCost(State()) == EvictionCost(old(State()))
        decreases |order|
      {
        var k := order[0];
        order := order[1..];
        popped := popped + 1;
        if k in entries {
          entries := entries - {k};
          return;
        }
      }
    }

    /** One uncontended call of `resolve`: `first` and `second` are its two clock
        readings and `answer` is what the introspector returns if it is asked. */
    method Resolve(key: Key, first: Instant, second: Instant, answer: Answer)
      returns (claims: Claims, err: Option<Error>, asked: bool)
      modifies this
      ensures Resolution(claims, err, asked, State()) == ResolveAlone(limits, old(State()), key, first, second, answer)
    {
      var fast := Lookup(key, first);
      if fast.Some? {
        return fast.value.claims, fast.value.err, false;
      }
      var again := Lookup(key, second);
      if again.Some? {
        return again.value.claims, again.value.err, false;
      }
      if answer.err.Some? {
        if Disabled(limits) {
          return answer.claims, answer.err, true;
        }
        var ttl: Duration := limits.ttl;
        if !answer.err.value.unauthenticated {
          ttl := TRANSPORT_ERROR_TTL;
          if limits.ttl > 0 && limits.ttl < ttl {
            ttl := limits.ttl;
          }
        }
        Insert(key, Entry(answer.claims, answer.err, second + ttl));
        return answer.claims, answer.err, true;
      }
      var ttl := BoundTTL(limits.ttl, second, answer.expiresAt);
      if ttl > 0 {
        Insert(key, Entry(answer.claims, None, second + ttl));
      }
      return answer.claims, None, true;
    }
  }

  datatype Resolution = Resolution(claims: Claims, err: Option<Error>, asked: bool, store: Store)

  function ResolveAlone(l: Limits, st: Store, key: Key, first: Instant, second: Instant, answer: Answer): Resolution {
    var fast := Get(l, st, key, first);
    if fast.hit.Some? then Resolution(fast.hit.value.claims, fast.hit.value.err, false, fast.store)
    else
      var again := Get(l, fast.store, key, second);
      if again.hit.Some? then Resolution(again.hit.value.claims, again.hit.value.err, false, again.store)
      else Resolution(answer.claims, answer.err, true, Remember(l, again.store, key, second, answer))
  }

  // ---- properties of a single operation ----

  /** What every operation keeps while the cache is enabled. */
  predicate WellFormed(l: Limits, st: Store) {
    && (forall k <- st.entries :: k in st.order)
    && |st.entries| <= l.maxSize
  }

  /** The position of the first slot whose key is live; the length if there is none. */
  function FirstLive(st: Store): (i: nat)
    ensures i <= |st.order|
    ensures forall j :: 0 <= j < i ==> st.order[j] !in st.entries
    ensures i < |st.order| ==> st.order[i] in st.entries
    decreases |st.order|
  {
    if st.order == [] || st.order[0] in st.entries then 0
    else
      var rest := st.(order := st.order[1..]);
      assert forall j :: 0 < j < |st.order| ==> st.order[j] == rest.order[j - 1];
      1 + FirstLive(rest)
  }

  /** How many times the eviction loop turns. */
  function EvictionCost(st: Store): nat {
    if FirstLive(st) < |st.order| then FirstLive(st) + 1 else |st.order|
  }

  /** Eviction drops every slot up to the first live one, and that one's entry. */
  lemma {:induction false} EvictDropsFirstLive(st: Store)
    ensures FirstLive(st) < |st.order| ==>
              Evict(st) == Store(st.entries - {st.order[FirstLive(st)]}, st.order[FirstLive(st) + 1..])
    ensures FirstLive(st) == |st.order| ==> Evict(st) == Store(st.entries, [])
    decreases |st.order|
  {
    if st.order != [] && st.order[0] !in st.entries {
      var rest := st.(order := st.order[1..]);
      EvictDropsFirstLive(rest);
      assert forall j :: 0 < j < |st.order| ==> st.order[j] == rest.order[j - 1];
      var i := FirstLive(rest);
      assert i < |rest.order| ==> rest.order[i + 1..] == st.order[i + 2..];
    }
  }

  lemma RemovalSize<K, V>(m: map<K, V>, k: K)
    requires k in m
    ensures (m - {k}).Keys == m.Keys - {k} && |m - {k}| == |m| - 1
  {}

  lemma AdditionSize<K, V>(m: map<K, V>, k: K, v: V)
    ensures m[k := v].Keys == m.Keys + {k}
    ensures |m[k := v]| == if k in m then |m| else |m| + 1
  {}

  lemma LiveKeyHasSlot(st: Store, k: Key)
    requires k in st.entries && k in st.order
    ensures FirstLive(st) < |st.order| && st.order[FirstLive(st)] in st.entries
    ensures k != st.order[FirstLive(st)] ==> k in st.order[FirstLive(st) + 1..]
  {
    var i := FirstLive(st);
    var j :| 0 <= j < |st.order| && st.order[j] == k;
    assert i <= j;
    if j != i {
      assert st.order[i + 1..][j - i - 1] == k;
    }
  }

  /** The key an eviction removes. */
  function Victim(st: Store): Key
    requires FirstLive(st) < |st.order|
  {
    st.order[FirstLive(st)]
  }

  /** In a well-formed cache that holds something, eviction removes exactly one
      entry: the live key with the earliest slot. */
  lemma EvictRemovesOne(l: Limits, st: Store)
    requires WellFormed(l, st) && |st.entries| > 0
    ensures FirstLive(st) < |st.order| && Victim(st) in st.entries
    ensures Evict(st) == Store(st.entries - {Victim(st)}, st.order[FirstLive(st) + 1..])
    ensures |Evict(st).entries| == |st.entries| - 1
    ensures WellFormed(l, Evict(st))
  {
    EvictDropsFirstLive(st);
    var k :| k in st.entries.Keys;
    LiveKeyHasSlot(st, k);
    RemovalSize(st.entries, Victim(st));
    forall k | k in Evict(st).entries ensures k in Evict(st).order {
      LiveKeyHasSlot(st, k);
    }
  }

  lemma GetKeeps(l: Limits, st: Store, key: Key, now: Instant)
    requires WellFormed(l, st)
    ensures WellFormed(l, Get(l, st, key, now).store)
  {}

  /** Whether storing `key` forces an eviction. */
  predicate Full(l: Limits, st: Store, key: Key) {
    key !in st.entries && |st.entries| >= l.maxSize
  }

  lemma AppendKeeps(l: Limits, st: Store, key: Key, e: Entry)
    requires WellFormed(l, st) && |st.entries| < l.maxSize
    ensures WellFormed(l, Store(st.entries[key := e], st.order + [key]))
  {}

  /** A store always makes its key live, never exceeds the size bound and touches
      no other entry except the one eviction victim. */
  lemma PutKeeps(l: Limits, st: Store, key: Key, e: Entry)
    requires WellFormed(l, st) && !Disabled(l)
    ensures WellFormed(l, Put(l, st, key, e))
    ensures Full(l, st, key) ==>
              FirstLive(st) < |st.order| && Victim(st) in st.entries
              && Put(l, st, key, e).entries == (st.entries - {Victim(st)})[key := e]
    ensures !Full(l, st, key) ==> Put(l, st, key, e).entries == st.entries[key := e]
  {
    if key in st.entries {
      AdditionSize(st.entries, key, e);
    } else if |st.entries| >= l.maxSize {
      EvictRemovesOne(l, st);
      AppendKeeps(l, Evict(st), key, e);
    } else {
      AppendKeeps(l, st, key, e);
    }
  }

  /** Whenever a positive result is kept at all, it is kept until the earlier of
      the configured limit and the token's own expiry, saturation included. */
  lemma BoundTTLIsMinimum(ttl: Duration, now: Instant, exp: Option<Instant>)
    requires ttl > 0
    ensures 0 <= BoundTTL(ttl, now, exp) <= ttl
    ensures exp.Some? && BoundTTL(ttl, now, exp) > 0 ==>
              now + BoundTTL(ttl, now, exp) == if now + ttl <= exp.value then now + ttl else exp.value
    ensures BoundTTL(ttl, now, exp) > 0 <==> exp.None? || exp.value > now
    ensures exp.None? ==> BoundTTL(ttl, now, exp) == ttl
  {}

  /** Lifetimes never exceed the configured limit. Errors are kept if and only if the
      cache is enabled, authentication failures for all of the limit and other failures
      for at most a second of it; a positive result is kept if and only if in addition
      its token has not expired when the introspection starts. */
  lemma LifetimeBounds(l: Limits, start: Instant, a: Answer)
    ensures 0 <= Lifetime(l, start, a)
    ensures !Disabled(l) ==> Lifetime(l, start, a) <= l.ttl
    ensures !Disabled(l) && a.err.Some? && a.err.value.unauthenticated ==> Lifetime(l, start, a) == l.ttl
    ensures !Disabled(l) && a.err.Some? && !a.err.value.unauthenticated ==>
              Lifetime(l, start, a) == if l.ttl <= 1_000_000_000 then l.ttl else 1_000_000_000
    ensures a.err.Some? ==> (Lifetime(l, start, a) > 0 <==> !Disabled(l))
    ensures a.err.None? ==>
              (Lifetime(l, start, a) > 0 <==> !Disabled(l) && (a.expiresAt.None? || a.expiresAt.value > start))
    ensures !Disabled(l) && a.err.None? && a.expiresAt.None? ==> Lifetime(l, start, a) == l.ttl
    ensures a.err.None? && a.expiresAt.Some? && Lifetime(l, start, a) > 0 ==>
              start + Lifetime(l, start, a)
              == if start + l.ttl <= a.expiresAt.value then start + l.ttl else a.expiresAt.value
  {}

  // ---- what the operations are to each other ----

  /** A lookup in full: what it finds, and what it may delete. */
  lemma LookupSays(l: Limits, st: Store, key: Key, now: Instant)
    ensures var got := Get(l, st, key, now);
            && got.store.order == st.order
            && (got.hit.Some? <==>
                 l.ttl > 0 && l.maxSize > 0 && key in st.entries && now <= st.entries[key].expiresAt)
            && (got.hit.Some? ==> got.hit.value == st.entries[key])
            && (forall k :: k in got.store.entries <==>
                  k in st.entries
                  && !(k == key && l.ttl > 0 && l.maxSize > 0 && now > st.entries[key].expiresAt))
            && (forall k <- got.store.entries :: got.store.entries[k] == st.entries[k])
  {}

  /** What is stored is found again, until it expires, if and only if caching is on; and
      then its slot is the last, unless the key was there already. */
  lemma StoredIsFound(l: Limits, st: Store, key: Key, e: Entry, now: Instant)
    ensures var st' := Put(l, st, key, e);
            && Get(l, st', key, now).hit
               == (if l.ttl > 0 && l.maxSize > 0 && now <= e.expiresAt then Some(e) else None)
            && (l.ttl > 0 && l.maxSize > 0 && key !in st.entries ==>
                 st'.order == st.order[if |st.entries| >= l.maxSize then EvictionCost(st) else 0..] + [key])
            && (l.ttl <= 0 || l.maxSize <= 0 || key in st.entries ==> st'.order == st.order)
  {
    EvictDropsFirstLive(st);
  }

  /** Two calls of `resolve` in a row, the second at time n: it is answered from the cache,
      as the first was by the provider, if and only if caching is on and n is within the
      time the answer is to be kept. */
  lemma SecondCallIsCachedIff(l: Limits, st: Store, key: Key, first: Instant, second: Instant, answer: Answer,
                              n: Instant, other: Answer)
    requires ResolveAlone(l, st, key, first, second, answer).asked
    ensures var r := ResolveAlone(l, st, key, first, second, answer);
            var again := ResolveAlone(l, r.store, key, n, n, other);
            var on := l.ttl > 0 && l.maxSize > 0;
            && r.claims == answer.claims && r.err == answer.err
            && (!again.asked ==> again.claims == answer.claims && again.err == answer.err)
            && (answer.err.None? && answer.expiresAt.None? ==> (!again.asked <==> on && n <= second + l.ttl))
            && (answer.err.None? && answer.expiresAt.Some? ==>
                 (!again.asked <==>
                   on && second < answer.expiresAt.value && n <= second + l.ttl && n <= answer.expiresAt.value))
            && (answer.err.Some? && answer.err.value.unauthenticated ==> (!again.asked <==> on && n <= second + l.ttl))
            && (answer.err.Some? && !answer.err.value.unauthenticated ==>
                 (!again.asked <==> on && n <= second + l.ttl && n <= second + 1_000_000_000))
  {
    var before := Get(l, Get(l, st, key, first).store, key, second).store;
    LookupSays(l, st, key, first);
    LookupSays(l, Get(l, st, key, first).store, key, second);
    LifetimeBounds(l, second, answer);
    StoredIsFound(l, before, key, EntryFor(l, second, answer), n);
    hide Put, Evict;
    var r := ResolveAlone(l, st, key, first, second, answer);
    assert r.store == Remember(l, before, key, second, answer);
    assert !Disabled(l) ==> key !in before.entries;
    hide Lifetime;
  }
}
